/** The delivery guarantees of the subscriber, over every run from its declaration. */
module SubscriberRuns {
  import opened Delivery
  import opened DeliveryLog
  import opened StampedDelivery
  import opened SourceSteps
  import opened ClockSteps
  import opened SubscriberModel
  import opened SubscriberSafety

  // ----- Accounting, in every mode and whatever launches fail -----

  /** One callback, and only one, accounts for sequence number `n`. */
  ghost predicate AccountedOnce(log: seq<Event>, n: nat) {
    && (exists i: nat :: Accounts(log, i, n))
    && (forall i: nat, j: nat :: Accounts(log, i, n) && Accounts(log, j, n) ==> i == j)
  }

  ghost predicate Increasing(log: seq<Event>) {
    forall i, j :: 0 <= i < j < |log| && log[i].Delivered? && log[j].Delivered? ==> log[i].sn < log[j].sn
  }

  /** The log begins and ends with a delivery, and the numbers from the first to the last are as
    * many as the deliveries and the reported misses together. */
  ghost predicate Conserved(log: seq<Event>) {
    && log != [] && log[0].Delivered? && log[|log| - 1].Delivered?
    && log[|log| - 1].sn - log[0].sn + 1 == DeliveredCount(log) + MissedTotal(log)
  }

  /** Deliveries are strictly increasing, and each number in their range was delivered once or
    * reported missed once. */
  ghost predicate Partitioned(log: seq<Event>) {
    && log != [] && log[0].Delivered? && log[|log| - 1].Delivered?
    && Increasing(log)
    && forall n: nat {:trigger AccountedOnce(log, n)} ::
         log[0].sn <= n <= log[|log| - 1].sn ==> AccountedOnce(log, n)
  }

  lemma PartitionedLog(log: seq<Event>)
    requires Unbroken(log)
    ensures Conserved(log) && Partitioned(log)
  {
    Conservation(log);
    forall i, j | 0 <= i < j < |log| && log[i].Delivered? && log[j].Delivered?
      ensures log[i].sn < log[j].sn
    {
      StrictlyIncreasing(log, i, j);
    }
    forall n: nat {:trigger AccountedOnce(log, n)} | log[0].sn <= n <= EndOf(log).sn
      ensures AccountedOnce(log, n)
    {
      ExactlyOnce(log, n);
    }
  }

  /** On every run from the declaration, in every mode, whatever launches fail. */
  lemma Accounting(cfg: Config, inputs: seq<Input>, id: nat)
    ensures var log := LogOf(Run(InitialState(cfg), inputs), id);
            log == [] || (Conserved(log) && Partitioned(log))
  {
    RunSound(cfg, inputs);
    var log := LogOf(Run(InitialState(cfg), inputs), id);
    if log != [] {
      PartitionedLog(log);
    }
  }

  lemma RunAppend(st: State, inputs: seq<Input>, input: Input)
    ensures Run(st, inputs + [input]) == Step(Run(st, inputs), input)
  {
    assert (inputs + [input])[..|inputs|] == inputs;
  }

  lemma PossibleAppend(st: State, inputs: seq<Input>, input: Input)
    requires Possible(st, inputs) && Enabled(Run(st, inputs), input)
    ensures Possible(st, inputs + [input])
  {
    assert (inputs + [input])[..|inputs|] == inputs;
  }

  lemma {:induction false} RunSplit(st: State, first: seq<Input>, second: seq<Input>)
    ensures Run(st, first + second) == Run(Run(st, first), second)
  {
    if second == [] {
      assert first + second == first;
    } else {
      var init := second[..|second| - 1];
      var last := second[|second| - 1];
      assert first + second == (first + init) + [last];
      RunAppend(st, first + init, last);
      RunSplit(st, first, init);
    }
  }

  /** Once the subscriber is undeclaring, no input makes it call the user again. */
  lemma {:induction false} SilentAfterUndeclare(cfg: Config, before: seq<Input>, after: seq<Input>)
    requires Run(InitialState(cfg), before).undeclaring
    ensures var st := Run(InitialState(cfg), before);
            var st' := Run(InitialState(cfg), before + after);
            && st'.undeclaring && st'.plain == st.plain
            && forall id: nat :: LogOf(st', id) == LogOf(st, id) && StampsOf(st', id) == StampsOf(st, id)
  {
    RunSplit(InitialState(cfg), before, after);
    RunSound(cfg, before);
    if after != [] {
      var init := after[..|after| - 1];
      SilentAfterUndeclare(cfg, before, init);
      RunSplit(InitialState(cfg), before, init);
      RunSound(cfg, before + init);
      UndeclaredStaysEmpty(Run(Run(InitialState(cfg), before), init), after[|after| - 1]);
    }
  }
}

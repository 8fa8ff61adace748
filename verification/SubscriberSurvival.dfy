/** Exactly which samples of a source survive, and what becomes of every sample that arrives. */
module SubscriberSurvival {
  import opened Delivery
  import opened DeliveryLog
  import opened StampedDelivery
  import opened SourceSteps
  import opened SubscriberModel
  import opened SubscriberSafety
  import opened SubscriberRuns
  import opened SubscriberQueries

  ghost predicate NeverUndeclares(inputs: seq<Input>) {
    forall i :: 0 <= i < |inputs| ==> !inputs[i].Undeclare?
  }

  lemma {:induction false} RunKeepsSource(st: State, inputs: seq<Input>, id: nat)
    requires NeverUndeclares(inputs)
    ensures var st' := Run(st, inputs);
            && st'.cfg == st.cfg && st'.undeclaring == st.undeclaring
            && Evolves(st.cfg, SourceOf(st, id), SourceOf(st', id))
  {
    if inputs == [] {
      SameDeliveryEvolves(st.cfg, SourceOf(st, id), SourceOf(st, id));
    } else {
      var init := inputs[..|inputs| - 1];
      RunKeepsSource(st, init, id);
      var mid := Run(st, init);
      StepKeepsSource(mid, inputs[|inputs| - 1], id);
      EvolvesTrans(st.cfg, SourceOf(st, id), SourceOf(mid, id), SourceOf(Run(st, inputs), id));
    }
  }

  /** With retransmission, a sample that is delivered or buffered ahead is never lost again,
    * whatever arrives, is dropped or is refused later. */
  lemma NeverLost(st: State, inputs: seq<Input>, id: nat, sn: nat)
    requires st.cfg.retransmission && NeverUndeclares(inputs) && Covered(SourceOf(st, id), sn)
    ensures Covered(SourceOf(Run(st, inputs), id), sn)
  {
    RunKeepsSource(st, inputs, id);
  }

  // ----- Which samples survive, step by step -----

  predicate Arrival(input: Input, id: nat, sn: nat) {
    match input
    case Live(sample, _) => sample.Sequenced? && sample.source == id && sample.sn == sn
    case Reply(_, sample) => sample.Sequenced? && sample.source == id && sample.sn == sn
    case _ => false
  }

  ghost predicate Arrives(inputs: seq<Input>, id: nat, sn: nat) {
    exists i :: 0 <= i < |inputs| && Arrival(inputs[i], id, sn)
  }

  predicate NewerThanLast(s: Source, sn: nat) {
    s.hasLast ==> sn > s.last
  }

  /** The input is the arrival of a newer sample that overtakes buffered sample `k`. */
  ghost predicate OvertakenBy(st: State, input: Input, id: nat, k: nat) {
    !st.undeclaring &&
    match input
    case Live(sample, _) =>
      sample.Sequenced? && sample.source == id && Overtakes(st.cfg, st.global, SourceOf(st, id), sample.sn, k)
    case Reply(_, sample) =>
      sample.Sequenced? && sample.source == id && Overtakes(st.cfg, st.global, SourceOf(st, id), sample.sn, k)
    case _ => false
  }

  lemma SameDeliveryKept(s: Source, r: Source, k: nat)
    requires SameDelivery(s, r)
    ensures Kept(r, k) <==> Kept(s, k)
  {
  }

  lemma DroppedSourceKept(cfg: Config, global: nat, s: Source, k: nat)
    ensures Kept(DroppedSource(global, s), k) <==> Kept(s, k)
  {
    hide Kept, Flush;
    var s' := s.(queries := SaturatingDecrement(s.queries));
    SameDeliveryKept(s, s', k);
    FlushKeeps(cfg, s');
  }

  lemma LaunchKept(cfg: Config, global: nat, s: Source, launch: Launch, k: nat)
    ensures Kept(LaunchedSource(global, s, launch), k) <==> Kept(s, k)
  {
    hide Kept, DroppedSource;
    var s' := s.(queries := Increment(s.queries));
    SameDeliveryKept(s, s', k);
    DroppedSourceKept(cfg, global, s', k);
    SameDeliveryKept(s', s'.(queries := Decrement(s'.queries)), k);
    var s'' := DroppedSource(global, s');
    SameDeliveryKept(s'', s''.(queries := Decrement(s''.queries)), k);
  }

  lemma DropHandlerKept(st: State, q: Query, id: nat, k: nat)
    ensures Kept(SourceOf(DropHandler(st, q), id), k) <==> Kept(SourceOf(st, id), k)
  {
    hide Kept, Flush, FlushStamped, DroppedSource, DroppedClock;
    var s := SourceOf(st, id);
    FlushKeeps(st.cfg, s);
    SameDeliveryKept(Flush(s), Spawn(st.cfg, 0, Flush(s)), k);
    DroppedSourceKept(st.cfg, st.global, s, k);
  }

  lemma ArrivalKept(st: State, input: Input, id: nat, sn: nat, k: nat)
    requires SourceSound(st.cfg, SourceOf(st, id)) && !st.undeclaring && Arrival(input, id, sn)
    ensures Kept(SourceOf(Step(st, input), id), k) <==>
            || (Kept(SourceOf(st, id), k) && !OvertakenBy(st, input, id, k))
            || (k == sn && NewerThanLast(SourceOf(st, id), sn))
  {
    hide Kept, Receive, LaunchedSource, Overtakes;
    var s := SourceOf(st, id);
    ReceiveKeepsExactly(st.cfg, st.global, s, sn, input.sample.payload);
    if input.Live? {
      var r := AfterLive(st.cfg, st.global, id in st.sources, s, sn, input.sample.payload);
      SameDeliveryKept(Receive(st.cfg, st.global, s, sn, input.sample.payload), r, k);
      LaunchKept(st.cfg, st.global, r, input.launch, k);
    }
  }

  lemma OtherStepKept(st: State, input: Input, id: nat, k: nat)
    requires !input.Undeclare? && (st.undeclaring || forall sn: nat :: !Arrival(input, id, sn))
    ensures Kept(SourceOf(Step(st, input), id), k) <==> Kept(SourceOf(st, id), k)
  {
    hide Kept, LaunchedSource, AtLaunch, DropHandler, Receive;
    assert Targets(input, id) && (input.Live? || input.Reply?) ==> Arrival(input, id, input.sample.sn);
    if input.Drop? {
      DropHandlerKept(st.(live := st.live - multiset{input.query}), input.query, id, k);
    } else if !Targets(input, id) {
      OthersUntouched(st, input, id);
    } else if !st.undeclaring {
      if Launches(st, input, id) {
        var s := AtLaunch(st, input, id);
        LaunchStep(st, input, id);
        SameDeliveryKept(SourceOf(st, id), s, k);
        LaunchKept(st.cfg, st.global, s, LaunchOf(input), k);
      }
    }
  }

  /** Exactly which samples of a source one handler keeps, delivered or buffered ahead: those that were,
    * unless the arrival of a newer one overtakes them, and an arriving one that is not too old. */
  lemma StepKeepsExactly(st: State, input: Input, id: nat, k: nat)
    requires SourceSound(st.cfg, SourceOf(st, id)) && !input.Undeclare?
    ensures Kept(SourceOf(Step(st, input), id), k) <==>
            || (Kept(SourceOf(st, id), k) && !OvertakenBy(st, input, id, k))
            || (!st.undeclaring && Arrival(input, id, k) && NewerThanLast(SourceOf(st, id), k))
  {
    hide Kept, Step, Overtakes;
    if !st.undeclaring && (input.Live? || input.Reply?) && input.sample.Sequenced? && input.sample.source == id {
      ArrivalKept(st, input, id, input.sample.sn, k);
    } else {
      OtherStepKept(st, input, id, k);
    }
  }

  // ----- Which samples survive a run -----

  ghost predicate Overtaken(st: State, inputs: seq<Input>, id: nat, k: nat) {
    exists n :: 0 <= n < |inputs| && OvertakenBy(Run(st, inputs[..n]), inputs[n], id, k)
  }

  /** The source has passed the sample without delivering it. */
  ghost predicate Passed(s: Source, k: nat) {
    s.hasLast && k <= s.last && !Has(s.log, k)
  }

  lemma OvertakenIsPassed(st: State, input: Input, id: nat, k: nat)
    requires SourceSound(st.cfg, SourceOf(st, id)) && OvertakenBy(st, input, id, k)
    ensures Passed(SourceOf(Step(st, input), id), k)
  {
    var s := SourceOf(st, id);
    var r := Receive(st.cfg, st.global, s, input.sample.sn, input.sample.payload);
    assert r.hasLast && k < r.last by {
      if !s.hasLast {
        DeliverAndFlushKeeps(s, input.sample.sn, input.sample.payload);
      }
    }
    StepKeepsExactly(st, input, id, k);
    if input.Live? {
      var known := id in st.sources;
      var t := AfterLive(st.cfg, st.global, known, s, input.sample.sn, input.sample.payload);
      LaunchKeeps(st.cfg, st.global, t, input.launch);
    }
  }

  lemma PassedStays(st: State, input: Input, id: nat, k: nat)
    requires SourceSound(st.cfg, SourceOf(st, id)) && Passed(SourceOf(st, id), k) && !input.Undeclare?
    ensures Passed(SourceOf(Step(st, input), id), k)
  {
    hide Step, GapFree;
    StepKeepsSource(st, input, id);
    LostStaysLost(SourceOf(st, id), SourceOf(Step(st, input), id), k);
  }

  lemma OvertakenPrefix(st: State, inputs: seq<Input>, id: nat, k: nat)
    requires inputs != []
    ensures var init := inputs[..|inputs| - 1];
            Overtaken(st, inputs, id, k) <==>
            Overtaken(st, init, id, k) || OvertakenBy(Run(st, init), inputs[|inputs| - 1], id, k)
  {
    hide OvertakenBy, Run;
    var init := inputs[..|inputs| - 1];
    assert forall n :: 0 <= n < |init| ==> init[..n] == inputs[..n] && init[n] == inputs[n];
    if Overtaken(st, init, id, k) {
      var n :| 0 <= n < |init| && OvertakenBy(Run(st, init[..n]), init[n], id, k);
      assert OvertakenBy(Run(st, inputs[..n]), inputs[n], id, k);
    }
    if OvertakenBy(Run(st, init), inputs[|inputs| - 1], id, k) {
      assert OvertakenBy(Run(st, inputs[..|init|]), inputs[|init|], id, k);
    }
  }

  /** A sample that is delivered or buffered ahead stays so over a run exactly when no arrival overtakes
    * it; once overtaken it is passed for good. */
  lemma {:induction false} RunKeepsExactly(st: State, inputs: seq<Input>, id: nat, k: nat)
    requires SourceSound(st.cfg, SourceOf(st, id)) && NeverUndeclares(inputs) && Kept(SourceOf(st, id), k)
    ensures if Overtaken(st, inputs, id, k) then Passed(SourceOf(Run(st, inputs), id), k)
            else Kept(SourceOf(Run(st, inputs), id), k)
  {
    hide Step, GapFree, Kept, Passed, OvertakenBy, Overtaken, Tight;
    if inputs == [] {
      NothingOvertaken(st, id, k);
    } else {
      var init := inputs[..|inputs| - 1];
      var input := inputs[|inputs| - 1];
      RunKeepsExactly(st, init, id, k);
      RunKeepsSource(st, init, id);
      OvertakenPrefix(st, inputs, id, k);
      if Overtaken(st, init, id, k) {
        PassedStays(Run(st, init), input, id, k);
      } else if OvertakenBy(Run(st, init), input, id, k) {
        OvertakenIsPassed(Run(st, init), input, id, k);
      } else {
        StepKeepsExactly(Run(st, init), input, id, k);
      }
    }
  }

  lemma NothingOvertaken(st: State, id: nat, k: nat)
    ensures !Overtaken(st, [], id, k)
  {
  }

  // ----- Exactly once -----

  /** Delivered by one callback, and spanned by no other and by no miss report. */
  ghost predicate DeliveredOnce(log: seq<Event>, sn: nat) {
    && Has(log, sn) && AccountedOnce(log, sn)
    && forall i: nat :: Accounts(log, i, sn) ==> log[i].Delivered?
  }

  lemma HasIsOnce(log: seq<Event>, sn: nat)
    requires EndOf(log).At? && Has(log, sn)
    ensures DeliveredOnce(log, sn)
  {
    var d :| 0 <= d < |log| && log[d].Delivered? && log[d].sn == sn;
    assert Accounts(log, d, sn);
    AccountsInside(log, d, sn);
    ExactlyOnce(log, sn);
  }

  /** Once no query is outstanding, a sample has been delivered, exactly once and by no miss report, if
    * and only if it is not among the lost ones. */
  lemma QuietMeansDelivered(st: State, id: nat, sn: nat)
    requires Sound(st) && Unstranded(st, id) && !st.undeclaring
    requires st.live[Initial] == 0 && st.live[ForSource(id)] == 0
    ensures DeliveredOnce(LogOf(st, id), sn) <==> Kept(SourceOf(st, id), sn)
  {
    assert SourceSound(st.cfg, SourceOf(st, id));
    if Kept(SourceOf(st, id), sn) {
      HasIsOnce(LogOf(st, id), sn);
    }
  }

  lemma QuietRunDelivered(cfg: Config, inputs: seq<Input>, id: nat, sn: nat)
    requires Possible(InitialState(cfg), inputs) && NeverStrands(InitialState(cfg), inputs, id)
    requires NeverUndeclares(inputs)
    requires var end := Run(InitialState(cfg), inputs); end.live[Initial] == 0 && end.live[ForSource(id)] == 0
    ensures var end := Run(InitialState(cfg), inputs);
            DeliveredOnce(LogOf(end, id), sn) <==> Kept(SourceOf(end, id), sn)
  {
    hide Kept, DeliveredOnce, Unstranded, Sound, Run, Possible, NeverStrands;
    RunSound(cfg, inputs);
    RunKeepsSource(InitialState(cfg), inputs, id);
    RunUnstranded(cfg, inputs, id);
    QuietMeansDelivered(Run(InitialState(cfg), inputs), id, sn);
  }

  lemma SourceStaysSound(cfg: Config, inputs: seq<Input>, id: nat)
    ensures SourceSound(cfg, SourceOf(Run(InitialState(cfg), inputs), id)) && Run(InitialState(cfg), inputs).cfg == cfg
  {
    RunSound(cfg, inputs);
  }

  lemma OwnArrival(st: State, input: Input, id: nat, sn: nat)
    requires Arrival(input, id, sn)
    ensures !OvertakenBy(st, input, id, sn)
    ensures Kept(SourceOf(st, id), sn) ==> Has(SourceOf(st, id).log, sn) || NewerThanLast(SourceOf(st, id), sn)
    ensures Has(SourceOf(st, id).log, sn) ==> Kept(SourceOf(st, id), sn)
  {
  }

  lemma TooOld(st: State, input: Input, id: nat, sn: nat)
    requires SourceSound(st.cfg, SourceOf(st, id)) && !st.undeclaring && Arrival(input, id, sn)
    requires !Kept(SourceOf(Step(st, input), id), sn)
    ensures Passed(SourceOf(Step(st, input), id), sn)
    ensures !Has(SourceOf(st, id).log, sn) && !NewerThanLast(SourceOf(st, id), sn)
  {
    hide Step;
    StepKeepsExactly(st, input, id, sn);
    OwnArrival(st, input, id, sn);
    StepKeepsSource(st, input, id);
  }

  lemma {:induction false} PassedOverRun(st: State, inputs: seq<Input>, id: nat, k: nat)
    requires SourceSound(st.cfg, SourceOf(st, id)) && NeverUndeclares(inputs) && Passed(SourceOf(st, id), k)
    ensures Passed(SourceOf(Run(st, inputs), id), k)
  {
    hide GapFree;
    RunKeepsSource(st, inputs, id);
    LostStaysLost(SourceOf(st, id), SourceOf(Run(st, inputs), id), k);
  }

  lemma PassedIsNotKept(s: Source, k: nat)
    requires Passed(s, k)
    ensures !Kept(s, k)
  {
  }

  /** What becomes of an arriving sample over the run that follows. */
  lemma FateOfArrival(st: State, input: Input, after: seq<Input>, id: nat, sn: nat)
    requires SourceSound(st.cfg, SourceOf(st, id)) && !st.undeclaring && Arrival(input, id, sn)
    requires NeverUndeclares(after)
    ensures Kept(SourceOf(Run(Step(st, input), after), id), sn) <==>
            (Has(SourceOf(st, id).log, sn) || NewerThanLast(SourceOf(st, id), sn))
            && !Overtaken(Step(st, input), after, id, sn)
  {
    hide Step, Run, Overtaken, OvertakenBy, GapFree, Tight;
    var mid := Step(st, input);
    StepKeepsSource(st, input, id);
    StepKeepsExactly(st, input, id, sn);
    OwnArrival(st, input, id, sn);
    ArrivalKeepsFrame(st, input, id, sn);
    if Kept(SourceOf(mid, id), sn) {
      RunKeepsExactly(mid, after, id, sn);
    } else {
      TooOld(st, input, id, sn);
      PassedOverRun(mid, after, id, sn);
    }
    if Passed(SourceOf(Run(mid, after), id), sn) {
      PassedIsNotKept(SourceOf(Run(mid, after), id), sn);
    }
  }

  lemma ArrivalKeepsFrame(st: State, input: Input, id: nat, sn: nat)
    requires Arrival(input, id, sn)
    ensures Step(st, input).cfg == st.cfg
  {
    hide Step;
  }

  /** The fate of every arriving sample, live or a reply, in every mode: when no query is left it has been
    * delivered exactly once, and is in no miss report, if and only if it had been delivered or was newer
    * than the last delivery when it arrived, and no newer arrival overtook it in the buffer. */
  lemma ArrivedOnce(cfg: Config, before: seq<Input>, input: Input, after: seq<Input>, id: nat, sn: nat)
    requires var all := before + [input] + after;
             && Possible(InitialState(cfg), all) && NeverStrands(InitialState(cfg), all, id) && NeverUndeclares(all)
             && Run(InitialState(cfg), all).live[Initial] == 0 && Run(InitialState(cfg), all).live[ForSource(id)] == 0
    requires Arrival(input, id, sn)
    ensures var st := Run(InitialState(cfg), before);
            DeliveredOnce(LogOf(Run(InitialState(cfg), before + [input] + after), id), sn) <==>
            (Has(SourceOf(st, id).log, sn) || NewerThanLast(SourceOf(st, id), sn))
            && !Overtaken(Step(st, input), after, id, sn)
  {
    var st0 := InitialState(cfg);
    var all := before + [input] + after;
    SplitDeclared(before, input, after);
    hide Step, Run, Possible, DeliveredOnce, NeverStrands, Overtaken, SourceSound, Kept, Has, NewerThanLast,
         NeverUndeclares;
    RunAppend(st0, before, input);
    RunSplit(st0, before + [input], after);
    SourceStaysSound(cfg, before, id);
    RunKeepsSource(st0, before, id);
    FateOfArrival(Run(st0, before), input, after, id, sn);
    QuietRunDelivered(cfg, all, id, sn);
  }

  lemma SplitDeclared(before: seq<Input>, input: Input, after: seq<Input>)
    requires NeverUndeclares(before + [input] + after)
    ensures NeverUndeclares(before) && NeverUndeclares(after)
  {
    var all := before + [input] + after;
    assert forall i :: 0 <= i < |before| ==> before[i] == all[i];
    assert forall i :: 0 <= i < |after| ==> after[i] == all[|before| + 1 + i];
  }
}

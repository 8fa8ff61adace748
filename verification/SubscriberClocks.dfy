/** Timestamped sources over whole runs: ordered delivery, and exactly which samples are lost. */
module SubscriberClocks {
  import opened Delivery
  import opened StampedDelivery
  import opened ClockSteps
  import opened SubscriberModel
  import opened SubscriberSafety
  import opened SubscriberRuns
  import opened SubscriberQueries
  import opened SubscriberSurvival
  import opened SubscriberMisses

  /** On every run, whatever launches fail, timestamps are delivered in strictly increasing order. */
  lemma TimestampsIncrease(cfg: Config, inputs: seq<Input>, id: nat)
    ensures TimesIncrease(StampsOf(Run(InitialState(cfg), inputs), id))
  {
    RunSound(cfg, inputs);
  }

  lemma LiveStamped(st: State, sample: Sample, launch: Launch)
    requires sample.Timestamped?
    ensures OnLive(st, sample, launch) == HandleSample(st, sample)
  {
  }

  /** What an arrival and a launch of a timestamped source leave. */
  lemma ClockStep(st: State, input: Input, id: nat)
    requires !st.undeclaring && TargetsClock(input, id) && !input.Drop? && !input.Undeclare?
    ensures var c := ClockOf(st, id);
            var r := Step(st, input);
            match input
            case NewClock(_, launch) =>
              && ClockOf(r, id) == LaunchedClock(st.global, c, launch)
              && r.live == LiveAfter(st.live, ForClock(id), launch)
            case _ =>
              && (input.Live? || input.Reply?) && input.sample.Timestamped?
              && ClockOf(r, id) == ReceiveStamped(st.cfg, st.global, c, input.sample.time, input.sample.payload)
              && r.live == st.live
    ensures Step(st, input).global == st.global && Step(st, input).cfg == st.cfg
  {
    hide ReceiveStamped, LaunchedClock, OnLive;
    if input.Live? {
      LiveStamped(st, input.sample, input.launch);
    }
  }

  // ----- Which samples survive, step by step -----

  predicate StampArrival(input: Input, id: nat, time: nat) {
    match input
    case Live(sample, _) => sample.Timestamped? && sample.clock == id && sample.time == time
    case Reply(_, sample) => sample.Timestamped? && sample.clock == id && sample.time == time
    case _ => false
  }

  /** The input is the arrival of a newer sample that overtakes buffered sample `t`. */
  ghost predicate StampOvertakenBy(st: State, input: Input, id: nat, t: nat) {
    !st.undeclaring &&
    match input
    case Live(sample, _) =>
      sample.Timestamped? && sample.clock == id && OvertakesStamp(st.cfg, st.global, ClockOf(st, id), sample.time, t)
    case Reply(_, sample) =>
      sample.Timestamped? && sample.clock == id && OvertakesStamp(st.cfg, st.global, ClockOf(st, id), sample.time, t)
    case _ => false
  }

  lemma CounterCovers(c: Clock, n: nat, t: nat)
    ensures CoveredTime(c.(queries := n), t) <==> CoveredTime(c, t)
  {
  }

  lemma DroppedClockCovers(global: nat, c: Clock, t: nat)
    ensures CoveredTime(DroppedClock(global, c), t) <==> CoveredTime(c, t)
  {
    hide CoveredTime, FlushStamped;
    var d := c.(queries := SaturatingDecrement(c.queries));
    CounterCovers(c, d.queries, t);
    FlushStampedKeeps(d);
  }

  lemma LaunchedClockCovers(global: nat, c: Clock, launch: Launch, t: nat)
    ensures CoveredTime(LaunchedClock(global, c, launch), t) <==> CoveredTime(c, t)
  {
    hide CoveredTime, DroppedClock;
    var c' := c.(queries := Increment(c.queries));
    CounterCovers(c, c'.queries, t);
    CounterCovers(c', Decrement(c'.queries), t);
    DroppedClockCovers(global, c', t);
    CounterCovers(DroppedClock(global, c'), Decrement(DroppedClock(global, c').queries), t);
  }

  lemma DropCovers(st: State, q: Query, id: nat, t: nat)
    ensures CoveredTime(ClockOf(DropHandler(st, q), id), t) <==> CoveredTime(ClockOf(st, id), t)
  {
    hide CoveredTime, FlushStamped, Flush, DroppedSource, DroppedClock, Spawn;
    FlushStampedKeeps(ClockOf(st, id));
    DroppedClockCovers(st.global, ClockOf(st, id), t);
  }

  lemma StampArrivalCovers(st: State, input: Input, id: nat, time: nat, t: nat)
    requires !st.undeclaring && StampArrival(input, id, time)
    ensures CoveredTime(ClockOf(Step(st, input), id), t) <==>
            || (CoveredTime(ClockOf(st, id), t) && !StampOvertakenBy(st, input, id, t))
            || (t == time && NewerStamp(ClockOf(st, id), time))
  {
    hide CoveredTime, ReceiveStamped, OvertakesStamp, OnLive;
    var c := ClockOf(st, id);
    ReceiveStampedExactly(st.cfg, st.global, c, time, input.sample.payload);
    if input.Live? {
      LiveStamped(st, input.sample, input.launch);
    }
  }

  /** Exactly which samples of a timestamped source one handler keeps, delivered or buffered ahead. */
  lemma StepCoversExactly(st: State, input: Input, id: nat, t: nat)
    requires !input.Undeclare?
    ensures CoveredTime(ClockOf(Step(st, input), id), t) <==>
            || (CoveredTime(ClockOf(st, id), t) && !StampOvertakenBy(st, input, id, t))
            || (!st.undeclaring && StampArrival(input, id, t) && NewerStamp(ClockOf(st, id), t))
  {
    hide CoveredTime, OvertakesStamp, LaunchedClock, DropHandler, OnLive, HandleSample;
    if input.Drop? {
      DropCovers(st.(live := st.live - multiset{input.query}), input.query, id, t);
    } else if !TargetsClock(input, id) {
      OtherClocksUntouched(st, input, id);
    } else if !st.undeclaring {
      match input
      case Live(sample, _) => StampArrivalCovers(st, input, id, sample.time, t);
      case Reply(_, sample) => StampArrivalCovers(st, input, id, sample.time, t);
      case NewClock(_, launch) => LaunchedClockCovers(st.global, ClockOf(st, id), launch, t);
    }
  }

  // ----- Which samples survive a run -----

  ghost predicate StampOvertaken(st: State, inputs: seq<Input>, id: nat, t: nat) {
    inputs != [] &&
    var init := inputs[..|inputs| - 1];
    StampOvertaken(st, init, id, t) || StampOvertakenBy(Run(st, init), inputs[|inputs| - 1], id, t)
  }

  lemma StepKeepsOrder(st: State, input: Input, id: nat)
    requires !input.Undeclare? && Ordered(ClockOf(st, id))
    ensures Ordered(ClockOf(Step(st, input), id)) && ClockOf(st, id).log <= ClockOf(Step(st, input), id).log
  {
    StepKeepsClockOrder(st, input, id);
  }

  lemma OvertakenStampIsPassed(st: State, input: Input, id: nat, t: nat)
    requires Ordered(ClockOf(st, id)) && CoveredTime(ClockOf(st, id), t) && StampOvertakenBy(st, input, id, t)
    ensures PassedTime(ClockOf(Step(st, input), id), t)
  {
    hide Ordered;
    var c := ClockOf(st, id);
    var time := input.sample.time;
    DeliverStampedKeeps(c, time, input.sample.payload);
    if input.Live? {
      LiveStamped(st, input.sample, input.launch);
    }
  }

  lemma PassedStampStays(st: State, input: Input, id: nat, t: nat)
    requires Ordered(ClockOf(st, id)) && PassedTime(ClockOf(st, id), t) && !input.Undeclare?
    ensures PassedTime(ClockOf(Step(st, input), id), t)
  {
    hide Step, Ordered, PassedTime;
    StepKeepsOrder(st, input, id);
    PassedTimeStays(ClockOf(st, id), ClockOf(Step(st, input), id), t);
  }

  /** Over any run, whatever launches are refused, a sample that is delivered or buffered ahead stays so
    * exactly when no arrival overtakes it; once overtaken it is passed for good. */
  lemma {:induction false} RunCoversExactly(st: State, inputs: seq<Input>, id: nat, t: nat)
    requires Ordered(ClockOf(st, id)) && NeverUndeclares(inputs) && CoveredTime(ClockOf(st, id), t)
    ensures Ordered(ClockOf(Run(st, inputs), id))
    ensures if StampOvertaken(st, inputs, id, t) then PassedTime(ClockOf(Run(st, inputs), id), t)
            else CoveredTime(ClockOf(Run(st, inputs), id), t)
  {
    hide Step, Ordered, CoveredTime, PassedTime, StampOvertakenBy;
    if inputs != [] {
      var init := inputs[..|inputs| - 1];
      var input := inputs[|inputs| - 1];
      RunCoversExactly(st, init, id, t);
      StepKeepsOrder(Run(st, init), input, id);
      if StampOvertaken(st, init, id, t) {
        PassedStampStays(Run(st, init), input, id, t);
      } else if StampOvertakenBy(Run(st, init), input, id, t) {
        OvertakenStampIsPassed(Run(st, init), input, id, t);
      } else {
        StepCoversExactly(Run(st, init), input, id, t);
      }
    }
  }

  lemma {:induction false} PassedStampOverRun(st: State, inputs: seq<Input>, id: nat, t: nat)
    requires Ordered(ClockOf(st, id)) && PassedTime(ClockOf(st, id), t) && NeverUndeclares(inputs)
    ensures Ordered(ClockOf(Run(st, inputs), id)) && PassedTime(ClockOf(Run(st, inputs), id), t)
  {
    hide Step, Ordered, PassedTime;
    if inputs != [] {
      var init := inputs[..|inputs| - 1];
      PassedStampOverRun(st, init, id, t);
      StepKeepsOrder(Run(st, init), inputs[|inputs| - 1], id);
      PassedStampStays(Run(st, init), inputs[|inputs| - 1], id, t);
    }
  }

  lemma PassedIsNotCovered(c: Clock, t: nat)
    requires PassedTime(c, t)
    ensures !CoveredTime(c, t)
  {
  }

  lemma StampArrives(st: State, input: Input, id: nat, t: nat)
    requires Ordered(ClockOf(st, id)) && !st.undeclaring && StampArrival(input, id, t)
    ensures var c := ClockOf(st, id);
            var r := ClockOf(Step(st, input), id);
            if HasTime(c.log, t) || NewerStamp(c, t) then CoveredTime(r, t) else PassedTime(r, t)
  {
    hide Step;
    StepCoversExactly(st, input, id, t);
    StepKeepsOrder(st, input, id);
    if !HasTime(ClockOf(st, id).log, t) && !NewerStamp(ClockOf(st, id), t) {
      PassedStampStays(st, input, id, t);
    }
  }

  /** What becomes of an arriving timestamped sample over the run that follows, whatever launches are
    * refused: it is delivered or still buffered ahead if and only if it was delivered already or newer
    * than the last delivery when it arrived, and no newer arrival overtook it. */
  lemma FateOfStamp(st: State, input: Input, after: seq<Input>, id: nat, t: nat)
    requires Ordered(ClockOf(st, id)) && !st.undeclaring && StampArrival(input, id, t) && NeverUndeclares(after)
    ensures CoveredTime(ClockOf(Run(Step(st, input), after), id), t) <==>
            (HasTime(ClockOf(st, id).log, t) || NewerStamp(ClockOf(st, id), t))
            && !StampOvertaken(Step(st, input), after, id, t)
  {
    hide Step, Run, Ordered, CoveredTime, HasTime, NewerStamp, StampOvertaken;
    var mid := Step(st, input);
    StepKeepsOrder(st, input, id);
    StampArrives(st, input, id, t);
    var end := ClockOf(Run(mid, after), id);
    if HasTime(ClockOf(st, id).log, t) || NewerStamp(ClockOf(st, id), t) {
      RunCoversExactly(mid, after, id, t);
    } else {
      PassedStampOverRun(mid, after, id, t);
    }
    if PassedTime(end, t) {
      PassedIsNotCovered(end, t);
    }
  }

  // ----- When nothing is overtaken -----

  /** A launch leaves the counter at zero although samples are buffered and history is over: it is refused
    * late while the counter is one, or succeeds while the counter is at its maximum and wraps. */
  ghost predicate Unguards(st: State, input: Input, id: nat) {
    && !st.undeclaring && input.NewClock? && input.clock == id
    && st.global == 0 && ClockOf(st, id).pending != map[]
    && match input.launch
       case Started => ClockOf(st, id).queries == U64_MAX
       case RefusedEarly => false
       case RefusedLate => ClockOf(st, id).queries == 1
  }

  lemma DropBuffering(st: State, q: Query, id: nat)
    requires Buffering(st.cfg, st.global, ClockOf(st, id))
    ensures var r := DropHandler(st, q);
            Buffering(r.cfg, r.global, ClockOf(r, id))
  {
    hide FlushStamped, Flush, Spawn, DroppedSource;
    var c := ClockOf(st, id);
    FlushStampedKeeps(c);
    FlushStampedKeeps(c.(queries := SaturatingDecrement(c.queries)));
  }

  lemma LaunchedClockEnds(global: nat, c: Clock, launch: Launch)
    requires c.queries <= U64_MAX
    ensures var r := LaunchedClock(global, c, launch);
            match launch
            case Started => r.queries == (if c.queries == U64_MAX then 0 else c.queries + 1) && r.pending == c.pending
            case RefusedEarly => r.queries == c.queries && r.pending == c.pending
            case RefusedLate =>
              var flushed := c.queries == 0 || c.queries == U64_MAX;
              && r.queries == (if flushed then U64_MAX else c.queries - 1)
              && r.pending == if flushed && global == 0 then map[] else c.pending
  {
    hide FlushStamped;
    FlushStampedKeeps(c.(queries := SaturatingDecrement(Increment(c.queries))));
  }

  /** A timestamped source buffers only while a query is outstanding: a step keeps it that way if and only
    * if it is not such a launch. */
  lemma StepBuffering(st: State, input: Input, id: nat)
    requires Buffering(st.cfg, st.global, ClockOf(st, id)) && ClockOf(st, id).queries <= U64_MAX
    ensures Buffering(Step(st, input).cfg, Step(st, input).global, ClockOf(Step(st, input), id)) <==>
            !Unguards(st, input, id)
    ensures ClockOf(Step(st, input), id).queries <= U64_MAX
  {
    hide DropHandler, ReceiveStamped, LaunchedClock;
    var c := ClockOf(st, id);
    if input.Drop? {
      DropBuffering(st.(live := st.live - multiset{input.query}), input.query, id);
      DropLowers(st.(live := st.live - multiset{input.query}), input.query, id);
    } else if input.Undeclare? || st.undeclaring {
    } else if !TargetsClock(input, id) {
      OtherClocksUntouched(st, input, id);
      StepGlobal(st, input);
    } else {
      TargetBuffering(st, input, id);
    }
  }

  lemma TargetBuffering(st: State, input: Input, id: nat)
    requires Buffering(st.cfg, st.global, ClockOf(st, id)) && ClockOf(st, id).queries <= U64_MAX
    requires !st.undeclaring && TargetsClock(input, id) && !input.Drop? && !input.Undeclare?
    ensures Buffering(Step(st, input).cfg, Step(st, input).global, ClockOf(Step(st, input), id)) <==>
            !Unguards(st, input, id)
    ensures ClockOf(Step(st, input), id).queries <= U64_MAX
  {
    hide Step, ReceiveStamped, LaunchedClock;
    var c := ClockOf(st, id);
    ClockStep(st, input, id);
    if input.NewClock? {
      LaunchedClockEnds(st.global, c, input.launch);
    } else {
      ReceiveStampedKeeps(st.cfg, st.global, c, input.sample.time, input.sample.payload);
    }
  }

  lemma DropLowers(st: State, q: Query, id: nat)
    ensures ClockOf(DropHandler(st, q), id).queries <= ClockOf(st, id).queries
  {
    if q.Initial? {
      InitialDropCount(st, id);
    } else {
      DropCount(st, q, id);
      DropOthers(st, q, id);
    }
  }

  lemma StepAhead(st: State, input: Input, id: nat)
    requires Ordered(ClockOf(st, id)) && Buffering(st.cfg, st.global, ClockOf(st, id)) && Ahead(ClockOf(st, id))
    ensures Ahead(ClockOf(Step(st, input), id))
  {
    hide DropHandler, ReceiveStamped, LaunchedClock, OnLive, Ordered;
    var c := ClockOf(st, id);
    if input.Drop? {
      DropAhead(st.(live := st.live - multiset{input.query}), input.query, id);
    } else if input.Undeclare? || st.undeclaring {
    } else if !TargetsClock(input, id) {
      OtherClocksUntouched(st, input, id);
    } else {
      match input
      case Live(sample, launch) =>
        LiveStamped(st, sample, launch);
        ReceiveStampedKeeps(st.cfg, st.global, c, sample.time, sample.payload);
      case Reply(_, sample) => ReceiveStampedKeeps(st.cfg, st.global, c, sample.time, sample.payload);
      case NewClock(_, launch) => LaunchedClockAhead(st.global, c, launch);
    }
  }

  lemma LaunchedClockAhead(global: nat, c: Clock, launch: Launch)
    requires Ordered(c) && Ahead(c)
    ensures Ahead(LaunchedClock(global, c, launch))
  {
    hide FlushStamped;
    FlushStampedKeeps(c.(queries := SaturatingDecrement(Increment(c.queries))));
  }

  lemma DropAhead(st: State, q: Query, id: nat)
    requires Ordered(ClockOf(st, id)) && Ahead(ClockOf(st, id))
    ensures Ahead(ClockOf(DropHandler(st, q), id))
  {
    hide FlushStamped, Flush, Spawn, DroppedSource;
    var c := ClockOf(st, id);
    FlushStampedKeeps(c);
    FlushStampedKeeps(c.(queries := SaturatingDecrement(c.queries)));
  }

  ghost predicate NeverUnguards(st: State, inputs: seq<Input>, id: nat) {
    inputs == [] ||
    var init := inputs[..|inputs| - 1];
    NeverUnguards(st, init, id) && !Unguards(Run(st, init), inputs[|inputs| - 1], id)
  }

  /** At every moment of the run the buffer is in use only while a query is outstanding. */
  ghost predicate AlwaysBuffering(st: State, inputs: seq<Input>, id: nat) {
    var end := Run(st, inputs);
    && Buffering(end.cfg, end.global, ClockOf(end, id))
    && (inputs == [] || AlwaysBuffering(st, inputs[..|inputs| - 1], id))
  }

  /** On every run: a nonempty buffer means a counter above zero, at all times, if and only if no launch
    * unguards the buffer; and then everything buffered is newer than the last delivery. */
  lemma {:induction false} RunBuffering(cfg: Config, inputs: seq<Input>, id: nat)
    ensures AlwaysBuffering(InitialState(cfg), inputs, id) <==> NeverUnguards(InitialState(cfg), inputs, id)
    ensures AlwaysBuffering(InitialState(cfg), inputs, id) ==>
      var c := ClockOf(Run(InitialState(cfg), inputs), id);
      Ahead(c) && c.queries <= U64_MAX
  {
    hide Step, Unguards, Buffering, Ahead;
    if inputs == [] {
      assert Buffering(cfg, InitialState(cfg).global, NEW_CLOCK) && Ahead(NEW_CLOCK) by {
        NewClockBuffers(cfg);
      }
    } else {
      var init := inputs[..|inputs| - 1];
      RunBuffering(cfg, init, id);
      if AlwaysBuffering(InitialState(cfg), init, id) {
        RunSound(cfg, init);
        StepBuffering(Run(InitialState(cfg), init), inputs[|inputs| - 1], id);
        StepAhead(Run(InitialState(cfg), init), inputs[|inputs| - 1], id);
      }
    }
  }

  lemma NewClockBuffers(cfg: Config)
    ensures Buffering(cfg, InitialState(cfg).global, NEW_CLOCK) && Ahead(NEW_CLOCK)
  {
  }

  lemma GuardedIsNotOvertaken(st: State, input: Input, id: nat, t: nat)
    requires Buffering(st.cfg, st.global, ClockOf(st, id)) && CoveredTime(ClockOf(st, id), t)
    ensures !StampOvertakenBy(st, input, id, t)
  {
  }

  lemma {:induction false} GuardedRunKeeps(cfg: Config, before: seq<Input>, after: seq<Input>, id: nat, t: nat)
    requires AlwaysBuffering(InitialState(cfg), before + after, id) && NeverUndeclares(after)
    requires CoveredTime(ClockOf(Run(InitialState(cfg), before), id), t)
    ensures CoveredTime(ClockOf(Run(InitialState(cfg), before + after), id), t)
    decreases |after|
  {
    hide Step, Buffering, CoveredTime, StampOvertakenBy;
    if after == [] {
      assert before + after == before;
    } else {
      var init := after[..|after| - 1];
      var all := before + after;
      assert all[..|all| - 1] == before + init;
      GuardedRunKeeps(cfg, before, init, id, t);
      LastBuffering(InitialState(cfg), before + init, id);
      GuardedIsNotOvertaken(Run(InitialState(cfg), before + init), after[|after| - 1], id, t);
      StepCoversExactly(Run(InitialState(cfg), before + init), after[|after| - 1], id, t);
    }
  }

  lemma LastBuffering(st: State, inputs: seq<Input>, id: nat)
    requires AlwaysBuffering(st, inputs, id)
    ensures var end := Run(st, inputs); Buffering(end.cfg, end.global, ClockOf(end, id))
  {
  }

  /** A sample that is newer than everything delivered when it arrives is, at any later time, delivered or
    * still buffered ahead, on every run in which no launch unguards the buffer. */
  lemma NewerIsNeverLost(cfg: Config, before: seq<Input>, input: Input, after: seq<Input>, id: nat, t: nat)
    requires NeverUnguards(InitialState(cfg), before + [input] + after, id)
    requires NeverUndeclares(before + [input] + after) && StampArrival(input, id, t)
    requires NewerStamp(ClockOf(Run(InitialState(cfg), before), id), t)
    ensures CoveredTime(ClockOf(Run(InitialState(cfg), before + [input] + after), id), t)
  {
    hide Step, NeverUnguards, AlwaysBuffering, CoveredTime, NewerStamp, Run;
    var st := Run(InitialState(cfg), before);
    SplitDeclared(before, input, after);
    RunBuffering(cfg, before + [input] + after, id);
    RunAppend(InitialState(cfg), before, input);
    RunDeclared(cfg, before);
    RunSound(cfg, before);
    StampArrives(st, input, id, t);
    GuardedRunKeeps(cfg, before + [input], after, id, t);
  }

  lemma RunDeclared(cfg: Config, inputs: seq<Input>)
    requires NeverUndeclares(inputs)
    ensures !Run(InitialState(cfg), inputs).undeclaring
  {
    RunKeepsSource(InitialState(cfg), inputs, 0);
  }

  // ----- Delivered once no query is left -----

  /** The drops of the outstanding queries bring the counter to zero, and there is one if anything is
    * buffered. */
  ghost predicate ClockSecure(st: State, id: nat) {
    var c := ClockOf(st, id);
    && c.queries <= st.live[ForClock(id)]
    && (c.pending != map[] ==> st.live[Initial] > 0 || st.live[ForClock(id)] > 0)
  }

  /** A launch refused late at a zero counter leaves it at its maximum. */
  predicate SpoilsClock(st: State, input: Input, id: nat) {
    !st.undeclaring && input == NewClock(id, RefusedLate) && ClockOf(st, id).queries == 0
  }

  lemma InitialDropClock(st: State, id: nat)
    ensures var r := DropHandler(st, Initial);
            var c := ClockOf(st, id);
            && r.global == SaturatingDecrement(st.global) && r.live == st.live
            && ClockOf(r, id).queries == c.queries
            && ClockOf(r, id).pending == if r.global == 0 && c.queries == 0 then map[] else c.pending
  {
    hide FlushStamped, Flush, Spawn;
    FlushStampedKeeps(ClockOf(st, id));
  }

  lemma OwnDropClock(st: State, id: nat)
    ensures var r := DropHandler(st, ForClock(id));
            var c := ClockOf(st, id);
            && r.global == st.global && r.live == st.live
            && ClockOf(r, id).queries == SaturatingDecrement(c.queries)
            && ClockOf(r, id).pending == if st.global == 0 && c.queries <= 1 then map[] else c.pending
  {
    hide FlushStamped;
    var c := ClockOf(st, id);
    FlushStampedKeeps(c.(queries := SaturatingDecrement(c.queries)));
  }

  lemma DropClockSecure(st: State, q: Query, id: nat)
    requires GlobalCounted(st) && q in st.live && ClockSecure(st, id)
    ensures ClockSecure(Step(st, Drop(q)), id)
  {
    hide DropHandler;
    var st' := st.(live := st.live - multiset{q});
    if q == Initial {
      InitialDropClock(st', id);
    } else if q == ForClock(id) {
      OwnDropClock(st', id);
    } else {
      DropOthers(st', q, id);
    }
  }

  lemma ReceiveStampedBuffers(cfg: Config, global: nat, c: Clock, time: nat, payload: nat)
    ensures var r := ReceiveStamped(cfg, global, c, time, payload);
            r.queries == c.queries && (r.pending != map[] ==> c.pending != map[] || !Quiet(global, c))
  {
    hide OfferAllStamped;
  }

  /** A step keeps a timestamped source secure if and only if it is not such a launch. */
  lemma StepClockSecure(st: State, input: Input, id: nat)
    requires GlobalCounted(st) && ClockSecure(st, id) && Enabled(st, input)
    ensures ClockSecure(Step(st, input), id) <==> !SpoilsClock(st, input, id)
    ensures SpoilsClock(st, input, id) ==> ClockOf(Step(st, input), id).queries == U64_MAX
  {
    hide DropHandler, ReceiveStamped, LaunchedClock, OnLive;
    if input.Drop? {
      DropClockSecure(st, input.query, id);
    } else if input.Undeclare? || st.undeclaring {
    } else if !TargetsClock(input, id) {
      OtherClocksUntouched(st, input, id);
      LiveChange(st, input, ForClock(id));
      LiveChange(st, input, Initial);
    } else {
      TargetClockSecure(st, input, id);
    }
  }

  lemma TargetClockSecure(st: State, input: Input, id: nat)
    requires GlobalCounted(st) && ClockSecure(st, id) && |st.live| < U64_MAX
    requires !st.undeclaring && TargetsClock(input, id) && !input.Drop? && !input.Undeclare?
    ensures ClockSecure(Step(st, input), id) <==> !SpoilsClock(st, input, id)
    ensures SpoilsClock(st, input, id) ==> ClockOf(Step(st, input), id).queries == U64_MAX
  {
    hide Step, ReceiveStamped, LaunchedClock;
    var c := ClockOf(st, id);
    MultiplicityBound(st.live, ForClock(id));
    ClockStep(st, input, id);
    if input.NewClock? {
      LaunchedClockEnds(st.global, c, input.launch);
    } else {
      ReceiveStampedBuffers(st.cfg, st.global, c, input.sample.time, input.sample.payload);
    }
  }

  ghost predicate NeverSpoils(st: State, inputs: seq<Input>, id: nat) {
    inputs == [] ||
    var init := inputs[..|inputs| - 1];
    NeverSpoils(st, init, id) && !SpoilsClock(Run(st, init), inputs[|inputs| - 1], id)
  }

  ghost predicate AlwaysClockSecure(st: State, inputs: seq<Input>, id: nat) {
    && ClockSecure(Run(st, inputs), id)
    && (inputs == [] || AlwaysClockSecure(st, inputs[..|inputs| - 1], id))
  }

  /** On every run, whatever else is refused: no buffered sample is ever left without an outstanding query
    * and no counter is spoiled, if and only if no launch is refused late at a zero counter. */
  lemma {:induction false} RunClockSecure(cfg: Config, inputs: seq<Input>, id: nat)
    requires Possible(InitialState(cfg), inputs)
    ensures AlwaysClockSecure(InitialState(cfg), inputs, id) <==> NeverSpoils(InitialState(cfg), inputs, id)
  {
    hide Step, SpoilsClock, Enabled;
    if inputs != [] {
      var init := inputs[..|inputs| - 1];
      RunClockSecure(cfg, init, id);
      if AlwaysClockSecure(InitialState(cfg), init, id) {
        RunGlobalCounted(InitialState(cfg), init);
        StepClockSecure(Run(InitialState(cfg), init), inputs[|inputs| - 1], id);
      }
    }
  }

  // ----- When a counter is right -----

  /** The counter of this timestamped source is the number of its live queries. */
  ghost predicate ClockCounted(st: State, id: nat) {
    ClockOf(st, id).queries == st.live[ForClock(id)]
  }

  lemma DropClockCounted(st: State, q: Query, id: nat)
    requires ClockCounted(st, id) && q in st.live
    ensures ClockCounted(Step(st, Drop(q)), id)
  {
    hide DropHandler;
    var st' := st.(live := st.live - multiset{q});
    if q.Initial? {
      InitialDropCount(st', id);
    } else {
      DropCount(st', q, id);
      DropOthers(st', q, id);
    }
  }

  /** A step leaves the counter right if and only if it is not a late refusal of a launch for this source. */
  lemma StepClockCounted(st: State, input: Input, id: nat)
    requires ClockCounted(st, id) && Enabled(st, input) && !st.undeclaring && !input.Undeclare?
    ensures ClockCounted(Step(st, input), id) <==> input != NewClock(id, RefusedLate)
  {
    hide Step, LaunchedClock, ReceiveStamped;
    MultiplicityBound(st.live, ForClock(id));
    if input.Drop? {
      DropClockCounted(st, input.query, id);
    } else if !TargetsClock(input, id) {
      OtherClocksUntouched(st, input, id);
      LiveChange(st, input, ForClock(id));
    } else {
      ClockStep(st, input, id);
      if input.NewClock? {
        LaunchedClockEnds(st.global, ClockOf(st, id), input.launch);
      } else {
        ReceiveStampedExactly(st.cfg, st.global, ClockOf(st, id), input.sample.time, input.sample.payload);
      }
    }
  }

  ghost predicate NoLateClock(inputs: seq<Input>, id: nat) {
    NewClock(id, RefusedLate) !in inputs
  }

  lemma {:induction false} RunClockCounted(cfg: Config, inputs: seq<Input>, id: nat)
    requires Possible(InitialState(cfg), inputs) && NeverUndeclares(inputs) && NoLateClock(inputs, id)
    ensures ClockCounted(Run(InitialState(cfg), inputs), id)
  {
    hide Step, ClockCounted, Enabled;
    if inputs == [] {
      assert ClockCounted(InitialState(cfg), id) by {
        FirstClockCounted(cfg, id);
      }
    } else {
      var init := inputs[..|inputs| - 1];
      RunClockCounted(cfg, init, id);
      RunDeclared(cfg, init);
      StepClockCounted(Run(InitialState(cfg), init), inputs[|inputs| - 1], id);
    }
  }

  lemma FirstClockCounted(cfg: Config, id: nat)
    ensures ClockCounted(InitialState(cfg), id)
  {
  }

  /** A drop finds the counter of a timestamped source at zero on no run on which no launch for it is refused
    * late. */
  lemma ClockDropNeverSaturates(cfg: Config, inputs: seq<Input>, id: nat)
    requires Possible(InitialState(cfg), inputs + [Drop(ForClock(id))]) && NoLateClock(inputs, id)
    ensures var st := Run(InitialState(cfg), inputs); !st.undeclaring ==> ClockOf(st, id).queries > 0
  {
    var all := inputs + [Drop(ForClock(id))];
    assert all[..|inputs|] == inputs && all[|inputs|] == Drop(ForClock(id));
    if !Run(InitialState(cfg), inputs).undeclaring {
      DeclaredRun(InitialState(cfg), inputs);
      RunClockCounted(cfg, inputs, id);
    }
  }

  // ----- The fate of every sample -----

  ghost predicate DeliveredOnceAt(log: seq<Stamp>, t: nat) {
    && HasTime(log, t)
    && forall i, j :: 0 <= i < |log| && 0 <= j < |log| && log[i].time == t && log[j].time == t ==> i == j
  }

  /** When no query is outstanding, a sample has been delivered, and only once, if and only if it was not
    * lost. */
  lemma QuietClockDelivered(cfg: Config, inputs: seq<Input>, id: nat, t: nat)
    requires Possible(InitialState(cfg), inputs) && NeverSpoils(InitialState(cfg), inputs, id)
    requires NeverUndeclares(inputs)
    requires var end := Run(InitialState(cfg), inputs); end.live[Initial] == 0 && end.live[ForClock(id)] == 0
    ensures var end := Run(InitialState(cfg), inputs);
            DeliveredOnceAt(StampsOf(end, id), t) <==> CoveredTime(ClockOf(end, id), t)
  {
    hide Run, Possible, NeverSpoils;
    var end := Run(InitialState(cfg), inputs);
    RunClockSecure(cfg, inputs, id);
    RunSound(cfg, inputs);
    RunDeclared(cfg, inputs);
    assert ClockSecure(end, id);
    assert TimesIncrease(StampsOf(end, id));
    assert ClockOf(end, id).pending == map[];
  }

  /** The fate of every arriving timestamped sample: when no query is left it has been delivered exactly
    * once if and only if it was delivered already or newer than the last delivery when it arrived, and no
    * newer arrival overtook it. */
  lemma StampArrivedOnce(cfg: Config, before: seq<Input>, input: Input, after: seq<Input>, id: nat, t: nat)
    requires var all := before + [input] + after;
             && Possible(InitialState(cfg), all) && NeverSpoils(InitialState(cfg), all, id) && NeverUndeclares(all)
             && Run(InitialState(cfg), all).live[Initial] == 0 && Run(InitialState(cfg), all).live[ForClock(id)] == 0
    requires StampArrival(input, id, t)
    ensures var st := Run(InitialState(cfg), before);
            DeliveredOnceAt(StampsOf(Run(InitialState(cfg), before + [input] + after), id), t) <==>
            (HasTime(ClockOf(st, id).log, t) || NewerStamp(ClockOf(st, id), t))
            && !StampOvertaken(Step(st, input), after, id, t)
  {
    var st0 := InitialState(cfg);
    var all := before + [input] + after;
    SplitDeclared(before, input, after);
    hide Step, Run, Possible, DeliveredOnceAt, NeverSpoils, StampOvertaken, CoveredTime, HasTime, NewerStamp,
         NeverUndeclares;
    RunAppend(st0, before, input);
    RunSplit(st0, before + [input], after);
    RunSound(cfg, before);
    RunDeclared(cfg, before);
    FateOfStamp(Run(st0, before), input, after, id, t);
    QuietClockDelivered(cfg, all, id, t);
  }

  // ----- Which inputs ask -----

  /** The detection of a timestamped publisher is the only input that brings a query for it, and always one. */
  lemma ClocksAsk(st: State, input: Input, id: nat)
    requires !st.undeclaring && !input.Drop? && !input.Undeclare?
    ensures Step(st, input).live[ForClock(id)]
            == st.live[ForClock(id)] + if input == NewClock(id, Started) then 1 else 0
  {
    hide Step, LaunchedClock, ReceiveStamped;
    if TargetsClock(input, id) {
      ClockStep(st, input, id);
    } else {
      LiveChange(st, input, ForClock(id));
    }
  }
}

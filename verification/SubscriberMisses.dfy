/** Right and wrong query counters, and exactly when misses are reported. */
module SubscriberMisses {
  import opened Delivery
  import opened DeliveryLog
  import opened StampedDelivery
  import opened SourceSteps
  import opened SubscriberModel
  import opened SubscriberSafety
  import opened SubscriberRuns
  import opened SubscriberQueries
  import opened SubscriberSurvival

  // ----- When a counter is right -----

  /** The counter of this source, and that of the history query, are the numbers of live queries. */
  ghost predicate CountedFor(st: State, id: nat) {
    GlobalCounted(st) && SourceOf(st, id).queries == st.live[ForSource(id)]
  }

  ghost predicate LateLaunch(st: State, input: Input, id: nat) {
    Launches(st, input, id) && LaunchOf(input) == RefusedLate
  }

  lemma QuietStepCount(st: State, input: Input, id: nat)
    requires !Launches(st, input, id) && !input.Drop? && !input.Undeclare? && !st.undeclaring
    ensures SourceOf(Step(st, input), id).queries == SourceOf(st, id).queries
    ensures Step(st, input).live[ForSource(id)] == st.live[ForSource(id)]
  {
    hide Receive, LaunchedSource;
    if !Targets(input, id) {
      OthersUntouched(st, input, id);
      LiveChange(st, input, ForSource(id));
    }
  }

  lemma DropCountedFor(st: State, q: Query, id: nat)
    requires CountedFor(st, id) && q in st.live
    ensures CountedFor(Step(st, Drop(q)), id)
  {
    hide DropHandler;
    var st' := st.(live := st.live - multiset{q});
    if q.Initial? {
      InitialDropCount(st', id);
    } else {
      DropCount(st', q, id);
      DropOthers(st', q, id);
    }
  }

  /** A step leaves the counter of a source right if and only if it is not a late refusal of a launch for
    * this source. */
  lemma StepCountedFor(st: State, input: Input, id: nat)
    requires CountedFor(st, id) && Enabled(st, input) && !st.undeclaring && !input.Undeclare?
    ensures CountedFor(Step(st, input), id) <==> !LateLaunch(st, input, id)
  {
    hide Launches, Step, LaunchedSource, AtLaunch;
    StepGlobalCounted(st, input);
    if input.Drop? {
      DropCountedFor(st, input.query, id);
      DropsLaunchNothing(st, input, id);
    } else if Launches(st, input, id) {
      LaunchStep(st, input, id);
      MultiplicityBound(st.live, ForSource(id));
      LaunchEnds(st.global, AtLaunch(st, input, id), LaunchOf(input));
    } else {
      QuietStepCount(st, input, id);
    }
  }

  lemma DropsLaunchNothing(st: State, input: Input, id: nat)
    requires input.Drop?
    ensures !Launches(st, input, id)
  {
  }

  ghost predicate NoLateLaunch(st: State, inputs: seq<Input>, id: nat) {
    inputs == [] ||
    var init := inputs[..|inputs| - 1];
    NoLateLaunch(st, init, id) && !LateLaunch(Run(st, init), inputs[|inputs| - 1], id)
  }

  ghost predicate AlwaysCounted(st: State, inputs: seq<Input>, id: nat) {
    CountedFor(Run(st, inputs), id) && (inputs == [] || AlwaysCounted(st, inputs[..|inputs| - 1], id))
  }

  /** Over a run the counter of a source is right at all times if and only if no launch for this source is
    * refused late, whatever happens to the launches for others. */
  lemma {:induction false} RunCountedExactly(st: State, inputs: seq<Input>, id: nat)
    requires CountedFor(st, id) && !st.undeclaring && Possible(st, inputs) && NeverUndeclares(inputs)
    ensures AlwaysCounted(st, inputs, id) <==> NoLateLaunch(st, inputs, id)
  {
    hide Step, CountedFor, LateLaunch, Enabled;
    if inputs != [] {
      var init := inputs[..|inputs| - 1];
      RunCountedExactly(st, init, id);
      RunKeepsSource(st, init, id);
      if AlwaysCounted(st, init, id) {
        StepCountedFor(Run(st, init), inputs[|inputs| - 1], id);
      }
    }
  }

  lemma {:induction false} DeclaredRun(st: State, inputs: seq<Input>)
    requires !Run(st, inputs).undeclaring
    ensures NeverUndeclares(inputs)
  {
    hide Step;
    if inputs != [] {
      var init := inputs[..|inputs| - 1];
      UndeclaredSticks(Run(st, init), inputs[|inputs| - 1]);
      DeclaredRun(st, init);
      assert forall i :: 0 <= i < |init| ==> init[i] == inputs[i];
    }
  }

  lemma UndeclaredSticks(st: State, input: Input)
    ensures st.undeclaring || input.Undeclare? ==> Step(st, input).undeclaring
  {
    hide Flush, FlushStamped, DroppedSource, DroppedClock;
  }

  /** A drop finds a counter at zero, so that the saturation acts, on no run on which no launch for this
    * source is refused late; the counter of the history query is never found at zero. */
  lemma DropNeverSaturates(cfg: Config, inputs: seq<Input>, q: Query)
    requires Possible(InitialState(cfg), inputs + [Drop(q)])
    ensures var st := Run(InitialState(cfg), inputs);
            && (q == Initial ==> st.global > 0)
            && (q.ForSource? && !st.undeclaring && NoLateLaunch(InitialState(cfg), inputs, q.source) ==>
                 SourceOf(st, q.source).queries > 0)
  {
    var st0 := InitialState(cfg);
    assert (inputs + [Drop(q)])[..|inputs|] == inputs;
    assert (inputs + [Drop(q)])[|inputs|] == Drop(q);
    RunGlobalCounted(st0, inputs);
    if q.ForSource? && !Run(st0, inputs).undeclaring && NoLateLaunch(st0, inputs, q.source) {
      DeclaredRun(st0, inputs);
      RunCountedExactly(st0, inputs, q.source);
    }
  }

  /** Some drop of a query of this source finds the counter at zero. */
  ghost predicate Saturates(st: State, drops: seq<Input>, id: nat) {
    drops != [] &&
    var init := drops[..|drops| - 1];
    Saturates(st, init, id) || (drops[|drops| - 1] == Drop(ForSource(id)) && SourceOf(Run(st, init), id).queries == 0)
  }

  lemma DropTakes(st: State, q: Query, id: nat)
    requires q == Initial || q == ForSource(id)
    ensures var r := Step(st, Drop(q));
            if q == Initial then SourceOf(r, id).queries == SourceOf(st, id).queries
            else SourceOf(r, id).queries == SaturatingDecrement(SourceOf(st, id).queries)
    ensures Step(st, Drop(q)).live == st.live - multiset{q}
  {
    hide DropHandler;
    var st' := st.(live := st.live - multiset{q});
    if q == Initial {
      InitialDropCount(st', id);
    } else {
      DropCount(st', q, id);
      DropOthers(st', q, id);
    }
  }

  /** Exactly when saturation acts: when the outstanding queries of a source are all dropped, some drop
    * finds the counter at zero if and only if the counter was below their number before. */
  lemma {:induction false} SaturatesWhenShort(st: State, drops: seq<Input>, id: nat)
    requires Possible(st, drops) && OnlyDrops(drops, id)
    ensures var end := Run(st, drops);
            && end.live[ForSource(id)] <= st.live[ForSource(id)]
            && (if Saturates(st, drops, id) then SourceOf(st, id).queries < st.live[ForSource(id)]
                else SourceOf(st, id).queries - SourceOf(end, id).queries
                     == st.live[ForSource(id)] - end.live[ForSource(id)])
    ensures Run(st, drops).live[ForSource(id)] == 0 ==>
            (Saturates(st, drops, id) <==> SourceOf(st, id).queries < st.live[ForSource(id)])
  {
    hide Step;
    if drops != [] {
      var init := drops[..|drops| - 1];
      SaturatesWhenShort(st, init, id);
      DropTakes(Run(st, init), drops[|drops| - 1].query, id);
    }
  }

  // ----- When a miss is reported -----

  /** A number is missing in front of a buffered sample: after the last delivery or, before the first
    * one, between two buffered samples. */
  ghost predicate GapIn(s: Source, rest: map<nat, nat>) {
    exists j: nat, k: nat :: j < k && k in rest && j !in rest && Wanted(s, rest, j)
  }

  ghost predicate Wanted(s: Source, rest: map<nat, nat>, j: nat) {
    if s.hasLast then s.last < j else exists i: nat :: i in rest && i < j
  }

  lemma OnlyDeliveriesSplit(a: seq<Event>, b: seq<Event>, c: seq<Event>)
    requires a <= b <= c
    ensures OnlyDeliveries(a, c) <==> OnlyDeliveries(a, b) && OnlyDeliveries(b, c)
  {
    assert forall i :: |a| <= i < |b| ==> c[i] == b[i];
  }

  lemma OfferMisses(s: Source, sn: nat, payload: nat)
    ensures var r := Offer(s, sn, payload);
            s.log <= r.log && (OnlyDeliveries(s.log, r.log) <==> !(s.hasLast && sn > s.last + 1))
  {
    if s.hasLast && sn > s.last + 1 {
      assert !Offer(s, sn, payload).log[|s.log|].Delivered?;
    }
  }

  /** The smallest buffered sample is offered: the gaps that are left. */
  lemma OfferGaps(s: Source, rest: map<nat, nat>, k: nat)
    requires IsMinKey(rest, k)
    ensures GapIn(s, rest) <==> (s.hasLast && k > s.last + 1) || GapIn(Offer(s, k, rest[k]), rest - {k})
  {
    var rest' := rest - {k};
    var t := Offer(s, k, rest[k]);
    if s.hasLast && k > s.last + 1 {
      assert s.last + 1 !in rest && Wanted(s, rest, s.last + 1);
    } else {
      forall j: nat, m: nat | j < m && m in rest && j !in rest && Wanted(s, rest, j)
        ensures m in rest' && j !in rest' && Wanted(t, rest', j)
      {
      }
      forall j: nat, m: nat | j < m && m in rest' && j !in rest' && Wanted(t, rest', j)
        ensures m in rest && j !in rest && Wanted(s, rest, j)
      {
      }
    }
  }

  lemma {:induction false} OfferAllMisses(s: Source, rest: map<nat, nat>)
    ensures s.log <= OfferAll(s, rest).log
    ensures OnlyDeliveries(s.log, OfferAll(s, rest).log) <==> !GapIn(s, rest)
    decreases |rest|
  {
    if rest != map[] {
      var k := MinKey(rest);
      var rest' := rest - {k};
      assert rest.Keys == rest'.Keys + {k};
      var t := Offer(s, k, rest[k]);
      hide OnlyDeliveries, GapIn, Offer;
      OfferAllMisses(t, rest');
      OfferMisses(s, k, rest[k]);
      OfferGaps(s, rest, k);
      OnlyDeliveriesSplit(s.log, t.log, OfferAll(t, rest').log);
    }
  }

  /** A flush reports a miss exactly when it finds a gap. */
  lemma FlushMisses(s: Source)
    ensures s.log <= Flush(s).log
    ensures OnlyDeliveries(s.log, Flush(s).log) <==> s.queries != 0 || !GapIn(s, s.pending)
  {
    OfferAllMisses(s, s.pending);
  }

  /** The input makes the source flush its buffer: the last drop for its counter, or a late refusal that
    * finds the counter at zero once it has been counted. */
  ghost predicate Flushes(st: State, input: Input, id: nat) {
    var queries := SourceOf(st, id).queries;
    match input
    case Drop(q) =>
      || (q == Initial && st.global <= 1 && queries == 0)
      || (q == ForSource(id) && st.global == 0 && queries <= 1)
    case _ => LateLaunch(st, input, id) && st.global == 0 && (queries == 0 || queries == U64_MAX)
  }

  /** The source whose buffer would be flushed: with the arriving sample already in it. */
  ghost function Flushing(st: State, input: Input, id: nat): Source {
    if input.Drop? then SourceOf(st, id) else AtLaunch(st, input, id)
  }

  ghost predicate ReportsMiss(st: State, input: Input, id: nat) {
    Flushes(st, input, id) && GapIn(Flushing(st, input, id), Flushing(st, input, id).pending)
  }

  lemma DroppedSourceMisses(global: nat, s: Source)
    ensures s.log <= DroppedSource(global, s).log
    ensures OnlyDeliveries(s.log, DroppedSource(global, s).log) <==>
            !(global == 0 && s.queries <= 1 && GapIn(s, s.pending))
  {
    hide Flush, OnlyDeliveries;
    var s' := s.(queries := SaturatingDecrement(s.queries));
    assert GapIn(s', s'.pending) <==> GapIn(s, s.pending) by {
      GapsIgnoreCounter(s, s'.queries);
    }
    FlushMisses(s');
    NothingAdded(s.log);
  }

  lemma GapsIgnoreCounter(s: Source, queries: nat)
    ensures GapIn(s.(queries := queries), s.pending) <==> GapIn(s, s.pending)
  {
    var r := s.(queries := queries);
    assert forall j: nat :: Wanted(r, s.pending, j) <==> Wanted(s, s.pending, j);
  }

  lemma NothingAdded(log: seq<Event>)
    ensures OnlyDeliveries(log, log)
  {
  }

  lemma LaunchMisses(global: nat, s: Source, launch: Launch)
    ensures s.log <= LaunchedSource(global, s, launch).log
    ensures OnlyDeliveries(s.log, LaunchedSource(global, s, launch).log) <==>
            !(launch == RefusedLate && global == 0 && (s.queries == 0 || s.queries == U64_MAX) && GapIn(s, s.pending))
  {
    hide DroppedSource, OnlyDeliveries, GapIn;
    var s' := s.(queries := Increment(s.queries));
    GapsIgnoreCounter(s, s'.queries);
    DroppedSourceMisses(global, s');
    NothingAdded(s.log);
  }

  lemma DropMisses(st: State, q: Query, id: nat)
    ensures OnlyDeliveries(SourceOf(st, id).log, SourceOf(DropHandler(st, q), id).log) <==>
            !(((q == Initial && st.global <= 1 && SourceOf(st, id).queries == 0)
               || (q == ForSource(id) && st.global == 0 && SourceOf(st, id).queries <= 1))
              && GapIn(SourceOf(st, id), SourceOf(st, id).pending))
  {
    hide Flush, FlushStamped, DroppedSource, DroppedClock, OnlyDeliveries;
    var s := SourceOf(st, id);
    NothingAdded(s.log);
    FlushMisses(s);
    DroppedSourceMisses(st.global, s);
    if id !in st.sources {
      assert !GapIn(s, s.pending);
    }
  }

  lemma AtLaunchDelivers(st: State, input: Input, id: nat)
    requires st.cfg.retransmission
    ensures OnlyDeliveries(SourceOf(st, id).log, AtLaunch(st, input, id).log)
  {
    hide Receive;
    if input.Live? && input.sample.Sequenced? {
      ReceiveReportsNoMiss(st.cfg, st.global, SourceOf(st, id), input.sample.sn, input.sample.payload);
    }
  }

  lemma QuietStepDelivers(st: State, input: Input, id: nat)
    requires st.cfg.retransmission && !Launches(st, input, id) && !input.Drop? && !input.Undeclare?
    ensures OnlyDeliveries(SourceOf(st, id).log, SourceOf(Step(st, input), id).log)
  {
    hide Receive, LaunchedSource;
    if !Targets(input, id) {
      OthersUntouched(st, input, id);
    } else if !st.undeclaring && (input.Live? || input.Reply?) {
      ReceiveReportsNoMiss(st.cfg, st.global, SourceOf(st, id), input.sample.sn, input.sample.payload);
    }
  }

  /** Besides drops, an input reports a miss if and only if it is a launch refused late at a counter that
    * is, or wraps to, zero, with history over and a gap in the buffer. */
  lemma OnlyDropsReportMisses(st: State, input: Input, id: nat)
    requires st.cfg.retransmission && !input.Drop? && !input.Undeclare?
    ensures OnlyDeliveries(SourceOf(st, id).log, SourceOf(Step(st, input), id).log) <==>
            !(LateLaunch(st, input, id) && st.global == 0
              && (SourceOf(st, id).queries == 0 || SourceOf(st, id).queries == U64_MAX)
              && GapIn(AtLaunch(st, input, id), AtLaunch(st, input, id).pending))
  {
    hide Launches, Step, LaunchedSource, AtLaunch, OnlyDeliveries, GapIn;
    if Launches(st, input, id) {
      var s := AtLaunch(st, input, id);
      LaunchStep(st, input, id);
      AtLaunchDelivers(st, input, id);
      LaunchMisses(st.global, s, LaunchOf(input));
      PrefixOf(SourceOf(st, id).log, s.log);
      OnlyDeliveriesSplit(SourceOf(st, id).log, s.log, LaunchedSource(st.global, s, LaunchOf(input)).log);
    } else {
      QuietStepDelivers(st, input, id);
    }
  }

  lemma PrefixOf(a: seq<Event>, b: seq<Event>)
    requires OnlyDeliveries(a, b)
    ensures a <= b
  {
  }

  /** With retransmission, exactly when a handler reports a miss: when it flushes a buffer with a gap. */
  lemma StepMissesExactly(st: State, input: Input, id: nat)
    requires st.cfg.retransmission && !input.Undeclare?
    ensures OnlyDeliveries(SourceOf(st, id).log, SourceOf(Step(st, input), id).log) <==> !ReportsMiss(st, input, id)
  {
    hide GapIn, OnlyDeliveries, LateLaunch, AtLaunch;
    if input.Drop? {
      hide DropHandler;
      DropMisses(st.(live := st.live - multiset{input.query}), input.query, id);
    } else {
      hide Step;
      OnlyDropsReportMisses(st, input, id);
    }
  }

  /** With retransmission and a right counter, a miss is reported only when no query is left that could
    * still bring the missing samples. */
  lemma MissesOnlyWhenQuiet(st: State, input: Input, id: nat)
    requires CountedFor(st, id) && Enabled(st, input) && !input.Undeclare? && st.cfg.retransmission
    ensures var st' := Step(st, input);
            OnlyDeliveries(SourceOf(st, id).log, SourceOf(st', id).log) ||
            (st'.live[Initial] == 0 && st'.live[ForSource(id)] == 0)
  {
    hide GapIn, OnlyDeliveries, Launches, AtLaunch, Step;
    StepMissesExactly(st, input, id);
    MultiplicityBound(st.live, ForSource(id));
    if ReportsMiss(st, input, id) {
      LiveAfterStep(st, input, id);
    }
  }

  lemma LiveAfterStep(st: State, input: Input, id: nat)
    requires input.Drop? || LateLaunch(st, input, id)
    ensures Step(st, input).live == if input.Drop? then st.live - multiset{input.query} else st.live
  {
    if input.Drop? {
      hide Flush, FlushStamped, DroppedSource, DroppedClock;
    } else {
      hide LaunchedSource, AtLaunch, Launches, Step;
      LaunchStep(st, input, id);
    }
  }

  /** A miss is reported too early: the counter reaches zero below the number of live queries of the
    * source, history is over, and there is a gap in the buffer. */
  ghost predicate EarlyMiss(st: State, input: Input, id: nat) {
    var live := st.live[ForSource(id)];
    ReportsMiss(st, input, id) && live > if input == Drop(ForSource(id)) then 1 else 0
  }

  /** With retransmission, a miss is reported while a query of the source is still outstanding if and only
    * if it is such an early one; and the counter was wrong before. */
  lemma MissesWhileOutstanding(st: State, input: Input, id: nat)
    requires GlobalCounted(st) && Enabled(st, input) && !input.Undeclare? && st.cfg.retransmission
    ensures var st' := Step(st, input);
            var reported := !OnlyDeliveries(SourceOf(st, id).log, SourceOf(st', id).log);
            && (reported ==> st'.live[Initial] == 0)
            && (reported && st'.live[ForSource(id)] > 0 <==> EarlyMiss(st, input, id))
    ensures EarlyMiss(st, input, id) ==> SourceOf(st, id).queries != st.live[ForSource(id)]
  {
    hide GapIn, OnlyDeliveries, Launches, AtLaunch, Step;
    StepMissesExactly(st, input, id);
    MultiplicityBound(st.live, ForSource(id));
    if ReportsMiss(st, input, id) {
      LiveAfterStep(st, input, id);
    }
  }

  // ----- Misses over a run -----

  ghost predicate NoMisses(st: State, inputs: seq<Input>, id: nat) {
    inputs == [] ||
    var init := inputs[..|inputs| - 1];
    NoMisses(st, init, id) && !ReportsMiss(Run(st, init), inputs[|inputs| - 1], id)
  }

  /** With retransmission, a run reports a miss of a source if and only if one of its inputs flushes a gap. */
  lemma {:induction false} RunMissesExactly(st: State, inputs: seq<Input>, id: nat)
    requires st.cfg.retransmission && NeverUndeclares(inputs)
    ensures OnlyDeliveries(SourceOf(st, id).log, SourceOf(Run(st, inputs), id).log) <==> NoMisses(st, inputs, id)
  {
    hide Step, ReportsMiss, OnlyDeliveries, GapFree, Tight, Covered;
    if inputs == [] {
      NothingAdded(SourceOf(st, id).log);
    } else {
      var init := inputs[..|inputs| - 1];
      var mid := Run(st, init);
      RunMissesExactly(st, init, id);
      RunKeepsSource(st, init, id);
      StepKeepsSource(mid, inputs[|inputs| - 1], id);
      StepMissesExactly(mid, inputs[|inputs| - 1], id);
      OnlyDeliveriesSplit(SourceOf(st, id).log, SourceOf(mid, id).log, SourceOf(Run(st, inputs), id).log);
    }
  }

  // ----- Which inputs ask -----

  /** A heartbeat asks when it announces something new, a live sample when it leaves a gap behind it, and both
    * only while no query for the source is outstanding; nothing asks on a tick before the history is in. */
  ghost predicate AsksFor(st: State, input: Input, id: nat) {
    var s := SourceOf(st, id);
    var idle := st.live[ForSource(id)] == 0;
    match input
    case Live(Sequenced(i, _, _), _) =>
      i == id && idle && st.cfg.retransmission && SourceOf(Step(st, input), id).pending != map[]
    case Heartbeat(i, sn, _) =>
      i == id && (id in st.sources || st.live[Initial] == 0) && (!s.hasLast || (sn > s.last && idle))
    case NewPublisher(i, _) => i == id
    case Tick(i, _) => i == id && id in st.sources && idle && st.live[Initial] == 0
    case _ => false
  }

  lemma LiveAsks(st: State, input: Input, id: nat)
    requires CountedFor(st, id) && !st.undeclaring && LaunchOf(input) == Started
    requires input.Live? && Targets(input, id)
    ensures AsksFor(st, input, id) <==> Launches(st, input, id)
  {
    hide Receive, Spawn;
  }

  /** An input whose launch goes through brings exactly one more query for the source when it asks, and none
    * otherwise. */
  lemma HandlersAsk(st: State, input: Input, id: nat)
    requires CountedFor(st, id) && !st.undeclaring && LaunchOf(input) == Started
    requires !input.Drop? && !input.Undeclare?
    ensures Step(st, input).live[ForSource(id)] == st.live[ForSource(id)] + if AsksFor(st, input, id) then 1 else 0
  {
    hide Step, AtLaunch, NeedsRecovery, AfterLive;
    if input.Live? && Targets(input, id) {
      LiveAsks(st, input, id);
      hide Launches, AsksFor;
      if Launches(st, input, id) { LaunchStep(st, input, id); } else { QuietStepCount(st, input, id); }
    } else if Launches(st, input, id) {
      LaunchStep(st, input, id);
    } else {
      QuietStepCount(st, input, id);
    }
  }

  ghost predicate StartsPeriodic(st: State, input: Input, id: nat) {
    st.cfg.hasPeriod &&
    match input
    case Drop(Initial) => st.global <= 1 && id in st.sources
    case Live(Sequenced(i, _, _), _) => i == id && id !in st.sources && st.global == 0
    case NewPublisher(i, _) => i == id && id !in st.sources && st.global == 0
    case _ => false
  }

  lemma DropStarts(st: State, q: Query, id: nat)
    ensures SourceOf(DropHandler(st, q), id).periodic <==>
              SourceOf(st, id).periodic || StartsPeriodic(st, Drop(q), id)
  {
    hide Flush, FlushStamped;
  }

  lemma LaunchedPeriodic(global: nat, s: Source, launch: Launch)
    ensures LaunchedSource(global, s, launch).periodic == s.periodic
  {
  }

  /** The periodic query of a source starts with the first sample or detection of the source when the history
    * is in, or with the end of the history query, and it never stops before the undeclaration. */
  lemma PeriodicStarts(st: State, input: Input, id: nat)
    requires !st.undeclaring && !input.Undeclare?
    ensures SourceOf(Step(st, input), id).periodic <==>
              SourceOf(st, id).periodic || StartsPeriodic(st, input, id)
  {
    hide Receive, ReceiveStamped, LaunchedSource, LaunchedClock, DropHandler;
    if input.Drop? {
      DropStarts(st.(live := st.live - multiset{input.query}), input.query, id);
    } else if !Targets(input, id) {
      OthersUntouched(st, input, id);
    } else if Launches(st, input, id) {
      LaunchStep(st, input, id);
      LaunchedPeriodic(st.global, AtLaunch(st, input, id), LaunchOf(input));
    }
  }
}

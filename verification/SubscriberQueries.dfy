/** Query counters, buffered samples that wait for a query, and what refused launches do. */
module SubscriberQueries {
  import opened Delivery
  import opened DeliveryLog
  import opened StampedDelivery
  import opened SourceSteps
  import opened ClockSteps
  import opened SubscriberModel
  import opened SubscriberSafety
  import opened SubscriberRuns

  // ----- Query counters -----

  /** The counters say exactly how many query contexts are outstanding. */
  ghost predicate Counted(st: State) {
    && st.global == st.live[Initial]
    && (!st.undeclaring ==>
          forall id: nat :: SourceOf(st, id).queries == st.live[ForSource(id)]
                            && ClockOf(st, id).queries == st.live[ForClock(id)])
  }

  lemma MultiplicityBound(live: multiset<Query>, q: Query)
    ensures live[q] <= |live|
  {
    assert |live[q := 0]| == |live| - live[q];
  }

  lemma LaunchCount(global: nat, s: Source, launch: Launch)
    requires s.queries < U64_MAX && launch != RefusedLate
    ensures LaunchedSource(global, s, launch).queries == s.queries + if launch == Started then 1 else 0
  {
  }

  lemma InitialDropCount(st: State, id: nat)
    ensures var r := DropHandler(st, Initial);
            && SourceOf(r, id).queries == SourceOf(st, id).queries
            && ClockOf(r, id).queries == ClockOf(st, id).queries
            && r.global == SaturatingDecrement(st.global) && r.live == st.live
  {
    hide Flush, FlushStamped;
  }

  lemma DropCount(st: State, q: Query, id: nat)
    requires !q.Initial?
    ensures var r := DropHandler(st, q);
            && (q == ForSource(id) ==> SourceOf(r, id).queries == SaturatingDecrement(SourceOf(st, id).queries))
            && (q == ForClock(id) ==> ClockOf(r, id).queries == SaturatingDecrement(ClockOf(st, id).queries))
  {
    hide Flush, FlushStamped;
  }

  lemma LiveCount(st: State, sample: Sample, launch: Launch, id: nat)
    requires SourceOf(st, id).queries == st.live[ForSource(id)] < U64_MAX && launch != RefusedLate
    requires sample.Sequenced? && sample.source == id
    ensures SourceOf(OnLive(st, sample, launch), id).queries == OnLive(st, sample, launch).live[ForSource(id)]
  {
    hide Receive, LaunchedSource;
    var s := AfterLive(st.cfg, st.global, id in st.sources, SourceOf(st, id), sample.sn, sample.payload);
    LaunchCount(st.global, s, launch);
  }

  lemma SourceCount(st: State, input: Input, id: nat)
    requires Counted(st) && Enabled(st, input) && LaunchOf(input) != RefusedLate
    requires !st.undeclaring && !input.Undeclare? && !input.Drop? && Targets(input, id)
    ensures SourceOf(Step(st, input), id).queries == Step(st, input).live[ForSource(id)]
  {
    assert SourceOf(st, id).queries == st.live[ForSource(id)];
    hide Receive, LaunchedSource, OnLive;
    MultiplicityBound(st.live, ForSource(id));
    LaunchCount(st.global, SourceOf(st, id), LaunchOf(input));
    match input
    case Live(sample, launch) => LiveCount(st, sample, launch, id);
    case Reply(_, sample) =>
    case Heartbeat(_, _, _) =>
    case NewPublisher(_, launch) => LaunchCount(st.global, Spawn(st.cfg, st.global, NEW_SOURCE), launch);
    case Tick(_, _) =>
  }

  /** Which contexts a step adds: at most one, for the source or clock it works on. */
  lemma LiveChange(st: State, input: Input, q: Query)
    requires !input.Drop?
    requires q.ForSource? ==> !Targets(input, q.source)
    requires q.ForClock? ==> !TargetsClock(input, q.clock)
    ensures Step(st, input).live[q] == st.live[q]
  {
    hide Receive, ReceiveStamped, AfterLive, LaunchedSource, LaunchedClock, DroppedSource, DroppedClock;
    hide Spawn, Flush, FlushStamped;
  }

  lemma StepGlobal(st: State, input: Input)
    requires !input.Drop?
    ensures Step(st, input).global == st.global
  {
    hide Receive, ReceiveStamped, AfterLive, LaunchedSource, LaunchedClock, DroppedSource, DroppedClock;
    hide Spawn, Flush, FlushStamped;
  }

  lemma ClockCount(st: State, input: Input, id: nat)
    requires Counted(st) && Enabled(st, input) && LaunchOf(input) != RefusedLate
    requires !st.undeclaring && !input.Undeclare? && !input.Drop? && TargetsClock(input, id)
    ensures ClockOf(Step(st, input), id).queries == Step(st, input).live[ForClock(id)]
  {
    assert ClockOf(st, id).queries == st.live[ForClock(id)];
    MultiplicityBound(st.live, ForClock(id));
  }

  lemma DropCounted(st: State, q: Query)
    requires Counted(st) && q in st.live
    ensures Counted(Step(st, Drop(q)))
  {
    hide DropHandler;
    var st' := st.(live := st.live - multiset{q});
    if !st.undeclaring {
      forall id: nat
        ensures SourceOf(DropHandler(st', q), id).queries == st'.live[ForSource(id)]
        ensures ClockOf(DropHandler(st', q), id).queries == st'.live[ForClock(id)]
      {
        assert SourceOf(st, id).queries == st.live[ForSource(id)];
        if q.Initial? {
          InitialDropCount(st', id);
        } else {
          DropCount(st', q, id);
          DropOthers(st', q, id);
        }
      }
    }
    if q.Initial? {
      InitialDropCount(st', 0);
    } else {
      DropOthers(st', q, 0);
    }
  }

  lemma StepCounted(st: State, input: Input)
    requires Counted(st) && Enabled(st, input) && LaunchOf(input) != RefusedLate
    ensures Counted(Step(st, input))
  {
    if input.Drop? {
      DropCounted(st, input.query);
    } else {
      StepGlobal(st, input);
      LiveChange(st, input, Initial);
      if !st.undeclaring && !input.Undeclare? {
        forall id: nat
          ensures SourceOf(Step(st, input), id).queries == Step(st, input).live[ForSource(id)]
          ensures ClockOf(Step(st, input), id).queries == Step(st, input).live[ForClock(id)]
        {
          assert SourceOf(st, id).queries == st.live[ForSource(id)];
          if Targets(input, id) {
            SourceCount(st, input, id);
          } else {
            OthersUntouched(st, input, id);
            LiveChange(st, input, ForSource(id));
          }
          if TargetsClock(input, id) {
            ClockCount(st, input, id);
          } else {
            OtherClocksUntouched(st, input, id);
            LiveChange(st, input, ForClock(id));
          }
        }
      }
    }
  }

  ghost predicate NoLateRefusal(inputs: seq<Input>) {
    forall i :: 0 <= i < |inputs| ==> LaunchOf(inputs[i]) != RefusedLate
  }

  /** On every run without a late refusal, each counter is the number of its live contexts. */
  lemma {:induction false} RunCounted(cfg: Config, inputs: seq<Input>)
    requires Possible(InitialState(cfg), inputs) && NoLateRefusal(inputs)
    ensures Counted(Run(InitialState(cfg), inputs))
  {
    if inputs != [] {
      var init := inputs[..|inputs| - 1];
      RunCounted(cfg, init);
      StepCounted(Run(InitialState(cfg), init), inputs[|inputs| - 1]);
    }
  }

  /** The history query is launched only once, so its counter is right whatever else is refused. */
  ghost predicate GlobalCounted(st: State) {
    st.global == st.live[Initial]
  }

  lemma StepGlobalCounted(st: State, input: Input)
    requires GlobalCounted(st) && Enabled(st, input)
    ensures GlobalCounted(Step(st, input))
  {
    if input.Drop? {
      hide DropHandler;
      var st' := st.(live := st.live - multiset{input.query});
      if input.query.Initial? {
        InitialDropCount(st', 0);
      } else {
        DropOthers(st', input.query, 0);
      }
    } else {
      StepGlobal(st, input);
      LiveChange(st, input, Initial);
    }
  }

  lemma {:induction false} RunGlobalCounted(st: State, inputs: seq<Input>)
    requires GlobalCounted(st) && Possible(st, inputs)
    ensures GlobalCounted(Run(st, inputs))
  {
    if inputs != [] {
      RunGlobalCounted(st, inputs[..|inputs| - 1]);
      StepGlobalCounted(Run(st, inputs[..|inputs| - 1]), inputs[|inputs| - 1]);
    }
  }

  // ----- Stranded samples -----

  /** The drops of the outstanding queries bring the source's counter to zero. */
  ghost predicate Returns(st: State, id: nat) {
    SourceOf(st, id).queries <= st.live[ForSource(id)]
  }

  /** Whatever is buffered waits for an outstanding query, whose drop will release it. */
  ghost predicate Unstranded(st: State, id: nat) {
    SourceOf(st, id).pending != map[] ==>
      Returns(st, id) && (st.live[Initial] > 0 || st.live[ForSource(id)] > 0)
  }

  /** Nothing is stranded, and nothing that a later arrival buffers will be. */
  ghost predicate Secure(st: State, id: nat) {
    Returns(st, id) && Unstranded(st, id)
  }

  lemma InitialDropStrands(st: State, id: nat)
    requires GlobalCounted(st) && Initial in st.live
    ensures Unstranded(Step(st, Drop(Initial)), id) <==> Unstranded(st, id)
    ensures Returns(Step(st, Drop(Initial)), id) <==> Returns(st, id)
  {
    hide Flush, FlushStamped, DropHandler;
    FlushEnds(SourceOf(st, id));
    InitialDropSource(st.(live := st.live - multiset{Initial}), id);
  }

  /** A flush empties the buffer of a source without a query and leaves any other alone. */
  lemma FlushEnds(s: Source)
    ensures if s.queries == 0 then Flush(s).pending == map[] else Flush(s) == s
  {
    hide OfferAll;
  }

  lemma InitialDropSource(st: State, id: nat)
    ensures var r := DropHandler(st, Initial);
            var s := SourceOf(st, id);
            && r.global == SaturatingDecrement(st.global) && r.live == st.live
            && SourceOf(r, id).queries == s.queries
            && SourceOf(r, id).pending == if r.global == 0 then Flush(s).pending else s.pending
  {
    hide FlushStamped, OfferAll;
  }

  lemma SourceDropStrands(st: State, id: nat)
    requires GlobalCounted(st) && ForSource(id) in st.live
    ensures Unstranded(Step(st, Drop(ForSource(id))), id) <==> Unstranded(st, id)
    ensures Returns(st, id) ==> Returns(Step(st, Drop(ForSource(id))), id)
  {
    hide Flush, FlushStamped;
    FlushEnds(SourceOf(st, id).(queries := SaturatingDecrement(SourceOf(st, id).queries)));
  }

  lemma DropStrands(st: State, q: Query, id: nat)
    requires GlobalCounted(st) && q in st.live
    ensures Unstranded(Step(st, Drop(q)), id) <==> Unstranded(st, id)
    ensures Returns(st, id) ==> Returns(Step(st, Drop(q)), id)
  {
    hide Step, Unstranded, Returns;
    if q == Initial {
      InitialDropStrands(st, id);
    } else if q == ForSource(id) {
      SourceDropStrands(st, id);
    } else {
      OtherDropStrands(st, q, id);
    }
  }

  lemma OtherDropStrands(st: State, q: Query, id: nat)
    requires q != Initial && q != ForSource(id)
    ensures Unstranded(Step(st, Drop(q)), id) <==> Unstranded(st, id)
    ensures Returns(st, id) <==> Returns(Step(st, Drop(q)), id)
  {
    hide DropHandler;
    DropOthers(st.(live := st.live - multiset{q}), q, id);
  }

  ghost predicate OnlyDrops(inputs: seq<Input>, id: nat) {
    forall i :: 0 <= i < |inputs| ==> inputs[i] == Drop(Initial) || inputs[i] == Drop(ForSource(id))
  }

  /** What being stranded means: after the drops of all outstanding queries, in whatever order, the
    * buffer is empty exactly when nothing was stranded before. */
  lemma {:induction false} StrandedMeansNotReleased(st: State, drops: seq<Input>, id: nat)
    requires GlobalCounted(st) && Possible(st, drops) && OnlyDrops(drops, id)
    ensures Unstranded(Run(st, drops), id) <==> Unstranded(st, id)
    ensures var end := Run(st, drops);
            end.live[Initial] == 0 && end.live[ForSource(id)] == 0 ==>
              (SourceOf(end, id).pending == map[] <==> Unstranded(st, id))
  {
    hide Step;
    if drops != [] {
      var init := drops[..|drops| - 1];
      StrandedMeansNotReleased(st, init, id);
      RunGlobalCounted(st, init);
      DropStrands(Run(st, init), drops[|drops| - 1].query, id);
    }
  }

  /** The handler of this input launches a query to this source. */
  ghost predicate Launches(st: State, input: Input, id: nat) {
    !st.undeclaring &&
    var s := SourceOf(st, id);
    match input
    case Live(sample, _) =>
      sample.Sequenced? && sample.source == id &&
      NeedsRecovery(st.cfg, AfterLive(st.cfg, st.global, id in st.sources, s, sample.sn, sample.payload))
    case Heartbeat(other, sn, _) =>
      other == id && (id in st.sources || st.global == 0) && (!s.hasLast || (sn > s.last && s.queries == 0))
    case NewPublisher(other, _) => other == id
    case Tick(other, _) => other == id && id in st.sources && st.global == 0 && s.queries == 0
    case _ => false
  }

  /** The launch ends the way that strands samples: it is refused late while the counter is zero, or
    * it should recover a gap and is refused early while no query is outstanding. */
  ghost predicate Strands(st: State, input: Input, id: nat) {
    Launches(st, input, id) &&
    match LaunchOf(input)
    case Started => false
    case RefusedEarly => input.Live? && st.live[Initial] == 0 && st.live[ForSource(id)] == 0
    case RefusedLate => SourceOf(st, id).queries == 0
  }

  lemma ReceiveBuffers(cfg: Config, global: nat, s: Source, sn: nat, payload: nat)
    requires Receive(cfg, global, s, sn, payload).pending != map[]
    ensures s.pending != map[] || global != 0 || cfg.retransmission
  {
    if s.pending == map[] && global == 0 {
      assert DeliverAndFlush(s, sn, payload).pending.Keys <= {};
    }
  }

  lemma AfterLiveBuffers(cfg: Config, global: nat, known: bool, s: Source, sn: nat, payload: nat)
    requires AfterLive(cfg, global, known, s, sn, payload).pending != map[]
    ensures s.pending != map[] || global != 0 || cfg.retransmission
  {
    hide Receive;
    ReceiveBuffers(cfg, global, s, sn, payload);
  }

  /** How the three ends of a launch leave the counter and the buffer of a source. */
  lemma LaunchEnds(global: nat, s: Source, launch: Launch)
    requires s.queries < U64_MAX
    ensures var r := LaunchedSource(global, s, launch);
            match launch
            case Started => r.queries == s.queries + 1 && r.pending == s.pending
            case RefusedEarly => r.queries == s.queries && r.pending == s.pending
            case RefusedLate =>
              && r.queries == (if s.queries == 0 then U64_MAX else s.queries - 1)
              && r.pending == if s.queries == 0 && global == 0 then map[] else s.pending
  {
    hide OfferAll;
  }

  /** The exact effect of a launch on a source from which nothing is stranded. */
  lemma LaunchSecure(st: State, s: Source, id: nat, launch: Launch)
    requires GlobalCounted(st) && s.queries <= st.live[ForSource(id)] && |st.live| < U64_MAX
    ensures var st' := LaunchForSource(st, id, s, launch);
            var outstanding := st.live[Initial] > 0 || st.live[ForSource(id)] > 0;
            && (Returns(st', id) <==> launch != RefusedLate || s.queries > 0)
            && (Unstranded(st', id) <==>
                 match launch
                 case Started => true
                 case RefusedEarly => s.pending == map[] || outstanding
                 case RefusedLate => s.queries > 0 || st.global == 0 || s.pending == map[])
            && (launch == RefusedLate && s.queries == 0 ==> SourceOf(st', id).queries == U64_MAX)
  {
    hide LaunchedSource;
    MultiplicityBound(st.live, ForSource(id));
    LaunchEnds(st.global, s, launch);
  }

  lemma LiveSecure(st: State, sample: Sample, launch: Launch, id: nat)
    requires GlobalCounted(st) && Secure(st, id) && |st.live| < U64_MAX && !st.undeclaring
    requires sample.Sequenced? && sample.source == id && !Launches(st, Live(sample, launch), id)
    ensures Secure(Step(st, Live(sample, launch)), id)
  {
    hide AfterLive;
    var s := SourceOf(st, id);
    var r := AfterLive(st.cfg, st.global, id in st.sources, s, sample.sn, sample.payload);
    if r.pending != map[] {
      AfterLiveBuffers(st.cfg, st.global, id in st.sources, s, sample.sn, sample.payload);
    }
  }

  /** A step that launches nothing strands nothing. */
  lemma QuietStepSecure(st: State, input: Input, id: nat)
    requires GlobalCounted(st) && Secure(st, id) && Enabled(st, input) && !Launches(st, input, id)
    ensures Secure(Step(st, input), id)
  {
    hide Receive;
    if input.Drop? {
      DropStrands(st, input.query, id);
    } else if !Targets(input, id) {
      OthersUntouched(st, input, id);
      LiveChange(st, input, ForSource(id));
      LiveChange(st, input, Initial);
    } else {
      match input
      case Live(sample, launch) => if !st.undeclaring { LiveSecure(st, sample, launch, id); }
      case Reply(_, _) =>
      case Heartbeat(_, _, _) =>
      case NewPublisher(_, _) =>
      case Tick(_, _) =>
      case Undeclare =>
    }
  }

  /** The source that a launching handler hands to the launch. */
  ghost function AtLaunch(st: State, input: Input, id: nat): Source {
    var s := SourceOf(st, id);
    match input
    case Live(sample, _) =>
      if sample.Sequenced? then AfterLive(st.cfg, st.global, id in st.sources, s, sample.sn, sample.payload) else s
    case NewPublisher(_, _) => if id in st.sources then s else Spawn(st.cfg, st.global, NEW_SOURCE)
    case _ => s
  }

  lemma LaunchStep(st: State, input: Input, id: nat)
    requires Launches(st, input, id)
    ensures Step(st, input) == LaunchForSource(st, id, AtLaunch(st, input, id), LaunchOf(input))
    ensures AtLaunch(st, input, id).queries == SourceOf(st, id).queries
    ensures AtLaunch(st, input, id).pending != map[] <==> input.Live? || SourceOf(st, id).pending != map[]
    ensures input.Live? || SameDelivery(SourceOf(st, id), AtLaunch(st, input, id))
  {
    hide AfterLive, LaunchedSource;
  }

  /** Exactly when a launch strands what is buffered, and when it spoils the counter for good: for
    * every handler that launches a query and every way the launch may end. */
  lemma LaunchOutcome(st: State, input: Input, id: nat)
    requires GlobalCounted(st) && Secure(st, id) && Enabled(st, input) && Launches(st, input, id)
    ensures var st' := Step(st, input);
            var s := SourceOf(st, id);
            && (Returns(st', id) <==> LaunchOf(input) != RefusedLate || s.queries > 0)
            && (Unstranded(st', id) <==>
                 match LaunchOf(input)
                 case Started => true
                 case RefusedEarly => !input.Live? || st.live[Initial] > 0 || st.live[ForSource(id)] > 0
                 case RefusedLate => s.queries > 0 || st.global == 0 || (!input.Live? && s.pending == map[]))
            && (LaunchOf(input) == RefusedLate && s.queries == 0 ==> SourceOf(st', id).queries == U64_MAX)
  {
    hide Launches, Step, LaunchForSource, AtLaunch;
    LaunchStep(st, input, id);
    LaunchSecure(st, AtLaunch(st, input, id), id, LaunchOf(input));
  }

  /** One step keeps a source secure exactly when its launch, if any, is not refused the wrong way. */
  lemma StepSecure(st: State, input: Input, id: nat)
    requires GlobalCounted(st) && Secure(st, id) && Enabled(st, input)
    ensures Secure(Step(st, input), id) <==> !Strands(st, input, id)
  {
    hide Launches, Step, Unstranded, Returns;
    if Launches(st, input, id) {
      LaunchOutcome(st, input, id);
    } else {
      QuietStepSecure(st, input, id);
    }
  }

  ghost predicate NeverStrands(st: State, inputs: seq<Input>, id: nat) {
    forall n :: 0 <= n < |inputs| ==> !Strands(Run(st, inputs[..n]), inputs[n], id)
  }

  ghost predicate AlwaysSecure(st: State, inputs: seq<Input>, id: nat) {
    forall n :: 0 <= n <= |inputs| ==> Secure(Run(st, inputs[..n]), id)
  }

  lemma PrefixSecure(st: State, inputs: seq<Input>, id: nat)
    requires inputs != []
    ensures var init := inputs[..|inputs| - 1];
            && (AlwaysSecure(st, inputs, id) <==> AlwaysSecure(st, init, id) && Secure(Run(st, inputs), id))
            && (NeverStrands(st, inputs, id) <==>
                 NeverStrands(st, init, id) && !Strands(Run(st, init), inputs[|inputs| - 1], id))
  {
    hide Secure, Strands, Run;
    var init := inputs[..|inputs| - 1];
    assert forall n :: 0 <= n <= |init| ==> init[..n] == inputs[..n];
    assert inputs[..|inputs|] == inputs && init == inputs[..|init|];
    if AlwaysSecure(st, inputs, id) {
      assert Secure(Run(st, inputs[..|inputs|]), id);
      assert forall n :: 0 <= n <= |init| ==> Secure(Run(st, inputs[..n]), id);
    }
    if NeverStrands(st, inputs, id) {
      assert !Strands(Run(st, inputs[..|init|]), inputs[|init|], id);
      forall n | 0 <= n < |init|
        ensures !Strands(Run(st, init[..n]), init[n], id)
      {
        assert !Strands(Run(st, inputs[..n]), inputs[n], id);
      }
    }
  }

  /** On every run, whatever launches are refused: no sample is ever left without an outstanding
    * query that will release it, and no counter is spoiled, if and only if no launch is refused late
    * at a zero counter and no recovery launch early with no query outstanding. */
  lemma {:induction false} RunSecureExactly(cfg: Config, inputs: seq<Input>, id: nat)
    requires Possible(InitialState(cfg), inputs)
    ensures AlwaysSecure(InitialState(cfg), inputs, id) <==> NeverStrands(InitialState(cfg), inputs, id)
  {
    hide Secure, Strands, Enabled, AlwaysSecure, NeverStrands, Step;
    var st := InitialState(cfg);
    if inputs == [] {
      InitiallySecure(cfg, id);
    } else {
      var init := inputs[..|inputs| - 1];
      RunSecureExactly(cfg, init, id);
      PrefixSecure(st, inputs, id);
      if AlwaysSecure(st, init, id) {
        LastSecure(st, init, id);
        RunGlobalCounted(st, init);
        StepSecure(Run(st, init), inputs[|inputs| - 1], id);
      }
    }
  }

  lemma InitiallySecure(cfg: Config, id: nat)
    ensures AlwaysSecure(InitialState(cfg), [], id) && NeverStrands(InitialState(cfg), [], id)
  {
  }

  lemma LastSecure(st: State, inputs: seq<Input>, id: nat)
    requires AlwaysSecure(st, inputs, id)
    ensures Secure(Run(st, inputs), id)
  {
    assert inputs[..|inputs|] == inputs;
  }

  /** So on such runs no sample waits in a buffer without an outstanding query that will release it. */
  lemma RunUnstranded(cfg: Config, inputs: seq<Input>, id: nat)
    requires Possible(InitialState(cfg), inputs) && NeverStrands(InitialState(cfg), inputs, id)
    ensures Unstranded(Run(InitialState(cfg), inputs), id)
  {
    RunSecureExactly(cfg, inputs, id);
    LastSecure(InitialState(cfg), inputs, id);
  }

  /** Once a late refusal has spoiled the counter, every later gap is stranded on arrival, however
    * the launches end. */
  lemma SpoiledCounterStrands(st: State, sample: Sample, launch: Launch)
    requires sample.Sequenced? && !st.undeclaring && st.cfg.retransmission && !Returns(st, sample.source)
    requires var s := SourceOf(st, sample.source); s.hasLast && sample.sn > s.last + 1
    ensures !Unstranded(Step(st, Live(sample, launch)), sample.source)
  {
    assert sample.sn in SourceOf(Step(st, Live(sample, launch)), sample.source).pending;
  }
}

/** Invariants of the subscriber over whole runs. */
module SubscriberSafety {
  import opened Delivery
  import opened DeliveryLog
  import opened StampedDelivery
  import opened SourceSteps
  import opened ClockSteps
  import opened SubscriberModel

  // ----- One step, seen from one source -----

  lemma DroppedSourceKeeps(cfg: Config, global: nat, s: Source)
    ensures Evolves(cfg, s, DroppedSource(global, s))
  {
    var s' := s.(queries := SaturatingDecrement(s.queries));
    SameDeliveryEvolves(cfg, s, s');
    FlushKeeps(cfg, s');
    EvolvesTrans(cfg, s, s', DroppedSource(global, s));
  }

  lemma SpawnKeeps(cfg: Config, global: nat, s: Source, r: Source)
    requires Evolves(cfg, s, r)
    ensures Evolves(cfg, s, Spawn(cfg, global, r))
  {
    SameDeliveryEvolves(cfg, r, Spawn(cfg, global, r));
    EvolvesTrans(cfg, s, r, Spawn(cfg, global, r));
  }

  lemma LaunchKeeps(cfg: Config, global: nat, s: Source, launch: Launch)
    ensures Evolves(cfg, s, LaunchedSource(global, s, launch))
  {
    var s' := s.(queries := Increment(s.queries));
    var r := LaunchedSource(global, s, launch);
    if launch == RefusedLate {
      var s'' := DroppedSource(global, s');
      SameDeliveryEvolves(cfg, s, s');
      DroppedSourceKeeps(cfg, global, s');
      EvolvesTrans(cfg, s, s', s'');
      SameDeliveryEvolves(cfg, s'', r);
      EvolvesTrans(cfg, s, s'', r);
    } else {
      SameDeliveryEvolves(cfg, s, r);
    }
  }

  lemma DropKeeps(st: State, q: Query, id: nat)
    ensures Evolves(st.cfg, SourceOf(st, id), SourceOf(DropHandler(st, q), id))
  {
    hide FlushStamped, DroppedClock, Flush, DroppedSource, Spawn;
    var s := SourceOf(st, id);
    SameDeliveryEvolves(st.cfg, s, s);
    FlushKeeps(st.cfg, s);
    SpawnKeeps(st.cfg, 0, s, Flush(s));
    DroppedSourceKeeps(st.cfg, st.global, s);
  }

  lemma AfterLiveKeeps(cfg: Config, global: nat, known: bool, s: Source, sn: nat, payload: nat)
    ensures Evolves(cfg, s, AfterLive(cfg, global, known, s, sn, payload))
  {
    ReceiveKeeps(cfg, global, s, sn, payload);
    SpawnKeeps(cfg, global, s, Receive(cfg, global, s, sn, payload));
  }

  lemma LiveLaunchKeeps(cfg: Config, global: nat, known: bool, s: Source, sn: nat, payload: nat, launch: Launch)
    ensures Evolves(cfg, s, LaunchedSource(global, AfterLive(cfg, global, known, s, sn, payload), launch))
  {
    var r := AfterLive(cfg, global, known, s, sn, payload);
    AfterLiveKeeps(cfg, global, known, s, sn, payload);
    LaunchKeeps(cfg, global, r, launch);
    EvolvesTrans(cfg, s, r, LaunchedSource(global, r, launch));
  }

  lemma OnLiveKeeps(st: State, sample: Sample, launch: Launch)
    requires sample.Sequenced?
    ensures Evolves(st.cfg, SourceOf(st, sample.source), SourceOf(OnLive(st, sample, launch), sample.source))
  {
    var known := sample.source in st.sources;
    AfterLiveKeeps(st.cfg, st.global, known, SourceOf(st, sample.source), sample.sn, sample.payload);
    LiveLaunchKeeps(st.cfg, st.global, known, SourceOf(st, sample.source), sample.sn, sample.payload, launch);
  }

  lemma OnNewPublisherKeeps(st: State, id: nat, launch: Launch)
    ensures Evolves(st.cfg, SourceOf(st, id), SourceOf(OnNewPublisher(st, id, launch), id))
  {
    hide LaunchedSource;
    var s := if id in st.sources then st.sources[id] else Spawn(st.cfg, st.global, NEW_SOURCE);
    SameDeliveryEvolves(st.cfg, SourceOf(st, id), s);
    LaunchKeeps(st.cfg, st.global, s, launch);
    EvolvesTrans(st.cfg, SourceOf(st, id), s, LaunchedSource(st.global, s, launch));
  }

  lemma OnHeartbeatKeeps(st: State, id: nat, sn: nat, launch: Launch)
    ensures Evolves(st.cfg, SourceOf(st, id), SourceOf(OnHeartbeat(st, id, sn, launch), id))
  {
    SameDeliveryEvolves(st.cfg, SourceOf(st, id), SourceOf(st, id));
    LaunchKeeps(st.cfg, st.global, SourceOf(st, id), launch);
  }

  /** The source a handler works on; query drops are told apart by their context. */
  ghost predicate Targets(input: Input, id: nat) {
    match input
    case Drop(q) => q.Initial? || q == ForSource(id)
    case Live(sample, _) => sample.Sequenced? && sample.source == id
    case Reply(_, sample) => sample.Sequenced? && sample.source == id
    case Heartbeat(other, _, _) => other == id
    case NewPublisher(other, _) => other == id
    case NewClock(_, _) => false
    case Tick(other, _) => other == id
    case Undeclare => true
  }

  lemma DropOthers(st: State, q: Query, id: nat)
    requires !q.Initial?
    ensures var r := DropHandler(st, q);
            && r.global == st.global && r.live == st.live
            && (q != ForSource(id) ==> SourceOf(r, id) == SourceOf(st, id))
            && (q != ForClock(id) ==> ClockOf(r, id) == ClockOf(st, id))
            && (id in r.sources <==> id in st.sources) && (id in r.clocks <==> id in st.clocks)
  {
    hide DroppedSource, DroppedClock;
  }

  lemma OthersUntouched(st: State, input: Input, id: nat)
    requires !Targets(input, id)
    ensures SourceOf(Step(st, input), id) == SourceOf(st, id)
    ensures id in Step(st, input).sources <==> id in st.sources
  {
    hide Receive, ReceiveStamped, AfterLive, LaunchedSource, LaunchedClock, DropHandler, Spawn;
    if input.Drop? {
      DropOthers(st.(live := st.live - multiset{input.query}), input.query, id);
    }
  }

  lemma StepKeepsSource(st: State, input: Input, id: nat)
    requires !input.Undeclare?
    ensures Evolves(st.cfg, SourceOf(st, id), SourceOf(Step(st, input), id))
  {
    if (st.undeclaring && !input.Drop?) || !Targets(input, id) {
      if !Targets(input, id) { OthersUntouched(st, input, id); }
      SameDeliveryEvolves(st.cfg, SourceOf(st, id), SourceOf(st, id));
    } else {
      match input
      case Drop(q) => DropKeeps(st.(live := st.live - multiset{q}), q, id);
      case Live(sample, launch) => OnLiveKeeps(st, sample, launch);
      case Reply(_, sample) => ReceiveKeeps(st.cfg, st.global, SourceOf(st, id), sample.sn, sample.payload);
      case Heartbeat(_, sn, launch) => OnHeartbeatKeeps(st, id, sn, launch);
      case NewPublisher(_, launch) => OnNewPublisherKeeps(st, id, launch);
      case Tick(_, launch) =>
        SameDeliveryEvolves(st.cfg, SourceOf(st, id), SourceOf(st, id));
        LaunchKeeps(st.cfg, st.global, SourceOf(st, id), launch);
    }
  }

  // ----- Every run: logs are gap-free, and silent after the undeclaration -----

  ghost predicate SourceSound(cfg: Config, s: Source) {
    GapFree(s) && Tight(cfg, s)
  }

  /** Every number the log walks over is accounted for, up to a last delivery. */
  ghost predicate Unbroken(log: seq<Event>) {
    EndOf(log).At? && EndsWith(log, EndOf(log).sn)
  }

  ghost predicate Sound(st: State) {
    && (forall id: nat :: SourceSound(st.cfg, SourceOf(st, id)))
    && (forall id: nat :: LogOf(st, id) == [] || Unbroken(LogOf(st, id)))
    && (forall id: nat :: Ordered(ClockOf(st, id)))
    && (forall id: nat :: TimesIncrease(StampsOf(st, id)))
    && (if st.undeclaring then st.sources == map[] && st.clocks == map[]
        else st.closed == map[] && st.closedClocks == map[])
  }

  ghost predicate OrderKept(c: Clock, r: Clock) {
    c.log <= r.log && (Ordered(c) ==> Ordered(r))
  }

  lemma DroppedClockOrdered(global: nat, c: Clock)
    ensures OrderKept(c, DroppedClock(global, c))
  {
    FlushStampedKeeps(c.(queries := SaturatingDecrement(c.queries)));
  }

  ghost predicate TargetsClock(input: Input, id: nat) {
    match input
    case Drop(q) => q.Initial? || q == ForClock(id)
    case Live(sample, _) => sample.Timestamped? && sample.clock == id
    case Reply(_, sample) => sample.Timestamped? && sample.clock == id
    case NewClock(other, _) => other == id
    case Heartbeat(_, _, _) => false
    case NewPublisher(_, _) => false
    case Tick(_, _) => false
    case Undeclare => true
  }

  lemma OtherClocksUntouched(st: State, input: Input, id: nat)
    requires !TargetsClock(input, id)
    ensures ClockOf(Step(st, input), id) == ClockOf(st, id)
    ensures id in Step(st, input).clocks <==> id in st.clocks
  {
    hide Receive, ReceiveStamped, AfterLive, LaunchedSource, LaunchedClock, DropHandler, Spawn;
    if input.Drop? {
      DropOthers(st.(live := st.live - multiset{input.query}), input.query, id);
    }
  }

  lemma DropKeepsClockOrder(st: State, q: Query, id: nat)
    ensures OrderKept(ClockOf(st, id), ClockOf(DropHandler(st, q), id))
  {
    hide FlushStamped, DroppedClock, Flush, DroppedSource, Spawn;
    FlushStampedKeeps(ClockOf(st, id));
    DroppedClockOrdered(st.global, ClockOf(st, id));
  }

  lemma LaunchKeepsClockOrder(global: nat, c: Clock, launch: Launch)
    ensures OrderKept(c, LaunchedClock(global, c, launch))
  {
    DroppedClockOrdered(global, c.(queries := Increment(c.queries)));
  }

  lemma StepKeepsClockOrder(st: State, input: Input, id: nat)
    requires !input.Undeclare?
    ensures OrderKept(ClockOf(st, id), ClockOf(Step(st, input), id))
  {
    var c := ClockOf(st, id);
    if !TargetsClock(input, id) {
      OtherClocksUntouched(st, input, id);
    } else {
      match input
      case Drop(q) => DropKeepsClockOrder(st.(live := st.live - multiset{q}), q, id);
      case Live(sample, _) => ReceiveStampedOrdered(st.cfg, st.global, c, sample.time, sample.payload);
      case Reply(_, sample) => ReceiveStampedOrdered(st.cfg, st.global, c, sample.time, sample.payload);
      case NewClock(_, launch) => LaunchKeepsClockOrder(st.global, c, launch);
    }
  }

  lemma UndeclaredStaysEmpty(st: State, input: Input)
    requires st.undeclaring && st.sources == map[] && st.clocks == map[]
    ensures var st' := Step(st, input);
            st'.undeclaring && st'.sources == map[] && st'.clocks == map[] && st'.plain == st.plain
            && st'.closed == st.closed && st'.closedClocks == st.closedClocks
  {
  }

  lemma StepSound(st: State, input: Input)
    requires Sound(st)
    ensures Sound(Step(st, input))
  {
    var st' := Step(st, input);
    if st.undeclaring {
      UndeclaredStaysEmpty(st, input);
      forall id: nat
        ensures LogOf(st', id) == LogOf(st, id) && StampsOf(st', id) == StampsOf(st, id)
      {}
    } else if input.Undeclare? {
      forall id: nat
        ensures LogOf(st', id) == LogOf(st, id) && StampsOf(st', id) == StampsOf(st, id)
      {}
    } else {
      forall id: nat
        ensures SourceSound(st'.cfg, SourceOf(st', id)) && Ordered(ClockOf(st', id))
        ensures LogOf(st', id) == [] || Unbroken(LogOf(st', id))
        ensures TimesIncrease(StampsOf(st', id))
      {
        assert SourceSound(st.cfg, SourceOf(st, id));
        StepKeepsSource(st, input, id);
        StepKeepsClockOrder(st, input, id);
      }
    }
  }

  lemma {:induction false} RunSound(cfg: Config, inputs: seq<Input>)
    ensures Sound(Run(InitialState(cfg), inputs))
    ensures Run(InitialState(cfg), inputs).cfg == cfg
  {
    var st0 := InitialState(cfg);
    if inputs != [] {
      var init := inputs[..|inputs| - 1];
      RunSound(cfg, init);
      StepSound(Run(st0, init), inputs[|inputs| - 1]);
    }
  }
}

/** Delivery state of one timestamped source. Timestamps of one source are compared by time. */
module StampedDelivery {
  import opened Delivery

  datatype Stamp = Stamp(time: nat, payload: nat)

  datatype Clock = Clock(hasLast: bool, last: nat, queries: nat, pending: map<nat, nat>, log: seq<Stamp>)

  const NEW_CLOCK := Clock(false, 0, 0, map[], [])

  function DeliverStamped(c: Clock, time: nat, payload: nat): Clock {
    c.(hasLast := true, last := time, log := c.log + [Stamp(time, payload)])
  }

  function OfferStamped(c: Clock, time: nat, payload: nat): Clock {
    if !c.hasLast || time > c.last then DeliverStamped(c, time, payload) else c
  }

  ghost function OfferAllStamped(c: Clock, rest: map<nat, nat>): (r: Clock)
    ensures r.queries == c.queries && r.pending == c.pending
    decreases |rest|
  {
    if rest == map[] then c
    else
      var k := MinKey(rest);
      var rest' := rest - {k};
      assert rest.Keys == rest'.Keys + {k};
      OfferAllStamped(OfferStamped(c, k, rest[k]), rest')
  }

  ghost function FlushStamped(c: Clock): (r: Clock)
    ensures r.queries == c.queries
  {
    if c.queries == 0 && c.pending != map[] then OfferAllStamped(c, c.pending).(pending := map[]) else c
  }

  /** A sample of this source arrives. The first buffered sample of a timestamp is kept. */
  ghost function ReceiveStamped(cfg: Config, global: nat, c: Clock, time: nat, payload: nat): Clock {
    if !c.hasLast || c.last < time then
      if (global == 0 && c.queries == 0) || cfg.historyDepth == 1 then DeliverStamped(c, time, payload)
      else
        var c' := if time in c.pending then c else c.(pending := c.pending[time := payload]);
        if cfg.historyDepth > 0 && |c'.pending| >= cfg.historyDepth then FlushStamped(c') else c'
    else c
  }
}

/** The subscriber as a step system. Handlers run under one mutex, so each is one step; every
  * query the subscriber has launched and that was not dropped yet is in `live`. */
module SubscriberModel {
  import opened Delivery
  import opened StampedDelivery

  datatype Sample =
    | Sequenced(source: nat, sn: nat, payload: nat)
    | Timestamped(clock: nat, time: nat, payload: nat)
    | Unstamped(payload: nat)

  datatype Query = Initial | ForSource(source: nat) | ForClock(clock: nat)

  /** How launching a query ends: sent; refused before the reply closure is handed over; or
    * refused afterwards, when the session has already run the closure's drop handler. */
  datatype Launch = Started | RefusedEarly | RefusedLate

  datatype Input =
    | Live(sample: Sample, launch: Launch)
    | Reply(query: Query, sample: Sample)
    | Drop(query: Query)
    | Heartbeat(source: nat, sn: nat, launch: Launch)
    | NewPublisher(source: nat, launch: Launch)
    | NewClock(clock: nat, launch: Launch)
    | Tick(source: nat, launch: Launch)
    | Undeclare

  datatype State = State(
    cfg: Config,
    global: nat,
    sources: map<nat, Source>,
    clocks: map<nat, Clock>,
    undeclaring: bool,
    live: multiset<Query>,
    plain: seq<nat>,
    closed: map<nat, seq<Event>>,
    closedClocks: map<nat, seq<Stamp>>)

  /** Right after the declaration, with the history query launched when history is enabled. */
  function InitialState(cfg: Config): State {
    State(cfg, if cfg.history then 1 else 0, map[], map[], false,
          if cfg.history then multiset{Initial} else multiset{}, [], map[], map[])
  }

  function SourceOf(st: State, id: nat): Source {
    if id in st.sources then st.sources[id] else NEW_SOURCE
  }

  function ClockOf(st: State, id: nat): Clock {
    if id in st.clocks then st.clocks[id] else NEW_CLOCK
  }

  /** Everything reported about a source so far, also after the source was cleared. */
  function LogOf(st: State, id: nat): seq<Event> {
    if id in st.sources then st.sources[id].log
    else if id in st.closed then st.closed[id]
    else []
  }

  function StampsOf(st: State, id: nat): seq<Stamp> {
    if id in st.clocks then st.clocks[id].log
    else if id in st.closedClocks then st.closedClocks[id]
    else []
  }

  function Spawn(cfg: Config, global: nat, s: Source): Source {
    if s.periodic || global != 0 || !cfg.hasPeriod then s else s.(periodic := true)
  }

  /** Only the undeclaration changes these parts of the state. */
  ghost predicate SameFrame(st: State, r: State) {
    r.cfg == st.cfg && r.undeclaring == st.undeclaring && r.closed == st.closed && r.closedClocks == st.closedClocks
  }

  // ----- Query drops -----

  ghost function DroppedSource(global: nat, s: Source): Source {
    var s' := s.(queries := SaturatingDecrement(s.queries));
    if global == 0 then Flush(s') else s'
  }

  ghost function DroppedClock(global: nat, c: Clock): Clock {
    var c' := c.(queries := SaturatingDecrement(c.queries));
    if global == 0 then FlushStamped(c') else c'
  }

  /** The end of the history query flushes every source that has no query of its own. */
  ghost function FlushedSources(cfg: Config, sources: map<nat, Source>): map<nat, Source> {
    map id | id in sources :: Spawn(cfg, 0, Flush(sources[id]))
  }

  ghost function FlushedClocks(clocks: map<nat, Clock>): map<nat, Clock> {
    map id | id in clocks :: FlushStamped(clocks[id])
  }

  ghost function DropHandler(st: State, q: Query): (r: State)
    ensures SameFrame(st, r)
  {
    match q
    case Initial =>
      var global := SaturatingDecrement(st.global);
      if global == 0 then
        st.(global := 0,
            sources := FlushedSources(st.cfg, st.sources),
            clocks := FlushedClocks(st.clocks))
      else st.(global := global)
    case ForSource(id) =>
      if id in st.sources then st.(sources := st.sources[id := DroppedSource(st.global, st.sources[id])]) else st
    case ForClock(id) =>
      if id in st.clocks then st.(clocks := st.clocks[id := DroppedClock(st.global, st.clocks[id])]) else st
  }

  // ----- Query launches -----

  function PutSource(st: State, id: nat, s: Source, live: multiset<Query>): State {
    st.(sources := st.sources[id := s], live := live)
  }

  function PutClock(st: State, id: nat, c: Clock, live: multiset<Query>): State {
    st.(clocks := st.clocks[id := c], live := live)
  }

  function LiveAfter(live: multiset<Query>, q: Query, launch: Launch): multiset<Query> {
    if launch == Started then live + multiset{q} else live
  }

  /** The source as the launch of one query leaves it. */
  ghost function LaunchedSource(global: nat, s: Source, launch: Launch): Source {
    var s' := s.(queries := Increment(s.queries));
    match launch
    case Started => s'
    case RefusedEarly => s'.(queries := Decrement(s'.queries))
    case RefusedLate =>
      var s'' := DroppedSource(global, s');
      s''.(queries := Decrement(s''.queries))
  }

  ghost function LaunchedClock(global: nat, c: Clock, launch: Launch): Clock {
    var c' := c.(queries := Increment(c.queries));
    match launch
    case Started => c'
    case RefusedEarly => c'.(queries := Decrement(c'.queries))
    case RefusedLate =>
      var c'' := DroppedClock(global, c');
      c''.(queries := Decrement(c''.queries))
  }

  ghost function LaunchForSource(st: State, id: nat, s: Source, launch: Launch): State {
    PutSource(st, id, LaunchedSource(st.global, s, launch), LiveAfter(st.live, ForSource(id), launch))
  }

  // ----- Handlers -----

  /** What a live sample and a query reply have in common. */
  ghost function HandleSample(st: State, sample: Sample): (r: State)
    ensures SameFrame(st, r)
  {
    match sample
    case Sequenced(id, sn, payload) =>
      PutSource(st, id, Receive(st.cfg, st.global, SourceOf(st, id), sn, payload), st.live)
    case Timestamped(id, time, payload) =>
      PutClock(st, id, ReceiveStamped(st.cfg, st.global, ClockOf(st, id), time, payload), st.live)
    case Unstamped(payload) =>
      st.(plain := st.plain + [payload])
  }

  /** The source as a live sample leaves it, before a recovery query is considered. */
  ghost function AfterLive(cfg: Config, global: nat, known: bool, s: Source, sn: nat, payload: nat): (r: Source)
    ensures r.queries == s.queries
  {
    var r := Receive(cfg, global, s, sn, payload);
    if known then r else Spawn(cfg, global, r)
  }

  predicate NeedsRecovery(cfg: Config, s: Source) {
    cfg.retransmission && s.queries == 0 && s.pending != map[]
  }

  ghost function OnLive(st: State, sample: Sample, launch: Launch): (r: State)
    ensures SameFrame(st, r)
  {
    if sample.Sequenced? then
      var id := sample.source;
      var s := AfterLive(st.cfg, st.global, id in st.sources, SourceOf(st, id), sample.sn, sample.payload);
      if NeedsRecovery(st.cfg, s) then LaunchForSource(st, id, s, launch) else PutSource(st, id, s, st.live)
    else HandleSample(st, sample)
  }

  ghost function OnHeartbeat(st: State, id: nat, sn: nat, launch: Launch): (r: State)
    ensures SameFrame(st, r)
  {
    if id !in st.sources && st.global > 0 then st
    else
      var s := SourceOf(st, id);
      if !s.hasLast || (sn > s.last && s.queries == 0) then LaunchForSource(st, id, s, launch)
      else PutSource(st, id, s, st.live)
  }

  ghost function OnNewPublisher(st: State, id: nat, launch: Launch): (r: State)
    ensures SameFrame(st, r)
  {
    var s := if id in st.sources then st.sources[id] else Spawn(st.cfg, st.global, NEW_SOURCE);
    LaunchForSource(st, id, s, launch)
  }

  ghost function OnNewClock(st: State, id: nat, launch: Launch): (r: State)
    ensures SameFrame(st, r)
  {
    PutClock(st, id, LaunchedClock(st.global, ClockOf(st, id), launch), LiveAfter(st.live, ForClock(id), launch))
  }

  ghost function OnTick(st: State, id: nat, launch: Launch): (r: State)
    ensures SameFrame(st, r)
  {
    if st.global != 0 || id !in st.sources || st.sources[id].queries != 0 then st
    else LaunchForSource(st, id, st.sources[id], launch)
  }

  function SourceLogs(sources: map<nat, Source>): map<nat, seq<Event>> {
    map id | id in sources :: sources[id].log
  }

  function ClockLogs(clocks: map<nat, Clock>): map<nat, seq<Stamp>> {
    map id | id in clocks :: clocks[id].log
  }

  ghost function OnUndeclare(st: State): State {
    st.(undeclaring := true,
        sources := map[],
        clocks := map[],
        closed := SourceLogs(st.sources),
        closedClocks := ClockLogs(st.clocks))
  }

  ghost function Step(st: State, input: Input): (r: State)
    ensures input.Undeclare? || SameFrame(st, r)
  {
    match input
    case Drop(q) => DropHandler(st.(live := st.live - multiset{q}), q)
    case Live(sample, launch) => if st.undeclaring then st else OnLive(st, sample, launch)
    case Reply(_, sample) => if st.undeclaring then st else HandleSample(st, sample)
    case Heartbeat(id, sn, launch) => if st.undeclaring then st else OnHeartbeat(st, id, sn, launch)
    case NewPublisher(id, launch) => if st.undeclaring then st else OnNewPublisher(st, id, launch)
    case NewClock(id, launch) =>
      if st.undeclaring then st else OnNewClock(st, id, launch)
    case Tick(id, launch) => if st.undeclaring then st else OnTick(st, id, launch)
    case Undeclare => if st.undeclaring then st else OnUndeclare(st)
  }

  /** A query sent to one publisher is answered with samples of that publisher only. */
  predicate Answers(q: Query, sample: Sample) {
    match q
    case Initial => true
    case ForSource(id) => sample.Sequenced? && sample.source == id
    case ForClock(id) => sample.Timestamped? && sample.clock == id
  }

  /** What the session guarantees: a query is answered and dropped only while outstanding, and
    * there are fewer contexts than a 64-bit counter can count. */
  ghost predicate Enabled(st: State, input: Input) {
    && |st.live| < U64_MAX
    && match input
       case Reply(q, sample) => q in st.live && Answers(q, sample)
       case Drop(q) => q in st.live
       case _ => true
  }

  ghost function Run(st: State, inputs: seq<Input>): State {
    if inputs == [] then st else Step(Run(st, inputs[..|inputs| - 1]), inputs[|inputs| - 1])
  }

  ghost predicate Possible(st: State, inputs: seq<Input>) {
    inputs == [] ||
    (Possible(st, inputs[..|inputs| - 1]) &&
     Enabled(Run(st, inputs[..|inputs| - 1]), inputs[|inputs| - 1]))
  }

  function LaunchOf(input: Input): Launch {
    match input
    case Live(_, launch) => launch
    case Heartbeat(_, _, launch) => launch
    case NewPublisher(_, launch) => launch
    case NewClock(_, launch) => launch
    case Tick(_, launch) => launch
    case Reply(_, _) => Started
    case Drop(_) => Started
    case Undeclare => Started
  }
}

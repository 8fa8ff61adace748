/** The advanced subscriber as it runs: handlers that update their sources in place, each proved
  * to take the step the model gives it. User callbacks are the entries of the ghost logs. */
module Subscriber {
  import opened Delivery
  import opened StampedDelivery
  import opened SubscriberModel

  class SequencedState {
    var hasLastDelivered: bool
    var lastDelivered: nat
    var pendingQueries: nat
    var pendingSamples: map<nat, nat>
    var periodicQuery: bool
    ghost var log: seq<Event>

    ghost function View(): Source
      reads this
    {
      Source(hasLastDelivered, lastDelivered, pendingQueries, pendingSamples, periodicQuery, log)
    }

    constructor ()
      ensures View() == NEW_SOURCE
    {
      hasLastDelivered, lastDelivered, pendingQueries := false, 0, 0;
      pendingSamples, periodicQuery, log := map[], false, [];
    }

    method Callback(sn: nat, payload: nat)
      modifies this
      ensures View() == Deliver(old(View()), sn, payload)
    {
      lastDelivered, hasLastDelivered := sn, true;
      log := log + [Delivered(sn, payload)];
    }

    method FlushFollowing(sn: nat, payload: nat)
      modifies this
      ensures View() == DeliverAndFlush(old(View()), sn, payload)
    {
      Callback(sn, payload);
      var next := sn + 1;
      while next in pendingSamples
        invariant hasLastDelivered && next == lastDelivered + 1
        invariant DrainRun(View()) == DeliverAndFlush(old(View()), sn, payload)
        decreases |pendingSamples|
      {
        var sample := pendingSamples[next];
        ghost var was := pendingSamples.Keys;
        Callback(next, sample);
        pendingSamples := pendingSamples - {next};
        assert was == pendingSamples.Keys + {next};
        next := next + 1;
      }
    }

    method FlushPending()
      modifies this
      ensures View() == Flush(old(View()))
    {
      if pendingQueries != 0 || pendingSamples == map[] {
        return;
      }
      var rest: map<nat, nat> := pendingSamples;
      while rest != map[]
        invariant OfferAll(View(), rest) == OfferAll(old(View()), old(pendingSamples))
        invariant pendingSamples == old(pendingSamples)
        decreases |rest|
      {
        MinKeyExists(rest);
        var sn :| sn in rest && forall k :: k in rest ==> sn <= k;
        MinKeyUnique(rest, sn);
        if !hasLastDelivered {
          Callback(sn, rest[sn]);
        } else {
          var diff := sn - (lastDelivered + 1);
          if diff >= 0 {
            if diff > 0 {
              log := log + [Missed(diff)];
            }
            Callback(sn, rest[sn]);
          }
        }
        ghost var was := rest.Keys;
        rest := rest - {sn};
        assert was == rest.Keys + {sn};
      }
      pendingSamples := map[];
    }

    method HandleSample(cfg: Config, global: nat, sn: nat, payload: nat)
      modifies this
      ensures View() == Receive(cfg, global, old(View()), sn, payload)
    {
      if !hasLastDelivered && global != 0 {
        if cfg.historyDepth == 1 {
          Callback(sn, payload);
        } else {
          pendingSamples := pendingSamples[sn := payload];
          if cfg.historyDepth > 0 && |pendingSamples| >= cfg.historyDepth {
            MinKeyExists(pendingSamples);
            var first :| first in pendingSamples && forall k :: k in pendingSamples ==> first <= k;
            MinKeyUnique(pendingSamples, first);
            var sample := pendingSamples[first];
            pendingSamples := pendingSamples - {first};
            FlushFollowing(first, sample);
          }
        }
      } else if hasLastDelivered {
        var next := lastDelivered + 1;
        if sn == next {
          FlushFollowing(sn, payload);
        } else if sn > next {
          if cfg.retransmission {
            pendingSamples := pendingSamples[sn := payload];
          } else {
            log := log + [Missed(sn - next)];
            Callback(sn, payload);
          }
        }
      } else {
        FlushFollowing(sn, payload);
      }
    }

    method SpawnPeriodicQuery(cfg: Config, global: nat)
      modifies this
      ensures View() == Spawn(cfg, global, old(View()))
    {
      if !periodicQuery && global == 0 && cfg.hasPeriod {
        periodicQuery := true;
      }
    }

    method QueryDropped(global: nat)
      modifies this
      ensures View() == DroppedSource(global, old(View()))
    {
      pendingQueries := if pendingQueries > 0 then pendingQueries - 1 else 0;
      if global == 0 {
        FlushPending();
      }
    }

    /** Count the query, send it, and take the count back when sending failed. */
    method LaunchQuery(global: nat, launch: Launch)
      modifies this
      ensures View() == LaunchedSource(global, old(View()), launch)
    {
      pendingQueries := Increment(pendingQueries);
      if launch == RefusedLate {
        QueryDropped(global);
      }
      if launch != Started {
        pendingQueries := Decrement(pendingQueries);
      }
    }

    /** A sample off the wire. A source seen for the first time also gets its periodic task, and
      * a buffer that no query will release gets a recovery query. */
    method HandleLive(cfg: Config, global: nat, isNew: bool, sn: nat, payload: nat, launch: Launch)
      returns (launched: bool)
      modifies this
      ensures var r := AfterLive(cfg, global, !isNew, old(View()), sn, payload);
              launched == NeedsRecovery(cfg, r) && View() == if launched then LaunchedSource(global, r, launch) else r
    {
      hide Receive, LaunchedSource, Spawn;
      HandleSample(cfg, global, sn, payload);
      if isNew {
        SpawnPeriodicQuery(cfg, global);
      }
      launched := cfg.retransmission && pendingQueries == 0 && pendingSamples != map[];
      if launched {
        LaunchQuery(global, launch);
      }
    }

    method HandleHeartbeat(global: nat, sn: nat, launch: Launch) returns (launched: bool)
      modifies this
      ensures var s := old(View());
              && launched == (!s.hasLast || (sn > s.last && s.queries == 0))
              && View() == if launched then LaunchedSource(global, s, launch) else s
    {
      launched := !hasLastDelivered || (sn > lastDelivered && pendingQueries == 0);
      if launched {
        LaunchQuery(global, launch);
      }
    }

    method HandleDetection(cfg: Config, global: nat, isNew: bool, launch: Launch)
      modifies this
      ensures View() == LaunchedSource(global, if isNew then Spawn(cfg, global, old(View())) else old(View()), launch)
    {
      hide LaunchedSource, Spawn;
      if isNew {
        SpawnPeriodicQuery(cfg, global);
      }
      LaunchQuery(global, launch);
    }
  }

  class TimestampedState {
    var hasLastDelivered: bool
    var lastDelivered: nat
    var pendingQueries: nat
    var pendingSamples: map<nat, nat>
    ghost var log: seq<Stamp>

    ghost function View(): Clock
      reads this
    {
      Clock(hasLastDelivered, lastDelivered, pendingQueries, pendingSamples, log)
    }

    constructor ()
      ensures View() == NEW_CLOCK
    {
      hasLastDelivered, lastDelivered, pendingQueries := false, 0, 0;
      pendingSamples, log := map[], [];
    }

    method Callback(time: nat, payload: nat)
      modifies this
      ensures View() == DeliverStamped(old(View()), time, payload)
    {
      lastDelivered, hasLastDelivered := time, true;
      log := log + [Stamp(time, payload)];
    }

    method FlushPending()
      modifies this
      ensures View() == FlushStamped(old(View()))
    {
      if pendingQueries == 0 && pendingSamples != map[] {
        var rest: map<nat, nat> := pendingSamples;
        while rest != map[]
          invariant OfferAllStamped(View(), rest) == OfferAllStamped(old(View()), old(pendingSamples))
          invariant pendingSamples == old(pendingSamples)
          decreases |rest|
        {
          MinKeyExists(rest);
          var time :| time in rest && forall k :: k in rest ==> time <= k;
          MinKeyUnique(rest, time);
          if !hasLastDelivered || time > lastDelivered {
            Callback(time, rest[time]);
          }
          ghost var was := rest.Keys;
          rest := rest - {time};
          assert was == rest.Keys + {time};
        }
        pendingSamples := map[];
      }
    }

    method HandleSample(cfg: Config, global: nat, time: nat, payload: nat)
      modifies this
      ensures View() == ReceiveStamped(cfg, global, old(View()), time, payload)
    {
      if !hasLastDelivered || lastDelivered < time {
        if (global == 0 && pendingQueries == 0) || cfg.historyDepth == 1 {
          Callback(time, payload);
        } else {
          if time !in pendingSamples {
            pendingSamples := pendingSamples[time := payload];
          }
          if cfg.historyDepth > 0 && |pendingSamples| >= cfg.historyDepth {
            FlushPending();
          }
        }
      }
    }

    method QueryDropped(global: nat)
      modifies this
      ensures View() == DroppedClock(global, old(View()))
    {
      pendingQueries := if pendingQueries > 0 then pendingQueries - 1 else 0;
      if global == 0 {
        FlushPending();
      }
    }

    method LaunchQuery(global: nat, launch: Launch)
      modifies this
      ensures View() == LaunchedClock(global, old(View()), launch)
    {
      pendingQueries := Increment(pendingQueries);
      if launch == RefusedLate {
        QueryDropped(global);
      }
      if launch != Started {
        pendingQueries := Decrement(pendingQueries);
      }
    }
  }

  class AdvancedSubscriber {
    const cfg: Config
    var globalPendingQueries: nat
    var sequencedStates: map<nat, SequencedState>
    var timestampedStates: map<nat, TimestampedState>
    var isUndeclaring: bool
    ghost var live: multiset<Query>
    ghost var plain: seq<nat>
    ghost var closed: map<nat, seq<Event>>
    ghost var closedClocks: map<nat, seq<Stamp>>

    /** No two sources share a state. */
    ghost predicate Valid()
      reads this`sequencedStates, this`timestampedStates
    {
      && (forall a, b :: a in sequencedStates && b in sequencedStates && a != b ==>
            sequencedStates[a] != sequencedStates[b])
      && (forall a, b :: a in timestampedStates && b in timestampedStates && a != b ==>
            timestampedStates[a] != timestampedStates[b])
    }

    ghost function Repr(): (r: set<object>)
      reads this`sequencedStates, this`timestampedStates
      ensures this in r
    {
      {this} + sequencedStates.Values + timestampedStates.Values
    }

    ghost function Sources(): map<nat, Source>
      reads this`sequencedStates, sequencedStates.Values
    {
      map id | id in sequencedStates :: sequencedStates[id].View()
    }

    ghost function Clocks(): map<nat, Clock>
      reads this`timestampedStates, timestampedStates.Values
    {
      map id | id in timestampedStates :: timestampedStates[id].View()
    }

    ghost function View(): State
      reads this, sequencedStates.Values, timestampedStates.Values
    {
      State(cfg, globalPendingQueries, Sources(), Clocks(), isUndeclaring, live, plain, closed, closedClocks)
    }

    /** Declaration: with history enabled, the history query is launched at once. */
    constructor (cfg: Config)
      ensures Valid() && fresh(Repr())
      ensures View() == InitialState(cfg)
    {
      this.cfg := cfg;
      globalPendingQueries := if cfg.history then 1 else 0;
      sequencedStates, timestampedStates, isUndeclaring := map[], map[], false;
      live := if cfg.history then multiset{Initial} else multiset{};
      plain, closed, closedClocks := [], map[], map[];
    }

    /** The state of a source, created when it is not known yet. */
    method FindSource(id: nat) returns (s: SequencedState, isNew: bool)
      requires Valid()
      modifies this`sequencedStates
      ensures Valid() && fresh(Repr() - old(Repr()))
      ensures isNew <==> id !in old(sequencedStates)
      ensures id in sequencedStates && sequencedStates[id] == s
      ensures isNew ==> fresh(s) && sequencedStates == old(sequencedStates)[id := s] && s.View() == NEW_SOURCE
      ensures !isNew ==> sequencedStates == old(sequencedStates) && s in old(Repr())
      ensures SourceOf(old(View()), id) == s.View() && (id in old(View()).sources <==> !isNew)
    {
      isNew := id !in sequencedStates;
      if isNew {
        s := new SequencedState();
        sequencedStates := sequencedStates[id := s];
      } else {
        s := sequencedStates[id];
      }
    }

    method FindClock(id: nat) returns (c: TimestampedState)
      requires Valid()
      modifies this`timestampedStates
      ensures Valid() && fresh(Repr() - old(Repr()))
      ensures id in timestampedStates && timestampedStates[id] == c
      ensures id !in old(timestampedStates) ==>
                fresh(c) && timestampedStates == old(timestampedStates)[id := c] && c.View() == NEW_CLOCK
      ensures id in old(timestampedStates) ==> timestampedStates == old(timestampedStates) && c in old(Repr())
      ensures ClockOf(old(View()), id) == c.View()
    {
      if id !in timestampedStates {
        c := new TimestampedState();
        timestampedStates := timestampedStates[id := c];
      } else {
        c := timestampedStates[id];
      }
    }

    lemma SourceAt(id: nat)
      ensures id in View().sources <==> id in sequencedStates
      ensures id in sequencedStates ==> View().sources[id] == sequencedStates[id].View()
      ensures id in View().clocks <==> id in timestampedStates
      ensures id in timestampedStates ==> View().clocks[id] == timestampedStates[id].View()
    {
    }

    /** The view after one source has been worked on and no other state has changed. */
    twostate lemma OneSource(id: nat, new s: SequencedState)
      requires old(Valid()) && Valid() && id in sequencedStates && sequencedStates[id] == s
      requires if id in old(sequencedStates) then sequencedStates == old(sequencedStates)
               else sequencedStates.Keys == old(sequencedStates).Keys + {id}
                    && forall other :: other in old(sequencedStates) ==>
                         sequencedStates[other] == old(sequencedStates)[other]
      requires forall other :: other in old(sequencedStates) && other != id ==> unchanged(old(sequencedStates)[other])
      requires timestampedStates == old(timestampedStates)
      requires forall other :: other in timestampedStates ==> unchanged(timestampedStates[other])
      ensures Sources() == old(Sources())[id := s.View()]
      ensures Clocks() == old(Clocks())
    {
    }

    twostate lemma OneClock(id: nat, new c: TimestampedState)
      requires old(Valid()) && Valid() && id in timestampedStates && timestampedStates[id] == c
      requires if id in old(timestampedStates) then timestampedStates == old(timestampedStates)
               else timestampedStates.Keys == old(timestampedStates).Keys + {id}
                    && forall other :: other in old(timestampedStates) ==>
                         timestampedStates[other] == old(timestampedStates)[other]
      requires forall other :: other in old(timestampedStates) && other != id ==>
        unchanged(old(timestampedStates)[other])
      requires sequencedStates == old(sequencedStates)
      requires forall other :: other in sequencedStates ==> unchanged(sequencedStates[other])
      ensures Clocks() == old(Clocks())[id := c.View()]
      ensures Sources() == old(Sources())
    {
    }

    method HandleStamped(clock: nat, time: nat, payload: nat)
      requires Valid()
      modifies Repr()
      ensures Valid() && fresh(Repr() - old(Repr()))
      ensures View() == HandleSample(old(View()), Timestamped(clock, time, payload))
    {
      hide Repr, Sources, Clocks;
      hide ReceiveStamped;
      var c := FindClock(clock);
      c.HandleSample(cfg, globalPendingQueries, time, payload);
      OneClock(clock, c);
    }

    method HandleSequenced(id: nat, sn: nat, payload: nat)
      requires Valid()
      modifies Repr()
      ensures Valid() && fresh(Repr() - old(Repr()))
      ensures View() == HandleSample(old(View()), Sequenced(id, sn, payload))
    {
      hide Repr, Sources, Clocks;
      hide Receive;
      var s, _ := FindSource(id);
      s.HandleSample(cfg, globalPendingQueries, sn, payload);
      OneSource(id, s);
    }

    method WorkLive(id: nat, sn: nat, payload: nat, launch: Launch) returns (launched: bool)
      requires Valid()
      modifies Repr()
      ensures Valid() && fresh(Repr() - old(Repr()))
      ensures var st := old(View());
              var r := AfterLive(st.cfg, st.global, id in st.sources, SourceOf(st, id), sn, payload);
              && launched == NeedsRecovery(st.cfg, r)
              && View() == PutSource(st, id, if launched then LaunchedSource(st.global, r, launch) else r, st.live)
    {
      hide Repr, Sources, Clocks, AfterLive, LaunchedSource, NeedsRecovery;
      var s, isNew := FindSource(id);
      launched := s.HandleLive(cfg, globalPendingQueries, isNew, sn, payload, launch);
      OneSource(id, s);
    }

    method HandleSequencedLive(id: nat, sn: nat, payload: nat, launch: Launch)
      requires Valid()
      modifies Repr()
      ensures Valid() && fresh(Repr() - old(Repr()))
      ensures View() == OnLive(old(View()), Sequenced(id, sn, payload), launch)
    {
      hide Repr, Sources, Clocks, AfterLive, LaunchedSource, NeedsRecovery;
      var launched := WorkLive(id, sn, payload, launch);
      if launched {
        live := LiveAfter(live, ForSource(id), launch);
      }
    }

    method SubscriberCallback(sample: Sample, launch: Launch)
      requires Valid()
      modifies Repr()
      ensures Valid() && fresh(Repr() - old(Repr()))
      ensures View() == Step(old(View()), Live(sample, launch))
    {
      hide Sources, Clocks, Repr;
      if isUndeclaring {
        return;
      }
      hide Receive, ReceiveStamped, AfterLive, LaunchedSource;
      match sample
      case Sequenced(id, sn, payload) => HandleSequencedLive(id, sn, payload, launch);
      case Timestamped(id, time, payload) => HandleStamped(id, time, payload);
      case Unstamped(payload) => plain := plain + [payload];
    }

    /** A reply is handled only while its query is outstanding. */
    method ReplyHandler(sample: Sample, ghost query: Query)
      requires Valid() && query in live && Answers(query, sample)
      modifies Repr()
      ensures Valid() && fresh(Repr() - old(Repr()))
      ensures View() == Step(old(View()), Reply(query, sample))
    {
      hide Sources, Clocks, Repr;
      if isUndeclaring {
        return;
      }
      hide Receive, ReceiveStamped;
      match sample
      case Sequenced(id, sn, payload) => HandleSequenced(id, sn, payload);
      case Timestamped(id, time, payload) => HandleStamped(id, time, payload);
      case Unstamped(payload) => plain := plain + [payload];
    }

    method WorkHeartbeat(id: nat, sn: nat, launch: Launch) returns (launched: bool)
      requires Valid()
      modifies Repr()
      ensures Valid() && fresh(Repr() - old(Repr()))
      ensures var st := old(View());
              var s := SourceOf(st, id);
              && launched == (!s.hasLast || (sn > s.last && s.queries == 0))
              && View() == PutSource(st, id, if launched then LaunchedSource(st.global, s, launch) else s, st.live)
    {
      hide Repr, Sources, Clocks, LaunchedSource;
      var s, _ := FindSource(id);
      launched := s.HandleHeartbeat(globalPendingQueries, sn, launch);
      OneSource(id, s);
    }

    method HandleHeartbeat(id: nat, sn: nat, launch: Launch)
      requires Valid() && (id in sequencedStates || globalPendingQueries == 0)
      modifies Repr()
      ensures Valid() && fresh(Repr() - old(Repr()))
      ensures View() == OnHeartbeat(old(View()), id, sn, launch)
    {
      hide Repr, Sources, Clocks, LaunchedSource;
      SourceAt(id);
      var launched := WorkHeartbeat(id, sn, launch);
      if launched {
        live := LiveAfter(live, ForSource(id), launch);
      }
    }

    method HeartbeatCallback(id: nat, sn: nat, launch: Launch)
      requires Valid()
      modifies Repr()
      ensures Valid() && fresh(Repr() - old(Repr()))
      ensures View() == Step(old(View()), Heartbeat(id, sn, launch))
    {
      hide LaunchedSource, Sources, Clocks, Repr;
      SourceAt(id);
      if !isUndeclaring && (id in sequencedStates || globalPendingQueries == 0) {
        HandleHeartbeat(id, sn, launch);
      }
    }

    method WorkPublisher(id: nat, launch: Launch)
      requires Valid()
      modifies Repr()
      ensures Valid() && fresh(Repr() - old(Repr()))
      ensures View() == OnNewPublisher(old(View()), id, launch).(live := old(live))
    {
      hide Repr, Sources, Clocks, LaunchedSource, Spawn;
      var s, isNew := FindSource(id);
      s.HandleDetection(cfg, globalPendingQueries, isNew, launch);
      OneSource(id, s);
    }

    method HandlePublisher(id: nat, launch: Launch)
      requires Valid()
      modifies Repr()
      ensures Valid() && fresh(Repr() - old(Repr()))
      ensures View() == OnNewPublisher(old(View()), id, launch)
    {
      hide Repr, Sources, Clocks, LaunchedSource, Spawn;
      WorkPublisher(id, launch);
      live := LiveAfter(live, ForSource(id), launch);
    }

    method PublisherDetected(id: nat, launch: Launch)
      requires Valid()
      modifies Repr()
      ensures Valid() && fresh(Repr() - old(Repr()))
      ensures View() == Step(old(View()), NewPublisher(id, launch))
    {
      hide OnNewPublisher, Sources, Clocks, Repr;
      if !isUndeclaring {
        HandlePublisher(id, launch);
      }
    }

    method WorkClock(id: nat, launch: Launch)
      requires Valid()
      modifies Repr()
      ensures Valid() && fresh(Repr() - old(Repr()))
      ensures View() == OnNewClock(old(View()), id, launch).(live := old(live))
    {
      hide Repr, Sources, Clocks, LaunchedClock;
      var c := FindClock(id);
      c.LaunchQuery(globalPendingQueries, launch);
      OneClock(id, c);
    }

    method HandleClock(id: nat, launch: Launch)
      requires Valid()
      modifies Repr()
      ensures Valid() && fresh(Repr() - old(Repr()))
      ensures View() == OnNewClock(old(View()), id, launch)
    {
      hide Repr, Sources, Clocks, LaunchedClock;
      WorkClock(id, launch);
      live := LiveAfter(live, ForClock(id), launch);
    }

    method ClockDetected(id: nat, launch: Launch)
      requires Valid()
      modifies Repr()
      ensures Valid() && fresh(Repr() - old(Repr()))
      ensures View() == Step(old(View()), NewClock(id, launch))
    {
      hide OnNewClock, Sources, Clocks, Repr;
      if !isUndeclaring {
        HandleClock(id, launch);
      }
    }

    method PeriodicQuery(id: nat, launch: Launch)
      requires Valid()
      modifies Repr()
      ensures Valid() && fresh(Repr() - old(Repr()))
      ensures View() == Step(old(View()), Tick(id, launch))
    {
      hide Sources, Clocks;
      hide LaunchedSource, LaunchedClock;
      SourceAt(id);
      if isUndeclaring || globalPendingQueries != 0 || id !in sequencedStates {
        return;
      }
      var s := sequencedStates[id];
      if s.pendingQueries == 0 {
        s.LaunchQuery(globalPendingQueries, launch);
        live := LiveAfter(live, ForSource(id), launch);
      }
      OneSource(id, s);
    }

    twostate lemma AllSources()
      requires sequencedStates == old(sequencedStates) && timestampedStates == old(timestampedStates)
      requires forall id :: id in sequencedStates ==>
                 sequencedStates[id].View() == Spawn(cfg, 0, Flush(old(sequencedStates[id].View())))
      ensures Sources() == FlushedSources(cfg, old(Sources()))
    {
      hide Flush, Spawn;
    }

    twostate lemma AllClocks()
      requires sequencedStates == old(sequencedStates) && timestampedStates == old(timestampedStates)
      requires forall id :: id in timestampedStates ==>
                 timestampedStates[id].View() == FlushStamped(old(timestampedStates[id].View()))
      ensures Clocks() == FlushedClocks(old(Clocks()))
    {
      hide FlushStamped;
    }

    /** The history query is over: every source without queries of its own is flushed. */
    method FlushAllSources()
      requires Valid() && globalPendingQueries == 0
      modifies sequencedStates.Values
      ensures Sources() == FlushedSources(cfg, old(Sources())) && Clocks() == old(Clocks())
    {
      hide Flush, Spawn, Sources, Clocks, FlushedSources;
      var todo := sequencedStates.Keys;
      while todo != {}
        invariant todo <= sequencedStates.Keys
        invariant forall id :: id in todo ==> unchanged(sequencedStates[id])
        invariant forall id :: id in sequencedStates && id !in todo ==>
                    sequencedStates[id].View() == Spawn(cfg, 0, Flush(old(sequencedStates[id].View())))
        decreases |todo|
      {
        var id :| id in todo;
        var s := sequencedStates[id];
        s.FlushPending();
        s.SpawnPeriodicQuery(cfg, globalPendingQueries);
        todo := todo - {id};
      }
      AllSources();
    }

    method FlushAllClocks()
      requires Valid()
      modifies timestampedStates.Values
      ensures Clocks() == FlushedClocks(old(Clocks())) && Sources() == old(Sources())
    {
      hide FlushStamped, Sources, Clocks, FlushedClocks;
      var todo := timestampedStates.Keys;
      while todo != {}
        invariant todo <= timestampedStates.Keys
        invariant forall id :: id in todo ==> unchanged(timestampedStates[id])
        invariant forall id :: id in timestampedStates && id !in todo ==>
                    timestampedStates[id].View() == FlushStamped(old(timestampedStates[id].View()))
        decreases |todo|
      {
        var id :| id in todo;
        timestampedStates[id].FlushPending();
        todo := todo - {id};
      }
      AllClocks();
    }

    method HistoryQueryDropped()
      requires Valid()
      modifies Repr()
      ensures Valid() && Repr() == old(Repr())
      ensures View() == DropHandler(old(View()), Initial)
    {
      hide Sources, Clocks, FlushedSources, FlushedClocks;
      globalPendingQueries := if globalPendingQueries > 0 then globalPendingQueries - 1 else 0;
      if globalPendingQueries == 0 {
        FlushAllSources();
        FlushAllClocks();
      }
    }

    method SourceQueryDropped(id: nat)
      requires Valid()
      modifies Repr()
      ensures Valid() && Repr() == old(Repr())
      ensures View() == DropHandler(old(View()), ForSource(id))
    {
      hide Sources, Clocks, DroppedSource;
      SourceAt(id);
      if id in sequencedStates {
        sequencedStates[id].QueryDropped(globalPendingQueries);
        OneSource(id, sequencedStates[id]);
      }
    }

    method ClockQueryDropped(id: nat)
      requires Valid()
      modifies Repr()
      ensures Valid() && Repr() == old(Repr())
      ensures View() == DropHandler(old(View()), ForClock(id))
    {
      hide Sources, Clocks, DroppedClock;
      SourceAt(id);
      if id in timestampedStates {
        timestampedStates[id].QueryDropped(globalPendingQueries);
        OneClock(id, timestampedStates[id]);
      }
    }

    method QueryDropHandler(query: Query)
      requires Valid() && query in live
      modifies Repr()
      ensures Valid() && Repr() == old(Repr())
      ensures View() == Step(old(View()), Drop(query))
    {
      hide DropHandler, Sources, Clocks, Repr;
      live := live - multiset{query};
      match query
      case Initial => HistoryQueryDropped();
      case ForSource(id) => SourceQueryDropped(id);
      case ForClock(id) => ClockQueryDropped(id);
    }

    ghost function Logs(): (m: map<nat, seq<Event>>)
      reads this`sequencedStates, sequencedStates.Values
      ensures m == SourceLogs(Sources())
    {
      map id | id in sequencedStates :: sequencedStates[id].log
    }

    ghost function Stamps(): (m: map<nat, seq<Stamp>>)
      reads this`timestampedStates, timestampedStates.Values
      ensures m == ClockLogs(Clocks())
    {
      map id | id in timestampedStates :: timestampedStates[id].log
    }

    lemma NothingLeft()
      requires sequencedStates == map[] && timestampedStates == map[]
      ensures Sources() == map[] && Clocks() == map[]
    {
    }

    method SubscriberDropHandler()
      requires Valid()
      modifies this
      ensures Valid() && Repr() <= old(Repr())
      ensures View() == Step(old(View()), Undeclare)
    {
      hide Sources, Clocks, Logs, Stamps, SourceLogs, ClockLogs;
      if isUndeclaring {
        return;
      }
      isUndeclaring := true;
      closed, closedClocks := Logs(), Stamps();
      sequencedStates, timestampedStates := map[], map[];
      NothingLeft();
    }
  }
}

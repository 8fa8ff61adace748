/** What one handler delivers and buffers: exactly which samples, and with which payloads. */
module SourcePayloads {
  import opened Delivery
  import opened DeliveryLog
  import opened StampedDelivery
  import opened SourceSteps
  import opened ClockSteps

  // ----- Payloads of a sequenced source -----

  /** Everything that `after` adds to `before` was buffered, with this payload, or is the sample given. */
  ghost predicate AddsFrom(before: seq<Event>, after: seq<Event>, pending: map<nat, nat>, given: set<Event>) {
    && before <= after
    && forall i :: |before| <= i < |after| && after[i].Delivered? ==>
         (after[i].sn in pending && pending[after[i].sn] == after[i].payload) || after[i] in given
  }

  ghost predicate Within(rest: map<nat, nat>, pending: map<nat, nat>) {
    forall k :: k in rest ==> k in pending && rest[k] == pending[k]
  }

  lemma AddsTrans(a: seq<Event>, b: seq<Event>, c: seq<Event>, rest: map<nat, nat>, pending: map<nat, nat>,
                  given: set<Event>)
    requires AddsFrom(a, b, pending, given) && AddsFrom(b, c, rest, {}) && Within(rest, pending)
    ensures AddsFrom(a, c, pending, given)
  {
    assert forall i :: |a| <= i < |b| ==> c[i] == b[i];
  }

  /** Draining delivers each buffered sample with its own payload and leaves the others as they are. */
  lemma {:induction false} DrainPayloads(s: Source)
    ensures var r := DrainRun(s);
            AddsFrom(s.log, r.log, s.pending, {}) && Within(r.pending, s.pending)
    decreases |s.pending|
  {
    if s.hasLast && s.last + 1 in s.pending {
      var t := DrainOne(s);
      DrainPayloads(t);
      hide AddsFrom;
      assert AddsFrom(s.log, t.log, s.pending, {}) by {
        OneAdded(s.log, s.last + 1, s.pending[s.last + 1], s.pending, {});
      }
      AddsTrans(s.log, t.log, DrainRun(t).log, t.pending, s.pending, {});
    }
  }

  lemma OneAdded(log: seq<Event>, sn: nat, payload: nat, pending: map<nat, nat>, given: set<Event>)
    requires (sn in pending && pending[sn] == payload) || Delivered(sn, payload) in given
    ensures AddsFrom(log, log + [Delivered(sn, payload)], pending, given)
  {
  }

  lemma NothingAddedFrom(log: seq<Event>, pending: map<nat, nat>, given: set<Event>)
    ensures AddsFrom(log, log, pending, given)
  {
  }

  lemma DeliverAndFlushPayloads(s: Source, sn: nat, payload: nat, pending: map<nat, nat>, given: set<Event>)
    requires Within(s.pending, pending)
    requires (sn in pending && pending[sn] == payload) || Delivered(sn, payload) in given
    ensures var r := DeliverAndFlush(s, sn, payload);
            AddsFrom(s.log, r.log, pending, given) && Within(r.pending, pending)
  {
    hide AddsFrom, DrainRun;
    var t := Deliver(s, sn, payload);
    OneAdded(s.log, sn, payload, pending, given);
    DrainPayloads(t);
    AddsTrans(s.log, t.log, DrainRun(t).log, t.pending, pending, given);
  }

  lemma OfferPayloads(s: Source, k: nat, rest: map<nat, nat>)
    requires k in rest
    ensures AddsFrom(s.log, Offer(s, k, rest[k]).log, rest, {})
  {
  }

  /** A flush delivers each buffered sample with its own payload. */
  lemma {:induction false} OfferAllPayloads(s: Source, rest: map<nat, nat>)
    ensures AddsFrom(s.log, OfferAll(s, rest).log, rest, {})
    decreases |rest|
  {
    if rest != map[] {
      var k := MinKey(rest);
      var rest' := rest - {k};
      assert rest.Keys == rest'.Keys + {k};
      var t := Offer(s, k, rest[k]);
      hide AddsFrom, Offer;
      OfferAllPayloads(t, rest');
      OfferPayloads(s, k, rest);
      AddsTrans(s.log, t.log, OfferAll(t, rest').log, rest', rest, {});
    }
  }

  lemma FlushPayloads(s: Source)
    ensures AddsFrom(s.log, Flush(s).log, s.pending, {}) && Within(Flush(s).pending, s.pending)
  {
    OfferAllPayloads(s, s.pending);
  }

  /** What an arrival adds to the log: the arriving sample with its payload, and buffered ones with theirs;
    * under the arriving number it never delivers anything else. */
  ghost predicate ArrivalAdds(s: Source, r: Source, sn: nat, payload: nat) {
    && s.log <= r.log
    && (forall i :: |s.log| <= i < |r.log| && r.log[i].Delivered? ==>
         if r.log[i].sn == sn then r.log[i].payload == payload
         else r.log[i].sn in s.pending && r.log[i].payload == s.pending[r.log[i].sn])
    && (forall k :: k in r.pending ==>
         (k in s.pending && r.pending[k] == s.pending[k]) || (k == sn && r.pending[k] == payload))
  }

  lemma DrainedLater(s: Source, sn: nat, payload: nat)
    ensures var r := DeliverAndFlush(s, sn, payload);
            && |s.log| < |r.log| && s.log <= r.log && r.log[|s.log|] == Delivered(sn, payload)
            && forall i :: |s.log| < i < |r.log| ==> r.log[i].Delivered? && r.log[i].sn > sn
  {
    var t := Deliver(s, sn, payload);
    DrainRunLogs(t);
    DrainGoesUp(t);
  }

  lemma {:induction false} DrainGoesUp(s: Source)
    requires s.hasLast
    ensures s.log <= DrainRun(s).log
    ensures var log := DrainRun(s).log;
            forall i :: |s.log| <= i < |log| ==> log[i].Delivered? && log[i].sn > s.last
    decreases |s.pending|
  {
    if s.last + 1 in s.pending {
      var t := DrainOne(s);
      DrainGoesUp(t);
      assert forall i :: |s.log| <= i < |t.log| ==> DrainRun(t).log[i] == t.log[i];
    }
  }

  lemma InOrderAdds(s: Source, sn: nat, payload: nat)
    ensures ArrivalAdds(s, DeliverAndFlush(s, sn, payload), sn, payload)
  {
    DeliverAndFlushPayloads(s, sn, payload, s.pending, {Delivered(sn, payload)});
    DrainedLater(s, sn, payload);
  }

  lemma ReleaseAdds(s: Source, pending: map<nat, nat>, sn: nat, payload: nat)
    requires !s.hasLast && sn in pending && pending == s.pending[sn := payload]
    ensures var first := MinKey(pending);
            ArrivalAdds(s, DeliverAndFlush(s.(pending := pending - {first}), first, pending[first]), sn, payload)
  {
    var first := MinKey(pending);
    DeliverAndFlushPayloads(s.(pending := pending - {first}), first, pending[first], pending, {});
  }

  /** In every mode an arrival delivers and buffers samples with the payloads they came with. */
  lemma ReceivePayloads(cfg: Config, global: nat, s: Source, sn: nat, payload: nat)
    ensures ArrivalAdds(s, Receive(cfg, global, s, sn, payload), sn, payload)
  {
    hide DeliverAndFlush;
    if !s.hasLast && global != 0 && cfg.historyDepth != 1 {
      ReleaseAdds(s, s.pending[sn := payload], sn, payload);
    } else if (!s.hasLast && global == 0) || (s.hasLast && sn == s.last + 1) {
      InOrderAdds(s, sn, payload);
    }
  }

  // ----- Exactly what is delivered -----

  /** The numbers after `from` up to `k` are all there. */
  ghost predicate Follows(keys: set<nat>, from: nat, k: nat) {
    from < k && forall j: nat :: from < j <= k ==> j in keys
  }

  lemma FollowsNext(keys: set<nat>, rest: set<nat>, last: nat, k: nat)
    requires last + 1 in keys && rest == keys - {last + 1}
    ensures Follows(keys, last, k) <==> k == last + 1 || Follows(rest, last + 1, k)
  {
    if Follows(rest, last + 1, k) {
      forall j: nat | last < j <= k
        ensures j in keys
      {
        assert j > last + 1 ==> j in rest;
      }
    }
  }

  lemma NothingFollows(keys: set<nat>, last: nat, k: nat)
    requires last + 1 !in keys
    ensures !Follows(keys, last, k)
  {
  }

  /** Draining takes exactly the numbers that follow the last delivery without a gap. */
  lemma {:induction false} DrainDelivers(s: Source)
    requires s.hasLast
    ensures var r := DrainRun(s);
            && (forall k: nat :: Has(r.log, k) <==> Has(s.log, k) || Follows(s.pending.Keys, s.last, k))
            && (forall k: nat :: k in r.pending <==> k in s.pending && !Follows(s.pending.Keys, s.last, k))
    decreases |s.pending|
  {
    hide Has, Follows;
    if s.last + 1 in s.pending {
      var next := s.last + 1;
      var t := DrainOne(s);
      DeliverKeeps(s, next, s.pending[next]);
      DrainDelivers(t);
      forall k: nat
        ensures Follows(s.pending.Keys, s.last, k) <==> k == next || Follows(t.pending.Keys, next, k)
      {
        FollowsNext(s.pending.Keys, t.pending.Keys, s.last, k);
      }
    } else {
      forall k: nat
        ensures !Follows(s.pending.Keys, s.last, k)
      {
        NothingFollows(s.pending.Keys, s.last, k);
      }
    }
  }

  /** The numbers that delivering `sn` takes with it, in a buffer that holds `keys`. */
  ghost predicate TakenBy(keys: set<nat>, sn: nat, k: nat) {
    k == sn || Follows(keys, sn, k)
  }

  lemma DeliverAndFlushDelivers(s: Source, sn: nat, payload: nat)
    ensures var r := DeliverAndFlush(s, sn, payload);
            && (forall k: nat :: Has(r.log, k) <==> Has(s.log, k) || TakenBy(s.pending.Keys, sn, k))
            && (forall k: nat :: k in r.pending <==> k in s.pending && !Follows(s.pending.Keys, sn, k))
  {
    hide Has, Follows, DrainRun;
    DeliverKeeps(s, sn, payload);
    DrainDelivers(Deliver(s, sn, payload));
  }

  /** Before the first delivery and during history, an arrival makes the buffer full. */
  ghost predicate Fills(cfg: Config, s: Source, sn: nat) {
    cfg.historyDepth > 0 && |s.pending.Keys + {sn}| >= cfg.historyDepth
  }

  /** Exactly what an arrival delivers, in every mode. During history, before the first delivery: itself if
    * the depth is one, otherwise nothing until the buffer is full, and then the smallest buffered number and
    * what follows it. Later: itself and what follows it, if it is the next expected number or the first
    * delivery; itself alone over a gap without retransmission; and otherwise nothing. */
  ghost predicate Delivers(cfg: Config, global: nat, s: Source, sn: nat, k: nat) {
    var keys := s.pending.Keys + {sn};
    if !s.hasLast && global != 0 then
      if cfg.historyDepth == 1 then k == sn
      else Fills(cfg, s, sn) && exists first: nat :: IsLeast(keys, first) && TakenBy(keys, first, k)
    else if !s.hasLast || sn == s.last + 1 then TakenBy(s.pending.Keys, sn, k)
    else sn > s.last && !cfg.retransmission && k == sn
  }

  ghost predicate IsLeast(keys: set<nat>, k: nat) {
    k in keys && forall j :: j in keys ==> k <= j
  }

  lemma ReleaseDelivers(s: Source, pending: map<nat, nat>)
    requires !s.hasLast && pending != map[]
    ensures var first := MinKey(pending);
            var r := DeliverAndFlush(s.(pending := pending - {first}), first, pending[first]);
            && (forall k: nat :: Has(r.log, k) <==> Has(s.log, k) || TakenBy(pending.Keys, first, k))
            && (forall k: nat :: k in r.pending <==> k in pending && !TakenBy(pending.Keys, first, k))
  {
    hide Has, DeliverAndFlush;
    var first := MinKey(pending);
    var rest := pending - {first};
    DeliverAndFlushDelivers(s.(pending := rest), first, pending[first]);
    forall k: nat
      ensures Follows(rest.Keys, first, k) <==> Follows(pending.Keys, first, k)
    {
      assert forall j: nat :: first < j ==> (j in rest.Keys <==> j in pending.Keys);
    }
  }

  lemma LeastUnique(pending: map<nat, nat>, k: nat)
    requires pending != map[]
    ensures IsLeast(pending.Keys, k) <==> k == MinKey(pending)
  {
    var first := MinKey(pending);
    assert first in pending.Keys;
  }

  lemma ReceiveDelivers(cfg: Config, global: nat, s: Source, sn: nat, payload: nat)
    ensures var r := Receive(cfg, global, s, sn, payload);
            forall k: nat :: Has(r.log, k) <==> Has(s.log, k) || Delivers(cfg, global, s, sn, k)
  {
    hide Has, DeliverAndFlush, TakenBy;
    if !s.hasLast && global != 0 {
      if cfg.historyDepth == 1 {
        DeliverKeeps(s, sn, payload);
      } else {
        var pending := s.pending[sn := payload];
        assert sn in pending && pending.Keys == s.pending.Keys + {sn};
        if cfg.historyDepth > 0 && |pending| >= cfg.historyDepth {
          ReleaseDelivers(s, pending);
          LeastUnique(pending, MinKey(pending));
          forall first: nat | IsLeast(pending.Keys, first)
            ensures first == MinKey(pending)
          {
            LeastUnique(pending, first);
          }
        }
      }
    } else if !s.hasLast || sn == s.last + 1 {
      DeliverAndFlushDelivers(s, sn, payload);
    } else if sn > s.last && !cfg.retransmission {
      SkipKeeps(s, sn, payload);
    }
  }

  // ----- Timestamped sources -----

  /** Everything that `after` adds was buffered with this payload, or is the sample given. */
  ghost predicate AddsStamps(before: seq<Stamp>, after: seq<Stamp>, pending: map<nat, nat>) {
    && before <= after
    && forall i :: |before| <= i < |after| ==>
         after[i].time in pending && pending[after[i].time] == after[i].payload
  }

  lemma {:induction false} OfferAllStampPayloads(c: Clock, rest: map<nat, nat>)
    ensures AddsStamps(c.log, OfferAllStamped(c, rest).log, rest)
    decreases |rest|
  {
    if rest != map[] {
      var k := MinKey(rest);
      var rest' := rest - {k};
      assert rest.Keys == rest'.Keys + {k};
      var d := OfferStamped(c, k, rest[k]);
      OfferAllStampPayloads(d, rest');
      assert forall i :: |c.log| <= i < |d.log| ==> OfferAllStamped(d, rest').log[i] == d.log[i];
    }
  }

  lemma FlushStampPayloads(c: Clock)
    ensures AddsStamps(c.log, FlushStamped(c).log, c.pending)
    ensures FlushStamped(c).pending == map[] || FlushStamped(c).pending == c.pending
  {
    OfferAllStampPayloads(c, c.pending);
  }

  /** An arrival that is delivered at once is delivered with its payload; one that is buffered keeps the
    * payload of the first sample with its timestamp, and what is delivered out of the buffer keeps its own. */
  lemma ReceiveStampPayloads(cfg: Config, global: nat, c: Clock, time: nat, payload: nat)
    ensures var r := ReceiveStamped(cfg, global, c, time, payload);
            var atOnce := Quiet(global, c) || cfg.historyDepth == 1;
            var buffer := if time in c.pending then c.pending else c.pending[time := payload];
            if !NewerStamp(c, time) then r == c
            else if atOnce then r.log == c.log + [Stamp(time, payload)] && r.pending == c.pending
            else AddsStamps(c.log, r.log, buffer) && (r.pending == buffer || r.pending == map[])
  {
    var buffer := if time in c.pending then c.pending else c.pending[time := payload];
    FlushStampPayloads(c.(pending := buffer));
    assert time in c.pending ==> c.(pending := buffer) == c;
  }

  /** Exactly what an arrival of a newer sample delivers: itself if no query is outstanding or the depth is
    * one; otherwise nothing until the buffer is full and no query of the source is counted, and then all
    * buffered samples newer than the last delivery. */
  lemma ReceiveStampDelivers(cfg: Config, global: nat, c: Clock, time: nat, payload: nat)
    requires NewerStamp(c, time)
    ensures var r := ReceiveStamped(cfg, global, c, time, payload);
            var keys := c.pending.Keys + {time};
            var full := cfg.historyDepth > 0 && |keys| >= cfg.historyDepth && c.queries == 0;
            var atOnce := (global == 0 && c.queries == 0) || cfg.historyDepth == 1;
            forall t: nat :: HasTime(r.log, t) <==>
              || HasTime(c.log, t)
              || (if atOnce then t == time else full && t in keys && NewerStamp(c, t))
  {
    hide HasTime;
    DeliverStampedKeeps(c, time, payload);
    var c' := if time in c.pending then c else c.(pending := c.pending[time := payload]);
    assert c'.pending.Keys == c.pending.Keys + {time};
    OfferAllStampedKeeps(c', c'.pending);
  }
}

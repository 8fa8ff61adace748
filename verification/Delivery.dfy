/** Delivery state of one sequenced source: what the subscriber keeps per publisher, and what
  * it reports to its two callbacks. Sequence numbers are unbounded; query counters are 64-bit. */
module Delivery {

  const U64_MAX: nat := 0xFFFF_FFFF_FFFF_FFFF

  /** One callback: a sample handed to the user, or a miss report of `nb` consecutive samples. */
  datatype Event = Delivered(sn: nat, payload: nat) | Missed(nb: nat)

  datatype Source = Source(
    hasLast: bool,
    last: nat,
    queries: nat,
    pending: map<nat, nat>,
    periodic: bool,
    log: seq<Event>)

  const NEW_SOURCE := Source(false, 0, 0, map[], false, [])

  function Increment(counter: nat): nat {
    if counter == U64_MAX then 0 else counter + 1
  }

  function Decrement(counter: nat): nat {
    if counter == 0 then U64_MAX else counter - 1
  }

  function SaturatingDecrement(counter: nat): nat {
    if counter > 0 then counter - 1 else 0
  }

  // ----- Ordered iteration over the pending samples -----

  ghost predicate IsMinKey(m: map<nat, nat>, k: nat) {
    k in m && forall j :: j in m ==> k <= j
  }

  lemma MinKeyExists(m: map<nat, nat>)
    requires m != map[]
    ensures exists k :: IsMinKey(m, k)
    decreases |m|
  {
    var k :| k in m;
    var rest := m - {k};
    if rest == map[] {
      assert forall j :: j in m && j != k ==> j in rest;
      assert IsMinKey(m, k);
    } else {
      assert m.Keys == rest.Keys + {k};
      MinKeyExists(rest);
      var r :| IsMinKey(rest, r);
      assert forall j :: j in m && j != k ==> j in rest;
      assert IsMinKey(m, if k <= r then k else r);
    }
  }

  ghost function MinKey(m: map<nat, nat>): (k: nat)
    requires m != map[]
    ensures IsMinKey(m, k)
  {
    MinKeyExists(m);
    var k :| IsMinKey(m, k);
    k
  }

  lemma MinKeyUnique(m: map<nat, nat>, k: nat)
    requires IsMinKey(m, k)
    ensures MinKey(m) == k
  {
    assert k in m;
  }

  // ----- Deliveries -----

  /** Hand sample `sn` to the callback and make it the last delivered one. */
  function Deliver(s: Source, sn: nat, payload: nat): Source {
    s.(hasLast := true, last := sn, log := s.log + [Delivered(sn, payload)])
  }

  /** Deliver the buffered samples that directly follow the last delivered one. */
  ghost function DrainRun(s: Source): (r: Source)
    ensures r.queries == s.queries && r.periodic == s.periodic && r.hasLast == s.hasLast
    ensures r.pending.Keys <= s.pending.Keys
    decreases |s.pending|
  {
    var next := s.last + 1;
    if s.hasLast && next in s.pending then
      var rest := s.pending - {next};
      assert s.pending.Keys == rest.Keys + {next};
      DrainRun(Deliver(s, next, s.pending[next]).(pending := rest))
    else s
  }

  ghost function DeliverAndFlush(s: Source, sn: nat, payload: nat): (r: Source)
    ensures r.queries == s.queries && r.periodic == s.periodic
  {
    DrainRun(Deliver(s, sn, payload))
  }

  /** One buffered sample during a flush: gaps are reported, old samples skipped. */
  function Offer(s: Source, sn: nat, payload: nat): Source {
    if !s.hasLast then Deliver(s, sn, payload)
    else
      var diff := sn - (s.last + 1);
      if diff < 0 then s
      else if diff == 0 then Deliver(s, sn, payload)
      else Deliver(s.(log := s.log + [Missed(diff)]), sn, payload)
  }

  ghost function OfferAll(s: Source, rest: map<nat, nat>): (r: Source)
    ensures r.queries == s.queries && r.periodic == s.periodic && r.pending == s.pending
    decreases |rest|
  {
    if rest == map[] then s
    else
      var k := MinKey(rest);
      var rest' := rest - {k};
      assert rest.Keys == rest'.Keys + {k};
      OfferAll(Offer(s, k, rest[k]), rest')
  }

  ghost function Flush(s: Source): (r: Source)
    ensures r.queries == s.queries && r.periodic == s.periodic
  {
    if s.queries != 0 || s.pending == map[] then s
    else OfferAll(s, s.pending).(pending := map[])
  }

  datatype Config = Config(history: bool, retransmission: bool, historyDepth: nat, hasPeriod: bool)

  /** A sample of this source arrives, live or as a query reply. */
  ghost function Receive(cfg: Config, global: nat, s: Source, sn: nat, payload: nat): (r: Source)
    ensures r.queries == s.queries && r.periodic == s.periodic
  {
    if !s.hasLast && global != 0 then
      if cfg.historyDepth == 1 then Deliver(s, sn, payload)
      else
        var s' := s.(pending := s.pending[sn := payload]);
        if cfg.historyDepth > 0 && |s'.pending| >= cfg.historyDepth then
          var first := MinKey(s'.pending);
          DeliverAndFlush(s'.(pending := s'.pending - {first}), first, s'.pending[first])
        else s'
    else if s.hasLast then
      var next := s.last + 1;
      if sn == next then DeliverAndFlush(s, sn, payload)
      else if sn > next then
        if cfg.retransmission then s.(pending := s.pending[sn := payload])
        else Deliver(s.(log := s.log + [Missed(sn - next)]), sn, payload)
      else s
    else DeliverAndFlush(s, sn, payload)
  }
}

/** What a callback log says: a walk over the sequence numbers that never steps back. */
module DeliveryLog {
  import opened Delivery

  datatype Position = Start | At(sn: nat) | Broken

  function Advance(p: Position, e: Event): Position {
    match e
    case Delivered(sn, _) => if p.Start? || (p.At? && sn == p.sn + 1) then At(sn) else Broken
    case Missed(nb) => if p.At? && nb > 0 then At(p.sn + nb) else Broken
  }

  function EndOf(log: seq<Event>): Position {
    if log == [] then Start else Advance(EndOf(log[..|log| - 1]), log[|log| - 1])
  }

  lemma EndOfAppend(log: seq<Event>, e: Event)
    ensures EndOf(log + [e]) == Advance(EndOf(log), e)
  {
    assert (log + [e])[..|log|] == log;
  }

  /** The last callback delivered sample `sn`. */
  predicate EndsWith(log: seq<Event>, sn: nat) {
    log != [] && log[|log| - 1].Delivered? && log[|log| - 1].sn == sn
  }

  /** The log is unbroken and ends with the source's last delivered sample. */
  ghost predicate GapFree(s: Source) {
    if s.hasLast then EndOf(s.log) == At(s.last) && EndsWith(s.log, s.last) else s.log == []
  }

  function DeliveredCount(log: seq<Event>): nat {
    if log == [] then 0
    else DeliveredCount(log[..|log| - 1]) + if log[|log| - 1].Delivered? then 1 else 0
  }

  function MissedTotal(log: seq<Event>): nat {
    if log == [] then 0
    else MissedTotal(log[..|log| - 1]) + if log[|log| - 1].Missed? then log[|log| - 1].nb else 0
  }

  /** Event `i` accounts for sequence number `n`: it delivers it, or reports it inside a miss. */
  ghost predicate Accounts(log: seq<Event>, i: nat, n: nat) {
    i < |log| &&
    match log[i]
    case Delivered(sn, _) => n == sn
    case Missed(nb) => var p := EndOf(log[..i]); p.At? && p.sn < n <= p.sn + nb
  }

  lemma {:induction false} StartsWithDelivery(log: seq<Event>)
    requires EndOf(log).At?
    ensures log != [] && log[0].Delivered? && log[0].sn <= EndOf(log).sn
  {
    var init := log[..|log| - 1];
    if init != [] {
      StartsWithDelivery(init);
      assert init[0] == log[0];
    }
  }

  /** Conservation: every number from the first delivered to the last is a delivery or a miss. */
  lemma {:induction false} Conservation(log: seq<Event>)
    requires EndOf(log).At?
    ensures log != [] && log[0].Delivered?
    ensures EndOf(log).sn - log[0].sn + 1 == DeliveredCount(log) + MissedTotal(log)
  {
    StartsWithDelivery(log);
    var init := log[..|log| - 1];
    if init == [] {
      assert DeliveredCount(init) == 0 && MissedTotal(init) == 0;
    } else {
      Conservation(init);
      assert init[0] == log[0];
    }
  }

  /** An event accounts only for numbers up to the position it reaches and after the one it left. */
  lemma {:induction false} AccountsInside(log: seq<Event>, i: nat, n: nat)
    requires EndOf(log).At? && Accounts(log, i, n)
    ensures log[0].Delivered? && log[0].sn <= n <= EndOf(log).sn
  {
    StartsWithDelivery(log);
    var init := log[..|log| - 1];
    if i == |log| - 1 {
      if init != [] {
        StartsWithDelivery(init);
        assert init[0] == log[0];
      }
    } else {
      assert init[..i] == log[..i];
      AccountsInside(init, i, n);
      assert init[0] == log[0];
    }
  }

  /** Exactly once: each number in the walked range is accounted for by one event and no other. */
  lemma {:induction false} ExactlyOnce(log: seq<Event>, n: nat)
    requires EndOf(log).At? && log != [] && log[0].Delivered? && log[0].sn <= n <= EndOf(log).sn
    ensures exists i: nat :: Accounts(log, i, n)
    ensures forall i: nat, j: nat :: Accounts(log, i, n) && Accounts(log, j, n) ==> i == j
  {
    var k := |log| - 1;
    var init := log[..k];
    if init != [] {
      StartsWithDelivery(init);
      assert init[0] == log[0];
    }
    if init != [] && n <= EndOf(init).sn {
      ExactlyOnce(init, n);
      assert forall i: nat | i < k :: init[..i] == log[..i];
      assert forall i: nat :: i < k ==> (Accounts(init, i, n) <==> Accounts(log, i, n));
      assert !Accounts(log, k, n);
      var i: nat :| Accounts(init, i, n);
      assert Accounts(log, i, n);
    } else {
      assert Accounts(log, k, n);
      forall i: nat | Accounts(log, i, n)
        ensures i == k
      {
        if i < k {
          assert init[..i] == log[..i];
          AccountsInside(init, i, n);
        }
      }
    }
  }

  /** Deliveries come in strictly increasing order of sequence number. */
  lemma {:induction false} StrictlyIncreasing(log: seq<Event>, i: nat, j: nat)
    requires EndOf(log).At? && i < j < |log| && log[i].Delivered? && log[j].Delivered?
    ensures log[i].sn < log[j].sn
  {
    var init := log[..|log| - 1];
    StartsWithDelivery(init);
    if j == |log| - 1 {
      assert Accounts(init, i, log[i].sn);
      AccountsInside(init, i, log[i].sn);
    } else {
      StrictlyIncreasing(init, i, j);
    }
  }
}

/** What every step of one timestamped source keeps, and exactly which samples it loses. */
module ClockSteps {
  import opened Delivery
  import opened StampedDelivery

  ghost predicate HasTime(log: seq<Stamp>, time: nat) {
    exists i :: 0 <= i < |log| && log[i].time == time
  }

  ghost predicate TimesIncrease(log: seq<Stamp>) {
    forall i, j :: 0 <= i < j < |log| ==> log[i].time < log[j].time
  }

  /** Deliveries are strictly ordered in time and end at the last delivered one. */
  ghost predicate Ordered(c: Clock) {
    && (c.hasLast <==> c.log != [])
    && (c.hasLast ==> c.log[|c.log| - 1].time == c.last)
    && TimesIncrease(c.log)
  }

  /** Everything buffered is newer than everything delivered. */
  ghost predicate Ahead(c: Clock) {
    c.hasLast ==> forall t :: t in c.pending ==> t > c.last
  }

  ghost predicate CoveredTime(c: Clock, time: nat) {
    HasTime(c.log, time) || (time in c.pending && (c.hasLast ==> time > c.last))
  }

  /** No query is outstanding that could still bring older samples. */
  ghost predicate Quiet(global: nat, c: Clock) {
    global == 0 && c.queries == 0
  }

  /** The buffer is in use only while a query is outstanding, and never with a depth of one. */
  ghost predicate Buffering(cfg: Config, global: nat, c: Clock) {
    c.pending != map[] ==> !Quiet(global, c) && cfg.historyDepth != 1
  }

  ghost predicate EvolvesStamped(c: Clock, r: Clock) {
    && c.log <= r.log
    && (Ordered(c) ==> Ordered(r))
    && (Ordered(c) && Ahead(c) ==> Ahead(r))
  }

  ghost predicate KeepsCovered(c: Clock, r: Clock) {
    forall t :: CoveredTime(c, t) ==> CoveredTime(r, t)
  }

  lemma HasTimeGrows(before: seq<Stamp>, after: seq<Stamp>)
    requires before <= after
    ensures forall t :: HasTime(before, t) ==> HasTime(after, t)
  {
    forall t | HasTime(before, t)
      ensures HasTime(after, t)
    {
      var i :| 0 <= i < |before| && before[i].time == t;
      assert after[i] == before[i];
    }
  }

  lemma DeliverStampedKeeps(c: Clock, time: nat, payload: nat)
    ensures var r := DeliverStamped(c, time, payload);
            && c.log <= r.log
            && (Ordered(c) && (c.hasLast ==> time > c.last) ==> Ordered(r))
            && forall t: nat :: HasTime(r.log, t) <==> HasTime(c.log, t) || t == time
  {
    var r := DeliverStamped(c, time, payload);
    HasTimeGrows(c.log, r.log);
    assert r.log[|c.log|].time == time;
    forall t: nat | HasTime(r.log, t)
      ensures HasTime(c.log, t) || t == time
    {
      var i :| 0 <= i < |r.log| && r.log[i].time == t;
      assert i < |c.log| ==> c.log[i] == r.log[i];
    }
  }

  lemma OfferStampedKeeps(c: Clock, time: nat, payload: nat)
    ensures var r := OfferStamped(c, time, payload);
            && c.log <= r.log
            && r.hasLast && r.last == (if c.hasLast && c.last > time then c.last else time)
            && (Ordered(c) ==> Ordered(r))
            && forall t: nat :: HasTime(r.log, t) <==> HasTime(c.log, t) || (t == time && (c.hasLast ==> time > c.last))
  {
    hide HasTime, Ordered;
    DeliverStampedKeeps(c, time, payload);
  }

  lemma {:induction false} OfferAllStampedKeeps(c: Clock, rest: map<nat, nat>)
    ensures var r := OfferAllStamped(c, rest);
            && c.log <= r.log
            && (Ordered(c) ==> Ordered(r))
            && forall t: nat :: HasTime(r.log, t) <==> HasTime(c.log, t) || (t in rest && (c.hasLast ==> t > c.last))
    decreases |rest|
  {
    hide HasTime, Ordered, OfferStamped;
    if rest != map[] {
      var k := MinKey(rest);
      var rest' := rest - {k};
      assert rest.Keys == rest'.Keys + {k};
      OfferStampedKeeps(c, k, rest[k]);
      OfferAllStampedKeeps(OfferStamped(c, k, rest[k]), rest');
    }
  }

  /** A flush keeps exactly what was delivered or buffered ahead, and in order. */
  lemma FlushStampedKeeps(c: Clock)
    ensures EvolvesStamped(c, FlushStamped(c))
    ensures forall t: nat :: CoveredTime(FlushStamped(c), t) <==> CoveredTime(c, t)
    ensures FlushStamped(c).pending == if c.queries == 0 then map[] else c.pending
  {
    hide HasTime;
    OfferAllStampedKeeps(c, c.pending);
  }

  /** The arrival of a sample overtakes an older buffered one: it is delivered at once, without a look
    * at the buffer. */
  ghost predicate OvertakesStamp(cfg: Config, global: nat, c: Clock, time: nat, t: nat) {
    t < time && !HasTime(c.log, t) && (Quiet(global, c) || cfg.historyDepth == 1)
  }

  predicate NewerStamp(c: Clock, time: nat) {
    c.hasLast ==> time > c.last
  }

  /** Exactly which samples an arrival keeps: those that were delivered or buffered ahead and are not
    * overtaken, and the arriving one if it is newer than the last delivery. */
  lemma ReceiveStampedExactly(cfg: Config, global: nat, c: Clock, time: nat, payload: nat)
    ensures var r := ReceiveStamped(cfg, global, c, time, payload);
            && r.queries == c.queries
            && forall t: nat :: CoveredTime(r, t) <==>
                 (CoveredTime(c, t) && !OvertakesStamp(cfg, global, c, time, t)) || (t == time && NewerStamp(c, time))
  {
    hide HasTime;
    if NewerStamp(c, time) {
      if Quiet(global, c) || cfg.historyDepth == 1 {
        DeliverStampedKeeps(c, time, payload);
      } else {
        var c' := if time in c.pending then c else c.(pending := c.pending[time := payload]);
        FlushStampedKeeps(c');
      }
    }
  }

  /** An arrival keeps deliveries strictly increasing in time. */
  lemma ReceiveStampedOrdered(cfg: Config, global: nat, c: Clock, time: nat, payload: nat)
    ensures var r := ReceiveStamped(cfg, global, c, time, payload);
            c.log <= r.log && (Ordered(c) ==> Ordered(r))
  {
    hide HasTime;
    DeliverStampedKeeps(c, time, payload);
    var c' := if time in c.pending then c else c.(pending := c.pending[time := payload]);
    FlushStampedKeeps(c');
  }

  /** While the buffer is in use only as it should be, an arrival overtakes and loses nothing. */
  lemma ReceiveStampedKeeps(cfg: Config, global: nat, c: Clock, time: nat, payload: nat)
    requires Buffering(cfg, global, c)
    ensures var r := ReceiveStamped(cfg, global, c, time, payload);
            && EvolvesStamped(c, r) && KeepsCovered(c, r)
            && Buffering(cfg, global, r) && r.queries == c.queries
            && (NewerStamp(c, time) ==> CoveredTime(r, time))
  {
    ReceiveStampedExactly(cfg, global, c, time, payload);
    ReceiveStampedOrdered(cfg, global, c, time, payload);
    hide HasTime;
    if NewerStamp(c, time) && !Quiet(global, c) && cfg.historyDepth != 1 {
      var c' := if time in c.pending then c else c.(pending := c.pending[time := payload]);
      FlushStampedKeeps(c');
    }
  }

  /** What lies behind the last delivery and was not delivered never will be. */
  ghost predicate PassedTime(c: Clock, t: nat) {
    c.hasLast && t <= c.last && !HasTime(c.log, t)
  }

  lemma PassedTimeStays(c: Clock, r: Clock, t: nat)
    requires Ordered(c) && Ordered(r) && c.log <= r.log && PassedTime(c, t)
    ensures PassedTime(r, t)
  {
    var e := |c.log| - 1;
    assert r.log[e] == c.log[e];
    assert forall i :: |c.log| <= i < |r.log| ==> r.log[e].time < r.log[i].time;
    assert forall i :: 0 <= i < |c.log| ==> r.log[i] == c.log[i];
  }
}

/** What every step of one source keeps, whatever the mode, and exactly which samples it loses. */
module SourceSteps {
  import opened Delivery
  import opened DeliveryLog

  ghost predicate Has(log: seq<Event>, sn: nat) {
    exists i :: 0 <= i < |log| && log[i].Delivered? && log[i].sn == sn
  }

  /** The sample was delivered, or it is buffered ahead of everything delivered. */
  ghost predicate Covered(s: Source, sn: nat) {
    Has(s.log, sn) || (s.hasLast && sn > s.last && sn in s.pending)
  }

  /** Like Covered, also for samples buffered before the first delivery. */
  ghost predicate Kept(s: Source, sn: nat) {
    Has(s.log, sn) || (sn in s.pending && (s.hasLast ==> sn > s.last))
  }

  /** With retransmission the next expected sample is never left waiting in the buffer. */
  ghost predicate Tight(cfg: Config, s: Source) {
    && (cfg.retransmission && s.hasLast ==> s.last + 1 !in s.pending)
    && (!s.hasLast && cfg.historyDepth == 1 ==> s.pending == map[])
  }

  ghost predicate OnlyDeliveries(before: seq<Event>, after: seq<Event>) {
    before <= after && forall i :: |before| <= i < |after| ==> after[i].Delivered?
  }

  /** One or more steps lead from `s` to `r`. */
  ghost predicate Evolves(cfg: Config, s: Source, r: Source) {
    && s.log <= r.log
    && (s.hasLast ==> r.hasLast && s.last <= r.last)
    && (GapFree(s) ==> GapFree(r))
    && (Tight(cfg, s) ==> Tight(cfg, r))
    && (cfg.retransmission ==> forall sn :: Covered(s, sn) ==> Covered(r, sn))
  }

  lemma HasGrows(before: seq<Event>, after: seq<Event>)
    requires before <= after
    ensures forall sn :: Has(before, sn) ==> Has(after, sn)
  {
    forall sn | Has(before, sn)
      ensures Has(after, sn)
    {
      var i :| 0 <= i < |before| && before[i].Delivered? && before[i].sn == sn;
      assert after[i] == before[i];
    }
  }

  lemma HasNew(log: seq<Event>, sn: nat, payload: nat)
    ensures Has(log + [Delivered(sn, payload)], sn)
  {
    assert (log + [Delivered(sn, payload)])[|log|] == Delivered(sn, payload);
  }

  /** Counters and the periodic task do not matter for what was and will be delivered. */
  predicate SameDelivery(s: Source, r: Source) {
    r.log == s.log && r.hasLast == s.hasLast && r.last == s.last && r.pending == s.pending
  }

  lemma SameDeliveryEvolves(cfg: Config, s: Source, r: Source)
    requires SameDelivery(s, r)
    ensures Evolves(cfg, s, r)
  {}

  lemma EvolvesTrans(cfg: Config, a: Source, b: Source, c: Source)
    requires Evolves(cfg, a, b) && Evolves(cfg, b, c)
    ensures Evolves(cfg, a, c)
  {}

  lemma DeliverKeeps(s: Source, sn: nat, payload: nat)
    ensures var r := Deliver(s, sn, payload);
            && OnlyDeliveries(s.log, r.log) && Has(r.log, sn)
            && (forall k: nat :: Has(r.log, k) <==> Has(s.log, k) || k == sn)
            && ((s.hasLast ==> sn == s.last + 1) && GapFree(s) ==> GapFree(r))
  {
    var r := Deliver(s, sn, payload);
    EndOfAppend(s.log, Delivered(sn, payload));
    HasGrows(s.log, r.log);
    HasNew(s.log, sn, payload);
    forall k: nat | Has(r.log, k)
      ensures Has(s.log, k) || k == sn
    {
      var i :| 0 <= i < |r.log| && r.log[i].Delivered? && r.log[i].sn == k;
      assert i < |s.log| ==> s.log[i] == r.log[i];
    }
  }

  /** A gap before sample `sn` is reported and the sample delivered. */
  lemma SkipKeeps(s: Source, sn: nat, payload: nat)
    requires s.hasLast && sn > s.last + 1
    ensures var r := Deliver(s.(log := s.log + [Missed(sn - (s.last + 1))]), sn, payload);
            && s.log <= r.log && Has(r.log, sn)
            && (forall k: nat :: Has(r.log, k) <==> Has(s.log, k) || k == sn)
            && (GapFree(s) ==> GapFree(r))
  {
    var m := Missed(sn - (s.last + 1));
    var t := s.(log := s.log + [m]);
    EndOfAppend(s.log, m);
    EndOfAppend(t.log, Delivered(sn, payload));
    HasGrows(s.log, t.log);
    DeliverKeeps(t, sn, payload);
    forall k: nat | Has(t.log, k)
      ensures Has(s.log, k)
    {
      var i :| 0 <= i < |t.log| && t.log[i].Delivered? && t.log[i].sn == k;
      assert s.log[i] == t.log[i];
    }
  }

  // ----- Draining a contiguous run -----

  /** The first step of a draining: the next expected sample is delivered out of the buffer. */
  function DrainOne(s: Source): (t: Source)
    requires s.hasLast && s.last + 1 in s.pending
    ensures |t.pending| < |s.pending|
  {
    var next := s.last + 1;
    var rest := s.pending - {next};
    assert s.pending.Keys == rest.Keys + {next};
    Deliver(s, next, s.pending[next]).(pending := rest)
  }

  lemma DrainOneKeeps(s: Source)
    requires s.hasLast && s.last + 1 in s.pending
    ensures var t := DrainOne(s);
            && DrainRun(s) == DrainRun(t)
            && OnlyDeliveries(s.log, t.log) && t.hasLast && t.last == s.last + 1
            && (GapFree(s) ==> GapFree(t))
            && (forall k: nat :: Kept(t, k) <==> Kept(s, k))
  {
    DeliverKeeps(s, s.last + 1, s.pending[s.last + 1]);
  }

  lemma OnlyDeliveriesTrans(a: seq<Event>, b: seq<Event>, c: seq<Event>)
    requires OnlyDeliveries(a, b) && OnlyDeliveries(b, c)
    ensures OnlyDeliveries(a, c)
  {
    assert forall i :: |a| <= i < |b| ==> c[i] == b[i];
  }

  /** Draining only adds deliveries, without a gap, and leaves no next expected sample waiting. */
  lemma {:induction false} DrainRunLogs(s: Source)
    ensures var r := DrainRun(s);
            && OnlyDeliveries(s.log, r.log)
            && s.last <= r.last
            && (s.hasLast ==> r.last + 1 !in r.pending)
            && (GapFree(s) ==> GapFree(r))
    decreases |s.pending|
  {
    hide EndOf, GapFree, Kept, DrainOne;
    if s.hasLast && s.last + 1 in s.pending {
      DrainOneKeeps(s);
      DrainRunLogs(DrainOne(s));
      OnlyDeliveriesTrans(s.log, DrainOne(s).log, DrainRun(s).log);
    }
  }

  /** What draining delivers was buffered ahead, and what it leaves is still buffered ahead. */
  lemma {:induction false} DrainRunKeeps(s: Source)
    ensures forall k: nat :: Kept(DrainRun(s), k) <==> Kept(s, k)
    decreases |s.pending|
  {
    hide Kept, DrainOne, GapFree, OnlyDeliveries;
    if s.hasLast && s.last + 1 in s.pending {
      DrainOneKeeps(s);
      DrainRunKeeps(DrainOne(s));
    }
  }

  lemma DeliverAndFlushKeeps(s: Source, sn: nat, payload: nat)
    requires s.hasLast ==> sn == s.last + 1
    ensures var r := DeliverAndFlush(s, sn, payload);
            && OnlyDeliveries(s.log, r.log)
            && sn <= r.last && r.hasLast && r.last + 1 !in r.pending
            && (GapFree(s) ==> GapFree(r))
            && (forall k: nat :: Kept(r, k) <==> Has(s.log, k) || k == sn || (k in s.pending && k > sn))
  {
    var t := Deliver(s, sn, payload);
    hide EndOf, GapFree, DrainRun;
    DeliverKeeps(s, sn, payload);
    DrainRunLogs(t);
    DrainRunKeeps(t);
    OnlyDeliveriesTrans(s.log, t.log, DrainRun(t).log);
  }

  // ----- Flushing -----

  lemma OfferKeeps(s: Source, sn: nat, payload: nat)
    ensures var r := Offer(s, sn, payload);
            && s.log <= r.log
            && r.hasLast && sn <= r.last
            && (s.hasLast ==> r.last == if sn > s.last then sn else s.last)
            && (!s.hasLast ==> r.last == sn)
            && (forall k: nat :: Has(r.log, k) <==> Has(s.log, k) || (k == sn && (s.hasLast ==> sn > s.last)))
            && (GapFree(s) ==> GapFree(r))
  {
    hide GapFree, Has;
    if !s.hasLast || sn == s.last + 1 {
      DeliverKeeps(s, sn, payload);
    } else if sn > s.last + 1 {
      SkipKeeps(s, sn, payload);
    }
  }

  /** A flush hands out exactly the buffered samples that are newer than the last delivery. */
  lemma {:induction false} OfferAllKeeps(s: Source, rest: map<nat, nat>)
    ensures var r := OfferAll(s, rest);
            && s.log <= r.log
            && (s.hasLast ==> r.hasLast && s.last <= r.last)
            && (rest != map[] ==> r.hasLast)
            && (GapFree(s) ==> GapFree(r))
            && (forall k: nat :: Has(r.log, k) <==> Has(s.log, k) || (k in rest && (s.hasLast ==> k > s.last)))
    decreases |rest|
  {
    hide GapFree, Has, Offer;
    if rest != map[] {
      var k := MinKey(rest);
      var rest' := rest - {k};
      assert rest.Keys == rest'.Keys + {k};
      OfferKeeps(s, k, rest[k]);
      OfferAllKeeps(Offer(s, k, rest[k]), rest');
    }
  }

  lemma FlushKeeps(cfg: Config, s: Source)
    ensures Evolves(cfg, s, Flush(s))
    ensures s.queries == 0 ==> Flush(s).pending == map[]
    ensures forall k: nat :: Kept(Flush(s), k) <==> Kept(s, k)
  {
    hide GapFree, Has;
    OfferAllKeeps(s, s.pending);
    GapFreeIgnores(OfferAll(s, s.pending), OfferAll(s, s.pending).(pending := map[]));
  }

  // ----- Receiving -----

  /** What is left of a buffer that was released from its oldest sample on. */
  lemma ReleaseKeeps(s: Source, pending: map<nat, nat>)
    requires !s.hasLast && pending != map[]
    ensures var first := MinKey(pending);
            var r := DeliverAndFlush(s.(pending := pending - {first}), first, pending[first]);
            && OnlyDeliveries(s.log, r.log) && r.hasLast && r.last + 1 !in r.pending
            && (GapFree(s) ==> GapFree(r))
            && (forall k: nat :: Kept(r, k) <==> Has(s.log, k) || k in pending)
  {
    hide GapFree, Kept, DeliverAndFlush, OnlyDeliveries;
    var first := MinKey(pending);
    GapFreeIgnores(s, s.(pending := pending - {first}));
    DeliverAndFlushKeeps(s.(pending := pending - {first}), first, pending[first]);
  }

  /** The arrival of `sn` overtakes buffered sample `k`: it becomes the first delivery after the
    * history query, or, without retransmission, is delivered over the gap that `k` lies in. */
  ghost predicate Overtakes(cfg: Config, global: nat, s: Source, sn: nat, k: nat) {
    && k < sn && !Has(s.log, k)
    && if s.hasLast then !cfg.retransmission && sn > s.last + 1 else global == 0
  }

  /** Exactly which samples an arrival keeps, in every mode: those that were kept and are not
    * overtaken, and the arriving one unless it is older than the last delivery. */
  lemma ReceiveKeepsExactly(cfg: Config, global: nat, s: Source, sn: nat, payload: nat)
    requires GapFree(s) && Tight(cfg, s)
    ensures forall k: nat :: Kept(Receive(cfg, global, s, sn, payload), k) <==>
              (Kept(s, k) && !Overtakes(cfg, global, s, sn, k)) || (k == sn && (s.hasLast ==> sn > s.last))
  {
    hide Has, EndOf, DeliverAndFlush, OnlyDeliveries;
    if !s.hasLast && global != 0 {
      assert forall k: nat :: !Has(s.log, k) by {
        NothingLogged();
      }
      if cfg.historyDepth == 1 {
        DeliverKeeps(s, sn, payload);
      } else {
        var pending := s.pending[sn := payload];
        if cfg.historyDepth > 0 && |pending| >= cfg.historyDepth {
          ReleaseKeeps(s, pending);
        }
      }
    } else if !s.hasLast || sn == s.last + 1 {
      DeliverAndFlushKeeps(s, sn, payload);
      if !s.hasLast {
        NothingLogged();
      }
    } else if sn > s.last + 1 && !cfg.retransmission {
      SkipKeeps(s, sn, payload);
    }
  }

  lemma NothingLogged()
    ensures forall k: nat :: !Has([], k)
  {
  }

  lemma ReceiveEvolves(cfg: Config, global: nat, s: Source, sn: nat, payload: nat)
    ensures var r := Receive(cfg, global, s, sn, payload);
            && s.log <= r.log
            && (s.hasLast ==> r.hasLast && s.last <= r.last)
            && (GapFree(s) ==> GapFree(r))
            && (Tight(cfg, s) ==> Tight(cfg, r))
            && (cfg.retransmission ==> OnlyDeliveries(s.log, r.log))
  {
    hide Has, EndOf, DeliverAndFlush, GapFree, Kept;
    if !s.hasLast && global != 0 {
      if cfg.historyDepth == 1 {
        DeliverKeeps(s, sn, payload);
      } else {
        var pending := s.pending[sn := payload];
        if cfg.historyDepth > 0 && |pending| >= cfg.historyDepth {
          ReleaseKeeps(s, pending);
        } else {
          GapFreeIgnores(s, s.(pending := pending));
        }
      }
    } else if !s.hasLast || sn == s.last + 1 {
      DeliverAndFlushKeeps(s, sn, payload);
    } else if sn > s.last + 1 {
      if cfg.retransmission {
        GapFreeIgnores(s, s.(pending := s.pending[sn := payload]));
      } else {
        SkipKeeps(s, sn, payload);
      }
    }
  }

  lemma GapFreeIgnores(s: Source, r: Source)
    requires r.log == s.log && r.hasLast == s.hasLast && r.last == s.last
    ensures GapFree(s) <==> GapFree(r)
  {
  }

  lemma ReceiveCoversAll(cfg: Config, global: nat, s: Source, sn: nat, payload: nat)
    requires cfg.retransmission
    ensures forall k: nat :: Covered(s, k) ==> Covered(Receive(cfg, global, s, sn, payload), k)
  {
    hide DeliverAndFlush;
    ReceiveEvolves(cfg, global, s, sn, payload);
    HasGrows(s.log, Receive(cfg, global, s, sn, payload).log);
    if s.hasLast && sn == s.last + 1 {
      DeliverAndFlushKeeps(s, sn, payload);
    }
  }

  /** An arrival keeps the log unbroken and never steps back; with retransmission it loses
    * nothing that was delivered or is buffered ahead of the deliveries. */
  lemma ReceiveKeeps(cfg: Config, global: nat, s: Source, sn: nat, payload: nat)
    ensures Evolves(cfg, s, Receive(cfg, global, s, sn, payload))
  {
    hide Receive, Covered, GapFree, Tight, OnlyDeliveries;
    ReceiveEvolves(cfg, global, s, sn, payload);
    if cfg.retransmission {
      ReceiveCoversAll(cfg, global, s, sn, payload);
    }
  }

  /** With retransmission an arriving sample never causes a miss report. */
  lemma ReceiveReportsNoMiss(cfg: Config, global: nat, s: Source, sn: nat, payload: nat)
    requires cfg.retransmission
    ensures OnlyDeliveries(s.log, Receive(cfg, global, s, sn, payload).log)
  {
    hide Receive;
    ReceiveEvolves(cfg, global, s, sn, payload);
  }

  /** Without retransmission an arrival over a gap loses exactly the buffered samples in the gap:
    * one that is buffered ahead of the deliveries survives if and only if the arriving sample is
    * no newer than it, or leaves no gap. */
  lemma PlainArrivalKeeps(cfg: Config, global: nat, s: Source, sn: nat, payload: nat, k: nat)
    requires !cfg.retransmission && GapFree(s) && Tight(cfg, s)
    requires s.hasLast && k > s.last && k in s.pending
    ensures Kept(Receive(cfg, global, s, sn, payload), k) <==> sn <= s.last + 1 || sn <= k
  {
    hide Receive;
    ReceiveKeepsExactly(cfg, global, s, sn, payload);
    NothingNewer(s, k);
  }

  /** With retransmission, an arriving sample is delivered or buffered ahead afterwards exactly when
    * it was already, or is newer than the last delivery. */
  lemma ReceiveCovers(cfg: Config, global: nat, s: Source, sn: nat, payload: nat)
    requires cfg.retransmission && s.hasLast
    ensures Covered(Receive(cfg, global, s, sn, payload), sn) <==> Covered(s, sn) || sn > s.last
  {
    hide DeliverAndFlush;
    ReceiveCoversAll(cfg, global, s, sn, payload);
    if sn == s.last + 1 {
      DeliverAndFlushKeeps(s, sn, payload);
    }
  }

  /** A sample buffered before the first delivery survives an arrival exactly when the history
    * query is still outstanding or the arriving sample is not newer. */
  lemma BufferedSurvives(cfg: Config, global: nat, s: Source, sn: nat, payload: nat, k: nat)
    requires !s.hasLast && s.log == [] && cfg.historyDepth != 1 && k in s.pending
    ensures Kept(Receive(cfg, global, s, sn, payload), k) <==> global != 0 || k >= sn
  {
    hide Receive, Has;
    ReceiveKeepsExactly(cfg, global, s, sn, payload);
    NothingLogged();
  }

  lemma NothingNewer(s: Source, k: nat)
    requires GapFree(s) && s.hasLast && k > s.last
    ensures !Has(s.log, k)
  {
    if Has(s.log, k) {
      var d :| 0 <= d < |s.log| && s.log[d].Delivered? && s.log[d].sn == k;
      assert Accounts(s.log, d, k);
      AccountsInside(s.log, d, k);
    }
  }

  /** What lies behind the last delivery and was not delivered never will be. */
  lemma LostStaysLost(s: Source, r: Source, k: nat)
    requires GapFree(s) && GapFree(r) && s.log <= r.log && s.hasLast && k <= s.last && !Has(s.log, k)
    ensures !Has(r.log, k)
  {
    if Has(r.log, k) {
      var d :| 0 <= d < |r.log| && r.log[d].Delivered? && r.log[d].sn == k;
      var e := |s.log| - 1;
      assert r.log[e] == s.log[e];
      if d >= |s.log| {
        StrictlyIncreasing(r.log, e, d);
      }
    }
  }
}

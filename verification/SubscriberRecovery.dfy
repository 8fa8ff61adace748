/** Retransmission: what an answered recovery query guarantees. */
module SubscriberRecovery {
  import opened Delivery
  import opened DeliveryLog
  import opened SourceSteps
  import opened SubscriberModel
  import opened SubscriberSafety
  import opened SubscriberRuns
  import opened SubscriberQueries
  import opened SubscriberSurvival
  import opened SubscriberMisses

  // ----- The life of one recovery query -----

  /** A query to this source is outstanding from before the first input until after the last. */
  ghost predicate Outstanding(st: State, inputs: seq<Input>, id: nat) {
    forall n :: 0 <= n <= |inputs| ==> Run(st, inputs[..n]).live[ForSource(id)] > 0
  }

  lemma OutstandingPrefix(st: State, inputs: seq<Input>, id: nat)
    requires inputs != [] && Outstanding(st, inputs, id)
    ensures Outstanding(st, inputs[..|inputs| - 1], id) && Run(st, inputs).live[ForSource(id)] > 0
  {
    hide Run;
    var init := inputs[..|inputs| - 1];
    assert inputs[..|inputs|] == inputs;
    assert Run(st, inputs[..|inputs|]).live[ForSource(id)] > 0;
    assert forall n :: 0 <= n <= |init| ==> init[..n] == inputs[..n];
    forall n | 0 <= n <= |init|
      ensures Run(st, init[..n]).live[ForSource(id)] > 0
    {
      assert Run(st, inputs[..n]).live[ForSource(id)] > 0;
    }
  }

  ghost predicate NeverEarly(st: State, inputs: seq<Input>, id: nat) {
    inputs == [] ||
    var init := inputs[..|inputs| - 1];
    NeverEarly(st, init, id) && !EarlyMiss(Run(st, init), inputs[|inputs| - 1], id)
  }

  /** While the query is outstanding nothing is reported missed, if and only if nothing is reported early. */
  lemma {:induction false} NoMissWhileOutstanding(st: State, inputs: seq<Input>, id: nat)
    requires GlobalCounted(st) && st.cfg.retransmission
    requires Possible(st, inputs) && NeverUndeclares(inputs) && Outstanding(st, inputs, id)
    ensures NoMisses(st, inputs, id) <==> NeverEarly(st, inputs, id)
    ensures OnlyDeliveries(SourceOf(st, id).log, SourceOf(Run(st, inputs), id).log) <==> NeverEarly(st, inputs, id)
  {
    hide EarlyMiss, ReportsMiss, Step, OnlyDeliveries, GapFree, Tight, Covered, Enabled;
    RunMissesExactly(st, inputs, id);
    if inputs != [] {
      var init := inputs[..|inputs| - 1];
      OutstandingPrefix(st, inputs, id);
      NoMissWhileOutstanding(st, init, id);
      RunKeepsSource(st, init, id);
      RunGlobalCounted(st, init);
      MissesWhileOutstanding(Run(st, init), inputs[|inputs| - 1], id);
      StepMissesExactly(Run(st, init), inputs[|inputs| - 1], id);
    }
  }

  /** Nothing is reported early while the counter is right: on every run in which no launch for this source
    * is refused late. */
  lemma {:induction false} CountedIsNeverEarly(st: State, inputs: seq<Input>, id: nat)
    requires CountedFor(st, id) && !st.undeclaring && st.cfg.retransmission
    requires Possible(st, inputs) && NeverUndeclares(inputs) && NoLateLaunch(st, inputs, id)
    ensures NeverEarly(st, inputs, id) && CountedFor(Run(st, inputs), id)
  {
    hide EarlyMiss, Step, LateLaunch, CountedFor, GlobalCounted, Enabled;
    if inputs != [] {
      var init := inputs[..|inputs| - 1];
      CountedIsNeverEarly(st, init, id);
      RunKeepsSource(st, init, id);
      StepCountedFor(Run(st, init), inputs[|inputs| - 1], id);
      CountedParts(Run(st, init), id);
      MissesWhileOutstanding(Run(st, init), inputs[|inputs| - 1], id);
    }
  }

  lemma CountedParts(st: State, id: nat)
    requires CountedFor(st, id)
    ensures GlobalCounted(st) && SourceOf(st, id).queries == st.live[ForSource(id)]
  {
  }

  /** An uninterrupted stretch of deliveries contains every number it walked over. */
  lemma {:induction false} Contiguous(before: seq<Event>, after: seq<Event>, sn: nat)
    requires OnlyDeliveries(before, after) && EndOf(after).At?
    requires if EndOf(before).At? then EndOf(before).sn < sn
             else before == [] && after[0].Delivered? && after[0].sn <= sn
    requires sn <= EndOf(after).sn
    ensures Has(after, sn)
    decreases |after|
  {
    assert |after| == |before| ==> after == before;
    if |after| > |before| {
      var init := after[..|after| - 1];
      StartsWithDelivery(after);
      var e := after[|after| - 1];
      if e.sn != sn {
        assert init != [] ==> init[0] == after[0];
        Contiguous(before, init, sn);
        HasGrows(init, after);
      }
    }
  }

  /** A stretch of a run with retransmission in which no buffer of the source is flushed over a gap,
    * whether or not anything was delivered before it. */
  ghost predicate Window(st: State, inputs: seq<Input>, id: nat) {
    && !st.undeclaring && st.cfg.retransmission && SourceSound(st.cfg, SourceOf(st, id))
    && NeverUndeclares(inputs) && NoMisses(st, inputs, id)
  }

  /** The time from a launch to the drop of its query is such a stretch, if and only if nothing is reported
    * early; and nothing is while no launch for the source is refused late. */
  lemma QueryIsWindow(st: State, inputs: seq<Input>, id: nat)
    requires GlobalCounted(st) && !st.undeclaring && st.cfg.retransmission && SourceSound(st.cfg, SourceOf(st, id))
    requires Possible(st, inputs) && NeverUndeclares(inputs) && Outstanding(st, inputs, id)
    ensures Window(st, inputs, id) <==> NeverEarly(st, inputs, id)
    ensures CountedFor(st, id) && NoLateLaunch(st, inputs, id) ==> Window(st, inputs, id)
  {
    hide Run, Outstanding, Possible, CountedFor, NoLateLaunch, NoMisses, NeverEarly, OnlyDeliveries;
    NoMissWhileOutstanding(st, inputs, id);
    if CountedFor(st, id) && NoLateLaunch(st, inputs, id) {
      CountedIsNeverEarly(st, inputs, id);
    }
  }

  lemma WindowPrefix(st: State, inputs: seq<Input>, id: nat)
    requires inputs != [] && Window(st, inputs, id)
    ensures Window(st, inputs[..|inputs| - 1], id)
  {
  }

  lemma WindowState(st: State, inputs: seq<Input>, id: nat)
    requires Window(st, inputs, id)
    ensures var s := SourceOf(st, id);
            var st' := Run(st, inputs);
            var s' := SourceOf(st', id);
            && st'.cfg == st.cfg && !st'.undeclaring && (s.hasLast ==> s'.hasLast && s.last <= s'.last)
            && SourceSound(st.cfg, s') && OnlyDeliveries(s.log, s'.log)
  {
    RunKeepsSource(st, inputs, id);
    RunMissesExactly(st, inputs, id);
  }

  /** The sample is not older than the first delivery, if there was one. */
  predicate NotBeforeFirst(s: Source, sn: nat) {
    s.hasLast && s.log != [] && s.log[0].Delivered? ==> sn >= s.log[0].sn
  }

  lemma KeptNotBeforeFirst(s: Source, sn: nat)
    requires GapFree(s) && Kept(s, sn)
    ensures NotBeforeFirst(s, sn)
  {
    if s.hasLast {
      StartsWithDelivery(s.log);
      if Has(s.log, sn) {
        var d :| 0 <= d < |s.log| && s.log[d].Delivered? && s.log[d].sn == sn;
        assert Accounts(s.log, d, sn);
        AccountsInside(s.log, d, sn);
      }
    }
  }

  /** Whatever the subscriber walked past since the launch, from its first delivery on, was delivered. */
  lemma WindowWalked(st: State, inputs: seq<Input>, id: nat, sn: nat)
    requires Window(st, inputs, id) && NewerThanLast(SourceOf(st, id), sn)
    requires var s' := SourceOf(Run(st, inputs), id); s'.hasLast && NotBeforeFirst(s', sn) && sn <= s'.last
    ensures Has(SourceOf(Run(st, inputs), id).log, sn)
  {
    hide Run, NoMisses;
    WindowState(st, inputs, id);
    StartsWithDelivery(SourceOf(Run(st, inputs), id).log);
    Contiguous(SourceOf(st, id).log, SourceOf(Run(st, inputs), id).log, sn);
  }

  lemma SameFirst(s: Source, r: Source)
    requires GapFree(s) && GapFree(r) && s.hasLast && r.hasLast && s.log <= r.log
    ensures s.log != [] && r.log != [] && s.log[0].Delivered? && r.log[0] == s.log[0]
  {
    StartsWithDelivery(s.log);
  }

  lemma FirstReceived(cfg: Config, s: Source, sn: nat, payload: nat)
    requires GapFree(s) && !s.hasLast
    ensures var r := Receive(cfg, 0, s, sn, payload);
            r.hasLast && r.log != [] && r.log[0] == Delivered(sn, payload)
  {
    var t := Deliver(s, sn, payload);
    DrainRunLogs(t);
    assert t.log == [Delivered(sn, payload)];
  }

  lemma OvertakerIsFirst(st: State, input: Input, id: nat, k: nat)
    requires SourceSound(st.cfg, SourceOf(st, id)) && st.cfg.retransmission && OvertakenBy(st, input, id, k)
    ensures !NotBeforeFirst(SourceOf(Step(st, input), id), k)
  {
    hide Receive, LaunchedSource, GapFree, Tight, Kept;
    var s := SourceOf(st, id);
    FirstReceived(st.cfg, s, input.sample.sn, input.sample.payload);
    if input.Live? {
      var t := AfterLive(st.cfg, st.global, id in st.sources, s, input.sample.sn, input.sample.payload);
      LaunchKeeps(st.cfg, st.global, t, input.launch);
    }
  }

  /** Of the samples that arrived, exactly those not older than the first delivery are left. */
  ghost predicate Decided(s: Source, k: nat) {
    Kept(s, k) <==> NotBeforeFirst(s, k)
  }

  /** With retransmission the first delivery alone decides what is lost: a handler keeps it that way. */
  lemma StepDecides(st: State, input: Input, id: nat, k: nat)
    requires SourceSound(st.cfg, SourceOf(st, id)) && st.cfg.retransmission && !input.Undeclare?
    requires Decided(SourceOf(st, id), k)
    ensures Decided(SourceOf(Step(st, input), id), k)
  {
    hide Step, Kept, Overtakes, OvertakenBy, NotBeforeFirst, EndOf;
    var s := SourceOf(st, id);
    var r := SourceOf(Step(st, input), id);
    StepKeepsSource(st, input, id);
    StepKeepsExactly(st, input, id, k);
    if !Kept(s, k) {
      BeforeFirstStays(s, r, k);
    } else if OvertakenBy(st, input, id, k) {
      OvertakerIsFirst(st, input, id, k);
    }
    if Kept(r, k) {
      KeptNotBeforeFirst(r, k);
    }
  }

  lemma {:induction false} RunDecides(st: State, inputs: seq<Input>, id: nat, k: nat)
    requires SourceSound(st.cfg, SourceOf(st, id)) && st.cfg.retransmission && NeverUndeclares(inputs)
    requires Decided(SourceOf(st, id), k)
    ensures Decided(SourceOf(Run(st, inputs), id), k)
  {
    hide Step, Decided, GapFree, Tight;
    if inputs != [] {
      var init := inputs[..|inputs| - 1];
      RunDecides(st, init, id, k);
      RunKeepsSource(st, init, id);
      StepDecides(Run(st, init), inputs[|inputs| - 1], id, k);
    }
  }

  lemma BeforeFirstStays(s: Source, r: Source, k: nat)
    requires GapFree(s) && GapFree(r) && s.log <= r.log && (s.hasLast ==> r.hasLast) && !NotBeforeFirst(s, k)
    ensures !NotBeforeFirst(r, k)
  {
    SameFirst(s, r);
  }

  lemma ArrivalDecides(st: State, init: seq<Input>, input: Input, id: nat, sn: nat)
    requires Window(st, init, id) && NewerThanLast(SourceOf(st, id), sn) && Arrival(input, id, sn)
    ensures Decided(SourceOf(Step(Run(st, init), input), id), sn)
  {
    hide Step, Run, Window, Kept, NotBeforeFirst, EndOf, Overtakes, Tight;
    var mid := Run(st, init);
    var m := SourceOf(mid, id);
    WindowState(st, init, id);
    WindowRetransmits(st, init, id);
    StepKeepsExactly(mid, input, id, sn);
    StepKeepsSource(mid, input, id);
    if NewerThanLast(m, sn) {
      KeptNotBeforeFirst(SourceOf(Step(mid, input), id), sn);
    } else {
      if NotBeforeFirst(m, sn) {
        WindowWalked(st, init, id, sn);
        HasIsKept(m, sn);
      } else if Kept(m, sn) {
        KeptNotBeforeFirst(m, sn);
      }
      StepDecides(mid, input, id, sn);
    }
  }

  lemma WindowRetransmits(st: State, inputs: seq<Input>, id: nat)
    requires Window(st, inputs, id)
    ensures st.cfg.retransmission && NeverUndeclares(inputs)
  {
  }

  lemma HasIsKept(s: Source, sn: nat)
    requires Has(s.log, sn)
    ensures Kept(s, sn)
  {
  }

  /** Every sample that arrives while the query is outstanding, as a reply or live, and is newer than what
    * had been delivered at the launch, if anything: it is delivered or safely buffered at the end if and
    * only if it is not older than the first delivery of the source. */
  lemma {:induction false} WindowCovers(st: State, inputs: seq<Input>, id: nat, sn: nat)
    requires Window(st, inputs, id) && NewerThanLast(SourceOf(st, id), sn) && Arrives(inputs, id, sn)
    ensures Kept(SourceOf(Run(st, inputs), id), sn) <==> NotBeforeFirst(SourceOf(Run(st, inputs), id), sn)
  {
    hide Step, Window, Kept, NotBeforeFirst, GapFree, Tight;
    var init := inputs[..|inputs| - 1];
    var input := inputs[|inputs| - 1];
    WindowPrefix(st, inputs, id);
    WindowRetransmits(st, inputs, id);
    if Arrival(input, id, sn) {
      ArrivalDecides(st, init, input, id, sn);
    } else {
      var i :| 0 <= i < |inputs| && Arrival(inputs[i], id, sn);
      assert init[i] == inputs[i];
      WindowCovers(st, init, id, sn);
      WindowState(st, init, id);
      StepDecides(Run(st, init), input, id, sn);
    }
  }

  /** A query launched after the first delivery loses nothing that it brings. */
  lemma LaterWindowCovers(st: State, inputs: seq<Input>, id: nat, sn: nat)
    requires Window(st, inputs, id) && SourceOf(st, id).hasLast && sn > SourceOf(st, id).last && Arrives(inputs, id, sn)
    ensures Covered(SourceOf(Run(st, inputs), id), sn)
  {
    hide Run, NoMisses;
    WindowState(st, inputs, id);
    WindowCovers(st, inputs, id, sn);
    SameFirst(SourceOf(st, id), SourceOf(Run(st, inputs), id));
    var log := SourceOf(st, id).log;
    StartsWithDelivery(log);
  }

  /** The first number that a query still has to bring: the next expected one, or the first delivery of a
    * source of which nothing had been delivered at the launch. */
  function WantedFrom(s: Source, s': Source): nat {
    if s.hasLast then s.last + 1 else if s'.log != [] && s'.log[0].Delivered? then s'.log[0].sn else 0
  }

  lemma NextIsMissing(cfg: Config, s: Source)
    requires SourceSound(cfg, s) && cfg.retransmission && s.hasLast
    ensures !Kept(s, s.last + 1)
  {
    NothingNewer(s, s.last + 1);
  }

  /** If everything from there up to `m` arrives while the query is outstanding, then all of it has been
    * delivered, in sequence and without a miss, before the query is dropped. */
  lemma WindowCompletes(st: State, inputs: seq<Input>, id: nat, m: nat)
    requires Window(st, inputs, id) && SourceOf(Run(st, inputs), id).hasLast
    requires var from := WantedFrom(SourceOf(st, id), SourceOf(Run(st, inputs), id));
             m >= from && forall sn: nat :: from <= sn <= m ==> Arrives(inputs, id, sn)
    ensures var s := SourceOf(st, id);
            var s' := SourceOf(Run(st, inputs), id);
            && s'.last >= m && OnlyDeliveries(s.log, s'.log)
            && forall sn: nat :: WantedFrom(s, s') <= sn <= m ==> Has(s'.log, sn)
  {
    hide Run, Window, Arrives, Kept, EndOf, Tight, Has;
    var s := SourceOf(st, id);
    var s' := SourceOf(Run(st, inputs), id);
    WindowState(st, inputs, id);
    WindowRetransmits(st, inputs, id);
    WindowSound(st, inputs, id);
    StartsWithDelivery(s'.log);
    if s.hasLast {
      SameFirst(s, s');
      StartsWithDelivery(s.log);
    }
    if s'.last < m {
      WindowCovers(st, inputs, id, s'.last + 1);
      NextIsMissing(st.cfg, s');
    }
    forall sn: nat | WantedFrom(s, s') <= sn <= m
      ensures Has(s'.log, sn)
    {
      WindowWalked(st, inputs, id, sn);
    }
  }

  lemma WindowSound(st: State, inputs: seq<Input>, id: nat)
    requires Window(st, inputs, id)
    ensures SourceSound(st.cfg, SourceOf(st, id))
  {
  }

  /** Everything that a recovery query brings while it is outstanding, in whatever order and with whatever
    * live samples lost or repeated in between, has been delivered exactly once and is in no miss report as
    * soon as no query is left, if and only if it is not older than the first delivery of the source. */
  lemma RecoveredOnce(cfg: Config, before: seq<Input>, window: seq<Input>, after: seq<Input>, id: nat, sn: nat)
    requires var all := before + window + after;
             && Possible(InitialState(cfg), all) && NeverStrands(InitialState(cfg), all, id) && NeverUndeclares(all)
             && Run(InitialState(cfg), all).live[Initial] == 0 && Run(InitialState(cfg), all).live[ForSource(id)] == 0
    requires var st := Run(InitialState(cfg), before);
             Window(st, window, id) && NewerThanLast(SourceOf(st, id), sn) && Arrives(window, id, sn)
    ensures var end := Run(InitialState(cfg), before + window + after);
            DeliveredOnce(LogOf(end, id), sn) <==> NotBeforeFirst(SourceOf(end, id), sn)
  {
    var all := before + window + after;
    assert forall i :: 0 <= i < |after| ==> after[i] == all[|before + window| + i];
    hide Step, Run, Possible, Window, Arrives, Kept, DeliveredOnce, NotBeforeFirst, NeverStrands, GapFree, Tight;
    var st := Run(InitialState(cfg), before);
    var mid := Run(st, window);
    RunSplit(InitialState(cfg), before, window);
    RunSplit(InitialState(cfg), before + window, after);
    WindowCovers(st, window, id, sn);
    WindowState(st, window, id);
    WindowRetransmits(st, window, id);
    RunDecides(mid, after, id, sn);
    QuietRunDelivered(cfg, all, id, sn);
  }
}

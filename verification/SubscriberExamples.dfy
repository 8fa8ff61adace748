/** Concrete runs that show where the guarantees stop. */
module SubscriberExamples {
  import opened Delivery
  import opened StampedDelivery
  import opened SubscriberModel
  import opened SubscriberSafety
  import opened SubscriberRuns
  import opened SubscriberQueries

  /** A run of three inputs, one after the other. */
  lemma ThreeSteps(st: State, r: seq<Input>)
    requires |r| == 3
    ensures Run(st, r) == Step(Step(Step(st, r[0]), r[1]), r[2])
    ensures Possible(st, r) <==>
            Enabled(st, r[0]) && Enabled(Step(st, r[0]), r[1]) && Enabled(Step(Step(st, r[0]), r[1]), r[2])
  {
    hide Step, Enabled;
    assert r[..2][..1] == r[..1] && r[..1][..0] == [];
    assert Run(st, r[..0]) == st;
    assert Run(st, r[..1]) == Step(st, r[0]);
    assert Run(st, r[..2]) == Step(Step(st, r[0]), r[1]);
    assert Possible(st, r[..1]) <==> Enabled(st, r[0]);
  }

  const OVERTAKEN_CONFIG := Config(true, true, 0, false)

  /** With history and recovery on, sample 5 is buffered and its recovery query is outstanding;
    * the history query ends, sample 7 arrives, and the recovery query ends. */
  const OVERTAKEN_RUN: seq<Input> := [
    Live(Sequenced(1, 5, 50), Started),
    Drop(Initial),
    Live(Sequenced(1, 7, 70), Started),
    Drop(ForSource(1))]

  const OVERTAKEN_SOURCES: seq<Source> := [
    NEW_SOURCE.(pending := map[5 := 50], queries := 1),
    Source(true, 7, 1, map[5 := 50], false, [Delivered(7, 70)]),
    Source(true, 7, 0, map[], false, [Delivered(7, 70)])]

  function OvertakenState(global: nat, s: Source, live: multiset<Query>): State {
    State(OVERTAKEN_CONFIG, global, map[1 := s], map[], false, live, [], map[], map[])
  }

  lemma OvertakenStart()
    ensures Step(InitialState(OVERTAKEN_CONFIG), OVERTAKEN_RUN[0])
            == OvertakenState(1, OVERTAKEN_SOURCES[0], multiset{Initial, ForSource(1)})
  {
  }

  lemma OvertakenHistoryEnds()
    ensures Step(OvertakenState(1, OVERTAKEN_SOURCES[0], multiset{Initial, ForSource(1)}), OVERTAKEN_RUN[1])
            == OvertakenState(0, OVERTAKEN_SOURCES[0], multiset{ForSource(1)})
  {
    var before := OvertakenState(1, OVERTAKEN_SOURCES[0], multiset{Initial, ForSource(1)});
    assert before.live - multiset{Initial} == multiset{ForSource(1)};
  }

  lemma OvertakenArrival()
    ensures Step(OvertakenState(0, OVERTAKEN_SOURCES[0], multiset{ForSource(1)}), OVERTAKEN_RUN[2])
            == OvertakenState(0, OVERTAKEN_SOURCES[1], multiset{ForSource(1)})
  {
    assert DrainRun(Deliver(OVERTAKEN_SOURCES[0], 7, 70)) == OVERTAKEN_SOURCES[1];
  }

  lemma OvertakenRecoveryEnds()
    ensures Step(OvertakenState(0, OVERTAKEN_SOURCES[1], multiset{ForSource(1)}), OVERTAKEN_RUN[3])
            == OvertakenState(0, OVERTAKEN_SOURCES[2], multiset{})
  {
    var s := OVERTAKEN_SOURCES[1].(queries := 0);
    var pending := map[5 := 50];
    assert 5 in pending;
    MinKeyUnique(pending, 5);
    assert pending - {5} == map[];
    assert Offer(s, 5, 50) == s;
    assert OfferAll(s, map[]) == s;
    assert OfferAll(s, pending) == s;
  }

  /** Sample 5 was received, yet it is neither delivered nor reported missed, and every query
    * is over: the sample overtaking it became the first delivery. */
  lemma OvertakenSampleIsLost()
    ensures Possible(InitialState(OVERTAKEN_CONFIG), OVERTAKEN_RUN)
    ensures var st := Run(InitialState(OVERTAKEN_CONFIG), OVERTAKEN_RUN);
            && st.live == multiset{} && LogOf(st, 1) == [Delivered(7, 70)]
            && SourceOf(st, 1).pending == map[]
  {
    hide Step;
    var st0 := InitialState(OVERTAKEN_CONFIG);
    var r := OVERTAKEN_RUN;
    OvertakenStart();
    OvertakenHistoryEnds();
    OvertakenArrival();
    OvertakenRecoveryEnds();
    RunAppend(st0, [], r[0]);
    PossibleAppend(st0, [], r[0]);
    RunAppend(st0, [r[0]], r[1]);
    PossibleAppend(st0, [r[0]], r[1]);
    RunAppend(st0, [r[0], r[1]], r[2]);
    PossibleAppend(st0, [r[0], r[1]], r[2]);
    RunAppend(st0, [r[0], r[1], r[2]], r[3]);
    PossibleAppend(st0, [r[0], r[1], r[2]], r[3]);
    assert [] + [r[0]] == [r[0]] && [r[0]] + [r[1]] == [r[0], r[1]];
    assert [r[0], r[1]] + [r[2]] == [r[0], r[1], r[2]] && [r[0], r[1], r[2]] + [r[3]] == r;
  }

  /** Without history: a heartbeat launches the first query of a source, a newer live sample becomes the
    * first delivery, and then the query's answer brings an older one. */
  const LATE_REPLY_CONFIG := Config(false, true, 0, false)

  const LATE_REPLY_RUN: seq<Input> := [
    Heartbeat(1, 5, Started),
    Live(Sequenced(1, 6, 60), Started),
    Reply(ForSource(1), Sequenced(1, 3, 30))]

  function LateReplyState(s: Source): State {
    State(LATE_REPLY_CONFIG, 0, map[1 := s], map[], false, multiset{ForSource(1)}, [], map[], map[])
  }

  /** Sample 3 of the answer arrives while the query is outstanding and is lost. */
  lemma LateReplyIsLost()
    ensures Possible(InitialState(LATE_REPLY_CONFIG), LATE_REPLY_RUN)
    ensures var st := Run(InitialState(LATE_REPLY_CONFIG), LATE_REPLY_RUN);
            && st.live == multiset{ForSource(1)} && LogOf(st, 1) == [Delivered(6, 60)]
            && SourceOf(st, 1).pending == map[]
  {
    var st0 := InitialState(LATE_REPLY_CONFIG);
    var r := LATE_REPLY_RUN;
    var launched := LateReplyState(NEW_SOURCE.(queries := 1));
    var delivered := LateReplyState(Source(true, 6, 1, map[], false, [Delivered(6, 60)]));
    assert Step(st0, r[0]) == launched;
    assert Step(launched, r[1]) == delivered by {
      assert DrainRun(Deliver(NEW_SOURCE.(queries := 1), 6, 60)) == SourceOf(delivered, 1);
    }
    assert Step(delivered, r[2]) == delivered;
    hide Step;
    ThreeSteps(st0, r);
  }

  /** With history but without retransmission, three samples fill the buffer; the oldest is released,
    * and then a newer one arrives. */
  const PLAIN_CONFIG := Config(true, false, 3, false)

  const PLAIN_RUN: seq<Input> := [
    Live(Sequenced(1, 5, 50), Started),
    Live(Sequenced(1, 7, 70), Started),
    Live(Sequenced(1, 9, 90), Started),
    Live(Sequenced(1, 10, 100), Started)]

  function PlainState(s: Source): State {
    State(PLAIN_CONFIG, 1, map[1 := s], map[], false, multiset{Initial}, [], map[], map[])
  }

  const PLAIN_SOURCES: seq<Source> := [
    NEW_SOURCE.(pending := map[5 := 50]),
    NEW_SOURCE.(pending := map[5 := 50, 7 := 70]),
    Source(true, 5, 0, map[7 := 70, 9 := 90], false, [Delivered(5, 50)]),
    Source(true, 10, 0, map[7 := 70, 9 := 90], false, [Delivered(5, 50), Missed(4), Delivered(10, 100)])]

  lemma PlainBuffering()
    ensures Receive(PLAIN_CONFIG, 1, NEW_SOURCE, 5, 50) == PLAIN_SOURCES[0]
    ensures Receive(PLAIN_CONFIG, 1, PLAIN_SOURCES[0], 7, 70) == PLAIN_SOURCES[1]
  {
    assert |map[5 := 50]| == 1;
    assert |map[5 := 50][7 := 70]| == 2;
  }

  lemma PlainRelease()
    ensures Receive(PLAIN_CONFIG, 1, PLAIN_SOURCES[1], 9, 90) == PLAIN_SOURCES[2]
  {
    hide DrainRun, MinKey;
    var pending := map[5 := 50, 7 := 70, 9 := 90];
    assert PLAIN_SOURCES[1].pending[9 := 90] == pending;
    ThreePending(pending);
    var rest := PLAIN_SOURCES[1].(pending := map[7 := 70, 9 := 90]);
    assert Deliver(rest, 5, 50) == PLAIN_SOURCES[2];
    assert DeliverAndFlush(rest, 5, 50) == PLAIN_SOURCES[2] by {
      NothingFollows();
    }
    var buffered := PLAIN_SOURCES[1].(pending := pending);
    assert buffered.(pending := buffered.pending - {5}) == rest && buffered.pending[5] == 50;
  }

  lemma ThreePending(pending: map<nat, nat>)
    requires pending == map[5 := 50, 7 := 70, 9 := 90]
    ensures |pending| == 3 && MinKey(pending) == 5 && pending - {5} == map[7 := 70, 9 := 90]
  {
    assert pending.Keys == {5, 7, 9};
    assert 5 in pending;
    MinKeyUnique(pending, 5);
  }

  lemma NothingFollows()
    ensures DrainRun(PLAIN_SOURCES[2]) == PLAIN_SOURCES[2]
  {
  }

  lemma PlainSkips()
    ensures Receive(PLAIN_CONFIG, 1, PLAIN_SOURCES[2], 10, 100) == PLAIN_SOURCES[3]
  {
  }

  /** Without retransmission and period, a live sample only works on its source. */
  lemma PlainStep(s: Source, sn: nat, payload: nat)
    ensures Step(PlainState(s), Live(Sequenced(1, sn, payload), Started))
            == PlainState(Receive(PLAIN_CONFIG, 1, s, sn, payload))
  {
    hide Receive;
  }

  lemma PlainStart()
    ensures Step(InitialState(PLAIN_CONFIG), PLAIN_RUN[0]) == PlainState(Receive(PLAIN_CONFIG, 1, NEW_SOURCE, 5, 50))
  {
    hide Receive;
  }

  /** Samples 7 and 9 were received and are still buffered, yet they are reported missed. */
  lemma BufferedReportedMissed()
    ensures Possible(InitialState(PLAIN_CONFIG), PLAIN_RUN)
    ensures var st := Run(InitialState(PLAIN_CONFIG), PLAIN_RUN);
            && LogOf(st, 1) == [Delivered(5, 50), Missed(4), Delivered(10, 100)]
            && SourceOf(st, 1).pending == map[7 := 70, 9 := 90]
  {
    hide Step, Receive;
    var st0 := InitialState(PLAIN_CONFIG);
    var r := PLAIN_RUN;
    PlainBuffering();
    PlainRelease();
    PlainSkips();
    PlainStart();
    PlainStep(PLAIN_SOURCES[0], 7, 70);
    PlainStep(PLAIN_SOURCES[1], 9, 90);
    PlainStep(PLAIN_SOURCES[2], 10, 100);
    ThreeSteps(st0, r[..3]);
    assert r[..3] + [r[3]] == r;
    RunAppend(st0, r[..3], r[3]);
    PossibleAppend(st0, r[..3], r[3]);
  }

  // ----- A refused launch -----

  const REFUSED_CONFIG := Config(true, true, 0, false)

  /** During history, the recovery launch for a buffered sample is refused late; history ends. */
  const REFUSED_RUN: seq<Input> := [Live(Sequenced(1, 5, 50), RefusedLate), Drop(Initial)]

  function RefusedState(global: nat, live: multiset<Query>): State {
    State(REFUSED_CONFIG, global, map[1 := NEW_SOURCE.(pending := map[5 := 50], queries := U64_MAX)], map[], false,
          live, [], map[], map[])
  }

  /** Sample 5 stays buffered although no query is outstanding: the counter is at its maximum. */
  lemma LateRefusalStrands()
    ensures Possible(InitialState(REFUSED_CONFIG), REFUSED_RUN)
    ensures var st := Run(InitialState(REFUSED_CONFIG), REFUSED_RUN);
            && st == RefusedState(0, multiset{}) && !Unstranded(st, 1)
  {
    var st0 := InitialState(REFUSED_CONFIG);
    var first := REFUSED_RUN[0];
    var before := RefusedState(1, multiset{Initial});
    assert Step(st0, first) == before;
    assert before.live - multiset{Initial} == multiset{};
    assert Step(before, Drop(Initial)) == RefusedState(0, multiset{});
    hide Step;
    RunAppend(st0, [], first);
    PossibleAppend(st0, [], first);
    RunAppend(st0, [first], Drop(Initial));
    PossibleAppend(st0, [first], Drop(Initial));
    assert [] + [first] == [first] && [first] + [Drop(Initial)] == REFUSED_RUN;
  }

  /** A run of five inputs, one after the other. */
  lemma FiveSteps(st: State, r: seq<Input>)
    requires |r| == 5
    ensures var third := Step(Step(Step(st, r[0]), r[1]), r[2]);
            && Run(st, r) == Step(Step(third, r[3]), r[4])
            && (Possible(st, r) <==>
                 && Enabled(st, r[0]) && Enabled(Step(st, r[0]), r[1]) && Enabled(Step(Step(st, r[0]), r[1]), r[2])
                 && Enabled(third, r[3]) && Enabled(Step(third, r[3]), r[4]))
  {
    hide Step, Enabled;
    ThreeSteps(st, r[..3]);
    assert r[..4][..3] == r[..3] && r[..5] == r;
    assert Run(st, r[..4]) == Step(Run(st, r[..3]), r[3]);
    assert r[..3][0] == r[0] && r[..3][1] == r[1] && r[..3][2] == r[2];
  }

  /** With recovery, two queries are launched for a source after its first delivery, the second of which is
    * refused late; a gap opens, is queried for, and the first query ends. */
  const EARLY_MISS_CONFIG := Config(false, true, 0, false)

  const EARLY_MISS_RUN: seq<Input> := [
    Live(Sequenced(1, 1, 10), Started),
    NewPublisher(1, Started),
    NewPublisher(1, RefusedLate),
    Live(Sequenced(1, 3, 30), Started),
    Drop(ForSource(1))]

  function EarlyMissState(queries: nat, pending: map<nat, nat>, live: multiset<Query>): State {
    State(EARLY_MISS_CONFIG, 0, map[1 := Source(true, 1, queries, pending, false, [Delivered(1, 10)])], map[], false,
          live, [], map[], map[])
  }

  lemma EarlyMissOpens()
    ensures var st0 := InitialState(EARLY_MISS_CONFIG);
            var q := ForSource(1);
            && Step(st0, EARLY_MISS_RUN[0]) == EarlyMissState(0, map[], multiset{})
            && Step(EarlyMissState(0, map[], multiset{}), EARLY_MISS_RUN[1]) == EarlyMissState(1, map[], multiset{q})
            && Step(EarlyMissState(1, map[], multiset{q}), EARLY_MISS_RUN[2]) == EarlyMissState(0, map[], multiset{q})
  {
    assert DrainRun(Deliver(NEW_SOURCE, 1, 10)) == Source(true, 1, 0, map[], false, [Delivered(1, 10)]);
  }

  lemma EarlyMissBuffers()
    ensures var q := ForSource(1);
            Step(EarlyMissState(0, map[], multiset{q}), EARLY_MISS_RUN[3])
            == EarlyMissState(1, map[3 := 30], multiset{q, q})
  {
    var q := ForSource(1);
    var s := Source(true, 1, 0, map[], false, [Delivered(1, 10)]);
    assert Receive(EARLY_MISS_CONFIG, 0, s, 3, 30) == s.(pending := map[3 := 30]);
    assert 3 in map[3 := 30];
    assert multiset{q} + multiset{q} == multiset{q, q};
    hide Receive;
  }

  lemma EarlyMissEnds()
    ensures var q := ForSource(1);
            var st := Step(EarlyMissState(1, map[3 := 30], multiset{q, q}), EARLY_MISS_RUN[4]);
            st.live == multiset{q} && LogOf(st, 1) == [Delivered(1, 10), Missed(1), Delivered(3, 30)]
  {
    var q := ForSource(1);
    var s := Source(true, 1, 0, map[3 := 30], false, [Delivered(1, 10)]);
    var end := Source(true, 3, 0, map[3 := 30], false, [Delivered(1, 10), Missed(1), Delivered(3, 30)]);
    var pending := map[3 := 30];
    assert 3 in pending;
    MinKeyUnique(pending, 3);
    assert pending - {3} == map[];
    assert Offer(s, 3, 30) == end;
    assert OfferAll(end, map[]) == end;
    assert OfferAll(s, pending) == end;
    assert multiset{q, q} - multiset{q} == multiset{q};
  }

  /** Sample 2 is reported missed although a query of the source is still outstanding. */
  lemma MissedWhileOutstanding()
    ensures Possible(InitialState(EARLY_MISS_CONFIG), EARLY_MISS_RUN)
    ensures var st := Run(InitialState(EARLY_MISS_CONFIG), EARLY_MISS_RUN);
            && st.live == multiset{ForSource(1)}
            && LogOf(st, 1) == [Delivered(1, 10), Missed(1), Delivered(3, 30)]
  {
    hide Step;
    EarlyMissOpens();
    EarlyMissBuffers();
    EarlyMissEnds();
    FiveSteps(InitialState(EARLY_MISS_CONFIG), EARLY_MISS_RUN);
  }

  /** A timestamped source is detected and queried, a sample is buffered, a second query is refused late, and
    * a newer sample arrives before the first query ends. */
  const STAMP_RUN: seq<Input> := [
    NewClock(1, Started),
    Live(Timestamped(1, 5, 50), Started),
    NewClock(1, RefusedLate),
    Live(Timestamped(1, 7, 70), Started),
    Drop(ForClock(1))]

  const STAMP_CLOCKS: seq<Clock> := [
    Clock(false, 0, 1, map[], []),
    Clock(false, 0, 1, map[5 := 50], []),
    Clock(false, 0, 0, map[5 := 50], []),
    Clock(true, 7, 0, map[5 := 50], [Stamp(7, 70)]),
    Clock(true, 7, 0, map[], [Stamp(7, 70)])]

  function StampState(c: Clock, live: multiset<Query>): State {
    State(EARLY_MISS_CONFIG, 0, map[], map[1 := c], false, live, [], map[], map[])
  }

  lemma StampsBuffer()
    ensures var q := multiset{ForClock(1)};
            && Step(InitialState(EARLY_MISS_CONFIG), STAMP_RUN[0]) == StampState(STAMP_CLOCKS[0], q)
            && Step(StampState(STAMP_CLOCKS[0], q), STAMP_RUN[1]) == StampState(STAMP_CLOCKS[1], q)
            && Step(StampState(STAMP_CLOCKS[1], q), STAMP_RUN[2]) == StampState(STAMP_CLOCKS[2], q)
  {
  }

  lemma StampsOvertake()
    ensures var q := multiset{ForClock(1)};
            && Step(StampState(STAMP_CLOCKS[2], q), STAMP_RUN[3]) == StampState(STAMP_CLOCKS[3], q)
            && Step(StampState(STAMP_CLOCKS[3], q), STAMP_RUN[4]) == StampState(STAMP_CLOCKS[4], multiset{})
  {
    var q := multiset{ForClock(1)};
    var c := STAMP_CLOCKS[3];
    var pending := map[5 := 50];
    assert DeliverStamped(STAMP_CLOCKS[2], 7, 70) == c;
    assert 5 in pending;
    MinKeyUnique(pending, 5);
    assert pending - {5} == map[];
    assert OfferAllStamped(c, map[]) == c;
    assert OfferAllStamped(c, pending) == c;
    assert q - q == multiset{};
  }

  /** Sample 5 was newer than everything delivered when it arrived, and is lost. */
  lemma OvertakenStampIsLost()
    ensures Possible(InitialState(EARLY_MISS_CONFIG), STAMP_RUN)
    ensures var st := Run(InitialState(EARLY_MISS_CONFIG), STAMP_RUN);
            st.live == multiset{} && StampsOf(st, 1) == [Stamp(7, 70)] && ClockOf(st, 1).pending == map[]
  {
    hide Step;
    StampsBuffer();
    StampsOvertake();
    FiveSteps(InitialState(EARLY_MISS_CONFIG), STAMP_RUN);
  }
}

/** The advanced publisher: numbers and stamps each sample, and caches it before writing it. */
module Publisher {
  import opened Common
  import opened CacheSelection
  import opened AdvancedCache

  const MAX_TIMESTAMP: nat := 0xFFFF_FFFF_FFFF_FFFF

  const SEQNUMBERS: nat := 0x1_0000_0000

  datatype HeartbeatMode = Periodic | Sporadic

  /** The cache holds the latest samples of the numbering, without a gap, up to number `next`. */
  ghost predicate Consecutive(contents: seq<CachedSample>, next: nat) {
    && |contents| <= next
    && forall k :: 0 <= k < |contents| ==> contents[k].sn == Some(next - |contents| + k)
  }

  /** Cached timestamps strictly increase and none is newer than the session's last one. */
  ghost predicate StampedUpTo(contents: seq<CachedSample>, last: nat) {
    && (forall k :: 0 <= k < |contents| ==> contents[k].time.Some? && contents[k].time.value <= last)
    && (forall i, j :: 0 <= i < j < |contents| ==> contents[i].time.value < contents[j].time.value)
  }

  lemma StoredConsecutive(contents: seq<CachedSample>, next: nat, s: CachedSample, capacity: nat)
    requires Consecutive(contents, next) && s.sn == Some(next) && |contents| <= capacity
    ensures Consecutive(Newest(capacity, contents + [s]), next + 1)
  {
  }

  lemma NewestIsThere(contents: seq<CachedSample>, s: CachedSample, capacity: nat)
    requires capacity > 0
    ensures s in Newest(capacity, contents + [s])
  {
    var r := Newest(capacity, contents + [s]);
    assert r[|r| - 1] == s;
  }

  lemma StoredStamped(contents: seq<CachedSample>, last: nat, s: CachedSample, capacity: nat)
    requires StampedUpTo(contents, last) && s.time.Some? && s.time.value > last
    ensures StampedUpTo(Newest(capacity, contents + [s]), s.time.value)
  {
  }

  class AdvancedPublisher {
    /** Whether samples are numbered as well as timestamped. */
    const numbered: bool
    var seqnumber: nat
    var lastTimestamp: nat
    /** The next number, as a 32-bit one, when the last heartbeat was sent. */
    var lastPublished: nat
    const cache: Cache
    /** The samples written to the network. */
    ghost var wire: seq<CachedSample>

    ghost predicate Valid()
      reads this, cache, cache.ring, cache.ring.val
    {
      cache.Valid() && lastTimestamp <= MAX_TIMESTAMP && StampedUpTo(cache.Contents(), lastTimestamp)
    }

    constructor (cache: Cache, numbered: bool)
      requires cache.Valid() && cache.Contents() == []
      ensures Valid() && this.cache == cache && this.numbered == numbered
      ensures seqnumber == 0 == lastPublished && wire == []
      ensures Consecutive(cache.Contents(), seqnumber)
    {
      this.cache, this.numbered := cache, numbered;
      seqnumber, lastTimestamp, lastPublished := 0, 0, 0;
      wire := [];
    }

    /** A timestamp newer than every earlier one of the session, whatever the clock says; none if the
      * clock or the session fails, or if there is no newer one. */
    method NewTimestamp(clock: Option<nat>) returns (time: Option<nat>)
      requires (clock.Some? ==> clock.value <= MAX_TIMESTAMP) && lastTimestamp <= MAX_TIMESTAMP
      modifies this`lastTimestamp
      ensures time == None <==> clock == None || clock.value <= old(lastTimestamp) == MAX_TIMESTAMP
      ensures time.Some? ==>
        time.value == lastTimestamp > old(lastTimestamp) && clock.value <= lastTimestamp <= MAX_TIMESTAMP
      ensures time.None? ==> lastTimestamp == old(lastTimestamp)
    {
      if clock.None? {
        return None;
      }
      if clock.value > lastTimestamp {
        lastTimestamp := clock.value;
      } else if lastTimestamp == MAX_TIMESTAMP {
        return None;
      } else {
        lastTimestamp := lastTimestamp + 1;
      }
      time := Some(lastTimestamp);
    }

    method Store(sample: CachedSample, ghost before: nat)
      requires cache.Valid() && StampedUpTo(cache.Contents(), before)
      requires sample.time.Some? && sample.time.value > before
      modifies cache`added, cache.ring, cache.ring.val
      ensures cache.Valid() && StampedUpTo(cache.Contents(), sample.time.value)
      ensures cache.Contents() == Newest(cache.ring.Capacity(), old(cache.Contents()) + [sample])
      ensures sample in cache.Contents()
    {
      hide StampedUpTo, Newest, Cache.Contents;
      StoredStamped(cache.Contents(), before, sample, cache.ring.Capacity());
      NewestIsThere(cache.Contents(), sample, cache.ring.Capacity());
      cache.Add(sample);
    }

    /** Only a sample that the cache holds may be written. */
    method Write(sample: CachedSample)
      requires cache.Valid() && sample in cache.Contents()
      modifies this`wire
      ensures wire == old(wire) + [sample]
    {
      wire := wire + [sample];
    }

    /** A sample is in the cache before it goes on the wire, and is cached even when nobody listens. A
      * failing timestamp still uses up a sequence number, which is then never published. */
    method Put(payload: nat, clock: Option<nat>, listening: bool) returns (stored: Option<CachedSample>)
      requires Valid() && (clock.Some? ==> clock.value <= MAX_TIMESTAMP)
      modifies this, cache`added, cache.ring, cache.ring.val
      ensures Valid() && lastPublished == old(lastPublished)
      ensures seqnumber == if numbered then old(seqnumber) + 1 else old(seqnumber)
      ensures stored == None <==> clock == None || clock.value <= old(lastTimestamp) == MAX_TIMESTAMP
      ensures stored.Some? ==>
        && stored.value == CachedSample(if numbered then Some(old(seqnumber)) else None, Some(lastTimestamp), payload)
        && lastTimestamp > old(lastTimestamp)
        && cache.Contents() == Newest(cache.ring.Capacity(), old(cache.Contents()) + [stored.value])
        && wire == old(wire) + (if listening then [stored.value] else [])
      ensures stored.None? ==> cache.Contents() == old(cache.Contents()) && wire == old(wire)
      ensures numbered && stored.Some? && old(Consecutive(cache.Contents(), seqnumber)) ==>
        old(|cache.Contents()|) <= cache.ring.Capacity() ==> Consecutive(cache.Contents(), seqnumber)
    {
      hide StampedUpTo, Newest, Cache.Contents, Cache.Valid;
      var sn: Option<nat> := None;
      if numbered {
        sn := Some(seqnumber);
        seqnumber := seqnumber + 1;
      }
      var time := NewTimestamp(clock);
      if time == None {
        return None;
      }
      var sample := CachedSample(sn, time, payload);
      Store(sample, old(lastTimestamp));
      if listening {
        Write(sample);
      }
      stored := Some(sample);
      if numbered && Consecutive(old(cache.Contents()), sn.value) && |old(cache.Contents())| <= cache.ring.Capacity() {
        StoredConsecutive(old(cache.Contents()), sn.value, sample, cache.ring.Capacity());
      }
    }

    /** The heartbeat announces the number before the next one; a sporadic one only if the next number is
      * beyond that of the last heartbeat. Both are 32-bit numbers, so that a periodic heartbeat before the
      * first sample announces the largest one. */
    method HeartbeatHandler(mode: HeartbeatMode) returns (announced: Option<nat>)
      modifies this`lastPublished
      ensures announced == None <==> mode == Sporadic && seqnumber % SEQNUMBERS <= old(lastPublished)
      ensures announced.Some? ==>
        && announced.value < SEQNUMBERS && (announced.value + 1) % SEQNUMBERS == seqnumber % SEQNUMBERS
        && lastPublished == seqnumber % SEQNUMBERS
      ensures announced.None? ==> lastPublished == old(lastPublished)
    {
      var next := seqnumber % SEQNUMBERS;
      var publish := match mode
        case Periodic => true
        case Sporadic => next > lastPublished;
      if !publish {
        return None;
      }
      lastPublished := next;
      announced := Some(if next == 0 then SEQNUMBERS - 1 else next - 1);
    }
  }
}

/** A recovery query answered by the publisher's cache closes the gap. */
module CacheRecovery {
  import opened Common
  import opened CacheSelection
  import opened Publisher
  import opened Delivery
  import opened SourceSteps
  import opened SubscriberModel
  import opened SubscriberSurvival
  import opened SubscriberRecovery

  /** A query for lost samples asks for everything from the next expected number on, or for everything
    * if nothing was delivered yet; after a heartbeat, up to the announced number. */
  function RecoveryParams(start: int, end: int): Params {
    Params(start, end, None, false, _ => true)
  }

  function StartFor(s: Source): int {
    if s.hasLast then s.last + 1 else UNBOUNDED
  }

  function Answer(start: int, end: int, capacity: nat, contents: seq<CachedSample>): seq<CachedSample> {
    Newest(Limit(RecoveryParams(start, end), capacity), Matches(RecoveryParams(start, end), contents))
  }

  lemma {:induction false} MatchesShorter(p: Params, samples: seq<CachedSample>)
    ensures |Matches(p, samples)| <= |samples|
  {
    if samples != [] {
      MatchesShorter(p, samples[..|samples| - 1]);
    }
  }

  ghost predicate Answered(answer: seq<CachedSample>, sn: nat) {
    exists r :: r in answer && r.sn == Some(sn)
  }

  predicate InRange(sn: nat, start: int, end: int) {
    (start == UNBOUNDED || start <= sn) && (end == UNBOUNDED || sn <= end)
  }

  /** The answer brings number `sn` exactly when it was asked for and is still cached. */
  lemma AnswerHas(start: int, end: int, capacity: nat, contents: seq<CachedSample>, next: nat, sn: nat)
    requires Consecutive(contents, next) && |contents| <= capacity
    ensures Answered(Answer(start, end, capacity, contents), sn) <==>
            InRange(sn, start, end) && sn < next && next - sn <= |contents|
  {
    var p := RecoveryParams(start, end);
    var answer := Answer(start, end, capacity, contents);
    MatchesShorter(p, contents);
    assert answer == Matches(p, contents);
    if Answered(answer, sn) {
      var r :| r in answer && r.sn == Some(sn);
      MatchesMembers(p, contents, r);
    }
    if InRange(sn, start, end) && sn < next && next - sn <= |contents| {
      var r := contents[sn - (next - |contents|)];
      MatchesMembers(p, contents, r);
      assert r in answer && r.sn == Some(sn);
    }
  }

  /** Every sample of the answer arrives as a reply of the recovery query. */
  ghost predicate RepliesArrive(answer: seq<CachedSample>, inputs: seq<Input>, id: nat) {
    forall r :: r in answer && r.sn.Some? ==>
      Reply(ForSource(id), Sequenced(id, r.sn.value, r.payload)) in inputs
  }

  lemma ReplyArrives(answer: seq<CachedSample>, inputs: seq<Input>, id: nat, sn: nat)
    requires RepliesArrive(answer, inputs, id) && Answered(answer, sn)
    ensures Arrives(inputs, id, sn)
  {
    var r :| r in answer && r.sn == Some(sn);
    var reply := Reply(ForSource(id), Sequenced(id, r.sn.value, r.payload));
    assert Arrival(reply, id, sn);
    var i :| 0 <= i < |inputs| && inputs[i] == reply;
  }

  /** If the cache still holds everything that is wanted and its answer is received while the recovery
    * query is outstanding, then everything published up to any number asked for is delivered, in order,
    * once and without a miss, whatever live samples are lost, duplicated or reordered meanwhile. Wanted
    * is everything after the last delivery, or from the first delivery on if there was none before. */
  lemma RecoveryFromCache(st: State, inputs: seq<Input>, id: nat, end: int,
                          capacity: nat, contents: seq<CachedSample>, next: nat, m: nat)
    requires Window(st, inputs, id) && SourceOf(Run(st, inputs), id).hasLast
    requires Consecutive(contents, next) && |contents| <= capacity
    requires var s := SourceOf(st, id);
             var from := WantedFrom(s, SourceOf(Run(st, inputs), id));
             && from <= m < next && InRange(m, StartFor(s), end) && next - from <= |contents|
             && RepliesArrive(Answer(StartFor(s), end, capacity, contents), inputs, id)
    ensures var s := SourceOf(st, id);
            var s' := SourceOf(Run(st, inputs), id);
            && s'.last >= m && OnlyDeliveries(s.log, s'.log)
            && forall sn: nat :: WantedFrom(s, s') <= sn <= m ==> Has(s'.log, sn)
  {
    hide Run, Window, Answer, Answered, Arrives, Consecutive, RepliesArrive;
    var s := SourceOf(st, id);
    var from := WantedFrom(s, SourceOf(Run(st, inputs), id));
    forall sn: nat | from <= sn <= m
      ensures Arrives(inputs, id, sn)
    {
      AnswerHas(StartFor(s), end, capacity, contents, next, sn);
      ReplyArrives(Answer(StartFor(s), end, capacity, contents), inputs, id, sn);
    }
    WindowCompletes(st, inputs, id, m);
  }
}

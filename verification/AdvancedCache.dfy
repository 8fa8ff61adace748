/** The publisher's cache of recent samples and the query handler that answers from it. */
module CacheSelection {
  import opened Common

  datatype CachedSample = CachedSample(sn: Option<nat>, time: Option<nat>, payload: nat)

  const UNBOUNDED := -1

  /** A parsed query: a range of sequence numbers, a maximum and a time filter. */
  datatype Params = Params(start: int, end: int, max: Option<nat>, timeFilter: bool, inTime: nat -> bool)

  predicate RangeContains(p: Params, sn: nat) {
    (p.start == UNBOUNDED || p.start <= sn) && (p.end == UNBOUNDED || sn <= p.end)
  }

  predicate RangeFilter(p: Params) {
    p.start != UNBOUNDED || p.end != UNBOUNDED
  }

  predicate Selects(p: Params, s: CachedSample) {
    && (RangeFilter(p) ==> s.sn.Some? && RangeContains(p, s.sn.value))
    && (p.timeFilter ==> s.time.Some? && p.inTime(s.time.value))
  }

  /** The selected samples, in the order of the cache. */
  function Matches(p: Params, samples: seq<CachedSample>): seq<CachedSample> {
    if samples == [] then []
    else Matches(p, samples[..|samples| - 1])
         + if Selects(p, samples[|samples| - 1]) then [samples[|samples| - 1]] else []
  }

  function Newest<T>(n: nat, s: seq<T>): (r: seq<T>)
    ensures |r| == if n < |s| then n else |s|
  {
    if n < |s| then s[|s| - n..] else s
  }

  lemma NewestAppend<T>(n: nat, s: seq<T>, e: T)
    ensures Newest(n, s + [e]) == Newest(n, Newest(n, s) + [e])
  {
  }

  function Limit(p: Params, capacity: nat): nat {
    if p.max.Some? && p.max.value < capacity then p.max.value else capacity
  }

  lemma {:induction false} MatchesAppend(p: Params, a: seq<CachedSample>, b: seq<CachedSample>)
    ensures Matches(p, a + b) == Matches(p, a) + Matches(p, b)
  {
    if b == [] {
      assert a + b == a;
    } else {
      var last := b[|b| - 1];
      assert (a + b)[..|a + b| - 1] == a + b[..|b| - 1];
      MatchesAppend(p, a, b[..|b| - 1]);
    }
  }

  lemma MatchesFirst(p: Params, s: CachedSample, rest: seq<CachedSample>)
    ensures Matches(p, [s] + rest) == (if Selects(p, s) then [s] else []) + Matches(p, rest)
  {
    hide Matches, Selects;
    MatchesAppend(p, [s], rest);
    MatchesOne(p, s);
  }

  lemma MatchesOne(p: Params, s: CachedSample)
    ensures Matches(p, [s]) == if Selects(p, s) then [s] else []
  {
    hide Selects;
    assert [s][..0] == [];
  }

  /** Where the matches are. */
  ghost function Positions(p: Params, samples: seq<CachedSample>): (at: seq<nat>)
    ensures |at| <= |samples|
  {
    if samples == [] then []
    else
      var n := |samples| - 1;
      Positions(p, samples[..n]) + if Selects(p, samples[n]) then [n] else []
  }

  /** The selected samples are those at these positions, in order. */
  ghost predicate Locates(p: Params, samples: seq<CachedSample>, at: seq<nat>, matches: seq<CachedSample>) {
    && |at| == |matches|
    && (forall i :: 0 <= i < |at| ==> at[i] < |samples| && samples[at[i]] == matches[i])
    && (forall i, j :: 0 <= i < j < |at| ==> at[i] < at[j])
    && (forall k: nat :: k in at <==> k < |samples| && Selects(p, samples[k]))
  }

  lemma LocatesOneMore(p: Params, init: seq<CachedSample>, s: CachedSample, at: seq<nat>, matches: seq<CachedSample>)
    requires Locates(p, init, at, matches)
    ensures if Selects(p, s) then Locates(p, init + [s], at + [|init|], matches + [s])
            else Locates(p, init + [s], at, matches)
  {
    hide Selects;
    var samples := init + [s];
    forall k: nat
      ensures k in at + [|init|] <==> k in at || k == |init|
    {
    }
    assert forall k :: 0 <= k < |init| ==> samples[k] == init[k];
  }

  lemma {:induction false} PositionsMatch(p: Params, samples: seq<CachedSample>)
    ensures Locates(p, samples, Positions(p, samples), Matches(p, samples))
  {
    hide Selects, Locates;
    if samples == [] {
      assert Locates(p, samples, [], []) by {
        NothingLocated(p);
      }
    } else {
      var n := |samples| - 1;
      PositionsMatch(p, samples[..n]);
      var at, matches := Positions(p, samples[..n]), Matches(p, samples[..n]);
      LocatesOneMore(p, samples[..n], samples[n], at, matches);
      assert samples[..n] + [samples[n]] == samples && at + [] == at && matches + [] == matches;
    }
  }

  lemma NothingLocated(p: Params)
    ensures Locates(p, [], [], [])
  {
  }

  lemma NewestPositions(p: Params, samples: seq<CachedSample>, n: nat) returns (at: seq<nat>)
    ensures var replies := Newest(n, Matches(p, samples));
            && |at| == |replies|
            && (forall i :: 0 <= i < |at| ==> at[i] < |samples| && replies[i] == samples[at[i]])
            && (forall i, j :: 0 <= i < j < |at| ==> at[i] < at[j])
            && (forall i :: 0 <= i < |at| ==> Selects(p, samples[at[i]]))
            && (forall k: nat :: k < |samples| && Selects(p, samples[k]) && k !in at ==>
                 |at| == n && forall i :: 0 <= i < |at| ==> k < at[i])
  {
    hide Selects, Positions, Matches;
    var all := Positions(p, samples);
    var matches := Matches(p, samples);
    PositionsMatch(p, samples);
    var from := if n < |all| then |all| - n else 0;
    at := all[from..];
    assert Newest(n, matches) == matches[from..];
    forall i | 0 <= i < |at|
      ensures at[i] < |samples| && Selects(p, samples[at[i]]) && Newest(n, matches)[i] == samples[at[i]]
    {
      assert at[i] == all[from + i] && all[from + i] in all;
    }
    forall k: nat | k < |samples| && Selects(p, samples[k]) && k !in at
      ensures |at| == n && forall i :: 0 <= i < |at| ==> k < at[i]
    {
      var m :| 0 <= m < |all| && all[m] == k;
      InSuffix(all, from, m);
    }
  }

  lemma InSuffix(all: seq<nat>, from: nat, m: nat)
    requires from <= |all| && m < |all|
    ensures m >= from ==> all[m] in all[from..]
  {
    if m >= from {
      assert all[from..][m - from] == all[m];
    }
  }

  /** The matches are exactly the samples that the cache holds and both filters select. */
  lemma {:induction false} MatchesMembers(p: Params, samples: seq<CachedSample>, s: CachedSample)
    ensures s in Matches(p, samples) <==> s in samples && Selects(p, s)
  {
    if samples != [] {
      MatchesMembers(p, samples[..|samples| - 1], s);
      assert samples == samples[..|samples| - 1] + [samples[|samples| - 1]];
    }
  }
}

module AdvancedCache {
  import opened Common
  import opened Ring
  import opened CacheSelection

  class Cache {
    const ring: RingBuffer<CachedSample>
    const outbox: array<CachedSample>
    ghost var added: seq<CachedSample>

    /** The ring holds the last samples of everything ever added. */
    ghost predicate Valid()
      reads this, ring, ring.val
    {
      ring.Valid() && ring.Capacity() > 0 && outbox.Length == ring.Capacity() && outbox as object != ring.val
      && ring.Queue() == Newest(ring.Capacity(), added)
    }

    ghost function Contents(): seq<CachedSample>
      requires Valid()
      reads this, ring, ring.val
    {
      ring.Queue()
    }

    /** A cache of no samples is refused by the declaration. */
    constructor (maxSamples: nat, empty: CachedSample)
      requires maxSamples > 0
      ensures Valid() && ring.Capacity() == maxSamples && Contents() == added == []
      ensures fresh(ring) && fresh(ring.val) && fresh(outbox)
    {
      ring := new RingBuffer<CachedSample>(maxSamples);
      outbox := new CachedSample[maxSamples](_ => empty);
      added := [];
    }

    /** The cache keeps the last samples added, oldest first. */
    method Add(s: CachedSample)
      requires Valid()
      modifies this`added, ring, ring.val
      ensures Valid() && added == old(added) + [s]
      ensures Contents() == Newest(ring.Capacity(), old(Contents()) + [s])
    {
      ghost var was := Contents();
      var _ := ring.PushForce(s);
      assert |was| == ring.Capacity() ==> (was + [s])[1..] == was[1..] + [s];
      NewestAppend(ring.Capacity(), added, s);
      added := added + [s];
    }

    method Store(s: CachedSample, count: nat, ghost picked: seq<CachedSample>)
      requires count < outbox.Length && Holds(picked, count)
      modifies outbox
      ensures Holds([s] + picked, count + 1)
    {
      outbox[count] := s;
    }

    lemma NothingHeld()
      ensures Holds([], 0)
    {
    }

    lemma HeldCount(picked: seq<CachedSample>, n: nat)
      requires Holds(picked, n)
      ensures |picked| == n
    {
    }

    /** Copy selected samples to the outbox, from the newest backwards, until `max` are copied. */
    method FillOutbox(p: Params, max: nat) returns (count: nat, ghost picked: seq<CachedSample>)
      requires Valid() && max <= outbox.Length
      modifies outbox
      ensures Valid() && Contents() == old(Contents())
      ensures Holds(picked, count) && picked == Newest(max, Matches(p, Contents()))
    {
      hide Matches, Newest, Selects, Holds, RingBuffer<CachedSample>.Queue, ReverseIterator<CachedSample>.Valid;
      var iter := new ReverseIterator<CachedSample>(ring);
      ghost var all := ring.Queue();
      count, picked := 0, [];
      assert Holds(picked, count) by { NothingHeld(); }
      MatchesNothing(p, all);
      while count < max
        invariant iter.Valid() && iter.ring == ring && fresh(iter) && iter.left <= |all|
        invariant count <= max && Holds(picked, count)
        invariant picked == Matches(p, all[iter.left..])
        decreases iter.left
      {
        var e := iter.Next();
        if e == None {
          break;
        }
        var s := e.value;
        assert all[iter.left..] == [s] + all[iter.left + 1..];
        MatchesFirst(p, s, all[iter.left + 1..]);
        if Selects(p, s) {
          Store(s, count, picked);
          count, picked := count + 1, [s] + picked;
        }
      }
      HeldCount(picked, count);
      PickedIsNewest(p, all, iter.left, max, picked);
    }

    /** A query is answered with the newest matching samples, oldest first; `at` says where in the cache they
      * are. Every reply passes both filters. Every cached sample that passes them and is not sent is older
      * than all replies, and then as many are sent as are asked for and the cache can hold. */
    method QueryHandler(p: Params) returns (replies: seq<CachedSample>, ghost at: seq<nat>)
      requires Valid()
      modifies outbox
      ensures Valid() && Contents() == old(Contents())
      ensures replies == Newest(Limit(p, ring.Capacity()), Matches(p, Contents()))
      ensures |at| == |replies| && forall i :: 0 <= i < |at| ==> at[i] < |Contents()| && replies[i] == Contents()[at[i]]
      ensures forall i, j :: 0 <= i < j < |at| ==> at[i] < at[j]
      ensures forall r :: r in replies ==>
        && (p.start != UNBOUNDED || p.end != UNBOUNDED ==>
             && r.sn.Some? && (p.start != UNBOUNDED ==> p.start <= r.sn.value)
             && (p.end != UNBOUNDED ==> r.sn.value <= p.end))
        && (p.timeFilter ==> r.time.Some? && p.inTime(r.time.value))
      ensures |replies| <= ring.Capacity() && (p.max.Some? ==> |replies| <= p.max.value)
      ensures forall k: nat :: k < |Contents()| && k !in at && Passes(p, Contents()[k]) ==>
        && (|replies| == ring.Capacity() || (p.max.Some? && |replies| == p.max.value))
        && forall i :: 0 <= i < |at| ==> k < at[i]
    {
      hide Matches, Newest, RingBuffer<CachedSample>.Queue;
      var cap := ring.Capacity();
      var max := if p.max.Some? then p.max.value else cap;
      if max > cap { max := cap; }
      var count, picked := FillOutbox(p, Min(max, outbox.Length));
      replies := SendOldestFirst(count, picked);
      at := NewestPositions(p, Contents(), Limit(p, cap));
      forall r | r in replies
        ensures Selects(p, r)
      {
        var i :| 0 <= i < |replies| && replies[i] == r;
        assert Selects(p, Contents()[at[i]]);
      }
    }

    /** Neither filter keeps the sample back. */
    predicate Passes(p: Params, s: CachedSample) {
      && (p.start == UNBOUNDED || (s.sn.Some? && p.start <= s.sn.value))
      && (p.end == UNBOUNDED || (s.sn.Some? && s.sn.value <= p.end))
      && (!p.timeFilter || (s.time.Some? && p.inTime(s.time.value)))
    }

    /** The outbox holds `picked`, the newest sample first. */
    ghost predicate Holds(picked: seq<CachedSample>, n: nat)
      reads outbox
    {
      n <= outbox.Length && |picked| == n && forall k :: 0 <= k < n ==> picked[k] == outbox[n - 1 - k]
    }

    method SendOldestFirst(count: nat, ghost picked: seq<CachedSample>) returns (replies: seq<CachedSample>)
      requires Holds(picked, count)
      ensures replies == picked
    {
      replies := [];
      var toSend := count;
      while toSend > 0
        invariant 0 <= toSend <= count && replies == picked[..count - toSend]
      {
        toSend := toSend - 1;
        replies := replies + [outbox[toSend]];
      }
    }
  }

  lemma MatchesNothing(p: Params, all: seq<CachedSample>)
    ensures Matches(p, all[|all|..]) == []
  {
  }

  lemma PickedIsNewest(p: Params, all: seq<CachedSample>, left: nat, limit: nat, picked: seq<CachedSample>)
    requires left <= |all| && picked == Matches(p, all[left..])
    requires |picked| <= limit && (|picked| == limit || left == 0)
    ensures picked == Newest(limit, Matches(p, all))
  {
    MatchesAppend(p, all[..left], all[left..]);
    assert all == all[..left] + all[left..];
  }
}

/** Whole histories of a cache, on keys: when the sorted index serves, and what happens when it does not. */
module LruRuns {
  import opened Common
  import opened Sequences
  import opened LruKeys
  import opened LruOrder

  /** The keys of the index by slot, and of the recency list from the most recently used one. */
  datatype Cached = Cached(index: seq<int>, order: seq<int>)

  datatype Op = Get(key: int) | Insert(key: int)

  function Step(capacity: nat, c: Cached, op: Op): Cached {
    match op
    case Get(k) => if Find(c.index, k).Some? then c.(order := [k] + Without(c.order, k)) else c
    case Insert(k) =>
      if |c.order| < capacity || c.index == [] || c.order == [] then Cached(Grown(c.index, k), [k] + c.order)
      else
        var n := |c.order| - 1;
        Cached(Evicted(c.index, c.order[n], k), [k] + c.order[..n])
  }

  function Run(capacity: nat, ops: seq<Op>): Cached {
    if ops == [] then Cached([], []) else Step(capacity, Run(capacity, ops[..|ops| - 1]), ops[|ops| - 1])
  }

  /** Keys are inserted only while they are not cached. */
  ghost predicate Possible(capacity: nat, ops: seq<Op>) {
    ops == [] ||
    var init, op := ops[..|ops| - 1], ops[|ops| - 1];
    Possible(capacity, init) && (op.Insert? ==> op.key !in Run(capacity, init).order)
  }

  /** The index is sorted and holds the same keys as the recency list. */
  ghost predicate Agrees(capacity: nat, c: Cached) {
    && Sorted(c.index) && Distinct(c.order) && |c.index| == |c.order| <= capacity
    && forall k :: k in c.index <==> k in c.order
  }

  /** The operation is an evicting insert that misplaces its key. */
  predicate Misplaces(capacity: nat, c: Cached, op: Op) {
    op.Insert? && |c.order| == capacity > 0 && Misplaced(c.index, c.order[capacity - 1], op.key)
  }

  lemma GetAgrees(capacity: nat, c: Cached, k: int)
    requires Agrees(capacity, c)
    ensures Agrees(capacity, Step(capacity, c, Get(k)))
  {
    hide Sorted, Distinct, Find, Without;
    FindIsMembership(c.index, k);
    if Find(c.index, k).Some? {
      var i :| 0 <= i < |c.order| && c.order[i] == k;
      WithoutPresent(c.order, i);
      WithoutMembers(c.order, k);
      WithoutDistinct(c.order, k);
      DistinctCons(k, Without(c.order, k));
    }
  }

  lemma GrowAgrees(capacity: nat, c: Cached, k: int)
    requires Agrees(capacity, c) && k !in c.order && |c.order| < capacity
    ensures Agrees(capacity, Cached(Grown(c.index, k), [k] + c.order))
  {
    hide Distinct;
    var pos := Locate(c.index, k, 0, |c.index|);
    LocateDivides(c.index, k, 0, |c.index|);
    GrownSorted(c.index, pos, k);
    hide Sorted;
    DistinctCons(k, c.order);
    assert c.index == c.index[..pos] + c.index[pos..];
    forall x
      ensures x in Grown(c.index, k) <==> x in c.index || x == k
    {
    }
  }

  lemma SortedOnce(keys: seq<int>, i: nat)
    requires Sorted(keys) && i < |keys|
    ensures forall k :: k in multiset(keys) - multiset{keys[i]} <==> k in keys && k != keys[i]
  {
    assert keys == keys[..i] + [keys[i]] + keys[i + 1..];
    assert keys[i] !in keys[..i] && keys[i] !in keys[i + 1..];
  }

  lemma LastOut(order: seq<int>, n: nat)
    requires Distinct(order) && |order| == n + 1
    ensures Distinct(order[..n]) && forall k :: k in order[..n] <==> k in order && k != order[n]
  {
    assert order == order[..n] + [order[n]];
  }

  /** An evicting insert keeps the index sorted if and only if it does not misplace its key. */
  lemma EvictAgrees(capacity: nat, c: Cached, k: int)
    requires Agrees(capacity, c) && k !in c.order && |c.order| == capacity > 0
    ensures var r := Cached(Evicted(c.index, c.order[capacity - 1], k), [k] + c.order[..capacity - 1]);
            && (Sorted(r.index) <==> !Misplaces(capacity, c, Insert(k)))
            && (Sorted(r.index) ==> Agrees(capacity, r))
  {
    hide Replaced, Evicted, Distinct, Sorted, IsPosition, Misplaced;
    var victim := c.order[capacity - 1];
    var pos, del := EvictedIs(c.index, victim, k);
    var after := Replaced(c.index, pos, del, k);
    ReplacedSorted(c.index, pos, del, k);
    ReplacedContents(c.index, pos, del, k);
    SortedOnce(c.index, del);
    LastOut(c.order, capacity - 1);
    DistinctCons(k, c.order[..capacity - 1]);
    SameMembers(c.index, after, del, k);
    var order := [k] + c.order[..capacity - 1];
    forall x
      ensures x in after <==> x in order
    {
      assert x in order <==> x == k || x in c.order[..capacity - 1];
    }
  }

  lemma SameMembers(before: seq<int>, after: seq<int>, del: nat, k: int)
    requires del < |before| && multiset(after) == multiset(before) - multiset{before[del]} + multiset{k}
    ensures forall x :: x in after <==> x in multiset(before) - multiset{before[del]} || x == k
  {
    assert forall x :: x in after <==> x in multiset(after);
  }

  ghost predicate AlwaysSorted(capacity: nat, ops: seq<Op>) {
    Sorted(Run(capacity, ops).index) && (ops == [] || AlwaysSorted(capacity, ops[..|ops| - 1]))
  }

  ghost predicate NeverMisplaces(capacity: nat, ops: seq<Op>) {
    ops == [] ||
    var init := ops[..|ops| - 1];
    NeverMisplaces(capacity, init) && !Misplaces(capacity, Run(capacity, init), ops[|ops| - 1])
  }

  /** Over any history the index stays sorted, and holds exactly the cached keys, if and only if no insert
    * misplaces its key. */
  lemma {:induction false} RunSorted(capacity: nat, ops: seq<Op>)
    requires capacity > 0 && Possible(capacity, ops)
    ensures AlwaysSorted(capacity, ops) <==> NeverMisplaces(capacity, ops)
    ensures AlwaysSorted(capacity, ops) ==> Agrees(capacity, Run(capacity, ops))
  {
    hide Sorted, Distinct, Misplaced, Without, Find, Grown, Evicted;
    if ops == [] {
      assert Sorted([]) && Distinct<int>([]) by {
        NothingCached();
      }
    } else {
      var init, op := ops[..|ops| - 1], ops[|ops| - 1];
      var c := Run(capacity, init);
      RunSorted(capacity, init);
      if AlwaysSorted(capacity, init) {
        match op
        case Get(k) => GetAgrees(capacity, c, k);
        case Insert(k) =>
          if |c.order| < capacity {
            GrowAgrees(capacity, c, k);
          } else {
            EvictAgrees(capacity, c, k);
          }
      }
    }
  }

  lemma NothingCached()
    ensures Sorted([]) && Distinct<int>([])
  {
  }

  /** Keys 1, 2 and 5 are cached, 3 is misplaced, 2 and 5 are used, and 7 needs the slot of 3. */
  const STALE_RUN: seq<Op> := [Insert(1), Insert(2), Insert(5), Insert(3), Get(2), Get(5), Insert(7)]

  lemma {:induction false} LocateOnTop(keys: seq<int>, key: int, lo: nat, hi: nat)
    requires lo <= hi <= |keys| && forall i :: lo <= i < hi ==> keys[i] < key
    ensures Locate(keys, key, lo, hi) == hi
    decreases hi - lo
  {
    if lo < hi {
      LocateOnTop(keys, key, lo + (hi - 1 - lo) / 2 + 1, hi);
    }
  }

  lemma GrowsOnTop(keys: seq<int>, key: int)
    requires forall i :: 0 <= i < |keys| ==> keys[i] < key
    ensures Grown(keys, key) == keys + [key]
  {
    LocateOnTop(keys, key, 0, |keys|);
  }

  /** Inserting the largest key below capacity. */
  lemma InsertOnTop(capacity: nat, c: Cached, k: int)
    requires |c.order| < capacity && forall i :: 0 <= i < |c.index| ==> c.index[i] < k
    ensures Step(capacity, c, Insert(k)) == Cached(c.index + [k], [k] + c.order)
  {
    hide Grown, Evicted, Find, Without;
    GrowsOnTop(c.index, k);
  }

  /** A full cache of three whose first slot is overwritten by a key above the first two slots. */
  lemma EvictFirst(c: Cached, k: int)
    requires |c.index| == |c.order| == 3 && c.index[0] < k && c.index[1] < k
    requires var found := Find(c.index, c.order[2]); found == None || found == Some(0)
    ensures Step(3, c, Insert(k)) == Cached([c.index[1], c.index[2], k], [k, c.order[0], c.order[1]])
  {
    hide Find, Without, Grown;
    LocateOnTop(c.index, k, 0, 2);
    assert Evicted(c.index, c.order[2], k) == Replaced(c.index, 2, 0, k);
    assert Replaced(c.index, 2, 0, k) == [c.index[1], c.index[2], k];
    hide Evicted, Replaced, Locate;
    assert [k] + c.order[..2] == [k, c.order[0], c.order[1]];
  }

  lemma StaleMisplaces()
    ensures Step(3, Cached([1, 2, 5], [5, 2, 1]), Insert(3)) == Cached([2, 5, 3], [3, 5, 2])
  {
    var keys := [1, 2, 5];
    assert Probe(keys, 1, 0, 3) == Probe(keys, 1, 0, 1) == Some(0);
    hide Step, Probe;
    EvictFirst(Cached(keys, [5, 2, 1]), 3);
  }

  lemma StaleGets()
    ensures Step(3, Cached([2, 5, 3], [3, 5, 2]), Get(2)) == Cached([2, 5, 3], [2, 3, 5])
    ensures Step(3, Cached([2, 5, 3], [2, 3, 5]), Get(5)) == Cached([2, 5, 3], [5, 2, 3])
  {
    var keys := [2, 5, 3];
    assert Probe(keys, 2, 0, 3) == Probe(keys, 2, 0, 1) == Some(0);
    assert Probe(keys, 5, 0, 3) == Some(1);
    assert Without([3, 5, 2], 2) == [3, 5] by {
      WithoutPresent([3, 5, 2], 2);
    }
    assert Without([2, 3, 5], 5) == [2, 3] by {
      WithoutPresent([2, 3, 5], 2);
    }
  }

  lemma StaleEvicts()
    ensures Step(3, Cached([2, 5, 3], [5, 2, 3]), Insert(7)) == Cached([5, 3, 7], [7, 5, 2])
  {
    hide Step, Find;
    MisplacedExample();
    EvictFirst(Cached([2, 5, 3], [5, 2, 3]), 7);
  }

  lemma RunNext(capacity: nat, ops: seq<Op>, op: Op)
    requires Possible(capacity, ops) && (op.Insert? ==> op.key !in Run(capacity, ops).order)
    ensures Possible(capacity, ops + [op]) && Run(capacity, ops + [op]) == Step(capacity, Run(capacity, ops), op)
  {
    hide Step;
    assert (ops + [op])[..|ops|] == ops;
  }

  lemma RunStarts(capacity: nat)
    ensures Possible(capacity, []) && Run(capacity, []) == Cached([], [])
  {
  }

  lemma StaleGrows()
    ensures Step(3, Cached([], []), Insert(1)) == Cached([1], [1])
    ensures Step(3, Cached([1], [1]), Insert(2)) == Cached([1, 2], [2, 1])
    ensures Step(3, Cached([1, 2], [2, 1]), Insert(5)) == Cached([1, 2, 5], [5, 2, 1])
  {
    hide Step;
    InsertOnTop(3, Cached([], []), 1);
    InsertOnTop(3, Cached([1], [1]), 2);
    InsertOnTop(3, Cached([1, 2], [2, 1]), 5);
    assert [] + [1] == [1] && [1] + [] == [1] && [1] + [2] == [1, 2] && [2] + [1] == [2, 1];
    assert [1, 2] + [5] == [1, 2, 5] && [5] + [2, 1] == [5, 2, 1];
  }

  lemma StaleStarts()
    ensures Possible(3, STALE_RUN[..3]) && Run(3, STALE_RUN[..3]) == Cached([1, 2, 5], [5, 2, 1])
  {
    hide Step, Run, Possible;
    var r := STALE_RUN;
    RunStarts(3);
    StaleGrows();
    assert r[..0] == [];
    RunNext(3, r[..0], r[0]);
    assert r[..0] + [r[0]] == r[..1];
    RunNext(3, r[..1], r[1]);
    assert r[..1] + [r[1]] == r[..2];
    RunNext(3, r[..2], r[2]);
    assert r[..2] + [r[2]] == r[..3];
  }

  /** After a misplaced insert the search for the next victim may miss: its released node stays in the
    * index, and a key that is still cached is overwritten there. */
  lemma StaleExample()
    ensures Possible(3, STALE_RUN) && Run(3, STALE_RUN) == Cached([5, 3, 7], [7, 5, 2])
    ensures var c := Run(3, STALE_RUN); 3 in c.index && 3 !in c.order && 2 in c.order && 2 !in c.index
  {
    hide Step, Run, Possible;
    var r := STALE_RUN;
    StaleStarts();
    StaleMisplaces();
    StaleGets();
    StaleEvicts();
    RunNext(3, r[..3], r[3]);
    assert r[..3] + [r[3]] == r[..4];
    RunNext(3, r[..4], r[4]);
    assert r[..4] + [r[4]] == r[..5];
    RunNext(3, r[..5], r[5]);
    assert r[..5] + [r[5]] == r[..6];
    RunNext(3, r[..6], r[6]);
    assert r[..6] + [r[6]] == r;
  }
}

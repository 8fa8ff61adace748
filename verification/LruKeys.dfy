/** The sorted index of the cache, as sequences of keys. */
module LruKeys {
  import opened Common

  ghost predicate Sorted(keys: seq<int>) {
    forall i, j :: 0 <= i < j < |keys| ==> keys[i] < keys[j]
  }

  /** Binary search between two indices. */
  function Probe(keys: seq<int>, key: int, lo: nat, hi: nat): Option<nat>
    requires lo <= hi <= |keys|
    decreases hi - lo
  {
    if lo == hi then None
    else
      var mid := (lo + hi - 1) / 2;
      if keys[mid] == key then Some(mid)
      else if keys[mid] < key then Probe(keys, key, mid + 1, hi)
      else Probe(keys, key, lo, mid)
  }

  function Find(keys: seq<int>, key: int): Option<nat> {
    Probe(keys, key, 0, |keys|)
  }

  lemma {:induction false} ProbeFinds(keys: seq<int>, key: int, lo: nat, hi: nat)
    requires Sorted(keys) && lo <= hi <= |keys|
    ensures match Probe(keys, key, lo, hi)
            case Some(i) => lo <= i < hi && keys[i] == key
            case None => forall i :: lo <= i < hi ==> keys[i] != key
    decreases hi - lo
  {
    if lo < hi {
      var mid := (lo + hi - 1) / 2;
      if keys[mid] < key {
        ProbeFinds(keys, key, mid + 1, hi);
      } else if keys[mid] > key {
        ProbeFinds(keys, key, lo, mid);
      }
    }
  }

  /** In a sorted index, binary search finds a key exactly when it is there. */
  lemma FindIsMembership(keys: seq<int>, key: int)
    requires Sorted(keys)
    ensures Find(keys, key).Some? <==> key in keys
    ensures Find(keys, key).Some? ==> Find(keys, key).value < |keys| && keys[Find(keys, key).value] == key
  {
    ProbeFinds(keys, key, 0, |keys|);
  }

  /** The first `pos` of the searched slots hold smaller keys, the others do not. */
  ghost predicate IsPosition(keys: seq<int>, key: int, size: nat, pos: nat) {
    && pos <= size <= |keys|
    && (forall i :: 0 <= i < pos ==> keys[i] < key)
    && (forall i :: pos <= i < size ==> keys[i] >= key)
  }

  /** The slots after an insert at `pos` that overwrites slot `del`, having moved the slots between
    * them; the last slot stays where it is unless the new element goes there. */
  function Replaced<T>(slots: seq<T>, pos: nat, del: nat, x: T): (r: seq<T>)
    requires pos < |slots| && del < |slots|
    ensures |r| == |slots|
  {
    if pos == del then slots[del := x]
    else if del > pos then slots[..pos] + [x] + slots[pos..del] + slots[del + 1..]
    else if pos != |slots| - 1 then slots[..del] + slots[del + 1..pos] + [x] + slots[pos..]
    else slots[..del] + slots[del + 1..] + [x]
  }

  /** Where the new element ends up: one slot lower when the victim is below it, except on top. */
  function Landing(size: nat, pos: nat, del: nat): nat {
    if del < pos < size - 1 then pos - 1 else pos
  }

  /** The slot whose element slot `i` gets. */
  function Origin(size: nat, pos: nat, del: nat, i: nat): nat {
    if pos < i <= del then i - 1 else if del <= i < Landing(size, pos, del) then i + 1 else i
  }

  lemma ReplacedAt<T>(slots: seq<T>, pos: nat, del: nat, x: T, i: nat)
    requires pos < |slots| && del < |slots| && i < |slots|
    ensures Origin(|slots|, pos, del, i) < |slots|
    ensures Replaced(slots, pos, del, x)[i] ==
            if i == Landing(|slots|, pos, del) then x else slots[Origin(|slots|, pos, del, i)]
  {
    if pos < del {
    } else if pos == del {
    } else if pos != |slots| - 1 {
    } else {
    }
  }

  lemma ReplacedBy<T>(before: seq<T>, after: seq<T>, pos: nat, del: nat, x: T)
    requires |after| == |before| && pos < |before| && del < |before|
    requires forall i :: 0 <= i < |before| && Origin(|before|, pos, del, i) < |before| ==>
      after[i] == if i == Landing(|before|, pos, del) then x else before[Origin(|before|, pos, del, i)]
    ensures after == Replaced(before, pos, del, x)
  {
    hide Replaced, Origin, Landing;
    var r := Replaced(before, pos, del, x);
    forall i | 0 <= i < |r|
      ensures after[i] == r[i]
    {
      ReplacedAt(before, pos, del, x, i);
      var o := Origin(|before|, pos, del, i);
      assert after[i] == if i == Landing(|before|, pos, del) then x else before[o];
    }
  }

  /** Where binary search between two slots places a key. */
  function Locate(keys: seq<int>, key: int, lo: nat, hi: nat): (pos: nat)
    requires lo <= hi <= |keys|
    ensures lo <= pos <= hi
    decreases hi - lo
  {
    if lo == hi then lo
    else
      var mid := lo + (hi - 1 - lo) / 2;
      if keys[mid] < key then Locate(keys, key, mid + 1, hi) else Locate(keys, key, lo, mid)
  }

  lemma {:induction false} LocateDivides(keys: seq<int>, key: int, lo: nat, hi: nat)
    requires Sorted(keys) && lo <= hi <= |keys|
    ensures var pos := Locate(keys, key, lo, hi);
            (forall i :: lo <= i < pos ==> keys[i] < key) && (forall i :: pos <= i < hi ==> keys[i] >= key)
    decreases hi - lo
  {
    if lo < hi {
      var mid := lo + (hi - 1 - lo) / 2;
      if keys[mid] < key {
        LocateDivides(keys, key, mid + 1, hi);
      } else {
        LocateDivides(keys, key, lo, mid);
      }
    }
  }

  function Grown(index: seq<int>, key: int): seq<int> {
    var pos := Locate(index, key, 0, |index|);
    index[..pos] + [key] + index[pos..]
  }

  /** An evicting insert overwrites the slot where the search finds the victim, or else the first. */
  function Evicted(index: seq<int>, victim: int, key: int): seq<int>
    requires index != []
  {
    var found := Find(index, victim);
    var del := if found.Some? && found.value < |index| then found.value else 0;
    Replaced(index, Locate(index, key, 0, |index| - 1), del, key)
  }

  /** In a sorted index the victim is found, and the key placed, as they should be. */
  lemma EvictedIs(index: seq<int>, victim: int, key: int) returns (pos: nat, del: nat)
    requires Sorted(index) && victim in index
    ensures del < |index| && index[del] == victim && pos < |index| && IsPosition(index, key, |index| - 1, pos)
    ensures Evicted(index, victim, key) == Replaced(index, pos, del, key)
  {
    FindIsMembership(index, victim);
    del := Find(index, victim).value;
    pos := Locate(index, key, 0, |index| - 1);
    LocateDivides(index, key, 0, |index| - 1);
  }

  lemma IsInside(keys: seq<int>, key: int, size: nat, pos: nat)
    requires IsPosition(keys, key, size, pos)
    ensures pos <= size
  {
  }

  lemma PositionUnique(keys: seq<int>, key: int, size: nat, p: nat, q: nat)
    requires IsPosition(keys, key, size, p) && IsPosition(keys, key, size, q)
    ensures p == q
  {
    assert (p < size ==> keys[p] >= key) && (q < size ==> keys[q] >= key);
  }

  /** What an insert below capacity makes of a sorted index. */
  lemma GrownIs(index: seq<int>, pos: nat, key: int)
    requires Sorted(index) && IsPosition(index, key, |index|, pos)
    ensures Grown(index, key) == index[..pos] + [key] + index[pos..]
  {
    LocateDivides(index, key, 0, |index|);
    PositionUnique(index, key, |index|, pos, Locate(index, key, 0, |index|));
  }

  /** What an evicting insert makes of a sorted index that holds the victim in slot `del`. */
  lemma EvictedAt(index: seq<int>, pos: nat, del: nat, key: int)
    requires Sorted(index) && del < |index| && IsPosition(index, key, |index| - 1, pos)
    ensures Evicted(index, index[del], key) == Replaced(index, pos, del, key)
  {
    hide Evicted, Replaced;
    var p, d := EvictedIs(index, index[del], key);
    PositionUnique(index, key, |index| - 1, pos, p);
    SlotUnique(index, del, d);
  }

  lemma SlotUnique(index: seq<int>, i: nat, j: nat)
    requires Sorted(index) && i < |index| && j < |index| && index[i] == index[j]
    ensures i == j
  {
  }

  /** The insert goes wrong exactly when the new key belongs just below the last slot's key and
    * the victim is in an earlier slot: the last slot is not searched, yet it is moved. */
  predicate Misplaced(keys: seq<int>, victim: int, key: int) {
    |keys| >= 2 && victim != keys[|keys| - 1] && keys[|keys| - 2] < key < keys[|keys| - 1]
  }

  lemma ReplacedSorted(keys: seq<int>, pos: nat, del: nat, key: int)
    requires Sorted(keys) && del < |keys| && IsPosition(keys, key, |keys| - 1, pos) && key !in keys
    ensures Sorted(Replaced(keys, pos, del, key)) <==> !Misplaced(keys, keys[del], key)
  {
    hide Replaced;
    var r := Replaced(keys, pos, del, key);
    var top := |keys| - 1;
    if Misplaced(keys, keys[del], key) {
      ReplacedAt(keys, pos, del, key, top - 1);
      ReplacedAt(keys, pos, del, key, top);
      assert r[top] == key && r[top - 1] == keys[top];
    } else {
      forall i, j | 0 <= i < j < |r|
        ensures r[i] < r[j]
      {
        ReplacedAt(keys, pos, del, key, i);
        ReplacedAt(keys, pos, del, key, j);
      }
    }
  }

  /** Whether or not it ends up sorted, the index trades exactly the victim for the new element. */
  lemma ReplacedContents<T>(slots: seq<T>, pos: nat, del: nat, x: T)
    requires pos < |slots| && del < |slots|
    ensures multiset(Replaced(slots, pos, del, x)) == multiset(slots) - multiset{slots[del]} + multiset{x}
  {
    assert slots == slots[..del] + [slots[del]] + slots[del + 1..];
    if pos == del {
      assert slots[del := x] == slots[..del] + [x] + slots[del + 1..];
    } else if del > pos {
      assert slots[..del] == slots[..pos] + slots[pos..del];
    } else if pos != |slots| - 1 {
      assert slots[del + 1..] == slots[del + 1..pos] + slots[pos..];
    }
  }

  /** Below capacity nothing is evicted, and the index always stays sorted. */
  lemma GrownSorted(keys: seq<int>, pos: nat, key: int)
    requires Sorted(keys) && IsPosition(keys, key, |keys|, pos) && key !in keys
    ensures Sorted(keys[..pos] + [key] + keys[pos..])
  {
    if pos < |keys| {
      assert keys[pos] > key;
    }
  }

  /** A full cache of 1, 2, 5 evicts 1 for 3: afterwards 3 is cached but cannot be found. */
  lemma MisplacedExample()
    ensures Sorted([1, 2, 5]) && IsPosition([1, 2, 5], 3, 2, 2) && Misplaced([1, 2, 5], 1, 3)
    ensures Replaced([1, 2, 5], 2, 0, 3) == [2, 5, 3]
    ensures 3 in [2, 5, 3] && Find([2, 5, 3], 3) == None
  {
    var keys := [2, 5, 3];
    assert Probe(keys, 3, 0, 3) == Probe(keys, 3, 0, 1) == Probe(keys, 3, 1, 1) == None;
  }
}

/** What least-recently-used means: keys by their last use, newest first. */
module LruOrder {
  import opened Sequences

  function Without(keys: seq<int>, key: int): (r: seq<int>)
    ensures key !in r && |r| <= |keys|
  {
    if keys == [] then [] else if keys[0] == key then Without(keys[1..], key) else [keys[0]] + Without(keys[1..], key)
  }

  /** Every key of a history of uses, the most recently used first. */
  function ByLastUse(history: seq<int>): (keys: seq<int>) {
    if history == [] then []
    else
      var last := history[|history| - 1];
      [last] + Without(ByLastUse(history[..|history| - 1]), last)
  }

  /** The first `n` keys, or all of them. */
  function Leading(n: nat, keys: seq<int>): (r: seq<int>) {
    if |keys| <= n then keys else keys[..n]
  }

  lemma {:induction false} WithoutAbsent(keys: seq<int>, key: int)
    requires key !in keys
    ensures Without(keys, key) == keys
  {
    if keys != [] {
      WithoutAbsent(keys[1..], key);
    }
  }

  lemma {:induction false} WithoutPresent(keys: seq<int>, i: nat)
    requires i < |keys| && Distinct(keys)
    ensures Without(keys, keys[i]) == keys[..i] + keys[i + 1..]
  {
    var rest := keys[1..];
    if i == 0 {
      WithoutAbsent(rest, keys[0]);
    } else {
      WithoutPresent(rest, i - 1);
      assert rest[..i - 1] + rest[i..] == keys[1..i] + keys[i + 1..];
    }
  }

  lemma UseOnce(history: seq<int>, key: int)
    ensures ByLastUse(history + [key]) == [key] + Without(ByLastUse(history), key)
  {
    hide Without;
    assert (history + [key])[..|history|] == history;
  }

  /** Using a cached key moves it to the front of the newest keys and evicts nothing. */
  lemma UseCached(n: nat, history: seq<int>, i: nat)
    requires Distinct(ByLastUse(history)) && i < |Leading(n, ByLastUse(history))|
    ensures var cached := Leading(n, ByLastUse(history));
            Leading(n, ByLastUse(history + [cached[i]])) == [cached[i]] + cached[..i] + cached[i + 1..]
  {
    hide Without, Distinct, ByLastUse;
    var all := ByLastUse(history);
    UseOnce(history, all[i]);
    WithoutPresent(all, i);
    LeadingMoved(n, all, i);
  }

  lemma LeadingMoved(n: nat, keys: seq<int>, i: nat)
    requires i < |Leading(n, keys)|
    ensures var cached := Leading(n, keys);
            Leading(n, [keys[i]] + (keys[..i] + keys[i + 1..])) == [cached[i]] + cached[..i] + cached[i + 1..]
  {
    var moved := [keys[i]] + (keys[..i] + keys[i + 1..]);
    if |keys| > n {
      assert keys[..n][..i] == keys[..i] && keys[..n][i + 1..] == keys[i + 1..][..n - 1 - i];
    }
  }

  lemma {:induction false} WithoutLater(keys: seq<int>, n: nat, key: int)
    requires n <= |keys| && key !in keys[..n]
    ensures n <= |Without(keys, key)| && Without(keys, key)[..n] == keys[..n]
  {
    if n > 0 {
      assert keys[0] == keys[..n][0] && forall k :: k in keys[1..][..n - 1] ==> k in keys[..n];
      WithoutLater(keys[1..], n - 1, key);
    }
  }

  /** Using a key that is not cached puts it in front, and a full cache loses its oldest key. */
  lemma UseNew(n: nat, history: seq<int>, key: int)
    requires n > 0 && key !in Leading(n, ByLastUse(history))
    ensures var cached := Leading(n, ByLastUse(history));
            Leading(n, ByLastUse(history + [key])) == [key] + if |cached| == n then cached[..n - 1] else cached
  {
    hide Without, ByLastUse;
    var all := ByLastUse(history);
    UseOnce(history, key);
    if |all| >= n {
      assert key !in all[..n - 1] by {
        assert all[..n - 1] == Leading(n, all)[..n - 1];
      }
      WithoutLater(all, n - 1, key);
      assert ([key] + Without(all, key))[..n] == [key] + Without(all, key)[..n - 1];
    } else {
      WithoutAbsent(all, key);
    }
  }

  lemma {:induction false} WithoutMembers(keys: seq<int>, key: int)
    ensures forall k :: k in Without(keys, key) <==> k in keys && k != key
  {
    if keys != [] {
      WithoutMembers(keys[1..], key);
      assert keys == [keys[0]] + keys[1..];
    }
  }

  lemma {:induction false} WithoutDistinct(keys: seq<int>, key: int)
    requires Distinct(keys)
    ensures Distinct(Without(keys, key))
  {
    if keys != [] {
      var rest := keys[1..];
      assert Distinct(rest) && keys[0] !in rest;
      WithoutDistinct(rest, key);
      WithoutMembers(rest, key);
    }
  }

  /** The order holds every used key once. */
  lemma {:induction false} ByLastUseDistinct(history: seq<int>)
    ensures Distinct(ByLastUse(history))
    ensures forall k :: k in ByLastUse(history) <==> k in history
  {
    if history != [] {
      var n := |history| - 1;
      ByLastUseDistinct(history[..n]);
      WithoutDistinct(ByLastUse(history[..n]), history[n]);
      WithoutMembers(ByLastUse(history[..n]), history[n]);
      assert history == history[..n] + [history[n]];
    }
  }
}

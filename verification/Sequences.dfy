/** Sequences, as what list operations mean. */
module Sequences {
  ghost predicate Distinct<T>(s: seq<T>) {
    forall i, j :: 0 <= i < j < |s| ==> s[i] != s[j]
  }

  lemma DistinctCons<T>(x: T, s: seq<T>)
    requires Distinct(s) && x !in s
    ensures Distinct([x] + s)
  {
  }

  lemma DistinctPrefix<T>(s: seq<T>, n: nat)
    requires n <= |s| && Distinct(s)
    ensures Distinct(s[..n]) && forall i :: n <= i < |s| ==> s[i] !in s[..n]
  {
  }

  /** Taking one element out of a sequence without repeats leaves none of it. */
  lemma DistinctRemoved<T>(s: seq<T>, i: nat)
    requires i < |s| && Distinct(s)
    ensures Distinct(s[..i] + s[i + 1..]) && s[i] !in s[..i] + s[i + 1..]
  {
  }

  lemma Differ<T>(s: seq<T>, i: nat, j: nat)
    requires Distinct(s) && i < |s| && j < |s| && i != j
    ensures s[i] != s[j]
  {
  }

  /** The last `n` elements. */
  ghost function Suffix<T>(s: seq<T>, n: nat): (r: seq<T>)
    requires n <= |s|
    ensures |r| == n
  {
    s[|s| - n..]
  }

  lemma SuffixGrows<T>(s: seq<T>, n: nat, x: T)
    requires n <= |s|
    ensures Suffix(s + [x], n + 1) == Suffix(s, n) + [x]
    ensures n > 0 ==> Suffix(s, n)[n - 1] == s[|s| - 1] && Suffix(s + [x], n + 1)[0] == Suffix(s, n)[0]
  {
  }

  /** The index of the first match, or the length. */
  function FirstMatch<T>(s: seq<T>, matches: T -> bool): (i: nat)
    ensures i <= |s|
  {
    if s == [] || matches(s[0]) then 0 else 1 + FirstMatch(s[1..], matches)
  }

  lemma {:induction false} FirstMatchIs<T>(s: seq<T>, matches: T -> bool)
    ensures var i := FirstMatch(s, matches);
            && (i < |s| ==> matches(s[i]))
            && forall k :: 0 <= k < i ==> !matches(s[k])
  {
    if s != [] && !matches(s[0]) {
      FirstMatchIs(s[1..], matches);
      assert forall k :: 0 < k < FirstMatch(s, matches) ==> s[k] == s[1..][k - 1];
    }
  }

  /** What is left without the matches, or without the first of them. */
  function Dropped<T>(s: seq<T>, matches: T -> bool, onlyFirst: bool): seq<T> {
    if s == [] then []
    else if !matches(s[0]) then [s[0]] + Dropped(s[1..], matches, onlyFirst)
    else if onlyFirst then s[1..]
    else Dropped(s[1..], matches, onlyFirst)
  }

  /** The matches, or the first of them. */
  function Taken<T>(s: seq<T>, matches: T -> bool, onlyFirst: bool): seq<T> {
    if s == [] then []
    else if !matches(s[0]) then Taken(s[1..], matches, onlyFirst)
    else if onlyFirst then [s[0]]
    else [s[0]] + Taken(s[1..], matches, onlyFirst)
  }

  /** Splitting loses nothing and makes nothing up. */
  lemma {:induction false} SplitKeepsAll<T>(s: seq<T>, matches: T -> bool, onlyFirst: bool)
    ensures multiset(s) == multiset(Dropped(s, matches, onlyFirst)) + multiset(Taken(s, matches, onlyFirst))
    ensures forall x :: x in Taken(s, matches, onlyFirst) ==> matches(x)
    ensures !onlyFirst ==> forall x :: x in Dropped(s, matches, onlyFirst) ==> !matches(x)
  {
    if s != [] {
      SplitKeepsAll(s[1..], matches, onlyFirst);
      assert s == [s[0]] + s[1..];
    }
  }

  /** Both parts of a split keep their order: splitting two pieces splits their concatenation. */
  lemma SplitInOrder<T>(a: seq<T>, b: seq<T>, matches: T -> bool)
    ensures Dropped(a + b, matches, false) == Dropped(a, matches, false) + Dropped(b, matches, false)
    ensures Taken(a + b, matches, false) == Taken(a, matches, false) + Taken(b, matches, false)
  {
    hide Dropped, Taken;
    DroppedConcat(a, b, matches);
    TakenConcat(a, b, matches);
  }

  lemma {:induction false} DroppedConcat<T>(a: seq<T>, b: seq<T>, matches: T -> bool)
    ensures Dropped(a + b, matches, false) == Dropped(a, matches, false) + Dropped(b, matches, false)
  {
    if a == [] {
      assert a + b == b;
    } else {
      DroppedConcat(a[1..], b, matches);
      assert (a + b)[1..] == a[1..] + b && (a + b)[0] == a[0];
    }
  }

  lemma SplitOne<T>(x: T, matches: T -> bool)
    ensures Dropped([x], matches, false) == if matches(x) then [] else [x]
    ensures Taken([x], matches, false) == if matches(x) then [x] else []
  {
  }

  /** Splitting off the first match only leaves what is before and after it. */
  lemma {:induction false} FirstSplitOff<T>(s: seq<T>, matches: T -> bool)
    ensures var i := FirstMatch(s, matches);
            && Taken(s, matches, true) == (if i < |s| then [s[i]] else [])
            && Dropped(s, matches, true) == if i < |s| then s[..i] + s[i + 1..] else s
  {
    if s != [] && !matches(s[0]) {
      FirstSplitOff(s[1..], matches);
      assert s == [s[0]] + s[1..];
      var i := FirstMatch(s[1..], matches);
      assert i < |s| - 1 ==> [s[0]] + (s[1..][..i] + s[1..][i + 1..]) == s[..i + 1] + s[i + 2..];
    }
  }

  lemma {:induction false} TakenFirst<T>(s: seq<T>, matches: T -> bool)
    ensures var i := FirstMatch(s, matches);
            Taken(s, matches, true) == if i < |s| then [s[i]] else []
  {
    if s != [] && !matches(s[0]) {
      TakenFirst(s[1..], matches);
    }
  }

  lemma {:induction false} TakenConcat<T>(a: seq<T>, b: seq<T>, matches: T -> bool)
    ensures Taken(a + b, matches, false) == Taken(a, matches, false) + Taken(b, matches, false)
  {
    if a == [] {
      assert a + b == b;
    } else {
      TakenConcat(a[1..], b, matches);
      assert (a + b)[1..] == a[1..] + b && (a + b)[0] == a[0];
    }
  }

  lemma {:induction false} TakenNone<T>(s: seq<T>, matches: T -> bool)
    requires forall x :: x in s ==> !matches(x)
    ensures Taken(s, matches, false) == []
  {
    if s != [] {
      assert s[0] in s;
      TakenNone(s[1..], matches);
    }
  }

  /** A comparison that orders its values in a line, equals allowed. */
  ghost predicate Orders<T(!new)>(cmp: (T, T) -> int) {
    && (forall x, y :: cmp(x, y) <= 0 || cmp(y, x) <= 0)
    && (forall x, y, z :: cmp(x, y) <= 0 && cmp(y, z) <= 0 ==> cmp(x, z) <= 0)
    && (forall x, y :: cmp(x, y) > 0 ==> cmp(y, x) <= 0)
  }

  ghost predicate SortedBy<T>(s: seq<T>, cmp: (T, T) -> int) {
    forall i, j :: 0 <= i < j < |s| ==> cmp(s[i], s[j]) <= 0
  }

  function Greater<T>(cmp: (T, T) -> int, x: T): T -> bool {
    y => cmp(y, x) > 0
  }

  /** Behind everything that is not greater. */
  function Inserted<T>(s: seq<T>, x: T, cmp: (T, T) -> int): seq<T> {
    var i := FirstMatch(s, Greater(cmp, x));
    s[..i] + [x] + s[i..]
  }

  lemma InsertedBehind<T>(first: T, rest: seq<T>, x: T, cmp: (T, T) -> int)
    requires cmp(first, x) <= 0
    ensures Inserted([first] + rest, x, cmp) == [first] + Inserted(rest, x, cmp)
  {
    assert ([first] + rest)[1..] == rest;
  }

  lemma InsertedSorted<T(!new)>(s: seq<T>, x: T, cmp: (T, T) -> int)
    requires Orders(cmp) && SortedBy(s, cmp)
    ensures SortedBy(Inserted(s, x, cmp), cmp)
    ensures multiset(Inserted(s, x, cmp)) == multiset(s) + multiset{x}
  {
    hide Orders, FirstMatch, SortedBy;
    var i := FirstMatch(s, Greater(cmp, x));
    FirstMatchIs(s, Greater(cmp, x));
    assert s == s[..i] + s[i..];
    forall k | i <= k < |s|
      ensures cmp(x, s[k]) <= 0
    {
      SortedPair(s, i, k, cmp);
      Upward(x, s[i], s[k], cmp);
    }
    forall k | 0 <= k < i
      ensures cmp(s[k], x) <= 0
    {
      assert !Greater(cmp, x)(s[k]);
    }
    SortedAround(s, i, x, cmp);
  }

  /** The new element goes behind all those before the first greater one: equals keep their order. */
  lemma InsertedWhere<T>(s: seq<T>, x: T, cmp: (T, T) -> int) returns (i: nat)
    ensures i <= |s| && Inserted(s, x, cmp) == s[..i] + [x] + s[i..]
    ensures (forall k :: 0 <= k < i ==> cmp(s[k], x) <= 0) && (i < |s| ==> cmp(s[i], x) > 0)
  {
    i := FirstMatch(s, Greater(cmp, x));
    FirstMatchIs(s, Greater(cmp, x));
    assert forall k :: 0 <= k < i ==> !Greater(cmp, x)(s[k]);
  }

  lemma SortedPair<T>(s: seq<T>, i: nat, k: nat, cmp: (T, T) -> int)
    requires SortedBy(s, cmp) && i <= k < |s|
    ensures s[i] == s[k] || cmp(s[i], s[k]) <= 0
  {
  }

  lemma Upward<T(!new)>(x: T, y: T, z: T, cmp: (T, T) -> int)
    requires Orders(cmp) && cmp(y, x) > 0 && (y == z || cmp(y, z) <= 0)
    ensures cmp(x, z) <= 0
  {
  }

  lemma SortedAround<T>(s: seq<T>, i: nat, x: T, cmp: (T, T) -> int)
    requires i <= |s| && SortedBy(s, cmp)
    requires forall k :: 0 <= k < i ==> cmp(s[k], x) <= 0
    requires forall k :: i <= k < |s| ==> cmp(x, s[k]) <= 0
    ensures SortedBy(s[..i] + [x] + s[i..], cmp)
  {
    var r := s[..i] + [x] + s[i..];
    forall a, b | 0 <= a < b < |r|
      ensures cmp(r[a], r[b]) <= 0
    {
      if a < i {
        assert r[a] == s[a];
      }
      if b > i {
        assert r[b] == s[b - 1];
      }
    }
  }
}

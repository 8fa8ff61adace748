/** Buckets of entries as a finite map, for any hash that respects the equality of keys. */
module HashTable {
  import opened Common
  import opened Sequences

  datatype Entry<K, V> = Entry(key: K, val: V)

  type Bucket<K, V> = seq<Entry<K, V>>
  type Table<K, V> = seq<Bucket<K, V>>

  ghost predicate Respects<K(!new)>(hash: K -> nat, same: (K, K) -> bool) {
    && (forall a :: same(a, a))
    && (forall a, b :: same(a, b) ==> same(b, a) && hash(a) == hash(b))
    && (forall a, b, c :: same(a, b) && same(b, c) ==> same(a, c))
  }

  function Matcher<K, V>(same: (K, K) -> bool, k: K): Entry<K, V> -> bool {
    (e: Entry<K, V>) => same(k, e.key)
  }

  function LookupIn<K, V>(b: Bucket<K, V>, same: (K, K) -> bool, k: K): Option<V> {
    var i := FirstMatch(b, Matcher(same, k));
    if i < |b| then Some(b[i].val) else None
  }

  function RemoveIn<K, V>(b: Bucket<K, V>, same: (K, K) -> bool, k: K): Bucket<K, V> {
    Dropped(b, Matcher(same, k), true)
  }

  ghost predicate HasKey<K, V>(b: Bucket<K, V>, same: (K, K) -> bool, k: K) {
    exists i :: 0 <= i < |b| && same(k, b[i].key)
  }

  /** No two entries of a bucket have the same key. */
  ghost predicate Unique<K, V>(b: Bucket<K, V>, same: (K, K) -> bool) {
    b != [] ==> !HasKey(b[1..], same, b[0].key) && Unique(b[1..], same)
  }

  lemma LookupStep<K, V>(b: Bucket<K, V>, same: (K, K) -> bool, k: K)
    requires b != []
    ensures LookupIn(b, same, k) == if same(k, b[0].key) then Some(b[0].val) else LookupIn(b[1..], same, k)
    ensures RemoveIn(b, same, k) == if same(k, b[0].key) then b[1..] else [b[0]] + RemoveIn(b[1..], same, k)
    ensures HasKey(b, same, k) <==> same(k, b[0].key) || HasKey(b[1..], same, k)
  {
    if HasKey(b, same, k) && !same(k, b[0].key) {
      var i :| 0 <= i < |b| && same(k, b[i].key);
      assert b[1..][i - 1] == b[i];
    }
    if HasKey(b[1..], same, k) {
      var i :| 0 <= i < |b[1..]| && same(k, b[1..][i].key);
      assert b[i + 1] == b[1..][i];
    }
  }

  lemma ConsStep<K, V>(e: Entry<K, V>, b: Bucket<K, V>, same: (K, K) -> bool, k: K)
    ensures LookupIn([e] + b, same, k) == if same(k, e.key) then Some(e.val) else LookupIn(b, same, k)
    ensures HasKey([e] + b, same, k) <==> same(k, e.key) || HasKey(b, same, k)
  {
    LookupStep([e] + b, same, k);
    assert ([e] + b)[1..] == b;
  }

  lemma {:induction false} LookupHas<K, V>(b: Bucket<K, V>, same: (K, K) -> bool, k: K)
    ensures LookupIn(b, same, k).Some? <==> HasKey(b, same, k)
  {
    if b != [] {
      LookupStep(b, same, k);
      LookupHas(b[1..], same, k);
    }
  }

  /** Keys that are the same are interchangeable. */
  lemma {:induction false} SameLookup<K(!new), V>(b: Bucket<K, V>, hash: K -> nat, same: (K, K) -> bool, k: K, k2: K)
    requires Respects(hash, same) && same(k, k2)
    ensures LookupIn(b, same, k) == LookupIn(b, same, k2)
    ensures HasKey(b, same, k) <==> HasKey(b, same, k2)
  {
    hide LookupIn, HasKey;
    if b == [] {
      EmptyBucket<K, V>(same, k);
      EmptyBucket<K, V>(same, k2);
    } else {
      LookupStep(b, same, k);
      LookupStep(b, same, k2);
      SameLookup(b[1..], hash, same, k, k2);
    }
  }

  lemma EmptyBucket<K, V>(same: (K, K) -> bool, k: K)
    ensures LookupIn<K, V>([], same, k) == None && !HasKey<K, V>([], same, k) && RemoveIn<K, V>([], same, k) == []
  {
  }

  /** Removing a key takes exactly that key away. */
  lemma {:induction false} RemoveLookup<K(!new), V>(b: Bucket<K, V>, hash: K -> nat, same: (K, K) -> bool, k: K, k2: K)
    requires Respects(hash, same) && Unique(b, same)
    ensures LookupIn(RemoveIn(b, same, k), same, k2) == if same(k2, k) then None else LookupIn(b, same, k2)
    ensures HasKey(RemoveIn(b, same, k), same, k2) <==> !same(k2, k) && HasKey(b, same, k2)
  {
    hide LookupIn, HasKey, RemoveIn, Respects;
    if b == [] {
      EmptyBucket<K, V>(same, k);
      EmptyBucket<K, V>(same, k2);
    } else {
      var rest := b[1..];
      LookupStep(b, same, k);
      LookupStep(b, same, k2);
      KeyLaws(hash, same, k, k2, b[0].key);
      if same(k, b[0].key) {
        LookupHas(rest, same, k2);
        if same(k2, k) {
          SameLookup(rest, hash, same, k2, b[0].key);
        }
      } else {
        RemoveLookup(rest, hash, same, k, k2);
        ConsStep(b[0], RemoveIn(rest, same, k), same, k2);
      }
    }
  }

  lemma KeyLaws<K(!new)>(hash: K -> nat, same: (K, K) -> bool, a: K, b: K, c: K)
    requires Respects(hash, same)
    ensures same(a, a) && (same(a, b) ==> same(b, a) && hash(a) == hash(b))
    ensures same(b, a) ==> same(a, b)
    ensures same(a, c) && same(b, a) ==> same(b, c)
    ensures same(b, c) && same(b, a) ==> same(a, c)
    ensures same(a, c) && same(b, c) ==> same(b, a)
  {
  }

  lemma {:induction false} RemoveUnique<K(!new), V>(b: Bucket<K, V>, hash: K -> nat, same: (K, K) -> bool, k: K)
    requires Respects(hash, same) && Unique(b, same)
    ensures Unique(RemoveIn(b, same, k), same)
  {
    hide LookupIn, HasKey, RemoveIn;
    if b == [] {
      EmptyBucket<K, V>(same, k);
    } else {
      LookupStep(b, same, k);
      if !same(k, b[0].key) {
        var removed := RemoveIn(b[1..], same, k);
        RemoveUnique(b[1..], hash, same, k);
        RemoveLookup(b[1..], hash, same, k, b[0].key);
        assert ([b[0]] + removed)[1..] == removed;
      }
    }
  }

  // ----- The whole table -----

  function Slot<K>(hash: K -> nat, size: nat, k: K): (i: nat)
    requires size > 0
    ensures i < size
  {
    hash(k) % size
  }

  ghost predicate Placed<K, V>(b: Bucket<K, V>, hash: K -> nat, size: nat, i: nat)
    requires size > 0
  {
    forall e :: e in b ==> Slot(hash, size, e.key) == i
  }

  ghost predicate GoodBucket<K, V>(t: Table<K, V>, hash: K -> nat, same: (K, K) -> bool, i: nat)
    requires i < |t|
  {
    Placed(t[i], hash, |t|, i) && Unique(t[i], same)
  }

  /** Every entry is in the bucket of its key, and no key is there twice. */
  ghost predicate Well<K, V>(t: Table<K, V>, hash: K -> nat, same: (K, K) -> bool) {
    |t| > 0 && forall i :: 0 <= i < |t| ==> GoodBucket(t, hash, same, i)
  }

  function Lookup<K, V>(t: Table<K, V>, hash: K -> nat, same: (K, K) -> bool, k: K): Option<V>
    requires |t| > 0
  {
    LookupIn(t[Slot(hash, |t|, k)], same, k)
  }

  function Remove<K, V>(t: Table<K, V>, hash: K -> nat, same: (K, K) -> bool, k: K): (r: Table<K, V>)
    requires |t| > 0
    ensures |r| == |t|
  {
    var i := Slot(hash, |t|, k);
    t[i := RemoveIn(t[i], same, k)]
  }

  function Insert<K, V>(t: Table<K, V>, hash: K -> nat, same: (K, K) -> bool, k: K, v: V): (r: Table<K, V>)
    requires |t| > 0
    ensures |r| == |t|
  {
    var i := Slot(hash, |t|, k);
    t[i := [Entry(k, v)] + RemoveIn(t[i], same, k)]
  }

  /** Inserting is removing, then pushing in front of the key's bucket. */
  lemma InsertPushes<K, V>(t: Table<K, V>, hash: K -> nat, same: (K, K) -> bool, k: K, v: V)
    requires |t| > 0
    ensures var i, r := Slot(hash, |t|, k), Remove(t, hash, same, k);
            r[i := [Entry(k, v)] + r[i]] == Insert(t, hash, same, k, v)
  {
  }

  lemma RemovePlaced<K, V>(b: Bucket<K, V>, hash: K -> nat, same: (K, K) -> bool, size: nat, i: nat, k: K)
    requires size > 0 && Placed(b, hash, size, i)
    ensures Placed(RemoveIn(b, same, k), hash, size, i)
  {
    forall e | e in RemoveIn(b, same, k)
      ensures e in b
    {
      SplitKeepsAll(b, Matcher(same, k), true);
      assert e in multiset(b);
    }
  }

  lemma RemoveKeepsWell<K(!new), V>(t: Table<K, V>, hash: K -> nat, same: (K, K) -> bool, k: K)
    requires Respects(hash, same) && Well(t, hash, same)
    ensures Well(Remove(t, hash, same, k), hash, same)
  {
    hide RemoveIn, Unique, Placed;
    var s := Slot(hash, |t|, k);
    assert GoodBucket(t, hash, same, s);
    RemovePlaced(t[s], hash, same, |t|, s, k);
    RemoveUnique(t[s], hash, same, k);
    forall i | 0 <= i < |t|
      ensures GoodBucket(Remove(t, hash, same, k), hash, same, i)
    {
      assert GoodBucket(t, hash, same, i);
    }
  }

  lemma InsertKeepsWell<K(!new), V>(t: Table<K, V>, hash: K -> nat, same: (K, K) -> bool, k: K, v: V)
    requires Respects(hash, same) && Well(t, hash, same)
    ensures Well(Insert(t, hash, same, k, v), hash, same)
  {
    hide RemoveIn;
    var s := Slot(hash, |t|, k);
    var removed := RemoveIn(t[s], same, k);
    assert GoodBucket(t, hash, same, s);
    RemovePlaced(t[s], hash, same, |t|, s, k);
    RemoveUnique(t[s], hash, same, k);
    RemoveLookup(t[s], hash, same, k, k);
    KeyLaws(hash, same, k, k, k);
    assert ([Entry(k, v)] + removed)[1..] == removed;
    assert Unique([Entry(k, v)] + removed, same);
    hide Unique;
    forall i | 0 <= i < |t|
      ensures GoodBucket(Insert(t, hash, same, k, v), hash, same, i)
    {
      assert GoodBucket(t, hash, same, i);
    }
  }

  /** The table is a finite map: after an insert the key has the new value, all others what they had. */
  lemma LookupInserted<K(!new), V>(t: Table<K, V>, hash: K -> nat, same: (K, K) -> bool, k: K, v: V, k2: K)
    requires Respects(hash, same) && Well(t, hash, same)
    ensures Lookup(Insert(t, hash, same, k, v), hash, same, k2) ==
            if same(k2, k) then Some(v) else Lookup(t, hash, same, k2)
  {
    hide RemoveIn, LookupIn, Respects;
    var s := Slot(hash, |t|, k);
    assert GoodBucket(t, hash, same, s);
    KeyLaws(hash, same, k, k2, k);
    RemoveLookup(t[s], hash, same, k, k2);
    ConsStep(Entry(k, v), RemoveIn(t[s], same, k), same, k2);
  }

  lemma LookupRemoved<K(!new), V>(t: Table<K, V>, hash: K -> nat, same: (K, K) -> bool, k: K, k2: K)
    requires Respects(hash, same) && Well(t, hash, same)
    ensures Lookup(Remove(t, hash, same, k), hash, same, k2) ==
            if same(k2, k) then None else Lookup(t, hash, same, k2)
  {
    hide RemoveIn, LookupIn, Respects;
    var s := Slot(hash, |t|, k);
    assert GoodBucket(t, hash, same, s);
    KeyLaws(hash, same, k, k2, k);
    RemoveLookup(t[s], hash, same, k, k2);
  }

  // ----- Iteration -----

  /** All entries, bucket after bucket. */
  ghost function All<K, V>(t: Table<K, V>): seq<Entry<K, V>> {
    if t == [] then [] else All(t[..|t| - 1]) + t[|t| - 1]
  }

  /** The entries with a key. */
  ghost function WithKey<K, V>(s: seq<Entry<K, V>>, same: (K, K) -> bool, k: K): seq<Entry<K, V>> {
    Taken(s, Matcher(same, k), false)
  }

  lemma {:induction false} OneInBucket<K(!new), V>(b: Bucket<K, V>, hash: K -> nat, same: (K, K) -> bool, k: K)
    requires Respects(hash, same) && Unique(b, same)
    ensures match LookupIn(b, same, k)
            case None => WithKey(b, same, k) == []
            case Some(v) => |WithKey(b, same, k)| == 1 && WithKey(b, same, k)[0].val == v
  {
    hide LookupIn, HasKey, Respects;
    if b == [] {
      EmptyBucket<K, V>(same, k);
    } else {
      var rest := b[1..];
      LookupStep(b, same, k);
      OneInBucket(rest, hash, same, k);
      if same(k, b[0].key) {
        SameLookup(rest, hash, same, k, b[0].key);
        LookupHas(rest, same, k);
      }
    }
  }

  /** Among the first `n` buckets, a key is found only in its own. */
  lemma {:induction false} OneInBuckets<K(!new), V>(t: Table<K, V>, hash: K -> nat, same: (K, K) -> bool, k: K, n: nat)
    requires Respects(hash, same) && Well(t, hash, same) && n <= |t|
    ensures WithKey(All(t[..n]), same, k) ==
            if Slot(hash, |t|, k) < n then WithKey(t[Slot(hash, |t|, k)], same, k) else []
  {
    hide Slot, Unique;
    if n > 0 {
      var s := Slot(hash, |t|, k);
      OneInBuckets(t, hash, same, k, n - 1);
      assert t[..n][..n - 1] == t[..n - 1];
      TakenConcat(All(t[..n - 1]), t[n - 1], Matcher(same, k));
      if s != n - 1 {
        forall e | e in t[n - 1]
          ensures !Matcher(same, k)(e)
        {
          assert GoodBucket(t, hash, same, n - 1);
          SlotOfSame(hash, same, |t|, k, e.key);
        }
        TakenNone(t[n - 1], Matcher(same, k));
      }
    }
  }

  lemma SlotOfSame<K(!new)>(hash: K -> nat, same: (K, K) -> bool, size: nat, a: K, b: K)
    requires Respects(hash, same) && size > 0
    ensures same(a, b) ==> Slot(hash, size, a) == Slot(hash, size, b)
  {
  }

  /** Going through all buckets meets every key once, with the value that a lookup finds. */
  lemma VisitsEachOnce<K(!new), V>(t: Table<K, V>, hash: K -> nat, same: (K, K) -> bool, k: K)
    requires Respects(hash, same) && Well(t, hash, same)
    ensures match Lookup(t, hash, same, k)
            case None => WithKey(All(t), same, k) == []
            case Some(v) => |WithKey(All(t), same, k)| == 1 && WithKey(All(t), same, k)[0].val == v
  {
    hide Respects, Unique, LookupIn, WithKey;
    var s := Slot(hash, |t|, k);
    assert t[..|t|] == t && GoodBucket(t, hash, same, s);
    OneInBuckets(t, hash, same, k, |t|);
    OneInBucket(t[s], hash, same, k);
  }
}

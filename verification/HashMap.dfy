/** The chained hash map: an array of linked lists, allocated by the first insert. */
module HashMap {
  import opened HashTable
  import opened LinkedList
  import opened Common
  import opened Sequences

  ghost function TableOf<K, V>(buckets: seq<seq<Cell<Entry<K, V>>>>): (t: Table<K, V>)
    ensures |t| == |buckets| && forall i :: 0 <= i < |t| ==> t[i] == Vals(buckets[i])
  {
    seq(|buckets|, i requires 0 <= i < |buckets| => Vals(buckets[i]))
  }

  ghost function CellsOf<T>(buckets: seq<seq<Cell<T>>>): set<Cell<T>> {
    set b, c | b in buckets && c in b :: c
  }

  lemma TableUpdate<K, V>(buckets: seq<seq<Cell<Entry<K, V>>>>, i: nat, cells: seq<Cell<Entry<K, V>>>)
    requires i < |buckets|
    ensures TableOf(buckets[i := cells]) == TableOf(buckets)[i := Vals(cells)]
  {
  }

  /** No cell is in two buckets. */
  ghost predicate AllApart<T>(buckets: seq<seq<Cell<T>>>) {
    forall i, j :: 0 <= i < |buckets| && 0 <= j < |buckets| && i != j ==> Apart(buckets[i], buckets[j])
  }

  lemma ApartUpdate<T>(buckets: seq<seq<Cell<T>>>, i: nat, cells: seq<Cell<T>>)
    requires i < |buckets| && AllApart(buckets) && Among(cells, buckets[i])
    ensures AllApart(buckets[i := cells]) && CellsOf(buckets[i := cells]) <= CellsOf(buckets)
  {
    assert forall b :: b in buckets[i := cells] ==> b == cells || b in buckets;
    assert buckets[i] in buckets;
  }

  lemma BucketCells<T>(buckets: seq<seq<Cell<T>>>, i: nat)
    requires i < |buckets|
    ensures forall c :: c in buckets[i] ==> c in CellsOf(buckets)
  {
    assert buckets[i] in buckets;
  }

  lemma OtherCells<T>(buckets: seq<seq<Cell<T>>>, j: nat, i: nat)
    requires i < |buckets| && j < |buckets| && i != j && AllApart(buckets)
    ensures forall c :: c in buckets[j] ==> c !in buckets[i] && c in CellsOf(buckets)
  {
    BucketCells(buckets, j);
    assert Apart(buckets[j], buckets[i]);
  }

  class Map<K(!new), V> {
    const capacity: nat
    const hash: K -> nat
    const same: (K, K) -> bool
    var vals: array?<Cell?<Entry<K, V>>>
    /** The cells of each bucket. */
    ghost var buckets: seq<seq<Cell<Entry<K, V>>>>

    ghost predicate LinkedAt(i: nat)
      requires vals != null && i < |buckets| == vals.Length
      reads `vals, `buckets, vals, CellsOf(buckets)
    {
      BucketCells(buckets, i);
      Linked(buckets[i], vals[i])
    }

    ghost predicate Chained()
      reads `vals, `buckets, vals, CellsOf(buckets)
    {
      && |buckets| == capacity && AllApart(buckets)
      && if vals == null then forall i :: 0 <= i < |buckets| ==> buckets[i] == []
         else vals.Length == capacity && forall i :: 0 <= i < |buckets| ==> LinkedAt(i)
    }

    ghost function Entries(): Table<K, V>
      reads `buckets
    {
      TableOf(buckets)
    }

    ghost predicate Valid()
      reads `vals, `buckets, vals, CellsOf(buckets)
    {
      Respects(hash, same) && capacity > 0 && Chained() && Well(Entries(), hash, same)
    }

    constructor (capacity: nat, hash: K -> nat, same: (K, K) -> bool)
      requires capacity > 0 && Respects(hash, same)
      ensures Valid() && this.hash == hash && this.same == same && CellsOf(buckets) == {}
      ensures forall k :: Lookup(Entries(), hash, same, k) == None
    {
      this.capacity, this.hash, this.same := capacity, hash, same;
      vals := null;
      buckets := seq(capacity, _ => []);
      new;
      assert forall i :: 0 <= i < capacity ==> Vals(buckets[i]) == [] && GoodBucket(Entries(), hash, same, i);
      forall k
        ensures Lookup(Entries(), hash, same, k) == None
      {
        EmptyBucket<K, V>(same, k);
      }
    }

    method Get(k: K) returns (v: Option<V>)
      requires Valid()
      ensures v == Lookup(Entries(), hash, same, k)
    {
      v := None;
      if vals != null {
        var idx := Slot(hash, capacity, k);
        assert LinkedAt(idx);
        var found, at := Find(vals[idx], Matcher(same, k), buckets[idx]);
        if found != null {
          v := Some(found.val.val);
        }
      }
    }

    /** Buckets whose cells were not relinked are still linked. */
    twostate lemma OthersLinked(idx: nat)
      requires old(vals) != null && vals == old(vals) && buckets == old(buckets) && |buckets| == vals.Length
      requires forall j :: 0 <= j < |buckets| && j != idx ==> old(LinkedAt(j)) && vals[j] == old(vals[j])
      requires forall j, c :: 0 <= j < |buckets| && j != idx && c in buckets[j] ==> c.next == old(c.next)
      ensures forall j :: 0 <= j < |buckets| && j != idx ==> LinkedAt(j)
    {
      hide Distinct;
      forall j | 0 <= j < |buckets| && j != idx
        ensures LinkedAt(j)
      {
        assert old(LinkedAt(j));
        forall i | 0 <= i < |buckets[j]|
          ensures Joined(buckets[j], i)
        {
          assert old(Joined(buckets[j], i)) && buckets[j][i] in buckets[j];
        }
      }
    }

    method Remove(k: K)
      requires Valid()
      modifies vals, `buckets, CellsOf(buckets)
      ensures Valid() && vals == old(vals) && CellsOf(buckets) <= old(CellsOf(buckets))
      ensures Entries() == HashTable.Remove(old(Entries()), hash, same, k)
    {
      RemoveKeepsWell(Entries(), hash, same, k);
      hide Linked, Respects, Well, Finished, Vals, Dropped, Taken, AllApart, CellsOf, TableOf;
      var idx := Slot(hash, capacity, k);
      if vals == null {
        RemoveNothing(k);
        return;
      }
      assert LinkedAt(idx);
      BucketCells(buckets, idx);
      ghost var gone, left;
      var head;
      head, left, gone := DropFilter(vals[idx], Matcher(same, k), true, buckets[idx]);
      forall j | 0 <= j < capacity && j != idx
        ensures forall c :: c in buckets[j] ==> c.next == old(c.next)
      {
        OtherCells(buckets, j, idx);
      }
      OthersLinked(idx);
      ApartUpdate(buckets, idx, left);
      TableUpdate(buckets, idx, left);
      SetBucket(idx, head, left);
    }

    method SetBucket(idx: nat, head: Cell?<Entry<K, V>>, ghost cells: seq<Cell<Entry<K, V>>>)
      requires vals != null && idx < |buckets| == vals.Length == capacity
      requires Linked(cells, head) && AllApart(buckets[idx := cells])
      requires forall j :: 0 <= j < |buckets| && j != idx ==> LinkedAt(j)
      modifies vals, `buckets
      ensures Chained() && buckets == old(buckets)[idx := cells]
    {
      hide Linked, AllApart, CellsOf;
      ghost var was := buckets;
      buckets := buckets[idx := cells];
      vals[idx] := head;
      forall j | 0 <= j < |buckets|
        ensures LinkedAt(j)
      {
        if j != idx {
          assert old(LinkedAt(j)) && buckets[j] == was[j];
        }
      }
    }

    lemma RemoveNothing(k: K)
      requires |buckets| == capacity > 0 && forall i :: 0 <= i < |buckets| ==> buckets[i] == []
      ensures HashTable.Remove(Entries(), hash, same, k) == Entries()
    {
      EmptyBucket<K, V>(same, k);
      assert Entries()[Slot(hash, capacity, k)] == [];
    }

    lemma BucketAt(i: nat)
      requires Valid() && vals != null && i < capacity
      ensures i < |buckets| == vals.Length && Linked(buckets[i], vals[i])
    {
      assert LinkedAt(i);
    }

    lemma SizeIs()
      requires Valid()
      ensures |buckets| == |Entries()| == capacity > 0
      ensures forall i :: 0 <= i < |buckets| ==> Entries()[i] == Vals(buckets[i])
      ensures vals != null ==> vals.Length == capacity
    {
    }

    /** Allocates the buckets on first use. */
    method Allocate()
      requires Valid()
      modifies `vals
      ensures Valid() && vals != null && buckets == old(buckets)
      ensures if old(vals) == null then fresh(vals) else vals == old(vals)
    {
      hide Respects, Well, AllApart, CellsOf, TableOf;
      if vals == null {
        vals := new Cell?<Entry<K, V>>[capacity](_ => null);
        forall i | 0 <= i < capacity
          ensures LinkedAt(i)
        {
          assert Linked<Entry<K, V>>([], null);
        }
      }
    }

    /** Puts an entry in front of its bucket. */
    method PushEntry(e: Entry<K, V>)
      requires vals != null && capacity > 0 && Chained()
      modifies vals, `buckets
      ensures Chained() && fresh(CellsOf(buckets) - old(CellsOf(buckets)))
      ensures var i := Slot(hash, capacity, e.key);
              Entries() == old(Entries())[i := [e] + old(Entries())[i]]
    {
      ghost var owned := CellsOf(buckets);
      assert forall c :: c in owned ==> allocated(c);
      hide Linked, TableOf, CellsOf, AllApart, Vals;
      var idx := Slot(hash, capacity, e.key);
      assert LinkedAt(idx);
      ghost var cells := buckets[idx];
      var head := Push(vals[idx], e, cells);
      assert head !in owned;
      NewApart(buckets, idx, head);
      TableUpdate(buckets, idx, [head] + cells);
      ValsPushed(head, cells);
      forall j | 0 <= j < capacity && j != idx
        ensures LinkedAt(j)
      {
        assert old(LinkedAt(j));
      }
      SetBucket(idx, head, [head] + cells);
    }

    /** The key has the new value from now on; whatever it had before is gone. */
    method Insert(k: K, v: V)
      requires Valid()
      modifies vals, `vals, `buckets, CellsOf(buckets)
      ensures Valid() && vals != null
      ensures Entries() == HashTable.Insert(old(Entries()), hash, same, k, v)
      ensures fresh(CellsOf(buckets) - old(CellsOf(buckets)))
    {
      InsertKeepsWell(Entries(), hash, same, k, v);
      InsertPushes(Entries(), hash, same, k, v);
      hide Respects, Well, AllApart, CellsOf, TableOf;
      Allocate();
      Remove(k);
      PushEntry(Entry(k, v));
    }

    /** Takes the entry of a key out of the map and hands it over. */
    method Extract(k: K) returns (out: Option<Entry<K, V>>)
      requires Valid()
      modifies vals, `buckets, CellsOf(buckets)
      ensures Valid() && vals == old(vals) && CellsOf(buckets) <= old(CellsOf(buckets))
      ensures Entries() == HashTable.Remove(old(Entries()), hash, same, k)
      ensures match out
              case None => old(Lookup(Entries(), hash, same, k)) == None
              case Some(e) => old(Lookup(Entries(), hash, same, k)) == Some(e.val) && same(k, e.key)
    {
      RemoveKeepsWell(Entries(), hash, same, k);
      ExtractedIs(Entries()[Slot(hash, capacity, k)], same, k);
      hide Linked, Respects, Well, Vals, Dropped, Taken, AllApart, CellsOf, TableOf, LookupIn;
      var idx := Slot(hash, capacity, k);
      if vals == null {
        RemoveNothing(k);
        return None;
      }
      assert LinkedAt(idx);
      BucketCells(buckets, idx);
      ghost var mine, taken;
      var left, extracted;
      left, extracted, mine, taken := ExtractFilter(vals[idx], Matcher(same, k), true, buckets[idx]);
      forall j | 0 <= j < capacity && j != idx
        ensures forall c :: c in buckets[j] ==> c.next == old(c.next)
      {
        OtherCells(buckets, j, idx);
      }
      OthersLinked(idx);
      ApartUpdate(buckets, idx, mine);
      TableUpdate(buckets, idx, mine);
      SetBucket(idx, left, mine);
      WalkStarts(taken, extracted);
      HeadVal(taken, extracted);
      out := if extracted == null then None else Some(extracted.val);
    }

    /** The number of keys. */
    method Count() returns (len: nat)
      requires Valid()
      ensures len == |All(Entries())|
    {
      ghost var t := Entries();
      SizeIs();
      assert forall c :: c in CellsOf(buckets) ==> allocated(c);
      hide Valid, Entries, CellsOf, Linked, All;
      len := 0;
      if vals == null {
        NoEntries();
        return;
      }
      var idx := 0;
      AllUpTo(t, 0);
      while idx < capacity
        invariant idx <= capacity && len == |All(t[..idx])| && Valid()
      {
        BucketAt(idx);
        AllUpTo(t, idx);
        var n := Len(vals[idx], buckets[idx]);
        len := len + n;
        idx := idx + 1;
      }
      AllUpTo(t, idx);
    }

    lemma NoEntries()
      requires Valid() && vals == null
      ensures All(Entries()) == []
    {
      AllEmpty(Entries());
    }
  }

  /** Visits the entries bucket by bucket. */
  class Iterator<K(!new), V> {
    const owner: Map<K, V>
    var idx: nat
    var listPtr: Cell?<Entry<K, V>>
    /** The entries visited so far: all of the earlier buckets and the first `pos` of this one. */
    ghost var visited: seq<Entry<K, V>>
    ghost var pos: nat

    ghost predicate Valid()
      reads this, owner, owner.vals, CellsOf(owner.buckets)
    {
      && owner.Valid() && idx <= owner.capacity
      && (idx == owner.capacity ==> pos == 0)
      && pos <= |Bucket()| && listPtr == At(Bucket(), pos - 1)
      && visited == All(owner.Entries()[..idx]) + Vals(Bucket())[..pos]
    }

    /** The cells of the bucket that is visited. */
    ghost function Bucket(): seq<Cell<Entry<K, V>>>
      reads `idx, owner`buckets
    {
      if idx < |owner.buckets| then owner.buckets[idx] else []
    }

    constructor (owner: Map<K, V>)
      requires owner.Valid()
      ensures Valid() && this.owner == owner && visited == []
    {
      ghost var owned: set<object> := CellsOf(owner.buckets);
      assert forall c :: c in owned ==> allocated(c);
      hide Map.Valid, Map.Entries, All, Vals, CellsOf;
      this.owner := owner;
      idx, listPtr, visited, pos := 0, null, [], 0;
      new;
      assert this !in owned;
      owner.SizeIs();
      AllUpTo(owner.Entries(), 0);
    }

    /** The next entry, or nothing once all have been visited. */
    method Next() returns (entry: Option<Entry<K, V>>)
      requires Valid()
      modifies this
      ensures Valid()
      ensures match entry
              case Some(e) => visited == old(visited) + [e]
              case None => visited == old(visited) == All(owner.Entries())
    {
      hide Map.Valid, Map.Entries, All, Vals, Linked, CellsOf;
      owner.SizeIs();
      if owner.vals == null {
        NothingVisited();
        return None;
      }
      while idx < owner.capacity
        invariant Valid() && visited == old(visited)
        decreases owner.capacity - idx
      {
        owner.BucketAt(idx);
        NextCell(Bucket(), owner.vals[idx], pos);
        var next := if listPtr == null then owner.vals[idx] else listPtr.next;
        if next == null {
          Leave();
        } else {
          Visit(next);
          return Some(next.val);
        }
      }
      AllUpTo(owner.Entries(), idx);
      entry := None;
    }

    /** A bucket is finished. */
    method Leave()
      requires Valid() && idx < owner.capacity && pos == |Bucket()|
      modifies this
      ensures Valid() && visited == old(visited) && idx == old(idx) + 1
    {
      ghost var owned: set<object> := CellsOf(owner.buckets);
      assert this !in owned;
      hide Map.Valid, Map.Entries, All, Vals, Linked, CellsOf;
      owner.SizeIs();
      ghost var done := Vals(Bucket());
      idx, pos, listPtr := idx + 1, 0, null;
      NextBucket(owner.Entries(), idx - 1, done, Vals(Bucket()));
    }

    method Visit(c: Cell<Entry<K, V>>)
      requires Valid() && idx < owner.capacity && pos < |Bucket()| && c == Bucket()[pos]
      requires Vals(Bucket())[..pos + 1] == Vals(Bucket())[..pos] + [c.val]
      modifies this
      ensures Valid() && visited == old(visited) + [c.val]
    {
      ghost var owned: set<object> := CellsOf(owner.buckets);
      assert this !in owned;
      hide Map.Valid, Map.Entries, All, Vals, Linked, CellsOf;
      owner.SizeIs();
      listPtr := c;
      visited := visited + [c.val];
      pos := pos + 1;
    }

    lemma NothingVisited()
      requires Valid() && owner.vals == null
      ensures visited == All(owner.Entries()) == []
    {
      AllEmpty(owner.Entries());
      AllEmpty(owner.Entries()[..idx]);
    }
  }

  lemma NextCell<T>(cells: seq<Cell<T>>, head: Cell?<T>, pos: nat)
    requires Linked(cells, head) && pos <= |cells|
    ensures At(cells, pos) == if pos == 0 then head else cells[pos - 1].next
    ensures At(cells, pos) == null <==> pos == |cells|
    ensures pos < |cells| ==> Vals(cells)[..pos + 1] == Vals(cells)[..pos] + [cells[pos].val]
  {
    if pos > 0 {
      assert Joined(cells, pos - 1);
    }
  }

  lemma ExtractedIs<K, V>(b: Bucket<K, V>, same: (K, K) -> bool, k: K)
    ensures match LookupIn(b, same, k)
            case None => Taken(b, Matcher(same, k), true) == []
            case Some(v) =>
              var t := Taken(b, Matcher(same, k), true);
              |t| == 1 && t[0].val == v && same(k, t[0].key)
  {
    TakenFirst(b, Matcher(same, k));
    FirstMatchIs(b, Matcher(same, k));
  }

  lemma HeadVal<T>(cells: seq<Cell<T>>, head: Cell?<T>)
    requires head == At(cells, 0)
    ensures head == null <==> Vals(cells) == []
    ensures head != null ==> head.val == Vals(cells)[0]
  {
  }

  lemma AllUpTo<K, V>(t: Table<K, V>, i: nat)
    requires i <= |t|
    ensures All(t[..0]) == [] && All(t[..|t|]) == All(t)
    ensures i < |t| ==> All(t[..i + 1]) == All(t[..i]) + t[i]
  {
    assert t[..|t|] == t;
    if i < |t| {
      assert t[..i + 1][..i] == t[..i];
    }
  }

  lemma NextBucket<K, V>(t: Table<K, V>, i: nat, done: Bucket<K, V>, next: Bucket<K, V>)
    requires i < |t| && done == t[i]
    ensures All(t[..i]) + done[..|done|] == All(t[..i + 1]) + next[..0]
  {
    hide All;
    AllUpTo(t, i);
    assert done[..|done|] == done && next[..0] == [];
  }

  lemma {:induction false} AllEmpty<K, V>(t: Table<K, V>)
    requires forall i :: 0 <= i < |t| ==> t[i] == []
    ensures All(t) == []
  {
    if t != [] {
      AllEmpty(t[..|t| - 1]);
    }
  }

  lemma NewApart<T>(buckets: seq<seq<Cell<T>>>, i: nat, c: Cell<T>)
    requires i < |buckets| && AllApart(buckets) && c !in CellsOf(buckets)
    ensures AllApart(buckets[i := [c] + buckets[i]])
    ensures CellsOf(buckets[i := [c] + buckets[i]]) <= CellsOf(buckets) + {c}
  {
    var now := buckets[i := [c] + buckets[i]];
    forall a, b | 0 <= a < |now| && 0 <= b < |now| && a != b
      ensures Apart(now[a], now[b])
    {
      BucketCells(buckets, a);
      BucketCells(buckets, b);
      assert Apart(buckets[a], buckets[b]);
    }
    forall x | x in CellsOf(now)
      ensures x in CellsOf(buckets) + {c}
    {
      var b :| b in now && x in b;
      assert b == [c] + buckets[i] || b in buckets;
      BucketCells(buckets, i);
    }
  }

  lemma ValsPushed<T>(c: Cell<T>, cells: seq<Cell<T>>)
    ensures Vals([c] + cells) == [c.val] + Vals(cells)
  {
  }
}

/** The cache itself: a doubly linked recency list, and an array of the same nodes sorted by key. */
module LruCache {
  import opened LruKeys
  import opened LruOrder
  import opened Common
  import opened Sequences

  class Node<V> {
    const key: int
    const value: V
    var prev: Node?<V>
    var next: Node?<V>

    constructor (key: int, value: V)
      ensures this.key == key && this.value == value
    {
      this.key, this.value := key, value;
      prev, next := null, null;
    }
  }

  ghost function At<V>(order: seq<Node<V>>, i: int): Node?<V> {
    if 0 <= i < |order| then order[i] else null
  }

  ghost function Keys<V>(nodes: seq<Node<V>>): (keys: seq<int>)
    ensures |keys| == |nodes| && forall i :: 0 <= i < |nodes| ==> keys[i] == nodes[i].key
  {
    seq(|nodes|, i requires 0 <= i < |nodes| => nodes[i].key)
  }

  lemma KeysConcat<V>(a: seq<Node<V>>, b: seq<Node<V>>)
    ensures Keys(a + b) == Keys(a) + Keys(b)
  {
  }

  lemma KeysSlice<V>(nodes: seq<Node<V>>, lo: nat, hi: nat)
    requires lo <= hi <= |nodes|
    ensures Keys(nodes[lo..hi]) == Keys(nodes)[lo..hi]
  {
  }

  /** A node points to its neighbours in the list, the end nodes to null. */
  ghost predicate Joined<V>(order: seq<Node<V>>, i: nat)
    requires i < |order|
    reads order[i]
  {
    order[i].prev == At(order, i - 1) && order[i].next == At(order, i + 1)
  }

  ghost predicate Chained<V>(order: seq<Node<V>>)
    reads order
  {
    Distinct(order) && forall i :: 0 <= i < |order| ==> Joined(order, i)
  }

  /** The index holds exactly the listed nodes, and their keys differ. */
  ghost predicate Indexes<V>(slots: seq<Node<V>>, order: seq<Node<V>>) {
    multiset(slots) == multiset(order) && Distinct(Keys(order))
  }

  lemma KeyOf<V>(nodes: seq<Node<V>>, k: int)
    requires k in Keys(nodes)
    ensures exists n :: n in nodes && n.key == k
  {
    var i :| 0 <= i < |nodes| && Keys(nodes)[i] == k;
    assert nodes[i] in nodes;
  }

  lemma NodeKey<V>(nodes: seq<Node<V>>, n: Node<V>)
    requires n in nodes
    ensures n.key in Keys(nodes)
  {
    var i :| 0 <= i < |nodes| && nodes[i] == n;
    assert Keys(nodes)[i] == n.key;
  }

  lemma SameKeys<V>(a: seq<Node<V>>, b: seq<Node<V>>, k: int)
    requires multiset(a) == multiset(b) && k in Keys(a)
    ensures k in Keys(b)
  {
    hide Keys;
    KeyOf(a, k);
    var n :| n in a && n.key == k;
    assert n in multiset(b);
    NodeKey(b, n);
  }

  lemma IndexedKeys<V>(slots: seq<Node<V>>, order: seq<Node<V>>)
    requires Indexes(slots, order)
    ensures forall k :: k in Keys(slots) <==> k in Keys(order)
  {
    hide Keys, Distinct;
    forall k
      ensures k in Keys(slots) <==> k in Keys(order)
    {
      if k in Keys(slots) {
        SameKeys(slots, order, k);
      }
      if k in Keys(order) {
        SameKeys(order, slots, k);
      }
    }
  }

  /** A key is held by one listed node only. */
  lemma OneHolder<V>(slots: seq<Node<V>>, order: seq<Node<V>>, slot: nat, i: nat)
    requires Indexes(slots, order) && slot < |slots| && i < |order| && slots[slot].key == order[i].key
    ensures slots[slot] == order[i]
  {
    assert slots[slot] in multiset(order);
    var j :| 0 <= j < |order| && order[j] == slots[slot];
    assert Keys(order)[j] == Keys(order)[i];
  }

  /** Moving a node of the list to its front. */
  ghost function Fronted<V>(order: seq<Node<V>>, i: nat): seq<Node<V>>
    requires i < |order|
  {
    [order[i]] + (order[..i] + order[i + 1..])
  }

  lemma FrontedKeys<V>(order: seq<Node<V>>, i: nat)
    requires i < |order|
    ensures Keys(Fronted(order, i)) == [order[i].key] + Keys(order)[..i] + Keys(order)[i + 1..]
  {
  }

  lemma FrontedKeeps<V>(slots: seq<Node<V>>, order: seq<Node<V>>, i: nat)
    requires Indexes(slots, order) && i < |order|
    ensures Indexes(slots, Fronted(order, i))
    ensures Keys(Fronted(order, i)) == [order[i].key] + Without(Keys(order), order[i].key)
  {
    hide Distinct, Without, Keys;
    var keys := Keys(order);
    assert order == order[..i] + [order[i]] + order[i + 1..];
    assert keys[i] == order[i].key;
    FrontedKeys(order, i);
    WithoutPresent(keys, i);
    WithoutDistinct(keys, keys[i]);
    DistinctCons(keys[i], Without(keys, keys[i]));
    assert Keys(Fronted(order, i)) == [keys[i]] + Without(keys, keys[i]);
  }

  lemma GrownKeeps<V>(slots: seq<Node<V>>, order: seq<Node<V>>, pos: nat, node: Node<V>)
    requires Indexes(slots, order) && pos <= |slots| && node.key !in Keys(order)
    ensures Indexes(slots[..pos] + [node] + slots[pos..], [node] + order)
    ensures Keys([node] + order) == [node.key] + Keys(order)
  {
    hide Distinct, Keys;
    assert slots == slots[..pos] + slots[pos..];
    KeysConcat([node], order);
    assert Keys([node]) == [node.key];
    DistinctCons(node.key, Keys(order));
  }

  lemma EvictedKeeps<V>(slots: seq<Node<V>>, order: seq<Node<V>>, pos: nat, del: nat, node: Node<V>)
    requires Indexes(slots, order) && pos < |slots| && del < |slots| && |order| > 0
    requires slots[del] == order[|order| - 1] && node.key !in Keys(order)
    ensures Indexes(Replaced(slots, pos, del, node), [node] + order[..|order| - 1])
    ensures Keys([node] + order[..|order| - 1]) == [node.key] + Keys(order)[..|order| - 1]
  {
    hide Distinct, Keys, Replaced;
    var kept := order[..|order| - 1];
    ReplacedContents(slots, pos, del, node);
    assert order == kept + [order[|order| - 1]];
    KeysConcat([node], kept);
    assert Keys([node]) == [node.key];
    KeysSlice(order, 0, |kept|);
    DistinctPrefix(Keys(order), |kept|);
    DistinctCons(node.key, Keys(kept));
  }

  lemma ReplacedKeys<V>(slots: seq<Node<V>>, pos: nat, del: nat, node: Node<V>)
    requires pos < |slots| && del < |slots|
    ensures Keys(Replaced(slots, pos, del, node)) == Replaced(Keys(slots), pos, del, node.key)
  {
    hide Replaced;
    forall i | 0 <= i < |slots|
      ensures Keys(Replaced(slots, pos, del, node))[i] == Replaced(Keys(slots), pos, del, node.key)[i]
    {
      ReplacedAt(slots, pos, del, node, i);
      ReplacedAt(Keys(slots), pos, del, node.key, i);
    }
  }

  /** Using a cached key keeps the list in order of last use. */
  lemma UseKeeps<V>(slots: seq<Node<V>>, order: seq<Node<V>>, i: nat, capacity: nat, history: seq<int>)
    requires Indexes(slots, order) && i < |order| && Keys(order) == Leading(capacity, ByLastUse(history))
    ensures Indexes(slots, Fronted(order, i)) && multiset(Fronted(order, i)) == multiset(order)
    ensures Keys(Fronted(order, i)) == Leading(capacity, ByLastUse(history + [order[i].key]))
    ensures Keys(Fronted(order, i)) == [order[i].key] + Without(Keys(order), order[i].key)
    ensures |Fronted(order, i)| == |order| && Fronted(order, i)[0] == order[i]
  {
    hide Distinct, Without, Leading, ByLastUse;
    FrontedKeeps(slots, order, i);
    FrontedKeys(order, i);
    ByLastUseDistinct(history);
    UseCached(capacity, history, i);
  }

  /** What an evicting insert makes of a full array. */
  lemma EvictedSlots<V>(before: seq<Node?<V>>, slots: seq<Node<V>>, pos: nat, del: nat, node: Node<V>)
    requires |slots| == |before| && pos < |slots| && del < |slots|
    requires forall i :: 0 <= i < |slots| ==> slots[i] == before[i]
    ensures forall i :: 0 <= i < |slots| ==> Replaced(before, pos, del, node)[i] == Replaced(slots, pos, del, node)[i]
  {
    hide Replaced;
    forall i | 0 <= i < |slots|
      ensures Replaced(before, pos, del, node)[i] == Replaced(slots, pos, del, node)[i]
    {
      ReplacedAt(before, pos, del, node, i);
      ReplacedAt(slots, pos, del, node, i);
    }
  }

  /** What an insert below capacity makes of the filled part of the array. */
  lemma GrownSlots<V>(before: seq<Node?<V>>, slots: seq<Node<V>>, pos: nat, node: Node<V>)
    requires pos <= |slots| < |before|
    requires forall i :: 0 <= i < |slots| ==> slots[i] == before[i]
    ensures forall i :: 0 <= i <= |slots| ==>
      Replaced(before, pos, |slots|, node)[i] == (slots[..pos] + [node] + slots[pos..])[i]
  {
    hide Replaced;
    forall i | 0 <= i <= |slots|
      ensures Replaced(before, pos, |slots|, node)[i] == (slots[..pos] + [node] + slots[pos..])[i]
    {
      ReplacedAt(before, pos, |slots|, node, i);
    }
  }

  lemma PrefixSorted<V>(nodes: seq<Node<V>>, size: nat)
    requires size <= |nodes| && Sorted(Keys(nodes))
    ensures Sorted(Keys(nodes[..size]))
  {
    KeysSlice(nodes, 0, size);
  }

  /** Slots `x` trade the last node of the list for a new one, and stay sorted unless it is misplaced. */
  ghost predicate Traded<V>(slots: seq<Node<V>>, order: seq<Node<V>>, node: Node<V>, x: seq<Node<V>>) {
    && |slots| > 0 && |order| > 0 && |x| == |slots|
    && Indexes(x, [node] + order[..|order| - 1])
    && (Sorted(Keys(x)) <==> !Misplaced(Keys(slots), order[|order| - 1].key, node.key))
    && Keys(x) == Evicted(Keys(slots), order[|order| - 1].key, node.key)
  }

  lemma EvictedIndex<V>(before: seq<Node?<V>>, slots: seq<Node<V>>, order: seq<Node<V>>, pos: nat, del: nat,
                        node: Node<V>)
    requires 0 < |slots| == |before| && forall i :: 0 <= i < |slots| ==> slots[i] == before[i]
    requires Indexes(slots, order) && Sorted(Keys(slots)) && node.key !in Keys(order)
    requires del < |slots| && |order| > 0 && slots[del] == order[|order| - 1]
    requires IsPosition(Keys(slots[..|slots| - 1]), node.key, |slots| - 1, pos)
    ensures var x := Replaced(slots, pos, del, node);
            && (forall i :: 0 <= i < |slots| ==> Replaced(before, pos, del, node)[i] == x[i])
            && Traded(slots, order, node, x)
  {
    var keys := Keys(slots);
    KeysSlice(slots, 0, |slots| - 1);
    assert IsPosition(keys, node.key, |slots| - 1, pos) by {
      assert forall i :: 0 <= i < |slots| - 1 ==> keys[i] == keys[..|slots| - 1][i];
    }
    hide Replaced, Distinct, Sorted, Keys, IsPosition, Misplaced, Evicted;
    EvictedSlots(before, slots, pos, del, node);
    EvictedKeeps(slots, order, pos, del, node);
    ReplacedKeys(slots, pos, del, node);
    IndexedKeys(slots, order);
    assert keys[del] == slots[del].key;
    ReplacedSorted(keys, pos, del, node.key);
    EvictedAt(keys, pos, del, node.key);
  }

  lemma GrownIndex<V>(before: seq<Node?<V>>, slots: seq<Node<V>>, order: seq<Node<V>>, pos: nat, node: Node<V>)
    requires |slots| < |before| && forall i :: 0 <= i < |slots| ==> slots[i] == before[i]
    requires Indexes(slots, order) && Sorted(Keys(slots)) && node.key !in Keys(order)
    requires IsPosition(Keys(slots), node.key, |slots|, pos)
    ensures var x := slots[..pos] + [node] + slots[pos..];
            && (forall i :: 0 <= i <= |slots| ==> Replaced(before, pos, |slots|, node)[i] == x[i])
            && Indexes(x, [node] + order) && Sorted(Keys(x)) && Keys(x) == Grown(Keys(slots), node.key)
  {
    IsInside(Keys(slots), node.key, |slots|, pos);
    hide Replaced, Distinct, Sorted, IsPosition, Grown, Keys, Indexes;
    GrownSlots(before, slots, pos, node);
    GrownKeeps(slots, order, pos, node);
    IndexedKeys(slots, order);
    GrownSorted(Keys(slots), pos, node.key);
    GrownIs(Keys(slots), pos, node.key);
    GrownKeys(slots, pos, node);
  }

  lemma GrownKeys<V>(slots: seq<Node<V>>, pos: nat, node: Node<V>)
    requires pos <= |slots|
    ensures Keys(slots[..pos] + [node] + slots[pos..]) == Keys(slots)[..pos] + [node.key] + Keys(slots)[pos..]
  {
  }

  lemma NewKeeps<V>(order: seq<Node<V>>, node: Node<V>, capacity: nat, history: seq<int>)
    requires |order| <= capacity && capacity > 0 && node.key !in Keys(order)
    requires Keys(order) == Leading(capacity, ByLastUse(history))
    ensures var listed := [node] + if |order| == capacity then order[..capacity - 1] else order;
            var cached := [node.key] + if |order| == capacity then Keys(order)[..capacity - 1] else Keys(order);
            Keys(listed) == cached == Leading(capacity, ByLastUse(history + [node.key]))
    ensures |order| == capacity ==> Keys(order)[capacity - 1] == order[capacity - 1].key
  {
    UseNew(capacity, history, node.key);
    assert Keys([node]) == [node.key];
    hide Keys, Leading, ByLastUse;
    if |order| == capacity {
      KeysConcat([node], order[..capacity - 1]);
      KeysSlice(order, 0, capacity - 1);
    } else {
      KeysConcat([node], order);
    }
  }

  class Cache<V> {
    const capacity: nat
    const slist: array<Node?<V>>
    var head: Node?<V>
    var tail: Node?<V>
    var len: nat
    /** The nodes, most recently used first. */
    ghost var order: seq<Node<V>>
    /** The key of every insert and of every successful lookup, oldest first. */
    ghost var history: seq<int>

    ghost predicate Linked()
      reads `head, `tail, `order, order
    {
      head == At(order, 0) && tail == At(order, |order| - 1) && Chained(order)
    }

    ghost predicate Filled(n: nat)
      reads slist
    {
      n <= slist.Length && forall i :: 0 <= i < n ==> slist[i] != null
    }

    ghost function Slots(n: nat): (s: seq<Node<V>>)
      requires Filled(n)
      reads slist
      ensures |s| == n && forall i :: 0 <= i < n ==> s[i] == slist[i]
    {
      seq(n, i requires 0 <= i < n && Filled(n) reads slist => slist[i])
    }

    ghost function Recency(): seq<int>
      reads `order
    {
      Keys(order)
    }

    /** List and index hold the same nodes, and the cached keys are the `capacity` last used ones. */
    ghost predicate Valid()
      reads this, order, slist
    {
      && Linked()
      && len == |order| <= capacity == slist.Length
      && Filled(len)
      && Indexes(Slots(len), order)
      && Recency() == Leading(capacity, ByLastUse(history))
    }

    ghost predicate Ordered()
      requires Filled(len)
      reads `len, slist
    {
      Sorted(Keys(Slots(len)))
    }

    constructor (capacity: nat)
      ensures Valid() && Ordered() && this.capacity == capacity && history == [] && fresh(slist)
    {
      this.capacity := capacity;
      slist := new Node?<V>[capacity](_ => null);
      head, tail, len := null, null, 0;
      order, history := [], [];
    }

    method InsertListNode(node: Node<V>)
      requires Linked() && node !in order
      modifies `head, `tail, `order, node, order
      ensures Linked() && order == [node] + old(order)
    {
      hide Distinct;
      node.prev := null;
      node.next := head;
      if head != null {
        head.prev := node;
      }
      head := node;
      if tail == null {
        tail := node;
      }
      DistinctCons(node, order);
      ghost var was := order;
      order := [node] + order;
      forall i | 0 <= i < |order|
        ensures Joined(order, i)
      {
        if i > 0 {
          assert old(Joined(was, i - 1));
          if i > 1 {
            Differ(was, 0, i - 1);
          }
        }
      }
    }

    method RemoveListNode(node: Node<V>, ghost i: nat)
      requires Linked() && i < |order| && order[i] == node
      modifies `head, `tail, `order, order
      ensures Linked() && order == old(order)[..i] + old(order)[i + 1..]
    {
      hide Distinct;
      assert Joined(order, i);
      if node.prev != null && node.next != null {
        node.prev.next := node.next;
        node.next.prev := node.prev;
      }
      if node.prev == null {
        head := node.next;
        if node.next != null {
          node.next.prev := null;
        }
      }
      if node.next == null {
        tail := node.prev;
        if node.prev != null {
          node.prev.next := null;
        }
      }
      ghost var was := order;
      DistinctRemoved(order, i);
      order := order[..i] + order[i + 1..];
      forall j | 0 <= j < |order|
        ensures Joined(order, j)
      {
        var k := if j < i then j else j + 1;
        assert old(Joined(was, k));
        Differ(was, i, k);
        if 0 < i && k != i - 1 {
          Differ(was, i - 1, k);
        }
        if i + 1 < |was| && k != i + 1 {
          Differ(was, i + 1, k);
        }
        assert was[k].prev == if k == i + 1 then At(was, i - 1) else At(was, k - 1);
        assert was[k].next == if k == i - 1 then At(was, i + 1) else At(was, k + 1);
      }
    }

    method UpdateList(node: Node<V>, ghost i: nat)
      requires Linked() && i < |order| && order[i] == node
      modifies `head, `tail, `order, order
      ensures Linked() && order == Fronted(old(order), i)
    {
      hide Distinct;
      DistinctRemoved(order, i);
      hide Linked;
      RemoveListNode(node, i);
      InsertListNode(node);
    }

    method SearchSlist(key: int) returns (idx: Option<nat>)
      requires Filled(len)
      ensures idx == Find(Keys(Slots(len)), key)
    {
      ghost var keys := Keys(Slots(len));
      var l, h := 0, len - 1;
      while l <= h
        invariant 0 <= l <= h + 1 <= len
        invariant Probe(keys, key, l, h + 1) == Find(keys, key)
      {
        var curr := (l + h) / 2;
        var found := slist[curr].key;
        if found == key {
          return Some(curr);
        } else if found < key {
          l := curr + 1;
        } else {
          h := curr - 1;
        }
      }
      idx := None;
    }

    method FindPosition(key: int) returns (pos: nat)
      requires Filled(len) && Ordered()
      ensures IsPosition(Keys(Slots(len)), key, len, pos)
    {
      ghost var keys := Keys(Slots(len));
      var start, end := 0, len - 1;
      while start <= end
        invariant 0 <= start <= end + 1 <= len
        invariant forall i :: 0 <= i < start ==> keys[i] < key
        invariant forall i :: end < i < len ==> keys[i] >= key
      {
        var mid := start + (end - start) / 2;
        if slist[mid].key < key {
          start := mid + 1;
        } else {
          end := mid - 1;
        }
      }
      pos := start;
    }

    /** Opens slot `pos` for a new element, closing slot `del`. */
    method MoveElemSlist(add: nat, del: nat) returns (pos: nat)
      requires add < slist.Length == capacity && del < capacity
      modifies slist
      ensures pos == Landing(capacity, add, del)
      ensures forall i :: 0 <= i < capacity && i != pos && Origin(capacity, add, del, i) < capacity ==>
        slist[i] == old(slist[Origin(capacity, add, del, i)])
    {
      pos := add;
      if add == del {
        return;
      }
      if del >= add {
        forall i | add < i <= del {
          slist[i] := slist[i - 1];
        }
      } else {
        if add != capacity - 1 {
          pos := pos - 1;
        }
        forall i | del <= i < pos {
          slist[i] := slist[i + 1];
        }
      }
    }

    method InsertSlist(node: Node<V>, del: nat) returns (ghost pos: nat)
      requires len < capacity == slist.Length && del < capacity && (len == 0 ==> del == 0)
      requires Filled(len) && Ordered()
      modifies slist
      ensures IsPosition(old(Keys(Slots(len))), node.key, len, pos)
      ensures slist[..] == Replaced(old(slist[..]), pos, del, node)
    {
      if len == 0 {
        slist[0] := node;
        return 0;
      }
      var add := FindPosition(node.key);
      ghost var was := slist[..];
      var at := MoveElemSlist(add, del);
      slist[at] := node;
      ReplacedBy(was, slist[..], add, del, node);
      pos := add;
    }

    /** The slot of an indexed node, by a search for its key. */
    method SlotOf(node: Node<V>, ghost nodes: seq<Node<V>>, ghost i: nat) returns (slot: nat)
      requires Filled(len) && Ordered() && Indexes(Slots(len), nodes) && i < |nodes| && nodes[i] == node
      ensures slot < len && slist[slot] == node
    {
      hide Distinct, Find, Sorted;
      assert Keys(nodes)[i] == node.key;
      IndexedKeys(Slots(len), nodes);
      FindIsMembership(Keys(Slots(len)), node.key);
      var found := SearchSlist(node.key);
      slot := if found.Some? then found.value else 0;
      OneHolder(Slots(len), nodes, slot, i);
    }

    /** Unlinks the least recently used node and finds its slot, which the next insert overwrites. */
    method DeleteLast() returns (del: nat)
      requires Valid() && Ordered() && len > 0
      modifies `head, `tail, `order, `len, order
      ensures Linked() && order == old(order)[..old(len) - 1] && len == old(len) - 1
      ensures del < old(len) && slist[del] == old(order)[old(len) - 1]
      ensures Filled(len) && Slots(len) == old(Slots(len))[..len] && Ordered()
    {
      ghost var slots, was, n := Slots(len), order, len - 1;
      PrefixSorted(slots, len - 1);
      var last := tail;
      hide Distinct, Find, Sorted, Recency, Chained, ByLastUse, Leading, Indexes, Keys;
      assert order[n] == last;
      hide Linked;
      RemoveListNode(last, n);
      assert order == was[..n];
      del := SlotOf(last, was, n);
      len := len - 1;
      assert Slots(len) == slots[..len];
    }

    /** A cached key becomes the most recently used one, an absent key changes nothing. */
    method Get(key: int) returns (found: Option<V>)
      requires Valid() && Ordered()
      modifies `head, `tail, `order, `history, order
      ensures Valid() && Ordered()
      ensures found.Some? <==> key in old(Recency())
      ensures found.None? ==> order == old(order) && history == old(history)
      ensures found.Some? ==>
        && Recency() == [key] + Without(old(Recency()), key) && history == old(history) + [key]
        && multiset(order) == multiset(old(order)) && found.value == order[0].value
    {
      IndexedKeys(Slots(len), order);
      FindIsMembership(Keys(Slots(len)), key);
      var idx := SearchSlist(key);
      if idx.None? {
        return None;
      }
      var node := slist[idx.value];
      ghost var i := PlaceOf(idx.value);
      hide *;
      UseKeeps(Slots(len), order, i, capacity, history);
      Use(node, i);
      found := Some(node.value);
    }

    method Use(node: Node<V>, ghost i: nat)
      requires Valid() && Ordered() && i < |order| && order[i] == node
      modifies `head, `tail, `order, `history, order
      ensures Valid() && Ordered()
      ensures order == Fronted(old(order), i) && history == old(history) + [node.key]
    {
      hide Distinct, Without, Sorted, Keys, Leading, ByLastUse, Linked, Indexes, Fronted;
      UseKeeps(Slots(len), order, i, capacity, history);
      UpdateList(node, i);
      history := history + [node.key];
      assert Slots(len) == old(Slots(len));
    }

    /** The place in the recency list of the node in a slot. */
    ghost method PlaceOf(slot: nat) returns (i: nat)
      requires Filled(len) && Indexes(Slots(len), order) && slot < len
      ensures i < |order| && order[i] == slist[slot]
    {
      assert Slots(len)[slot] in multiset(order);
      i :| 0 <= i < |order| && order[i] == slist[slot];
    }

    method InsertNode(node: Node<V>, del: nat) returns (ghost pos: nat)
      requires Linked() && node !in order
      requires len < capacity == slist.Length && del < capacity && (len == 0 ==> del == 0)
      requires Filled(len) && Ordered()
      modifies `head, `tail, `order, `len, slist, node, order
      ensures Linked() && order == [node] + old(order) && len == old(len) + 1
      ensures IsPosition(old(Keys(Slots(len))), node.key, old(len), pos)
      ensures slist[..] == Replaced(old(slist[..]), pos, del, node)
    {
      hide *;
      InsertListNode(node);
      pos := InsertSlist(node, del);
      len := len + 1;
    }

    lemma SlotsAre(x: seq<Node<V>>)
      requires |x| <= slist.Length && forall i :: 0 <= i < |x| ==> slist[..][i] == x[i]
      ensures Filled(|x|) && Slots(|x|) == x
    {
      assert forall i :: 0 <= i < |x| ==> slist[i] == slist[..][i];
    }

    method Extend(node: Node<V>)
      requires Valid() && Ordered() && len < capacity && node.key !in Recency() && node !in order
      modifies `head, `tail, `order, `len, slist, node, order
      ensures Linked() && len == |order| == old(len) + 1
      ensures Filled(len) && Indexes(Slots(len), order) && Ordered()
      ensures order == [node] + old(order)
      ensures Keys(Slots(len)) == Grown(old(Keys(Slots(len))), node.key)
    {
      ghost var slots, before, was := Slots(len), slist[..], order;
      hide Replaced, Distinct, Sorted, Linked, IsPosition, Keys, Indexes, Leading, Grown;
      ghost var pos := InsertNode(node, len);
      GrownIndex(before, slots, was, pos, node);
      ghost var x := slots[..pos] + [node] + slots[pos..];
      SlotsAre(x);
    }

    /** Takes out the least recently used node and puts a new one in front, in the array as in the list. */
    method Swap(node: Node<V>) returns (ghost pos: nat, ghost del: nat)
      requires Valid() && Ordered() && 0 < len == capacity && node !in order
      modifies `head, `tail, `order, `len, slist, node, order
      ensures Linked() && len == |order| == old(len) && order == [node] + old(order)[..capacity - 1]
      ensures del < len && old(Slots(len))[del] == old(order)[capacity - 1]
      ensures IsPosition(Keys(old(Slots(len))[..capacity - 1]), node.key, capacity - 1, pos)
      ensures slist[..] == Replaced(old(slist[..]), pos, del, node)
    {
      hide Distinct, Sorted, Indexes, Leading, ByLastUse, Keys, Replaced, Linked, IsPosition, Chained;
      var slot := DeleteLast();
      pos := InsertNode(node, slot);
      del := slot;
    }

    method Replace(node: Node<V>)
      requires Valid() && Ordered() && 0 < len == capacity && node.key !in Recency() && node !in order
      modifies `head, `tail, `order, `len, slist, node, order
      ensures Linked() && len == |order| == old(len)
      ensures Filled(len) && Traded(old(Slots(len)), old(order), node, Slots(len))
      ensures order == [node] + old(order)[..capacity - 1]
    {
      ghost var slots, before, was := Slots(len), slist[..], order;
      assert Sorted(Keys(slots)) && Indexes(slots, was) && node.key !in Keys(was);
      hide Distinct, Sorted, Indexes, Traded, Leading, ByLastUse, Keys, Replaced, Linked, IsPosition;
      ghost var pos, del := Swap(node);
      IsInside(Keys(slots[..capacity - 1]), node.key, capacity - 1, pos);
      EvictedIndex(before, slots, was, pos, del, node);
      SlotsAre(Replaced(slots, pos, del, node));
    }

    /** Caches an absent key; a full cache gives up its least recently used one. The index stays
      * sorted unless the key is misplaced. */
    method Insert(key: int, value: V)
      requires Valid() && Ordered() && capacity > 0 && key !in Recency()
      modifies `head, `tail, `order, `history, `len, slist, order
      ensures Valid() && history == old(history) + [key]
      ensures Recency() == [key] + if old(len) == capacity then old(Recency())[..capacity - 1] else old(Recency())
      ensures fresh(order[0]) && order[0].value == value && order[1..] == old(order)[..|order| - 1]
      ensures Ordered() <==> !(old(len) == capacity &&
                               Misplaced(old(Keys(Slots(len))), old(Recency())[capacity - 1], key))
      ensures Keys(Slots(len)) ==
              if old(len) == capacity then Evicted(old(Keys(Slots(len))), old(Recency())[capacity - 1], key)
              else Grown(old(Keys(Slots(len))), key)
    {
      hide Distinct, Sorted, Linked, Indexes, Leading, Misplaced, ByLastUse, Keys, Chained, At, Evicted, Grown;
      var node := new Node<V>(key, value);
      assert node !in order;
      NewKeeps(order, node, capacity, history);
      if len == capacity {
        Replace(node);
      } else {
        Extend(node);
      }
      history := history + [key];
    }
  }
}

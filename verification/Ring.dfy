/** The bounded ring buffer: an array with one spare slot that behaves as a queue. */
module Ring {
  import opened Common

  /** The index one step further round a ring of `capacity` slots. */
  lemma StepRound(i: nat, capacity: nat)
    requires i < capacity
    ensures (i + 1) % capacity == if i + 1 == capacity then 0 else i + 1
  {
    if i + 1 == capacity {
      assert capacity % capacity == 0;
    }
  }

  class RingBuffer<T> {
    const capacity: nat
    const val: array<Option<T>>
    var rIdx: nat
    var wIdx: nat

    ghost predicate Valid()
      reads this, val
    {
      && 0 < capacity == val.Length
      && rIdx < capacity && wIdx < capacity
      && forall k :: 0 <= k < Len() ==> val[Slot(k)].Some?
    }

    function Len(): nat
      requires rIdx < capacity && wIdx < capacity
      reads this
    {
      if wIdx >= rIdx then wIdx - rIdx else wIdx + (capacity - rIdx)
    }

    function Capacity(): nat
      requires capacity > 0
    {
      capacity - 1
    }

    /** The slot of the `k`-th queued element. */
    function Slot(k: nat): (i: nat)
      requires rIdx < capacity && k < capacity
      reads this
      ensures i < capacity
    {
      if rIdx + k < capacity then rIdx + k else rIdx + k - capacity
    }

    ghost function Queue(): (q: seq<T>)
      requires Valid()
      reads this, val
      ensures |q| == Len()
      ensures forall k :: 0 <= k < |q| ==> q[k] == val[Slot(k)].value
    {
      seq(Len(), k reads this, val requires Valid() && 0 <= k < Len() => val[Slot(k)].value)
    }

    constructor (capacity: nat)
      ensures Valid() && fresh(val) && Capacity() == capacity && Queue() == []
    {
      this.capacity := capacity + 1;
      val := new Option<T>[capacity + 1](_ => None);
      rIdx, wIdx := 0, 0;
    }

    method Push(e: T) returns (refused: Option<T>)
      requires Valid()
      modifies this, val
      ensures Valid()
      ensures if old(|Queue()|) == Capacity() then refused == Some(e) && Queue() == old(Queue())
              else refused == None && Queue() == old(Queue()) + [e]
    {
      refused := Some(e);
      if Len() != Capacity() {
        StepRound(wIdx, capacity);
        ghost var n := Len();
        assert forall k :: 0 <= k < n ==> Slot(k) != wIdx;
        val[wIdx] := Some(e);
        assert Slot(n) == wIdx;
        wIdx := (wIdx + 1) % capacity;
        assert forall k :: 0 <= k < n ==> val[Slot(k)] == old(val[Slot(k)]);
        refused := None;
      }
    }

    method Pull() returns (e: Option<T>)
      requires Valid()
      modifies this, val
      ensures Valid()
      ensures if old(Queue()) == [] then e == None && Queue() == []
              else e == Some(old(Queue())[0]) && Queue() == old(Queue())[1..]
    {
      e := None;
      if wIdx != rIdx {
        StepRound(rIdx, capacity);
        e := val[rIdx];
        assert e == val[Slot(0)];
        ghost var n := Len();
        val[rIdx] := None;
        rIdx := (rIdx + 1) % capacity;
        assert forall k :: 0 <= k < n - 1 ==> Slot(k) == old(Slot(k + 1));
        assert forall k :: 0 <= k < n - 1 ==> val[Slot(k)] == old(val[Slot(k + 1)]);
      }
    }

    /** Stores the element; a full ring gives up its oldest one. A ring without room keeps nothing. */
    method PushForce(e: T) returns (evicted: Option<T>)
      requires Valid()
      modifies this, val
      ensures Valid()
      ensures if Capacity() == 0 then evicted == None && Queue() == []
              else if old(|Queue()|) == Capacity()
              then evicted == Some(old(Queue())[0]) && Queue() == old(Queue())[1..] + [e]
              else evicted == None && Queue() == old(Queue()) + [e]
    {
      evicted := Push(e);
      if evicted.Some? {
        evicted := Pull();
        var _ := Push(e);
      }
    }
  }

  /** Walks the ring from the oldest element to the newest. */
  class ForwardIterator<T> {
    const ring: RingBuffer<T>
    var rIdx: nat
    const wIdx: nat
    ghost var visited: nat

    ghost predicate Valid()
      reads this, ring, ring.val
    {
      && ring.Valid() && visited <= ring.Len()
      && wIdx == ring.wIdx && rIdx == ring.Slot(visited)
    }

    constructor (ring: RingBuffer<T>)
      requires ring.Valid()
      ensures Valid() && this.ring == ring && visited == 0
    {
      this.ring := ring;
      rIdx, wIdx := ring.rIdx, ring.wIdx;
      visited := 0;
    }

    method Next() returns (e: Option<T>)
      requires Valid()
      modifies this
      ensures Valid()
      ensures if old(visited) == |ring.Queue()| then e == None && visited == old(visited)
              else old(visited) < |ring.Queue()| && visited == old(visited) + 1 && e == Some(ring.Queue()[old(visited)])
    {
      e := None;
      if rIdx != wIdx {
        StepRound(rIdx, ring.capacity);
        e := ring.val[rIdx];
        rIdx := (rIdx + 1) % ring.capacity;
        visited := visited + 1;
      }
    }
  }

  /** Walks the ring from the newest element to the oldest. */
  class ReverseIterator<T> {
    const ring: RingBuffer<T>
    var rIdx: nat
    const wIdx: nat
    ghost var left: nat

    /** The elements not yet visited are the `left` oldest ones. */
    ghost predicate Valid()
      reads this, ring, ring.val
    {
      && ring.Valid() && left <= ring.Len()
      && wIdx == (if ring.rIdx == 0 then ring.capacity - 1 else ring.rIdx - 1)
      && rIdx == if left > 0 then ring.Slot(left - 1) else wIdx
    }

    constructor (ring: RingBuffer<T>)
      requires ring.Valid()
      ensures Valid() && this.ring == ring && left == |ring.Queue()|
    {
      this.ring := ring;
      rIdx := if ring.wIdx == 0 then ring.capacity - 1 else ring.wIdx - 1;
      wIdx := if ring.rIdx == 0 then ring.capacity - 1 else ring.rIdx - 1;
      left := ring.Len();
    }

    method Next() returns (e: Option<T>)
      requires Valid()
      modifies this
      ensures Valid()
      ensures if old(left) == 0 then e == None && left == 0
              else left == old(left) - 1 && left < |ring.Queue()| && e == Some(ring.Queue()[left])
    {
      e := None;
      if rIdx != wIdx {
        e := ring.val[rIdx];
        rIdx := if rIdx == 0 then ring.capacity - 1 else rIdx - 1;
        left := left - 1;
      }
    }
  }
}

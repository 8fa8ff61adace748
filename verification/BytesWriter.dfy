/** How fast the slices of a run of writes grow. */
module WriterGrowth {
  function Pow2(n: nat): (p: nat)
    ensures p > 0
  {
    if n == 0 then 1 else 2 * Pow2(n - 1)
  }

  ghost function Sum(lens: seq<nat>): nat {
    if lens == [] then 0 else Sum(lens[..|lens| - 1]) + lens[|lens| - 1]
  }

  /** The `i`-th slice of a run that began with a slice of `f` bytes has room for `f` times 2^i. */
  function Room(f: nat, i: nat): (r: nat)
    ensures r == f * Pow2(i)
  {
    f * Pow2(i)
  }

  /** Slices from `first` on were made by writes: all are full but the last, which holds something. */
  ghost predicate Doubling(lens: seq<nat>, first: nat, capacity: nat) {
    && first < |lens|
    && capacity == Room(lens[first], |lens| - 1 - first)
    && (forall i :: first <= i < |lens| - 1 ==> lens[i] == Room(lens[first], i - first))
    && lens[|lens| - 1] <= capacity
    && (first < |lens| - 1 ==> lens[|lens| - 1] > 0)
  }

  lemma RoomDoubles(f: nat, i: nat)
    ensures Room(f, i + 1) == 2 * Room(f, i) && Room(f, 0) == f
  {
    assert f * (2 * Pow2(i)) == 2 * (f * Pow2(i));
  }

  /** When the last slice is full, the next one has twice its length of room. */
  lemma DoublingGrows(lens: seq<nat>, first: nat, capacity: nat, n: nat)
    requires Doubling(lens, first, capacity) && lens[|lens| - 1] == capacity && 0 < n <= 2 * capacity
    ensures Doubling(lens + [n], first, 2 * capacity)
  {
    hide Room;
    RoomDoubles(lens[first], |lens| - 1 - first);
  }

  lemma DoublingFills(lens: seq<nat>, first: nat, capacity: nat, n: nat)
    requires Doubling(lens, first, capacity) && lens[|lens| - 1] + n <= capacity
    ensures Doubling(lens[|lens| - 1 := lens[|lens| - 1] + n], first, capacity)
  {
    hide Room;
    RoomDoubles(lens[first], 0);
  }

  lemma {:induction false} FullSum(lens: seq<nat>, f: nat)
    requires forall i :: 0 <= i < |lens| ==> lens[i] == Room(f, i)
    ensures Sum(lens) + f == Room(f, |lens|)
  {
    hide Room;
    if lens == [] {
      RoomDoubles(f, 0);
    } else {
      var n := |lens| - 1;
      FullSum(lens[..n], f);
      RoomDoubles(f, n);
    }
  }

  /** A run with free room in its last slice, which may be new and still empty. */
  ghost predicate Open(lens: seq<nat>, first: nat, capacity: nat) {
    && |lens| > 0 && lens[|lens| - 1] < capacity
    && if lens[|lens| - 1] > 0 then Doubling(lens, first, capacity)
       else |lens| > 1 && Doubling(lens[..|lens| - 1], first, lens[|lens| - 2]) && capacity == 2 * lens[|lens| - 2]
  }

  lemma OpenFills(lens: seq<nat>, first: nat, capacity: nat, n: nat)
    requires Open(lens, first, capacity) && 0 < n && lens[|lens| - 1] + n <= capacity
    ensures Doubling(lens[..|lens| - 1] + [lens[|lens| - 1] + n], first, capacity)
  {
    hide Doubling;
    var last := |lens| - 1;
    if lens[last] > 0 {
      DoublingFills(lens, first, capacity, n);
      assert lens[last := lens[last] + n] == lens[..last] + [lens[last] + n];
    } else {
      DoublingGrows(lens[..last], first, lens[last - 1], n);
    }
  }

  lemma FullOrOpen(lens: seq<nat>, first: nat, capacity: nat)
    requires Doubling(lens, first, capacity) && lens[|lens| - 1] < capacity
    ensures Open(lens, first, capacity) && first < |lens| - 1
  {
    hide Room;
    RoomDoubles(lens[first], 0);
  }

  lemma FullOpens(lens: seq<nat>, first: nat, capacity: nat)
    requires Doubling(lens, first, capacity) && lens[|lens| - 1] == capacity > 0
    ensures Open(lens + [0], first, 2 * capacity)
  {
    hide Room;
    assert (lens + [0])[..|lens|] == lens;
  }

  lemma DoublingStarts(lens: seq<nat>, n: nat)
    ensures Doubling(lens + [n], |lens|, n)
  {
    RoomDoubles(n, 0);
  }

  /** A run of k slices that began with f > 0 bytes holds more than f * (2^(k-1) - 1) bytes: the
    * number of slices, and with it of allocations, is logarithmic in what was written. */
  lemma FewSlices(lens: seq<nat>, first: nat, capacity: nat)
    requires Doubling(lens, first, capacity) && lens[first] > 0
    ensures Room(lens[first], |lens| - 1 - first) < lens[first] + Sum(lens[first..])
  {
    hide Room;
    var f, run := lens[first], lens[first..];
    FullSum(run[..|run| - 1], f);
    RoomDoubles(f, 0);
  }
}

/** The writer: it appends to the buffer of its last slice and starts a new slice when that is full. */
module BytesWriter {
  import opened Common
  import opened SliceBytes
  import opened WriterGrowth

  datatype ArcSlice = ArcSlice(buf: array<Byte>, start: nat, len: nat) {
    predicate Fits() {
      start + len <= buf.Length
    }

    ghost function Data(): (d: seq<Byte>)
      requires Fits()
      reads buf
      ensures |d| == len
    {
      buf[start..start + len]
    }
  }

  ghost predicate AllFit(slices: seq<ArcSlice>) {
    forall s :: s in slices ==> s.Fits()
  }

  ghost function Bufs(slices: seq<ArcSlice>): set<array<Byte>> {
    set s | s in slices :: s.buf
  }

  ghost function Parts(slices: seq<ArcSlice>): (parts: seq<seq<Byte>>)
    requires AllFit(slices)
    reads Bufs(slices)
    ensures |parts| == |slices| && forall i :: 0 <= i < |slices| ==> parts[i] == slices[i].Data()
  {
    seq(|slices|, i requires 0 <= i < |slices| && AllFit(slices) reads Bufs(slices) => slices[i].Data())
  }

  ghost function Lens(slices: seq<ArcSlice>): (lens: seq<nat>)
    ensures |lens| == |slices| && forall i :: 0 <= i < |slices| ==> lens[i] == slices[i].len
  {
    seq(|slices|, i requires 0 <= i < |slices| => slices[i].len)
  }

  lemma PartsSnoc(slices: seq<ArcSlice>, s: ArcSlice)
    requires AllFit(slices) && s.Fits()
    ensures AllFit(slices + [s]) && Parts(slices + [s]) == Parts(slices) + [s.Data()]
    ensures Flat(Parts(slices + [s])) == Flat(Parts(slices)) + s.Data()
  {
    assert Parts(slices + [s]) == Parts(slices) + [s.Data()];
    FlatSnoc(Parts(slices), s.Data());
  }

  lemma LensSnoc(slices: seq<ArcSlice>, s: ArcSlice)
    ensures Lens(slices + [s]) == Lens(slices) + [s.len]
  {
  }

  lemma SnocParts(init: seq<ArcSlice>, s: ArcSlice)
    ensures (init + [s])[..|init + [s]| - 1] == init && (init + [s])[|init + [s]| - 1] == s
  {
  }

  lemma EmptyFlat()
    ensures Flat([]) == []
  {
  }

  lemma {:induction false} LengthIsSum(slices: seq<ArcSlice>)
    requires AllFit(slices)
    ensures |Flat(Parts(slices))| == Sum(Lens(slices))
  {
    if slices != [] {
      var n := |slices| - 1;
      var init, last := slices[..n], slices[n];
      assert slices == init + [last];
      LengthIsSum(init);
      PartsSnoc(init, last);
      LensSnoc(init, last);
      assert Lens(slices)[..n] == Lens(init);
    }
  }

  /** Slices keep their bytes while no one writes to their buffers. */
  twostate lemma PartsKept(slices: seq<ArcSlice>)
    requires AllFit(slices) && forall s :: s in slices ==> unchanged(s.buf)
    ensures Parts(slices) == old(Parts(slices))
  {
    forall i | 0 <= i < |slices|
      ensures Parts(slices)[i] == old(Parts(slices))[i]
    {
      assert slices[i] in slices;
    }
  }

  /** A longer last slice keeps the run of writes doubling. */
  lemma LongerLast(init: seq<ArcSlice>, last: ArcSlice, longer: ArcSlice, first: nat, n: nat)
    requires Open(Lens(init + [last]), first, last.buf.Length) && 0 < n && last.len + n <= last.buf.Length
    requires longer == last.(len := last.len + n)
    ensures Doubling(Lens(init + [longer]), first, last.buf.Length)
  {
    hide Lens, Doubling, Open;
    LensSnoc(init, last);
    LensSnoc(init, longer);
    OpenFills(Lens(init + [last]), first, last.buf.Length, n);
    assert Lens(init + [last])[..|init|] == Lens(init);
  }

  lemma OwnBuffer(init: seq<ArcSlice>, last: ArcSlice)
    requires AllFit(init + [last]) && last.buf !in Bufs(init)
    ensures AllFit(init) && last.Fits() && forall s :: s in init ==> s.buf != last.buf
  {
    assert forall s :: s in init ==> s in init + [last] && s.buf in Bufs(init);
    assert last in init + [last];
  }

  class Writer {
    var slices: seq<ArcSlice>
    /** The slice being filled, always the last one. */
    var cache: Option<nat>
    /** The slice with which the current run of writes began. */
    ghost var first: nat
    /** The number of bytes of the write with which it began. */
    ghost var begun: nat

    ghost predicate Valid()
      reads this
    {
      && AllFit(slices)
      && (cache.Some? ==>
        && cache.value == |slices| - 1
        && Last().start == 0
        && Last().buf !in Bufs(Init())
        && Doubling(Lens(slices), first, Last().buf.Length)
        && slices[first].len == begun)
    }

    function Last(): ArcSlice
      requires |slices| > 0
      reads `slices
    {
      slices[|slices| - 1]
    }

    ghost function Init(): seq<ArcSlice>
      requires |slices| > 0
      reads `slices
    {
      slices[..|slices| - 1]
    }

    ghost function CacheBuf(): set<object>
      reads this
    {
      if cache.Some? && |slices| > 0 then {Last().buf} else {}
    }

    ghost function Contents(): seq<Byte>
      requires AllFit(slices)
      reads `slices, Bufs(slices)
    {
      Flat(Parts(slices))
    }

    constructor FromBytes(slices: seq<ArcSlice>)
      requires AllFit(slices)
      ensures Valid() && this.slices == slices && cache == None
    {
      this.slices := slices;
      cache := None;
      first, begun := 0, 0;
    }

    method AppendSlice(s: ArcSlice)
      requires Valid() && s.Fits()
      modifies this
      ensures Valid() && cache == None && slices == old(slices) + [s]
      ensures Contents() == old(Contents()) + s.Data()
    {
      hide Flat, Parts, Bufs, Lens, Doubling;
      ghost var was := slices;
      slices := slices + [s];
      cache := None;
      PartsKept(was);
      PartsSnoc(was, s);
    }

    method InitCache(src: seq<Byte>)
      requires Valid() && cache == None
      modifies this
      ensures Valid() && cache.Some? && fresh(CacheBuf()) && Last().buf.Length == |src|
      ensures first == old(|slices|) && begun == |src|
      ensures Contents() == old(Contents()) + src
    {
      hide Parts, Flat;
      ghost var was := slices;
      var buf := new Byte[|src|](i requires 0 <= i < |src| => src[i]);
      var s := ArcSlice(buf, 0, |src|);
      assert s.Data() == src && buf !in Bufs(was);
      PartsKept(was);
      hide Bufs, Doubling, Lens;
      AppendSlice(s);
      assert s.Data() == src;
      LensSnoc(was, s);
      DoublingStarts(Lens(was), |src|);
      assert slices[..|slices| - 1] == was;
      label appended:
      first, begun := |was|, |src|;
      cache := Some(|slices| - 1);
      PartsKept@appended(slices);
    }

    /** Between two copies: the last slice has room. */
    ghost predicate Ready()
      reads this
    {
      && AllFit(slices) && |slices| > 0 && cache == Some(|slices| - 1)
      && Last().start == 0
      && Last().buf !in Bufs(Init())
      && Open(Lens(slices), first, Last().buf.Length)
      && first < |slices| - 1 && slices[first].len == begun
    }

    /** Makes room; fails exactly when the last buffer has no bytes at all, so that doubling is no help. */
    method EnsureCache() returns (ok: bool)
      requires Valid() && cache.Some?
      modifies this
      ensures ok <==> old(Last().buf.Length) > 0
      ensures if ok then Ready() else Valid() && slices == old(slices) && cache == old(cache)
      ensures fresh(CacheBuf() - old(CacheBuf()))
      ensures AllFit(slices) && Contents() == old(Contents()) && first == old(first) && begun == old(begun)
    {
      hide Doubling, Open, Parts, Flat, Bufs, Lens;
      var last := Last();
      assert last in slices;
      if last.buf.Length > last.len {
        FullOrOpen(Lens(slices), first, last.buf.Length);
        return true;
      }
      if last.len == 0 {
        return false;
      }
      NewCache(last.len * 2);
      ok := true;
    }

    method NewCache(capacity: nat)
      requires Valid() && cache.Some? && Last().len == Last().buf.Length > 0 && capacity == Last().len * 2
      modifies this
      ensures Ready() && fresh(CacheBuf()) && Contents() == old(Contents())
      ensures first == old(first) && begun == old(begun)
    {
      ghost var was, run, length := slices, first, begun;
      FullOpens(Lens(was), first, Last().buf.Length);
      hide Parts, Flat, Doubling, Lens, Open, Bufs, Init;
      var s := MakeSlice(capacity, was);
      AppendSlice(s);
      LensSnoc(was, s);
      SnocParts(was, s);
      label appended:
      first, begun := run, length;
      cache := Some(|slices| - 1);
      PartsKept@appended(slices);
      InitSnoc(was, s);
    }

    lemma InitSnoc(was: seq<ArcSlice>, s: ArcSlice)
      requires slices == was + [s]
      ensures Init() == was && Last() == s
    {
    }

    /** An empty slice of a new buffer, for a writer that holds the slices `was`. */
    method MakeSlice(capacity: nat, ghost was: seq<ArcSlice>) returns (s: ArcSlice)
      requires AllFit(was)
      ensures s.start == 0 == s.len && s.buf.Length == capacity && fresh(s.buf) && s.Data() == []
      ensures s.buf !in Bufs(was) && Parts(was) == old(Parts(was))
    {
      var buf := new Byte[capacity](i => 0);
      s := ArcSlice(buf, 0, 0);
      PartsKept(was);
    }

    lemma ReadyRoom()
      requires Ready()
      ensures AllFit(slices) && |slices| > 0 && cache == Some(|slices| - 1) && slices == Init() + [Last()]
      ensures Last().start == 0 && Last().len < Last().buf.Length && Last().buf !in Bufs(Init())
      ensures Open(Lens(slices), first, Last().buf.Length)
      ensures first < |Init()| && Init()[first].len == begun && CacheBuf() == {Last().buf}
    {
      hide Doubling, Lens, Bufs;
    }

    /** Copies as much of `src` as the last slice has room for. */
    method Fill(src: seq<Byte>) returns (n: nat)
      requires Ready() && AllFit(slices) && |slices| > 0 && src != []
      modifies this, Last().buf
      ensures Valid() && cache.Some? && CacheBuf() == old(CacheBuf()) && Last().buf.Length > 0
      ensures first == old(first) && begun == old(begun)
      ensures 0 < n <= |src| && Contents() == old(Contents()) + src[..n]
    {
      hide Valid, Ready, Parts, Flat, Bufs, Lens, Doubling, Open, Init, Contents, AllFit, CacheBuf;
      ReadyRoom();
      var last := Last();
      ghost var init := Init();
      OwnBuffer(init, last);
      var room := last.buf.Length - last.len;
      n := if room < |src| then room else |src|;
      var longer := last.(len := last.len + n);
      LongerLast(init, last, longer, first, n);
      Lengthen(init, last, longer, src, n);
      Refilled(init, longer);
    }

    /** What is left of `Valid` once the last slice is longer. */
    lemma Refilled(init: seq<ArcSlice>, last: ArcSlice)
      requires AllFit(slices) && slices == init + [last] && cache == Some(|slices| - 1)
      requires last.start == 0 && last.buf !in Bufs(init)
      requires Doubling(Lens(slices), first, last.buf.Length)
      requires first < |init| && init[first].len == begun
      ensures Valid() && |slices| > 0 && Last() == last && CacheBuf() == {last.buf}
    {
      hide Doubling, Lens, Bufs;
      SnocParts(init, last);
    }

    method Lengthen(ghost init: seq<ArcSlice>, last: ArcSlice, longer: ArcSlice, src: seq<Byte>, n: nat)
      requires AllFit(slices) && slices == init + [last] && last.start == 0 && AllFit(init)
      requires longer == last.(len := last.len + n) && longer.Fits() && n <= |src|
      requires forall s :: s in init ==> s.buf != last.buf
      modifies `slices, last.buf
      ensures slices == init + [longer] && AllFit(slices)
      ensures Contents() == old(Contents()) + src[..n]
    {
      hide Parts, Flat, Bufs;
      PartsSnoc(init, last);
      PutBytes(last, src, n);
      PartsKept(init);
      slices := slices[..|slices| - 1] + [longer];
      assert slices == init + [longer];
      PartsKept(init);
      PartsSnoc(init, longer);
    }

    /** Writes behind a slice, in its own buffer. */
    method PutBytes(last: ArcSlice, src: seq<Byte>, n: nat)
      requires last.start == 0 && last.len + n <= last.buf.Length && n <= |src|
      modifies last.buf
      ensures last.(len := last.len + n).Data() == old(last.Data()) + src[..n]
    {
      forall i | 0 <= i < n {
        last.buf[last.len + i] := src[i];
      }
    }

    /** The last buffer has room for bytes exactly when the run of writes began with some. */
    lemma RunGrows()
      requires Valid() && cache.Some?
      ensures Last().buf.Length > 0 <==> begun > 0
    {
      var n := |slices| - 1 - first;
      assert Last().buf.Length == begun * Pow2(n);
      if begun > 0 {
        assert begun * Pow2(n) >= 1 * Pow2(n);
      }
    }

    /** One copy: as many bytes as the last slice has room for, or none if there can be no room. */
    method WriteSome(src: seq<Byte>) returns (n: nat)
      requires Valid() && cache.Some? && src != []
      modifies this, CacheBuf()
      ensures Valid() && cache.Some? && first == old(first) && begun == old(begun)
      ensures n <= |src| && (n > 0 <==> begun > 0) && (n == 0 ==> slices == old(slices))
      ensures Contents() == old(Contents()) + src[..n]
      ensures fresh(CacheBuf() - old(CacheBuf()))
    {
      hide Parts, Flat, Doubling, Open, Bufs, Lens;
      RunGrows();
      var room := EnsureCache();
      if !room {
        return 0;
      }
      n := Fill(src);
    }

    /** Appends the bytes of `src`. It fails, and appends nothing, exactly when the run of writes began
      * with an empty one: such a run's buffer has no room and can never grow. */
    method WriteAll(src: seq<Byte>) returns (ok: bool)
      requires Valid()
      modifies this, CacheBuf()
      ensures Valid() && (ok <==> old(cache == None || begun > 0) || src == [])
      ensures Contents() == old(Contents()) + if ok then src else []
      ensures cache.Some? && first == old(if cache == None then |slices| else first)
      ensures begun == old(if cache == None then |src| else begun)
      ensures fresh(CacheBuf() - old(CacheBuf()))
    {
      hide Parts, Flat, Doubling, Open, Bufs, Lens;
      if cache == None {
        InitCache(src);
        return true;
      }
      var done := 0;
      ghost var contents := Contents();
      while done < |src|
        invariant done <= |src| && Valid() && cache.Some? && first == old(first) && begun == old(begun)
        invariant Contents() == contents + src[..done]
        invariant done > 0 ==> begun > 0
        invariant done == 0 ==> slices == old(slices)
        invariant fresh(CacheBuf() - old(CacheBuf()))
      {
        var n := WriteSome(src[done..]);
        if n == 0 {
          return false;
        }
        assert src[..done] + src[done..][..n] == src[..done + n];
        done := done + n;
      }
      assert src[..done] == src;
      ok := true;
    }

    /** Takes over the slices of another payload; the next write begins a new run. */
    method AppendBytes(src: seq<ArcSlice>)
      requires Valid() && AllFit(src)
      modifies this
      ensures Valid() && cache == None && slices == old(slices) + src
      ensures Contents() == old(Contents()) + Flat(Parts(src))
    {
      hide Flat, Doubling, Bufs, Lens;
      ghost var parts, contents := Parts(src), Contents();
      assert parts[..0] == [] && Flat([]) == [] by {
        EmptyFlat();
      }
      var i := 0;
      while i < |src|
        invariant i <= |src| && Valid() && slices == old(slices) + src[..i]
        invariant parts == Parts(src) && Contents() == contents + Flat(parts[..i])
      {
        label before:
        assert src[i] in src;
        FlatSnoc(parts[..i], parts[i]);
        assert parts[..i + 1] == parts[..i] + [parts[i]];
        AppendSlice(src[i]);
        PartsKept@before(src);
        assert src[i].Data() == parts[i];
        i := i + 1;
      }
      assert parts[..i] == parts && src[..i] == src;
      label appended:
      cache := None;
      PartsKept@appended(src);
      PartsKept@appended(slices);
    }

    /** After writes only, the number of slices is logarithmic in the payload. */
    lemma FewWrites()
      requires Valid() && cache.Some? && first == 0 && begun > 0
      ensures Room(begun, |slices| - 1) < begun + |Contents()|
    {
      FewSlices(Lens(slices), 0, Last().buf.Length);
      LengthIsSum(slices);
      assert Lens(slices)[0..] == Lens(slices);
    }

    /** Hands the payload over and leaves the writer empty. */
    method Finish() returns (out: seq<ArcSlice>)
      requires Valid()
      modifies this
      ensures Valid() && slices == [] && cache == None
      ensures AllFit(out) && Flat(Parts(out)) == old(Contents())
    {
      hide Parts, Flat;
      out := slices;
      slices := [];
      cache := None;
      PartsKept(out);
    }
  }

  /** A payload that is only written, beginning with f > 0 bytes: it holds all that was written, and k
    * slices imply f * 2^(k - 1) < f + its length. */
  method OnlyWrites(chunks: seq<seq<Byte>>) returns (w: Writer)
    requires chunks != [] && chunks[0] != []
    ensures fresh(w) && w.Valid() && w.slices != [] && w.Contents() == Flat(chunks)
    ensures Room(|chunks[0]|, |w.slices| - 1) < |chunks[0]| + |Flat(chunks)|
  {
    hide Parts, Doubling, Bufs, Lens, Flat, Room;
    w := new Writer.FromBytes([]);
    EmptyContents(w);
    var i := 0;
    while i < |chunks|
      invariant i <= |chunks| && w.Valid() && fresh(w) && fresh(w.CacheBuf())
      invariant w.Contents() == Flat(chunks[..i])
      invariant i == 0 ==> w.cache == None && w.slices == []
      invariant i > 0 ==> w.cache.Some? && w.first == 0 && w.begun == |chunks[0]|
    {
      FlatSnoc(chunks[..i], chunks[i]);
      assert chunks[..i + 1] == chunks[..i] + [chunks[i]];
      var ok := w.WriteAll(chunks[i]);
      i := i + 1;
    }
    assert chunks[..i] == chunks;
    w.FewWrites();
  }

  lemma EmptyContents(w: Writer)
    requires w.slices == [] && AllFit(w.slices)
    ensures w.Contents() == Flat([])
  {
    assert Parts(w.slices) == [];
  }

  /** A writer whose first write is empty accepts it, and then refuses every byte. */
  method EmptyFirstWrite(b: Byte) returns (empty: bool, one: bool)
    ensures empty && !one
  {
    var w := new Writer.FromBytes([]);
    empty := w.WriteAll([]);
    one := w.WriteAll([b]);
  }
}

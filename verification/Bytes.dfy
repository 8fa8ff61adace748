/** Payloads kept as a list of slices, and what they mean as one byte string. */
module SliceBytes {
  import opened Common

  newtype Byte = x: int | 0 <= x < 256

  ghost function Flat(parts: seq<seq<Byte>>): seq<Byte> {
    if parts == [] then [] else Flat(parts[..|parts| - 1]) + parts[|parts| - 1]
  }

  lemma FlatSnoc(parts: seq<seq<Byte>>, part: seq<Byte>)
    ensures Flat(parts + [part]) == Flat(parts) + part
  {
    assert (parts + [part])[..|parts|] == parts;
  }

  lemma {:induction false} FlatConcat(a: seq<seq<Byte>>, b: seq<seq<Byte>>)
    ensures Flat(a + b) == Flat(a) + Flat(b)
  {
    if b == [] {
      assert a + b == a;
    } else {
      var n := |b| - 1;
      hide Flat;
      FlatConcat(a, b[..n]);
      assert a + b == (a + b[..n]) + [b[n]] && b == b[..n] + [b[n]];
      FlatSnoc(a + b[..n], b[n]);
      FlatSnoc(b[..n], b[n]);
    }
  }

  /** The flat position at which slice `i` begins. */
  ghost function StartOf(parts: seq<seq<Byte>>, i: nat): nat
    requires i <= |parts|
  {
    |Flat(parts[..i])|
  }

  /** The flat string is what comes before a slice, the slice, and what comes after it. */
  lemma SliceSplits(parts: seq<seq<Byte>>, i: nat)
    requires i < |parts|
    ensures Flat(parts) == Flat(parts[..i]) + parts[i] + Flat(parts[i + 1..])
    ensures StartOf(parts, i + 1) == StartOf(parts, i) + |parts[i]| <= |Flat(parts)|
  {
    assert parts == parts[..i + 1] + parts[i + 1..];
    assert parts[..i + 1] == parts[..i] + [parts[i]];
    FlatSnoc(parts[..i], parts[i]);
    FlatConcat(parts[..i + 1], parts[i + 1..]);
  }

  lemma NextStart(parts: seq<seq<Byte>>, i: nat)
    requires i < |parts|
    ensures StartOf(parts, i + 1) == StartOf(parts, i) + |parts[i]| <= |Flat(parts)|
  {
    SliceSplits(parts, i);
  }

  lemma StartsInside(parts: seq<seq<Byte>>, i: nat)
    requires i <= |parts|
    ensures StartOf(parts, i) <= |Flat(parts)| && StartOf(parts, 0) == 0 && StartOf(parts, |parts|) == |Flat(parts)|
  {
    assert parts == parts[..i] + parts[i..] && parts[..|parts|] == parts;
    FlatConcat(parts[..i], parts[i..]);
  }

  /** A piece of a slice is a piece of the flat string. */
  lemma PieceOf(parts: seq<seq<Byte>>, i: nat, lo: nat, hi: nat)
    requires i < |parts| && lo <= hi <= |parts[i]|
    ensures StartOf(parts, i) + hi <= |Flat(parts)|
    ensures Flat(parts)[StartOf(parts, i) + lo..StartOf(parts, i) + hi] == parts[i][lo..hi]
  {
    SliceSplits(parts, i);
  }

  function Confine(x: int, hi: nat): nat {
    if x < 0 then 0 else if x > hi then hi else x
  }

  method Length(parts: seq<seq<Byte>>) returns (len: nat)
    ensures len == |Flat(parts)|
  {
    len := 0;
    var i := 0;
    StartsInside(parts, 0);
    while i < |parts|
      invariant i <= |parts| && len == StartOf(parts, i)
    {
      NextStart(parts, i);
      len := len + |parts[i]|;
      i := i + 1;
    }
    StartsInside(parts, i);
  }

  ghost function Image(buf: array<Byte>): (s: seq<Byte>)
    reads buf
    ensures |s| == buf.Length
  {
    buf[..]
  }

  /** A buffer that held `was` now begins with `got`. */
  ghost predicate Holds(now: seq<Byte>, was: seq<Byte>, got: seq<Byte>) {
    |got| <= |was| && now == got + was[|got|..]
  }

  lemma HoldsMore(now: seq<Byte>, next: seq<Byte>, was: seq<Byte>, got: seq<Byte>, piece: seq<Byte>)
    requires Holds(now, was, got) && |got| + |piece| <= |was|
    requires next == now[..|got|] + piece + now[|got| + |piece|..]
    ensures Holds(next, was, got + piece)
  {
    assert now[..|got|] == got && now[|got| + |piece|..] == was[|got| + |piece|..];
  }

  /** Copies `n` bytes of a slice behind what the buffer already got. */
  method CopyPiece(buf: array<Byte>, at: nat, part: seq<Byte>, lo: nat, n: nat, ghost was: seq<Byte>,
                   ghost got: seq<Byte>)
    requires at == |got| && at + n <= buf.Length == |was| && lo + n <= |part| && Holds(Image(buf), was, got)
    modifies buf
    ensures Holds(Image(buf), was, got + part[lo..lo + n])
  {
    ghost var now := Image(buf);
    forall k | 0 <= k < n {
      buf[at + k] := part[lo + k];
    }
    assert Image(buf) == now[..at] + part[lo..lo + n] + now[at + n..];
    HoldsMore(now, Image(buf), was, got, part[lo..lo + n]);
  }

  /** The payload between two flat positions. */
  ghost function Between(parts: seq<seq<Byte>>, from: nat, to: nat): (s: seq<Byte>)
    requires from <= to <= |Flat(parts)|
    ensures |s| == to - from
  {
    Flat(parts)[from..to]
  }

  lemma PieceJoins(parts: seq<seq<Byte>>, from: nat, i: nat, lo: nat, hi: nat)
    requires i < |parts| && lo <= hi <= |parts[i]| && from <= StartOf(parts, i) + lo
    ensures StartOf(parts, i) + hi <= |Flat(parts)|
    ensures Between(parts, from, StartOf(parts, i) + hi) ==
            Between(parts, from, StartOf(parts, i) + lo) + parts[i][lo..hi]
  {
    hide Flat;
    PieceOf(parts, i, lo, hi);
  }

  lemma NothingGot(parts: seq<seq<Byte>>, was: seq<Byte>)
    ensures StartOf(parts, 0) == 0 && Holds(was, was, Between(parts, 0, 0))
  {
  }

  lemma NothingBetween(parts: seq<seq<Byte>>, from: nat)
    requires from <= |Flat(parts)|
    ensures Flat([]) == [] == Between(parts, from, from)
  {
  }

  /** Copies at most `len` bytes of the payload to a buffer. */
  method ToBuf(parts: seq<seq<Byte>>, dst: array<Byte>, len: nat) returns (copied: nat)
    requires len <= dst.Length
    modifies dst
    ensures copied == Min(len, |Flat(parts)|)
    ensures Holds(Image(dst), old(Image(dst)), Between(parts, 0, copied))
  {
    hide Holds, Between, Flat, Image, StartOf;
    var start: nat, remaining: nat := 0, len;
    var i := 0;
    ghost var was := Image(dst);
    NothingGot(parts, was);
    while i < |parts| && remaining > 0
      invariant i <= |parts| && start + remaining == len
      invariant start <= StartOf(parts, i) <= |Flat(parts)| && (remaining > 0 ==> start == StartOf(parts, i))
      invariant Holds(Image(dst), was, Between(parts, 0, start))
    {
      var toCopy := Min(remaining, |parts[i]|);
      CopyStart(parts, dst, i, start, toCopy, was);
      start, remaining := start + toCopy, remaining - toCopy;
      i := i + 1;
    }
    StartsInside(parts, i);
    copied := len - remaining;
  }

  /** Copies the start of slice `i` behind all the slices before it. */
  method CopyStart(parts: seq<seq<Byte>>, dst: array<Byte>, i: nat, start: nat, n: nat, ghost was: seq<Byte>)
    requires i < |parts| && n <= |parts[i]| && start == StartOf(parts, i) && start + n <= dst.Length == |was|
    requires start <= |Flat(parts)| && Holds(Image(dst), was, Between(parts, 0, start))
    modifies dst
    ensures start + n <= StartOf(parts, i + 1) <= |Flat(parts)|
    ensures n == |parts[i]| ==> start + n == StartOf(parts, i + 1)
    ensures Holds(Image(dst), was, Between(parts, 0, start + n))
  {
    NextStart(parts, i);
    PieceJoins(parts, 0, i, 0, n);
    hide *;
    CopyPiece(dst, start, parts[i], 0, n, was, Between(parts, 0, start));
  }
}

/** A cursor over a payload. */
module BytesReader {
  import opened Common
  import opened SliceBytes

  datatype Origin = FromStart | FromCurrent | FromEnd | Unknown

  class Reader {
    const parts: seq<seq<Byte>>
    var sliceIdx: nat
    var inSliceIdx: nat
    var byteIdx: nat

    /** The flat position is the sum of the earlier slices plus the position in the slice. */
    ghost predicate Valid()
      reads this
    {
      && sliceIdx <= |parts|
      && inSliceIdx <= (if sliceIdx < |parts| then |parts[sliceIdx]| else 0)
      && byteIdx == StartOf(parts, sliceIdx) + inSliceIdx <= |Flat(parts)|
    }

    constructor (parts: seq<seq<Byte>>)
      ensures Valid() && this.parts == parts && byteIdx == 0
    {
      this.parts := parts;
      sliceIdx, inSliceIdx, byteIdx := 0, 0, 0;
      new;
      StartsInside(parts, 0);
    }

    function Tell(): nat
      reads this
    {
      byteIdx
    }

    ghost function Total(): nat {
      |Flat(parts)|
    }

    /** Moves the cursor on by `n` bytes of the current slice, to the next slice if they are its last. */
    method Advance(n: nat, next: bool)
      requires Valid() && sliceIdx < |parts| && inSliceIdx + n <= |parts[sliceIdx]|
      requires next ==> inSliceIdx + n == |parts[sliceIdx]|
      modifies this
      ensures Valid() && byteIdx == old(byteIdx) + n
      ensures sliceIdx == old(sliceIdx) + if next then 1 else 0
    {
      NextStart(parts, sliceIdx);
      byteIdx := byteIdx + n;
      if next {
        sliceIdx, inSliceIdx := sliceIdx + 1, 0;
      } else {
        inSliceIdx := inSliceIdx + n;
      }
    }

    method SeekForward(offset: nat) returns (ok: bool)
      requires Valid()
      modifies this
      ensures Valid() && byteIdx == Confine(old(byteIdx) + offset, Total())
      ensures ok <==> old(byteIdx) + offset <= Total()
    {
      hide Flat;
      var left: nat := offset;
      StartsInside(parts, sliceIdx);
      while sliceIdx < |parts|
        invariant Valid() && byteIdx + left == old(byteIdx) + offset
        invariant sliceIdx == |parts| ==> byteIdx == Total()
        decreases |parts| - sliceIdx
      {
        var remaining := |parts[sliceIdx]| - inSliceIdx;
        if left >= remaining {
          Advance(remaining, true);
          left := left - remaining;
        } else {
          Advance(left, false);
          left := 0;
        }
        StartsInside(parts, sliceIdx);
        if left == 0 {
          break;
        }
      }
      ok := left == 0;
    }

    method SeekBackward(offset: nat) returns (ok: bool)
      requires Valid()
      modifies this
      ensures Valid() && byteIdx == Confine(old(byteIdx) - offset, Total())
      ensures ok <==> offset <= old(byteIdx)
    {
      hide Flat;
      var left: nat := offset;
      while left != 0
        invariant Valid() && byteIdx - left == old(byteIdx) - offset
        decreases left, sliceIdx, inSliceIdx
      {
        if inSliceIdx == 0 {
          if sliceIdx == 0 {
            StartsInside(parts, 0);
            return false;
          }
          NextStart(parts, sliceIdx - 1);
          sliceIdx := sliceIdx - 1;
          inSliceIdx := |parts[sliceIdx]|;
        }
        if left > inSliceIdx {
          left := left - inSliceIdx;
          byteIdx := byteIdx - inSliceIdx;
          inSliceIdx := 0;
        } else {
          byteIdx := byteIdx - left;
          inSliceIdx := inSliceIdx - left;
          left := 0;
        }
      }
      ok := true;
    }

    /** The flat position a seek asks for. */
    ghost function Target(offset: int, origin: Origin): int
      reads this
    {
      match origin
      case FromStart => offset
      case FromCurrent => byteIdx + offset
      case FromEnd => Total() + offset
      case Unknown => byteIdx
    }

    /** A seek succeeds exactly inside the payload; otherwise the cursor stops at the nearer end. */
    method Seek(offset: int, origin: Origin) returns (ok: bool)
      requires Valid()
      modifies this
      ensures Valid() && byteIdx == Confine(old(Target(offset, origin)), Total())
      ensures ok <==> origin != Unknown && 0 <= old(Target(offset, origin)) <= Total()
    {
      match origin {
        case FromStart =>
          byteIdx, inSliceIdx, sliceIdx := 0, 0, 0;
          StartsInside(parts, 0);
          if offset < 0 {
            return false;
          }
          ok := SeekForward(offset);
        case FromCurrent =>
          if offset >= 0 {
            ok := SeekForward(offset);
          } else {
            ok := SeekBackward(-offset);
          }
        case FromEnd =>
          StartsInside(parts, 0);
          byteIdx := Length(parts);
          inSliceIdx, sliceIdx := 0, |parts|;
          if offset > 0 {
            return false;
          }
          ok := SeekBackward(-offset);
        case Unknown =>
          ok := false;
      }
    }

    /** Copies `n` bytes of the current slice and moves the cursor past them. */
    method CopyNext(buf: array<Byte>, at: nat, n: nat, next: bool, ghost from: nat, ghost was: seq<Byte>)
      requires Valid() && sliceIdx < |parts| && inSliceIdx + n <= |parts[sliceIdx]|
      requires next ==> inSliceIdx + n == |parts[sliceIdx]|
      requires at + n <= buf.Length == |was| && from + at == byteIdx
      requires Holds(Image(buf), was, Between(parts, from, byteIdx))
      modifies this, buf
      ensures Valid() && byteIdx == old(byteIdx) + n
      ensures sliceIdx == old(sliceIdx) + if next then 1 else 0
      ensures Holds(Image(buf), was, Between(parts, from, byteIdx))
    {
      PieceJoins(parts, from, sliceIdx, inSliceIdx, inSliceIdx + n);
      hide Holds, Between, Image, StartOf, Flat;
      CopyPiece(buf, at, parts[sliceIdx], inSliceIdx, n, was, Between(parts, from, byteIdx));
      Advance(n, next);
    }

    /** Copies the next `len` bytes, or all that are left. */
    method Read(buf: array<Byte>, len: nat) returns (count: nat)
      requires Valid() && len <= buf.Length
      modifies this, buf
      ensures Valid() && count == Min(len, Total() - old(byteIdx)) && byteIdx == old(byteIdx) + count
      ensures Holds(Image(buf), old(Image(buf)), Between(parts, old(byteIdx), byteIdx))
    {
      hide Flat;
      var at: nat, left: nat := 0, len;
      ghost var from, was := byteIdx, Image(buf);
      StartsInside(parts, sliceIdx);
      assert Holds(was, was, Between(parts, from, from));
      hide Holds, Between, Image, StartOf;
      while sliceIdx < |parts|
        invariant Valid() && at + left == len && byteIdx == from + at
        invariant sliceIdx == |parts| ==> byteIdx == Total()
        invariant Holds(Image(buf), was, Between(parts, from, byteIdx))
        decreases |parts| - sliceIdx
      {
        var remaining := |parts[sliceIdx]| - inSliceIdx;
        var next := left >= remaining;
        var n := if next then remaining else left;
        CopyNext(buf, at, n, next, from, was);
        at, left := at + n, left - n;
        StartsInside(parts, sliceIdx);
        if left == 0 {
          break;
        }
      }
      count := len - left;
    }

    /** The next `len` bytes as slices of the payload, or an error that leaves the cursor at the end. */
    method ReadSlices(len: nat) returns (out: seq<seq<Byte>>, ok: bool)
      requires Valid()
      modifies this
      ensures Valid() && byteIdx == Confine(old(byteIdx) + len, Total())
      ensures ok <==> old(byteIdx) + len <= Total()
      ensures Flat(out) == if ok then Between(parts, old(byteIdx), byteIdx) else []
    {
      hide Flat, StartOf, Between;
      out := [];
      var left: nat := len;
      ghost var from := byteIdx;
      NothingBetween(parts, from);
      StartsInside(parts, sliceIdx);
      while sliceIdx < |parts| && left > 0
        invariant Valid() && byteIdx + left == from + len
        invariant sliceIdx == |parts| ==> byteIdx == Total()
        invariant from <= byteIdx && Flat(out) == Between(parts, from, byteIdx)
        decreases |parts| - sliceIdx, left
      {
        var part := parts[sliceIdx];
        var n := Min(|part| - inSliceIdx, left);
        FlatSnoc(out, part[inSliceIdx..inSliceIdx + n]);
        PieceJoins(parts, from, sliceIdx, inSliceIdx, inSliceIdx + n);
        out := out + [part[inSliceIdx..inSliceIdx + n]];
        Advance(n, inSliceIdx + n == |part|);
        left := left - n;
        StartsInside(parts, sliceIdx);
      }
      ok := left == 0;
      if !ok {
        out := [];
      }
    }

    method Remaining() returns (n: nat)
      requires Valid()
      ensures n == Total() - byteIdx
    {
      n := Length(parts);
      n := n - byteIdx;
    }
  }
}

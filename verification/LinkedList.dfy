/** Singly linked lists: pointer loops that relink cells in place. */
module LinkedList {
  import opened Sequences

  class Cell<T> {
    const val: T
    var next: Cell?<T>

    constructor (val: T, next: Cell?<T>)
      ensures this.val == val && this.next == next
    {
      this.val, this.next := val, next;
    }
  }

  ghost function At<T>(cells: seq<Cell<T>>, i: int): Cell?<T> {
    if 0 <= i < |cells| then cells[i] else null
  }

  ghost predicate Joined<T>(cells: seq<Cell<T>>, i: nat)
    requires i < |cells|
    reads cells[i]
  {
    cells[i].next == At(cells, i + 1)
  }

  /** The list that starts at `head` consists of exactly these cells. */
  ghost predicate Linked<T>(cells: seq<Cell<T>>, head: Cell?<T>)
    reads cells
  {
    head == At(cells, 0) && Distinct(cells) && forall i :: 0 <= i < |cells| ==> Joined(cells, i)
  }

  ghost function Vals<T>(cells: seq<Cell<T>>): (vals: seq<T>)
    ensures |vals| == |cells| && forall i :: 0 <= i < |cells| ==> vals[i] == cells[i].val
  {
    seq(|cells|, i requires 0 <= i < |cells| => cells[i].val)
  }

  lemma TailLinked<T>(cells: seq<Cell<T>>, head: Cell?<T>)
    requires Linked(cells, head) && cells != []
    ensures head == cells[0] && Linked(cells[1..], head.next)
  {
    assert Joined(cells, 0);
    forall i | 0 <= i < |cells| - 1
      ensures Joined(cells[1..], i)
    {
      assert Joined(cells, i + 1);
    }
  }

  method Push<T>(xs: Cell?<T>, x: T, ghost cells: seq<Cell<T>>) returns (head: Cell<T>)
    requires Linked(cells, xs)
    ensures fresh(head) && head.val == x && Linked([head] + cells, head)
  {
    head := new Cell(x, xs);
    forall i | 0 <= i < |cells| + 1
      ensures Joined([head] + cells, i)
    {
      if i > 0 {
        assert Joined(cells, i - 1);
      }
    }
  }

  method Len<T>(xs: Cell?<T>, ghost cells: seq<Cell<T>>) returns (len: nat)
    requires Linked(cells, xs)
    ensures len == |cells|
  {
    len := 0;
    var l := xs;
    while l != null
      invariant len <= |cells| && Linked(cells[len..], l)
      decreases |cells| - len
    {
      TailLinked(cells[len..], l);
      assert cells[len..][1..] == cells[len + 1..];
      len := len + 1;
      l := l.next;
    }
  }

  /** The first cell whose value matches. */
  method Find<T>(xs: Cell?<T>, matches: T -> bool, ghost cells: seq<Cell<T>>) returns (found: Cell?<T>, ghost at: nat)
    requires Linked(cells, xs)
    ensures at == FirstMatch(Vals(cells), matches)
    ensures found == At(cells, at)
  {
    at := 0;
    var l := xs;
    while l != null
      invariant at <= |cells| && Linked(cells[at..], l)
      invariant FirstMatch(Vals(cells), matches) == at + FirstMatch(Vals(cells[at..]), matches)
      decreases |cells| - at
    {
      TailLinked(cells[at..], l);
      assert Vals(cells[at..])[1..] == Vals(cells[at + 1..]);
      if matches(l.val) {
        return l, at;
      }
      assert cells[at..][1..] == cells[at + 1..];
      at := at + 1;
      l := l.next;
    }
    found := null;
  }

  // Sequences of cells are joined and taken apart by name, to keep the proofs of the loops small.

  ghost function Join<T>(a: seq<Cell<T>>, b: seq<Cell<T>>): seq<Cell<T>> {
    a + b
  }

  ghost function Snoc<T>(a: seq<Cell<T>>, c: Cell<T>): seq<Cell<T>> {
    a + [c]
  }

  ghost function After<T>(a: seq<Cell<T>>): (r: seq<Cell<T>>)
    requires a != []
    ensures |r| < |a|
  {
    a[1..]
  }

  ghost function Last<T>(a: seq<Cell<T>>): Cell?<T> {
    At(a, |a| - 1)
  }

  ghost predicate Among<T>(some: seq<Cell<T>>, cells: seq<Cell<T>>) {
    forall c :: c in some ==> c in cells
  }

  ghost predicate Apart<T>(a: seq<Cell<T>>, b: seq<Cell<T>>) {
    forall c :: c in a ==> c !in b
  }

  lemma ValsConcat<T>(a: seq<Cell<T>>, b: seq<Cell<T>>)
    ensures Vals(a + b) == Vals(a) + Vals(b)
  {
  }

  lemma ValsSplit<T>(c: Cell<T>, cells: seq<Cell<T>>)
    ensures Vals([c] + cells) == [c.val] + Vals(cells) && Vals([c]) == [c.val]
  {
  }

  lemma StartsAt<T>(cells: seq<Cell<T>>, head: Cell?<T>)
    requires head == At(cells, 0)
    ensures head == null <==> cells == []
    ensures head != null ==> head in cells
  {
  }

  lemma LastIn<T>(a: seq<Cell<T>>)
    ensures Last(a) == null <==> a == []
    ensures Last(a) != null ==> Last(a) in a
  {
  }

  lemma LastSnoc<T>(a: seq<Cell<T>>, c: Cell<T>)
    ensures Last(Snoc(a, c)) == c
  {
  }

  // ----- What the filters compute -----

  /** `mine` and `out` are the split of what came before `rest`. */
  ghost predicate Progress<T>(all: seq<T>, mine: seq<Cell<T>>, out: seq<Cell<T>>, rest: seq<Cell<T>>,
                              matches: T -> bool, onlyFirst: bool) {
    && Dropped(all, matches, onlyFirst) == Vals(mine) + Dropped(Vals(rest), matches, onlyFirst)
    && Taken(all, matches, onlyFirst) == Vals(out) + Taken(Vals(rest), matches, onlyFirst)
  }

  ghost predicate Finished<T>(all: seq<T>, mine: seq<Cell<T>>, out: seq<Cell<T>>, matches: T -> bool, onlyFirst: bool) {
    Vals(mine) == Dropped(all, matches, onlyFirst) && Vals(out) == Taken(all, matches, onlyFirst)
  }

  lemma ProgressStarts<T>(cells: seq<Cell<T>>, matches: T -> bool, onlyFirst: bool)
    ensures Progress(Vals(cells), [], [], cells, matches, onlyFirst)
  {
  }

  lemma ProgressStep<T>(all: seq<T>, mine: seq<Cell<T>>, out: seq<Cell<T>>, rest: seq<Cell<T>>,
                        matches: T -> bool, onlyFirst: bool, c: Cell<T>)
    requires Progress(all, mine, out, rest, matches, onlyFirst) && rest != [] && c == rest[0]
    ensures if !matches(c.val) then Progress(all, Snoc(mine, c), out, After(rest), matches, onlyFirst)
            else if onlyFirst then Finished(all, Join(mine, After(rest)), Snoc(out, c), matches, onlyFirst)
            else Progress(all, mine, Snoc(out, c), After(rest), matches, onlyFirst)
  {
    hide Vals;
    var after := After(rest);
    assert rest == [c] + after;
    ValsSplit(c, after);
    ValsConcat(mine, [c]);
    ValsConcat(out, [c]);
    ValsConcat(mine, after);
    hide Dropped, Taken;
    DropOne(Vals(mine), c.val, Vals(after), matches, onlyFirst);
    TakeOne(Vals(out), c.val, Vals(after), matches, onlyFirst);
  }

  lemma ProgressEnds<T>(all: seq<T>, mine: seq<Cell<T>>, out: seq<Cell<T>>, matches: T -> bool, onlyFirst: bool)
    requires Progress(all, mine, out, [], matches, onlyFirst)
    ensures Finished(all, mine, out, matches, onlyFirst)
  {
  }

  lemma DropOne<T>(kept: seq<T>, x: T, after: seq<T>, matches: T -> bool, onlyFirst: bool)
    ensures kept + Dropped([x] + after, matches, onlyFirst) ==
            if !matches(x) then (kept + [x]) + Dropped(after, matches, onlyFirst)
            else if onlyFirst then kept + after
            else kept + Dropped(after, matches, onlyFirst)
  {
    assert ([x] + after)[1..] == after;
  }

  lemma TakeOne<T>(out: seq<T>, x: T, after: seq<T>, matches: T -> bool, onlyFirst: bool)
    ensures out + Taken([x] + after, matches, onlyFirst) ==
            if !matches(x) then out + Taken(after, matches, onlyFirst)
            else if onlyFirst then out + [x]
            else (out + [x]) + Taken(after, matches, onlyFirst)
  {
    assert ([x] + after)[1..] == after;
  }

  // ----- Taking cells out in place -----

  /** Takes `this_` out of the list; `previous` is the cell before it, if there is one. */
  method Unlink<T>(l: Cell<T>, previous: Cell?<T>, this_: Cell<T>, ghost kept: seq<Cell<T>>, ghost rest: seq<Cell<T>>)
    returns (head: Cell?<T>)
    requires Linked(Join(kept, rest), l) && rest != [] && rest[0] == this_ && previous == Last(kept)
    modifies if previous != null then {previous} else {}
    ensures Linked(Join(kept, After(rest)), head)
  {
    hide Distinct;
    ghost var was, n, now := kept + rest, |kept|, kept + rest[1..];
    assert was[n] == this_ && was[..n] + was[n + 1..] == now;
    DistinctRemoved(was, n);
    LinkedNexts(was, l);
    hide Linked, At;
    if n > 0 {
      OthersDiffer(was, 0);
      OthersDiffer(was, n - 1);
    }
    head := l;
    if this_ == l {
      head := l.next;
    } else {
      previous.next := this_.next;
    }
    WithoutOne(was, n);
    assert Linked(now, head) by {
      JoinedIsLinked(was, n, head);
    }
  }

  lemma LinkedNexts<T>(cells: seq<Cell<T>>, head: Cell?<T>)
    requires Linked(cells, head)
    ensures head == At(cells, 0) && forall k :: 0 <= k < |cells| ==> cells[k].next == At(cells, k + 1)
  {
    forall k | 0 <= k < |cells|
      ensures cells[k].next == At(cells, k + 1)
    {
      assert Joined(cells, k);
    }
  }

  lemma OthersDiffer<T>(cells: seq<Cell<T>>, i: nat)
    requires Distinct(cells) && i < |cells|
    ensures forall k :: 0 <= k < |cells| && k != i ==> cells[k] != cells[i]
  {
  }

  lemma JoinedIsLinked<T>(was: seq<Cell<T>>, n: nat, head: Cell?<T>)
    requires n < |was| && head == (if n == 0 then At(was, 1) else was[0])
    requires var now := was[..n] + was[n + 1..];
             Distinct(now) && forall i :: 0 <= i < |now| ==> Joined(now, i)
    ensures Linked(was[..n] + was[n + 1..], head)
  {
  }

  lemma WithoutOne<T>(was: seq<Cell<T>>, n: nat)
    requires n < |was| && (n > 0 ==> was[n - 1].next == At(was, n + 1))
    requires forall k :: 0 <= k < |was| && k != n - 1 ==> was[k].next == At(was, k + 1)
    ensures var now := was[..n] + was[n + 1..];
            forall i :: 0 <= i < |now| ==> Joined(now, i)
  {
    var now := was[..n] + was[n + 1..];
    forall i | 0 <= i < |now|
      ensures Joined(now, i)
    {
      var k := if i < n then i else i + 1;
      assert now[i] == was[k];
      assert At(now, i + 1) == if k + 1 == n then At(was, n + 1) else At(was, k + 1);
    }
  }

  /** The cells that are still in the list and the one that is looked at. */
  lemma WalkFacts<T>(kept: seq<Cell<T>>, rest: seq<Cell<T>>, head: Cell?<T>, cells: seq<Cell<T>>, c: Cell<T>)
    requires Linked(Join(kept, rest), head) && Among(Join(kept, rest), cells) && c == At(rest, 0)
    ensures rest != [] && c == rest[0] && c.next == At(After(rest), 0) && head != null
    ensures Join(Snoc(kept, c), After(rest)) == Join(kept, rest)
    ensures Among(Join(kept, After(rest)), cells) && (Last(kept) != null ==> Last(kept) in cells)
  {
    assert Joined(kept + rest, |kept|);
    assert rest == [c] + rest[1..];
    assert kept != [] ==> kept[|kept| - 1] in kept + rest;
    assert forall x :: x in kept + rest[1..] ==> x in kept + rest;
  }

  lemma WalkStarts<T>(cells: seq<Cell<T>>, head: Cell?<T>)
    requires Linked(cells, head)
    ensures Join([], cells) == cells && Among(cells, cells) && head == At(cells, 0) && Last<T>([]) == null
  {
  }

  lemma JoinNothing<T>(a: seq<Cell<T>>)
    ensures Join(a, []) == a
  {
  }

  /** Takes the matching cells, or the first of them, out of the list. */
  method DropFilter<T>(xs: Cell?<T>, matches: T -> bool, onlyFirst: bool, ghost cells: seq<Cell<T>>)
    returns (head: Cell?<T>, ghost left: seq<Cell<T>>, ghost gone: seq<Cell<T>>)
    requires Linked(cells, xs)
    modifies cells
    ensures Linked(left, head) && Among(left, cells)
    ensures Finished(Vals(cells), left, gone, matches, onlyFirst)
  {
    hide *;
    head := xs;
    var previous: Cell?<T>, current := null, xs;
    gone := [];
    ghost var kept: seq<Cell<T>> := [];
    ghost var rest, all := cells, Vals(cells);
    ProgressStarts(cells, matches, onlyFirst);
    WalkStarts(cells, xs);
    while current != null
      invariant Linked(Join(kept, rest), head) && Among(Join(kept, rest), cells)
      invariant current == At(rest, 0) && previous == Last(kept)
      invariant Progress(all, kept, gone, rest, matches, onlyFirst)
      decreases |rest|
    {
      var this_: Cell<T> := current;
      WalkFacts(kept, rest, head, cells, this_);
      ProgressStep(all, kept, gone, rest, matches, onlyFirst, this_);
      current := current.next;
      if matches(this_.val) {
        head := Unlink(head, previous, this_, kept, rest);
        gone := Snoc(gone, this_);
        if onlyFirst {
          left := Join(kept, After(rest));
          return;
        }
      } else {
        LastSnoc(kept, this_);
        kept := Snoc(kept, this_);
        previous := this_;
      }
      rest := After(rest);
    }
    StartsAt(rest, null);
    JoinNothing(kept);
    left := kept;
    ProgressEnds(all, kept, gone, matches, onlyFirst);
  }

  // ----- Splitting in place -----

  lemma DistinctConcat<T>(a: seq<Cell<T>>, b: seq<Cell<T>>)
    requires Distinct(a) && Distinct(b) && Apart(a, b)
    ensures Distinct(a + b)
  {
    forall i, j | 0 <= i < j < |a + b|
      ensures (a + b)[i] != (a + b)[j]
    {
      if i < |a| <= j {
        assert a[i] in a && b[j - |a|] in b;
      }
    }
  }

  /** Hangs a list behind the last cell of another. */
  method Splice<T>(xs: Cell?<T>, tail: Cell?<T>, ys: Cell?<T>, ghost a: seq<Cell<T>>, ghost b: seq<Cell<T>>)
    returns (head: Cell?<T>)
    requires Linked(a, xs) && Linked(b, ys) && Apart(a, b) && tail == Last(a)
    modifies if tail != null then {tail} else {}
    ensures Linked(Join(a, b), head)
  {
    hide Distinct;
    DistinctConcat(a, b);
    if tail == null {
      head := ys;
      assert a + b == b;
    } else {
      head := xs;
      tail.next := ys;
      forall i | 0 <= i < |a + b|
        ensures Joined(a + b, i)
      {
        if i < |a| {
          assert old(Joined(a, i));
          if i < |a| - 1 {
            Differ(a, i, |a| - 1);
          }
        } else {
          assert old(Joined(b, i - |a|)) && b[i - |a|] in b;
        }
      }
    }
  }

  /** Cuts the first cell off a list. */
  method Cut<T>(c: Cell<T>, ghost rest: seq<Cell<T>>) returns (next: Cell?<T>)
    requires Linked(rest, c)
    modifies c
    ensures Linked([c], c) && rest != [] && Linked(After(rest), next)
  {
    hide Distinct;
    TailLinked(rest, c);
    DistinctRemoved(rest, 0);
    assert rest[..0] + rest[1..] == rest[1..] && rest[0] == c;
    next := c.next;
    c.next := null;
    DistinctCons(c, []);
    assert [c] + [] == [c];
  }

  /** Moves a cell behind the last cell of a list. */
  method Hang<T>(xs: Cell?<T>, tail: Cell?<T>, c: Cell<T>, ghost a: seq<Cell<T>>) returns (head: Cell?<T>)
    requires Linked(a, xs) && Linked([c], c) && c !in a && tail == Last(a)
    modifies if tail != null then {tail} else {}
    ensures Linked(Snoc(a, c), head)
  {
    assert Join(a, [c]) == Snoc(a, c);
    head := Splice(xs, tail, c, a, [c]);
  }

  /** Three lists of cells of one list, none in two of them. */
  ghost predicate Parted<T>(mine: seq<Cell<T>>, out: seq<Cell<T>>, rest: seq<Cell<T>>, cells: seq<Cell<T>>) {
    && Apart(mine, out) && Apart(mine, rest) && Apart(out, rest)
    && Among(mine, cells) && Among(out, cells) && Among(rest, cells)
  }

  /** What one step of the split moves where. */
  lemma SplitFacts<T>(mine: seq<Cell<T>>, out: seq<Cell<T>>, rest: seq<Cell<T>>, c: Cell<T>, cells: seq<Cell<T>>)
    requires Linked(rest, c) && Parted(mine, out, rest, cells)
    ensures rest != [] && rest[0] == c && c in cells && c !in mine && c !in out && c !in After(rest)
    ensures Parted(mine, Snoc(out, c), After(rest), cells) && Parted(Snoc(mine, c), out, After(rest), cells)
    ensures Last(mine) != null ==> Last(mine) in mine && Last(mine) !in out && Last(mine) in cells
    ensures forall x :: x in After(rest) ==> x in cells && x != Last(mine) && x != Last(out)
    ensures forall x :: x in Snoc(out, c) ==> x in cells && x != Last(mine)
    ensures Last(out) != null ==> Last(out) in out && Last(out) !in mine && Last(out) in cells
  {
    assert rest == [c] + rest[1..] && c in rest;
    DistinctRemoved(rest, 0);
    assert rest[..0] + rest[1..] == rest[1..];
    assert forall x :: x in rest[1..] ==> x in rest;
    AddOne(mine, out, rest[1..], c);
    AddOne(out, mine, rest[1..], c);
    assert Among(mine + [c], cells) && Among(out + [c], cells) && Among(rest[1..], cells);
    LastIn(mine);
    LastIn(out);
  }

  lemma AddOne<T>(a: seq<Cell<T>>, b: seq<Cell<T>>, rest: seq<Cell<T>>, c: Cell<T>)
    requires Apart(a, b) && Apart(a, rest) && c !in a && c !in b && c !in rest
    ensures Apart(a + [c], b) && Apart(b, a + [c]) && Apart(a + [c], rest)
  {
  }

  lemma SplitStarts<T>(cells: seq<Cell<T>>, head: Cell?<T>)
    requires Linked(cells, head)
    ensures Parted([], [], cells, cells) && Linked<T>([], null) && Last<T>([]) == null
    ensures head == null <==> cells == []
  {
  }

  lemma SplitEnds<T>(mine: seq<Cell<T>>, out: seq<Cell<T>>, rest: seq<Cell<T>>, cells: seq<Cell<T>>)
    requires Parted(mine, out, rest, cells)
    ensures Apart(mine, rest) && Apart(Join(mine, rest), out) && Among(Join(mine, rest), cells) && Among(out, cells)
  {
    assert forall c :: c in mine + rest ==> c in mine || c in rest;
  }

  /** Splits the list into the cells that do not match and those, or the first one, that do; both parts
    * keep their order, and no cell is lost or made. */
  method ExtractFilter<T>(head: Cell?<T>, matches: T -> bool, onlyFirst: bool, ghost cells: seq<Cell<T>>)
    returns (left: Cell?<T>, extracted: Cell?<T>, ghost mine: seq<Cell<T>>, ghost out: seq<Cell<T>>)
    requires Linked(cells, head)
    modifies cells
    ensures Linked(mine, left) && Linked(out, extracted)
    ensures Apart(mine, out) && Among(mine, cells) && Among(out, cells)
    ensures Finished(Vals(cells), mine, out, matches, onlyFirst)
  {
    hide *;
    left, extracted := null, null;
    var leftTail: Cell?<T>, extractedTail: Cell?<T> := null, null;
    var current := head;
    mine, out := [], [];
    ghost var rest, all := cells, Vals(cells);
    ProgressStarts(cells, matches, onlyFirst);
    SplitStarts(cells, head);
    while current != null
      invariant Linked(mine, left) && Linked(out, extracted) && Linked(rest, current)
      invariant Parted(mine, out, rest, cells)
      invariant leftTail == Last(mine) && extractedTail == Last(out)
      invariant Progress(all, mine, out, rest, matches, onlyFirst)
      decreases |rest|
    {
      var this_: Cell<T> := current;
      SplitFacts(mine, out, rest, this_, cells);
      ProgressStep(all, mine, out, rest, matches, onlyFirst, this_);
      current := Cut(this_, rest);
      rest := After(rest);
      assert Linked(rest, current);
      if matches(this_.val) {
        extracted := Hang(extracted, extractedTail, this_, out);
        LastSnoc(out, this_);
        extractedTail := this_;
        out := Snoc(out, this_);
        if onlyFirst {
          SplitEnds(mine, out, rest, cells);
          assert Linked(out, extracted);
          left := Splice(left, leftTail, current, mine, rest);
          mine := Join(mine, rest);
          return;
        }
      } else {
        left := Hang(left, leftTail, this_, mine);
        LastSnoc(mine, this_);
        leftTail := this_;
        mine := Snoc(mine, this_);
      }
    }
    WalkStarts(rest, current);
    StartsAt(rest, current);
    SplitEnds(mine, out, rest, cells);
    JoinNothing(mine);
    ProgressEnds(all, mine, out, matches, onlyFirst);
  }

  // ----- Inserting in order -----

  /** Puts a new cell between two parts of a list. */
  method InsertAfter<T>(xs: Cell?<T>, previous: Cell?<T>, l: Cell?<T>, x: T, ghost kept: seq<Cell<T>>,
                        ghost rest: seq<Cell<T>>)
    returns (head: Cell<T>, ghost cell: Cell<T>)
    requires Linked(Join(kept, rest), xs) && previous == Last(kept) && l == At(rest, 0)
    modifies if previous != null then {previous} else {}
    ensures fresh(cell) && cell.val == x && Linked(Join(Snoc(kept, cell), rest), head)
  {
    hide Distinct;
    ghost var was, n := kept + rest, |kept|;
    assert was[..n] == kept && was[n..] == rest;
    LinkedNexts(was, xs);
    AtOf(was, n, rest, l);
    hide Linked, At;
    if n > 0 {
      OthersDiffer(was, n - 1);
    }
    var made := new Cell(x, l);
    cell := made;
    if previous == null {
      made.next := xs;
      head := made;
    } else {
      previous.next := made;
      head := xs;
    }
    ghost var now := kept + [cell] + rest;
    DistinctInserted(was, n, cell);
    WithOneMore(was, n, cell);
    GrownIsLinked(was, n, cell, head);
    assert Snoc(kept, cell) + rest == now;
  }

  lemma AtOf<T>(was: seq<Cell<T>>, n: nat, rest: seq<Cell<T>>, l: Cell?<T>)
    requires n <= |was| && was[n..] == rest && l == At(rest, 0)
    ensures l == At(was, n)
  {
  }

  lemma GrownIsLinked<T>(was: seq<Cell<T>>, n: nat, c: Cell<T>, head: Cell?<T>)
    requires n <= |was| && head == if n == 0 then c else was[0]
    requires var now := was[..n] + [c] + was[n..];
             Distinct(now) && forall i :: 0 <= i < |now| ==> Joined(now, i)
    ensures Linked(was[..n] + [c] + was[n..], head)
  {
  }

  lemma WithOneMore<T>(was: seq<Cell<T>>, n: nat, c: Cell<T>)
    requires n <= |was| && c.next == At(was, n) && (n > 0 ==> was[n - 1].next == c)
    requires forall k :: 0 <= k < |was| && k != n - 1 ==> was[k].next == At(was, k + 1)
    ensures var now := was[..n] + [c] + was[n..];
            forall i :: 0 <= i < |now| ==> Joined(now, i)
  {
    var now := was[..n] + [c] + was[n..];
    forall i | 0 <= i < |now|
      ensures Joined(now, i)
    {
      if i == n {
        assert At(now, n + 1) == At(was, n);
      } else {
        var k := if i < n then i else i - 1;
        assert now[i] == was[k];
        assert At(now, i + 1) == if k + 1 == n then c else At(was, k + 1);
      }
    }
  }

  lemma DistinctInserted<T>(s: seq<T>, n: nat, x: T)
    requires n <= |s| && Distinct(s) && x !in s
    ensures Distinct(s[..n] + [x] + s[n..])
  {
  }

  /** The values before `rest` are not greater than the new one. */
  ghost predicate Passed<T>(cells: seq<Cell<T>>, kept: seq<Cell<T>>, rest: seq<Cell<T>>, x: T, cmp: (T, T) -> int) {
    && cells == Join(kept, rest)
    && Inserted(Vals(cells), x, cmp) == Vals(kept) + Inserted(Vals(rest), x, cmp)
  }

  lemma PassOne<T>(cells: seq<Cell<T>>, kept: seq<Cell<T>>, rest: seq<Cell<T>>, x: T, cmp: (T, T) -> int, c: Cell<T>)
    requires Passed(cells, kept, rest, x, cmp) && c == At(rest, 0) && cmp(c.val, x) <= 0
    ensures rest != [] && Passed(cells, Snoc(kept, c), After(rest), x, cmp)
  {
    var after := After(rest);
    assert rest == [c] + after;
    hide Vals, Inserted, After, At;
    Assoc(kept, [c], after);
    ValsSplit(c, after);
    ValsConcat(kept, [c]);
    InsertedBehind(c.val, Vals(after), x, cmp);
    Assoc(Vals(kept), [c.val], Inserted(Vals(after), x, cmp));
  }

  lemma Assoc<T>(a: seq<T>, b: seq<T>, c: seq<T>)
    ensures a + b + c == a + (b + c)
  {
  }

  lemma PassEnds<T>(cells: seq<Cell<T>>, kept: seq<Cell<T>>, rest: seq<Cell<T>>, x: T, cmp: (T, T) -> int, c: Cell<T>)
    requires Passed(cells, kept, rest, x, cmp) && c.val == x && (rest != [] ==> cmp(rest[0].val, x) > 0)
    ensures Vals(Join(Snoc(kept, c), rest)) == Inserted(Vals(cells), x, cmp)
  {
    assert Inserted(Vals(rest), x, cmp) == [x] + Vals(rest);
    hide Vals;
    ValsSplit(c, rest);
    ValsConcat(kept, [c] + rest);
    assert kept + [c] + rest == kept + ([c] + rest);
  }

  /** Inserts a value behind all that are not greater, so a sorted list stays sorted. */
  method PushSorted<T>(xs: Cell?<T>, cmp: (T, T) -> int, x: T, ghost cells: seq<Cell<T>>)
    returns (head: Cell<T>, ghost out: seq<Cell<T>>)
    requires Linked(cells, xs)
    modifies cells
    ensures Linked(out, head) && Vals(out) == Inserted(Vals(cells), x, cmp)
  {
    var l := xs;
    var previous: Cell?<T> := null;
    ghost var kept: seq<Cell<T>> := [];
    ghost var rest := cells;
    WalkStarts(cells, xs);
    assert Passed(cells, kept, rest, x, cmp);
    hide *;
    while l != null && cmp(l.val, x) <= 0
      invariant Linked(Join(kept, rest), xs) && Among(Join(kept, rest), cells)
      invariant l == At(rest, 0) && previous == Last(kept)
      invariant Passed(cells, kept, rest, x, cmp)
      decreases |rest|
    {
      var this_: Cell<T> := l;
      WalkFacts(kept, rest, xs, cells, this_);
      PassOne(cells, kept, rest, x, cmp, this_);
      LastSnoc(kept, this_);
      previous := this_;
      l := l.next;
      kept, rest := Snoc(kept, this_), After(rest);
    }
    StopFacts(kept, rest, cells, l);
    ghost var cell: Cell<T>;
    head, cell := InsertAfter(xs, previous, l, x, kept, rest);
    out := Join(Snoc(kept, cell), rest);
    PassEnds(cells, kept, rest, x, cmp, cell);
  }

  lemma StopFacts<T>(kept: seq<Cell<T>>, rest: seq<Cell<T>>, cells: seq<Cell<T>>, l: Cell?<T>)
    requires Among(Join(kept, rest), cells) && l == At(rest, 0)
    ensures Last(kept) != null ==> Last(kept) in cells
    ensures if l == null then rest == [] else rest != [] && rest[0] == l
  {
    assert kept != [] ==> kept[|kept| - 1] in kept + rest;
  }
}

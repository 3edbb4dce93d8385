// Element-wise copies between two memories: what a list of moves does, in which order it may
// run, and how a box of elements splits into contiguous chunks along the innermost dimension.

module Copying {
  import opened MixedRadix
  import opened LoopNest

  // ------------------------------------------------------------------ moves

  datatype Move = Move(src: int, dst: int)

  ghost predicate InMemory(moves: seq<Move>, srcSize: nat, dstSize: nat) {
    forall n :: 0 <= n < |moves| ==> 0 <= moves[n].src < srcSize && 0 <= moves[n].dst < dstSize
  }

  ghost predicate Apart(moves: seq<Move>) {
    forall m, n :: 0 <= m < n < |moves| ==> moves[m].dst != moves[n].dst
  }

  /** The destination after the moves have run one after the other. */
  function Copied<T>(dst: seq<T>, src: seq<T>, moves: seq<Move>): (r: seq<T>)
    requires InMemory(moves, |src|, |dst|)
    ensures |r| == |dst|
  {
    if moves == [] then dst
    else
      var last := moves[|moves| - 1];
      Copied(dst, src, moves[..|moves| - 1])[last.dst := src[last.src]]
  }

  /** Every move takes effect and nothing else changes. */
  lemma {:induction false} CopiedAt<T>(dst: seq<T>, src: seq<T>, moves: seq<Move>)
    requires InMemory(moves, |src|, |dst|) && Apart(moves)
    ensures forall n :: 0 <= n < |moves| ==> Copied(dst, src, moves)[moves[n].dst] == src[moves[n].src]
    ensures forall i :: 0 <= i < |dst| && (forall n :: 0 <= n < |moves| ==> moves[n].dst != i) ==> Copied(dst, src, moves)[i] == dst[i]
  {
    if moves != [] {
      var init := moves[..|moves| - 1];
      CopiedAt(dst, src, init);
      forall i | 0 <= i < |dst| && (forall n :: 0 <= n < |moves| ==> moves[n].dst != i)
        ensures Copied(dst, src, moves)[i] == dst[i]
      {
        assert forall n :: 0 <= n < |init| ==> init[n] == moves[n];
        assert moves[|moves| - 1].dst != i;
      }
    }
  }

  /** Moves to different places may run in any order. */
  lemma {:induction false} OrderFree<T>(dst: seq<T>, src: seq<T>, a: seq<Move>, b: seq<Move>)
    requires InMemory(a, |src|, |dst|) && InMemory(b, |src|, |dst|) && Apart(a) && Apart(b)
    requires forall m :: m in a <==> m in b
    ensures Copied(dst, src, a) == Copied(dst, src, b)
  {
    CopiedAt(dst, src, a);
    CopiedAt(dst, src, b);
    forall i | 0 <= i < |dst|
      ensures Copied(dst, src, a)[i] == Copied(dst, src, b)[i]
    {
      if n :| 0 <= n < |a| && a[n].dst == i {
        assert a[n] in b;
        var m :| 0 <= m < |b| && b[m] == a[n];
      } else {
        forall m | 0 <= m < |b|
          ensures b[m].dst != i
        {
          assert b[m] in a;
        }
      }
    }
  }

  lemma {:induction false} CopiedMore<T>(dst: seq<T>, src: seq<T>, moves: seq<Move>, n: nat)
    requires InMemory(moves, |src|, |dst|) && n < |moves|
    ensures InMemory(moves[..n], |src|, |dst|) && InMemory(moves[..n + 1], |src|, |dst|)
    ensures Copied(dst, src, moves[..n + 1]) == Copied(dst, src, moves[..n])[moves[n].dst := src[moves[n].src]]
  {
    assert moves[..n + 1][..n] == moves[..n];
  }

  ghost predicate RunAt(moves: seq<Move>, at: int, from: int, to: int, i: int) {
    0 <= at + i < |moves| && moves[at + i] == Move(from + i, to + i)
  }

  /** Moves at.. at+len of the list copy consecutive elements to consecutive elements. */
  ghost predicate Run(moves: seq<Move>, at: int, from: int, to: int, len: int) {
    && 0 <= at <= at + len <= |moves|
    && forall i :: 0 <= i < len ==> RunAt(moves, at, from, to, i)
  }

  /** A contiguous copy, element by element. */
  method CopyRun<T>(src: array<T>, dst: array<T>, from: int, to: int, len: nat, ghost before: seq<T>, ghost moves: seq<Move>, ghost at: nat)
    requires src != dst && |before| == dst.Length && InMemory(moves, src.Length, dst.Length) && Run(moves, at, from, to, len)
    requires dst[..] == Copied(before, src[..], moves[..at])
    modifies dst
    ensures dst[..] == Copied(before, src[..], moves[..at + len])
  {
    for i := 0 to len
      invariant dst[..] == Copied(before, src[..], moves[..at + i])
    {
      CopiedMore(before, src[..], moves, at + i);
      assert RunAt(moves, at, from, to, i);
      dst[to + i] := src[from + i];
    }
  }

  /** The first n chunks, of l elements each, have been copied. */
  ghost predicate ChunksDone<T>(before: seq<T>, now: seq<T>, src: seq<T>, moves: seq<Move>, n: nat, l: int) {
    && InMemory(moves, |src|, |before|) && 0 <= n * l <= |moves|
    && now == Copied(before, src, moves[..n * l])
  }

  lemma {:induction false} AllChunksDone<T>(before: seq<T>, now: seq<T>, src: seq<T>, moves: seq<Move>, n: nat, l: int)
    requires ChunksDone(before, now, src, moves, n, l) && |moves| == n * l
    ensures now == Copied(before, src, moves)
  {
    assert moves[..n * l] == moves;
  }

  /** The next chunk, from and to consecutive elements. */
  method CopyChunk<T>(src: array<T>, dst: array<T>, from: int, to: int, l: nat, ghost before: seq<T>, ghost moves: seq<Move>, ghost n: nat)
    requires src != dst && |before| == dst.Length && ChunksDone(before, dst[..], src[..], moves, n, l)
    requires Run(moves, n * l, from, to, l) && n * l + l == (n + 1) * l
    modifies dst
    ensures ChunksDone(before, dst[..], src[..], moves, n + 1, l)
  {
    CopyRun(src, dst, from, to, l, before, moves, n * l);
  }

  /** The moves of a kernel's threads, in the order in which they happen to run: thread i does
      move i, threads beyond the last move do nothing. */
  function Picked(moves: seq<Move>, order: seq<nat>): (m: seq<Move>) {
    if order == [] then []
    else
      var last := order[|order| - 1];
      Picked(moves, order[..|order| - 1]) + (if last < |moves| then [moves[last]] else [])
  }

  ghost predicate Picks(moves: seq<Move>, order: seq<nat>, i: nat, m: Move) {
    i < |order| && order[i] < |moves| && moves[order[i]] == m
  }

  lemma {:induction false} PickedIn(moves: seq<Move>, order: seq<nat>, m: Move)
    ensures m in Picked(moves, order) <==> exists i: nat :: Picks(moves, order, i, m)
  {
    if order != [] {
      var init := order[..|order| - 1];
      PickedIn(moves, init, m);
      if i: nat :| Picks(moves, init, i, m) {
        assert Picks(moves, order, i, m);
      }
      if i: nat :| Picks(moves, order, i, m) {
        assert i < |init| ==> Picks(moves, init, i, m);
      }
      if order[|init|] < |moves| && moves[order[|init|]] == m {
        assert Picks(moves, order, |init|, m);
      }
    }
  }

  ghost predicate EachOnce(order: seq<nat>) {
    forall i, j :: 0 <= i < j < |order| ==> order[i] != order[j]
  }

  lemma {:induction false} PickedApart(moves: seq<Move>, order: seq<nat>)
    requires Apart(moves) && EachOnce(order)
    ensures Apart(Picked(moves, order))
  {
    if order != [] {
      var init, last := order[..|order| - 1], order[|order| - 1];
      PickedApart(moves, init);
      var a := Picked(moves, init);
      if last < |moves| {
        forall m | 0 <= m < |a|
          ensures a[m].dst != moves[last].dst
        {
          PickedIn(moves, init, a[m]);
          var i: nat :| Picks(moves, init, i, a[m]);
          assert order[i] != last;
        }
      }
    }
  }

  lemma {:induction false} PickedAll(moves: seq<Move>, order: seq<nat>, m: Move)
    requires forall n: nat :: n < |moves| ==> n in order
    ensures m in Picked(moves, order) <==> m in moves
  {
    PickedIn(moves, order, m);
    if m in moves {
      var n: nat :| n < |moves| && moves[n] == m;
      assert n in order;
      var i :| 0 <= i < |order| && order[i] == n;
      assert Picks(moves, order, i, m);
    }
  }

  lemma {:induction false} PickedInMemory(moves: seq<Move>, order: seq<nat>, srcSize: nat, dstSize: nat)
    requires InMemory(moves, srcSize, dstSize)
    ensures InMemory(Picked(moves, order), srcSize, dstSize)
  {
    if order != [] {
      PickedInMemory(moves, order[..|order| - 1], srcSize, dstSize);
    }
  }

  /** A kernel with a thread per move, run in any order, does what the list does. */
  lemma {:induction false} AnyThreadOrder<T>(dst: seq<T>, src: seq<T>, moves: seq<Move>, order: seq<nat>)
    requires InMemory(moves, |src|, |dst|) && Apart(moves) && EachOnce(order)
    requires forall n: nat :: n < |moves| ==> n in order
    ensures InMemory(Picked(moves, order), |src|, |dst|)
    ensures Copied(dst, src, Picked(moves, order)) == Copied(dst, src, moves)
  {
    PickedInMemory(moves, order, |src|, |dst|);
    PickedApart(moves, order);
    forall m
      ensures m in Picked(moves, order) <==> m in moves
    {
      PickedAll(moves, order, m);
    }
    OrderFree(dst, src, Picked(moves, order), moves);
  }

  lemma {:induction false} PickedStep<T>(dst: seq<T>, src: seq<T>, moves: seq<Move>, order: seq<nat>, i: nat)
    requires i < |order| && InMemory(moves, |src|, |dst|)
    ensures InMemory(Picked(moves, order[..i]), |src|, |dst|) && InMemory(Picked(moves, order[..i + 1]), |src|, |dst|)
    ensures Copied(dst, src, Picked(moves, order[..i + 1])) ==
      if order[i] < |moves| then Copied(dst, src, Picked(moves, order[..i]))[moves[order[i]].dst := src[moves[order[i]].src]]
      else Copied(dst, src, Picked(moves, order[..i]))
  {
    assert order[..i + 1][..i] == order[..i];
    PickedInMemory(moves, order[..i], |src|, |dst|);
    PickedInMemory(moves, order[..i + 1], |src|, |dst|);
    var now := Picked(moves, order[..i]);
    assert order[..i + 1][i] == order[i];
    if order[i] < |moves| {
      assert (now + [moves[order[i]]])[..|now|] == now;
    } else {
      assert now + [] == now;
    }
  }

  /** The state of a kernel after the threads `done` have run. */
  ghost predicate Ran<T>(before: seq<T>, now: seq<T>, src: seq<T>, moves: seq<Move>, done: seq<nat>) {
    && InMemory(moves, |src|, |before|)
    && InMemory(Picked(moves, done), |src|, |before|)
    && now == Copied(before, src, Picked(moves, done))
  }

  /** What one more index does to memory. */
  ghost predicate Does<T>(now: seq<T>, next: seq<T>, src: seq<T>, moves: seq<Move>, n: nat)
    requires InMemory(moves, |src|, |now|)
  {
    next == if n < |moves| then now[moves[n].dst := src[moves[n].src]] else now
  }

  lemma {:induction false} RanStep<T>(before: seq<T>, now: seq<T>, next: seq<T>, src: seq<T>, moves: seq<Move>, done: seq<nat>, n: nat)
    requires Ran(before, now, src, moves, done) && |now| == |before| && Does(now, next, src, moves, n)
    ensures Ran(before, next, src, moves, done + [n])
  {
    var order := done + [n];
    assert order[..|done|] == done && order[..|done| + 1] == order;
    PickedStep(before, src, moves, order, |done|);
  }

  // ------------------------------------------------------------------ moves of a box

  /** Element strides of a field: dense, in layout order, so the innermost stride is one. */
  function ElementStrides(lm: seq<nat>, memory: seq<int>): seq<int>
    requires IsLayout(lm) && |memory| == |lm|
  {
    Spread(lm, Strides(Ranked(lm, memory), 1, 0))
  }

  /** A region of memory: its extents, the shift from the coordinates of the box to coordinates
      in it, and the position of its first element. */
  datatype Region = Region(memory: seq<int>, shift: seq<int>, base: int)

  function EndOfRegion(lm: seq<nat>, r: Region): int
    requires IsLayout(lm) && |r.memory| == |lm|
  {
    r.base + Product(Ranked(lm, r.memory))
  }

  ghost predicate RegionOk(lm: seq<nat>, r: Region) {
    |r.memory| == |r.shift| == |lm| && Positive(r.memory) && r.base >= 0
  }

  /** The box lies inside the region's memory. */
  ghost predicate Fits(lm: seq<nat>, first: seq<int>, last: seq<int>, r: Region)
    requires RegionOk(lm, r) && |first| == |last| == |lm|
  {
    forall i :: 0 <= i < |lm| ==> 0 <= first[i] + r.shift[i] && last[i] + r.shift[i] < r.memory[i]
  }

  function Address(lm: seq<nat>, r: Region, x: seq<int>): int
    requires IsLayout(lm) && |r.memory| == |r.shift| == |lm| == |x|
  {
    r.base + Weighted(ElementStrides(lm, r.memory), Add(x, r.shift))
  }

  /** Copies element n of the box, in layout order, from one region to the other. */
  function BoxMove(lm: seq<nat>, first: seq<int>, last: seq<int>, s: Region, t: Region, n: nat): Move
    requires IsLayout(lm) && |lm| == |first| && Ordered(first, last)
    requires |s.memory| == |s.shift| == |t.memory| == |t.shift| == |lm|
  {
    var x := Coordinate(lm, first, last, n);
    Move(Address(lm, s, x), Address(lm, t, x))
  }

  function BoxMoves(lm: seq<nat>, first: seq<int>, last: seq<int>, s: Region, t: Region): (m: seq<Move>)
    requires IsLayout(lm) && |lm| == |first| && Ordered(first, last)
    requires |s.memory| == |s.shift| == |t.memory| == |t.shift| == |lm|
    ensures Size(lm, first, last) == |m|
    ensures forall n {:trigger m[n]} :: 0 <= n < |m| ==> m[n] == BoxMove(lm, first, last, s, t, n)
  {
    OrderedExtents(lm, first, last);
    ProductPositive(Ranked(lm, Extents(first, last)));
    seq(Size(lm, first, last), n requires 0 <= n < Size(lm, first, last) => BoxMove(lm, first, last, s, t, n))
  }

  lemma {:induction false} PositiveRanked(lm: seq<nat>, e: seq<int>)
    requires IsLayout(lm) && |e| == |lm| && Positive(e)
    ensures Positive(Ranked(lm, e)) && Product(Ranked(lm, e)) > 0
  {
    ProductPositive(Ranked(lm, e));
  }

  /** Addresses of the cells of a box lie in the region's memory. */
  lemma {:induction false} AddressInMemory(lm: seq<nat>, first: seq<int>, last: seq<int>, r: Region, x: seq<int>)
    requires IsLayout(lm) && RegionOk(lm, r) && |lm| == |first| && Ordered(first, last) && Fits(lm, first, last, r)
    requires InBox(x, first, last)
    ensures r.base <= Address(lm, r, x) < EndOfRegion(lm, r)
  {
    PositiveRanked(lm, r.memory);
    assert Within(Add(x, r.shift), r.memory);
    DotDecodeInverse(lm, r.memory, Add(x, r.shift));
  }

  /** Different cells have different addresses. */
  lemma {:induction false} AddressApart(lm: seq<nat>, first: seq<int>, last: seq<int>, r: Region, x: seq<int>, y: seq<int>)
    requires IsLayout(lm) && RegionOk(lm, r) && |lm| == |first| && Ordered(first, last) && Fits(lm, first, last, r)
    requires InBox(x, first, last) && InBox(y, first, last) && x != y
    ensures Address(lm, r, x) != Address(lm, r, y)
  {
    PositiveRanked(lm, r.memory);
    ShiftedApart(x, y, r.shift);
    assert Within(Add(x, r.shift), r.memory) && Within(Add(y, r.shift), r.memory);
    DotDecodeInverse(lm, r.memory, Add(x, r.shift));
    DotDecodeInverse(lm, r.memory, Add(y, r.shift));
  }

  lemma {:induction false} ShiftedApart(x: seq<int>, y: seq<int>, shift: seq<int>)
    requires |x| == |y| == |shift| && x != y
    ensures Add(x, shift) != Add(y, shift)
  {
    var i :| 0 <= i < |x| && x[i] != y[i];
    assert Add(x, shift)[i] != Add(y, shift)[i];
  }

  lemma {:induction false} BoxMovesOk(lm: seq<nat>, first: seq<int>, last: seq<int>, s: Region, t: Region)
    requires IsLayout(lm) && |lm| == |first| && Ordered(first, last)
    requires RegionOk(lm, s) && RegionOk(lm, t) && Fits(lm, first, last, s) && Fits(lm, first, last, t)
    ensures EndOfRegion(lm, s) > 0 && EndOfRegion(lm, t) > 0
    ensures InMemory(BoxMoves(lm, first, last, s, t), EndOfRegion(lm, s), EndOfRegion(lm, t))
    ensures Apart(BoxMoves(lm, first, last, s, t))
  {
    var moves := BoxMoves(lm, first, last, s, t);
    PositiveRanked(lm, s.memory);
    PositiveRanked(lm, t.memory);
    forall n | 0 <= n < |moves|
      ensures 0 <= moves[n].src < EndOfRegion(lm, s) && 0 <= moves[n].dst < EndOfRegion(lm, t)
    {
      VisitInBox(lm, first, last, n);
      AddressInMemory(lm, first, last, s, Coordinate(lm, first, last, n));
      AddressInMemory(lm, first, last, t, Coordinate(lm, first, last, n));
    }
    forall m, n | 0 <= m < n < |moves|
      ensures moves[m].dst != moves[n].dst
    {
      VisitInBox(lm, first, last, m);
      VisitInBox(lm, first, last, n);
      AddressApart(lm, first, last, t, Coordinate(lm, first, last, m), Coordinate(lm, first, last, n));
    }
  }

  /** The result of copying a box, cell by cell: each cell of the box arrives, and an element
      that is no cell of the box is unchanged. */
  lemma {:induction false} BoxCopied<T>(lm: seq<nat>, first: seq<int>, last: seq<int>, s: Region, t: Region, src: seq<T>, dst: seq<T>)
    requires IsLayout(lm) && |lm| == |first| && Ordered(first, last)
    requires RegionOk(lm, s) && RegionOk(lm, t) && Fits(lm, first, last, s) && Fits(lm, first, last, t)
    requires |src| >= EndOfRegion(lm, s) && |dst| >= EndOfRegion(lm, t)
    ensures InMemory(BoxMoves(lm, first, last, s, t), |src|, |dst|)
    ensures forall x :: InBox(x, first, last) ==>
      && 0 <= Address(lm, s, x) < |src| && 0 <= Address(lm, t, x) < |dst|
      && Copied(dst, src, BoxMoves(lm, first, last, s, t))[Address(lm, t, x)] == src[Address(lm, s, x)]
    ensures forall i :: 0 <= i < |dst| && (forall x :: InBox(x, first, last) ==> Address(lm, t, x) != i) ==>
      Copied(dst, src, BoxMoves(lm, first, last, s, t))[i] == dst[i]
  {
    var moves := BoxMoves(lm, first, last, s, t);
    BoxMovesOk(lm, first, last, s, t);
    CopiedAt(dst, src, moves);
    forall x | InBox(x, first, last)
      ensures 0 <= Address(lm, s, x) < |src| && 0 <= Address(lm, t, x) < |dst|
      ensures Copied(dst, src, moves)[Address(lm, t, x)] == src[Address(lm, s, x)]
    {
      VisitedOnce(lm, first, last, x);
      assert moves[IndexOf(lm, first, last, x)] == Move(Address(lm, s, x), Address(lm, t, x));
    }
    forall i | 0 <= i < |dst| && (forall x :: InBox(x, first, last) ==> Address(lm, t, x) != i)
      ensures Copied(dst, src, moves)[i] == dst[i]
    {
      forall n | 0 <= n < |moves|
        ensures moves[n].dst != i
      {
        VisitInBox(lm, first, last, n);
      }
    }
  }

  // ------------------------------------------------------------------ chunks

  lemma {:induction false} ProductSnoc(r: seq<int>, l: int)
    ensures Product(r + [l]) == Product(r) * l
  {
    if r != [] {
      assert (r + [l])[1..] == r[1..] + [l];
      ProductSnoc(r[1..], l);
      MulShuffle(r[0], l, Product(r[1..]));
      MulComm(l, Product(r[1..]));
    } else {
      assert ([] + [l])[1..] == [];
    }
  }

  lemma {:induction false} FlatSnoc(r: seq<int>, l: int, x: seq<int>, k: int)
    requires |x| == |r|
    ensures Flat(r + [l], x + [k]) == Flat(r, x) * l + k
  {
    if r != [] {
      assert (r + [l])[1..] == r[1..] + [l] && (x + [k])[1..] == x[1..] + [k];
      FlatSnoc(r[1..], l, x[1..], k);
      ProductSnoc(r[1..], l);
      FlatSnocStep(x[0], Product(r[1..]), l, Flat(r[1..], x[1..]));
    } else {
      assert ([] + [l])[1..] == [] && ([] + [k])[1..] == [];
    }
  }

  lemma {:induction false} FlatSnocStep(a: int, p: int, l: int, f: int)
    ensures a * (p * l) + f * l == (a * p + f) * l
  {
  }

  /** Position n * l + k of the box is position k of chunk n. */
  lemma {:induction false} DecodeSnoc(r: seq<int>, l: int, n: nat, k: nat)
    requires Positive(r) && k < l && n < Product(r)
    ensures Product(r + [l]) == Product(r) * l > 0 && 0 <= n * l + k < Product(r) * l
    ensures Decode(r + [l], n * l + k) == Decode(r, n) + [k]
  {
    var e, x := r + [l], Decode(r, n) + [k];
    ProductSnoc(r, l);
    ProductPositive(e);
    DecodeRange(r, n);
    if r == [] {
      assert n == 0;
    }
    FlatDecode(r, n);
    assert Within(x, e);
    FlatSnoc(r, l, Decode(r, n), k);
    FlatRange(e, x);
    DecodeFlat(e, x);
  }

  /** Extents of the outer loops, in rank order, and the length of a chunk. */
  function Outer(lm: seq<nat>, first: seq<int>, last: seq<int>): seq<int>
    requires IsLayout(lm) && |lm| == |first| == |last| > 0
  {
    Ranked(lm, Extents(first, last))[..|lm| - 1]
  }

  function ChunkLength(lm: seq<nat>, first: seq<int>, last: seq<int>): int
    requires IsLayout(lm) && |lm| == |first| == |last| > 0
  {
    var inner := Find(lm, |lm| - 1);
    last[inner] - first[inner] + 1
  }

  lemma {:induction false} DecodeStart(r: seq<int>, l: int, n: nat)
    requires Positive(r) && l > 0 && n < Product(r)
    ensures n * l >= 0 && Decode(r + [l], n * l) == Decode(r, n) + [0]
  {
    DecodeSnoc(r, l, n, 0);
  }

  lemma {:induction false} OuterSplit(lm: seq<nat>, first: seq<int>, last: seq<int>)
    requires IsLayout(lm) && |lm| == |first| > 0 && Ordered(first, last)
    ensures Ranked(lm, Extents(first, last)) == Outer(lm, first, last) + [ChunkLength(lm, first, last)]
    ensures Positive(Outer(lm, first, last)) && ChunkLength(lm, first, last) > 0
  {
    OrderedExtents(lm, first, last);
  }

  lemma {:induction false} OuterInner(lm: seq<nat>, first: seq<int>, last: seq<int>)
    requires IsLayout(lm) && |lm| == |first| > 0 && Ordered(first, last)
    ensures Ranked(lm, Extents(first, last)) == Outer(lm, first, last) + [ChunkLength(lm, first, last)]
    ensures Positive(Outer(lm, first, last)) && ChunkLength(lm, first, last) > 0
    ensures Product(Outer(lm, first, last)) > 0
    ensures Size(lm, first, last) == Product(Outer(lm, first, last)) * ChunkLength(lm, first, last)
  {
    OrderedExtents(lm, first, last);
    ProductPositive(Outer(lm, first, last));
    ProductSnoc(Outer(lm, first, last), ChunkLength(lm, first, last));
  }

  /** Element k of chunk n is the box's element n * length + k, and lies k steps further along
      the innermost dimension. */
  lemma {:induction false} ChunkElement(lm: seq<nat>, first: seq<int>, last: seq<int>, n: nat, k: nat)
    requires IsLayout(lm) && |lm| == |first| > 0 && Ordered(first, last)
    requires n < Product(Outer(lm, first, last)) && k < ChunkLength(lm, first, last)
    ensures var l, inner := ChunkLength(lm, first, last), Find(lm, |lm| - 1);
      && 0 <= n * l && 0 <= n * l + k < Size(lm, first, last)
      && Coordinate(lm, first, last, n * l)[inner] == first[inner]
      && Coordinate(lm, first, last, n * l + k) == Coordinate(lm, first, last, n * l)[inner := first[inner] + k]
  {
    var l, inner, r := ChunkLength(lm, first, last), Find(lm, |lm| - 1), Outer(lm, first, last);
    OuterInner(lm, first, last);
    DecodeSnoc(r, l, n, 0);
    DecodeSnoc(r, l, n, k);
    var a, b := Coordinate(lm, first, last, n * l), Coordinate(lm, first, last, n * l + k);
    forall i | 0 <= i < |lm|
      ensures b[i] == if i == inner then first[inner] + k else a[i]
    {
      if i != inner {
        assert lm[i] < |lm| - 1;
      }
    }
  }

  lemma {:induction false} WeightedChange(s: seq<int>, x: seq<int>, i: nat, v: int)
    requires |s| == |x| && i < |s|
    ensures Weighted(s, x[i := v]) == Weighted(s, x) + s[i] * (v - x[i])
  {
    if i == 0 {
      assert x[0 := v][1..] == x[1..];
      ScaleDiff(s[0], v, x[0]);
    } else {
      assert x[i := v][1..] == x[1..][i - 1 := v];
      WeightedChange(s[1..], x[1..], i - 1, v);
    }
  }

  lemma {:induction false} ScaleDiff(s: int, a: int, b: int)
    ensures s * a == s * b + s * (a - b)
  {
  }

  /** The innermost stride is one, so a chunk is contiguous in memory. */
  lemma {:induction false} UnitStride(lm: seq<nat>, memory: seq<int>)
    requires IsLayout(lm) && |memory| == |lm| > 0
    ensures ElementStrides(lm, memory)[Find(lm, |lm| - 1)] == 1
  {
    var e := Ranked(lm, memory);
    StridesAreProducts(e, 1, |lm| - 1);
    assert e[|lm|..] == [];
  }

  /** Element k of chunk n is k elements behind its first one, in every region. */
  lemma {:induction false} ChunkContiguous(lm: seq<nat>, first: seq<int>, last: seq<int>, r: Region, n: nat, k: nat)
    requires IsLayout(lm) && |lm| == |first| > 0 && Ordered(first, last) && |r.memory| == |r.shift| == |lm|
    requires n < Product(Outer(lm, first, last)) && k < ChunkLength(lm, first, last)
    ensures var l := ChunkLength(lm, first, last);
      && 0 <= n * l && 0 <= n * l + k < Size(lm, first, last)
      && Address(lm, r, Coordinate(lm, first, last, n * l + k)) == Address(lm, r, Coordinate(lm, first, last, n * l)) + k
  {
    var l, inner := ChunkLength(lm, first, last), Find(lm, |lm| - 1);
    ChunkElement(lm, first, last, n, k);
    var a := Coordinate(lm, first, last, n * l);
    assert Add(a[inner := first[inner] + k], r.shift) == Add(a, r.shift)[inner := first[inner] + k + r.shift[inner]];
    WeightedChange(ElementStrides(lm, r.memory), Add(a, r.shift), inner, first[inner] + k + r.shift[inner]);
    UnitStride(lm, r.memory);
  }
}

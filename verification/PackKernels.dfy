// The pack and unpack kernels of structured fields: an elementwise loop nest, a batched form
// that copies contiguous lines over a reduced layout, and a form with one thread per element.
// All memories are counted in elements.

module PackKernels {
  import opened MixedRadix
  import opened LoopNest
  import opened Copying

  // ------------------------------------------------------------------ the three kernels

  ghost predicate CopyReady(lm: seq<nat>, first: seq<int>, last: seq<int>, s: Region, t: Region, srcSize: nat, dstSize: nat) {
    && IsLayout(lm) && |lm| == |first| > 0 && Ordered(first, last)
    && |s.memory| == |s.shift| == |t.memory| == |t.shift| == |lm|
    && InMemory(BoxMoves(lm, first, last, s, t), srcSize, dstSize)
  }

  /** serialization::pack and unpack: one assignment per coordinate of the loop nest. */
  method CopyLoop<T>(lm: seq<nat>, first: seq<int>, last: seq<int>, s: Region, t: Region, src: array<T>, dst: array<T>)
    requires CopyReady(lm, first, last, s, t, src.Length, dst.Length) && src != dst
    modifies dst
    ensures dst[..] == Copied(old(dst[..]), src[..], BoxMoves(lm, first, last, s, t))
  {
    var visited := ForLoop(lm, first, last);
    ghost var before, moves := dst[..], BoxMoves(lm, first, last, s, t);
    for n := 0 to |visited|
      invariant dst[..] == Copied(before, src[..], moves[..n])
    {
      CopiedMore(before, src[..], moves, n);
      assert moves[n] == Move(Address(lm, s, visited[n]), Address(lm, t, visited[n]));
      dst[Address(lm, t, visited[n])] := src[Address(lm, s, visited[n])];
    }
    assert moves[..|visited|] == moves;
  }

  /** The coordinate of a line with v put back at the contiguous dimension. */
  function InsertAt(x: seq<int>, c: nat, v: int): (r: seq<int>)
    requires c <= |x|
    ensures |r| == |x| + 1 && r[c] == v && RemoveAt(r, c) == x
  {
    x[..c] + [v] + x[c..]
  }

  lemma {:induction false} RankedReduced(lm: seq<nat>, v: seq<int>)
    requires IsLayout(lm) && |v| == |lm| > 0
    ensures Ranked(Reduced(lm), RemoveAt(v, Find(lm, |lm| - 1))) == Ranked(lm, v)[..|lm| - 1]
  {
    var r := Ranked(lm, v);
    SpreadRanked(lm, v);
    SpreadReduced(lm, r);
    RankedSpread(Reduced(lm), r[..|lm| - 1]);
  }

  /** The box without its contiguous dimension. */
  lemma {:induction false} LineBox(lm: seq<nat>, first: seq<int>, last: seq<int>)
    requires IsLayout(lm) && |lm| == |first| > 0 && Ordered(first, last)
    ensures var c := Find(lm, |lm| - 1);
      && Ordered(RemoveAt(first, c), RemoveAt(last, c))
      && Ranked(Reduced(lm), Extents(RemoveAt(first, c), RemoveAt(last, c))) == Outer(lm, first, last)
  {
    var c := Find(lm, |lm| - 1);
    assert Extents(RemoveAt(first, c), RemoveAt(last, c)) == RemoveAt(Extents(first, last), c);
    RankedReduced(lm, Extents(first, last));
  }

  /** The loop nest over the reduced layout visits the first element of every line, in layout
      order. */
  lemma {:induction false} LineCoordinate(lm: seq<nat>, first: seq<int>, last: seq<int>, n: nat)
    requires IsLayout(lm) && |lm| == |first| > 0 && Ordered(first, last) && n < Product(Outer(lm, first, last))
    ensures var c := Find(lm, |lm| - 1);
      && Ordered(RemoveAt(first, c), RemoveAt(last, c))
      && n * ChunkLength(lm, first, last) >= 0
      && InsertAt(Coordinate(Reduced(lm), RemoveAt(first, c), RemoveAt(last, c), n), c, first[c])
         == Coordinate(lm, first, last, n * ChunkLength(lm, first, last))
  {
    LineBox(lm, first, last);
    LineStart(lm, first, last, n);
    LineDigits(lm, first, Decode(Outer(lm, first, last), n));
  }

  lemma {:induction false} LineStart(lm: seq<nat>, first: seq<int>, last: seq<int>, n: nat)
    requires IsLayout(lm) && |lm| == |first| > 0 && Ordered(first, last) && n < Product(Outer(lm, first, last))
    ensures Positive(Outer(lm, first, last)) && n * ChunkLength(lm, first, last) >= 0
    ensures Coordinate(lm, first, last, n * ChunkLength(lm, first, last)) == Add(first, Spread(lm, Decode(Outer(lm, first, last), n) + [0]))
  {
    OuterSplit(lm, first, last);
    DecodeStart(Outer(lm, first, last), ChunkLength(lm, first, last), n);
  }

  lemma {:induction false} LineDigits(lm: seq<nat>, first: seq<int>, digits: seq<int>)
    requires IsLayout(lm) && |lm| == |first| == |digits| + 1
    ensures var c := Find(lm, |lm| - 1);
      InsertAt(Add(RemoveAt(first, c), Spread(Reduced(lm), digits)), c, first[c]) == Add(first, Spread(lm, digits + [0]))
  {
    var c := Find(lm, |lm| - 1);
    SpreadReduced(lm, digits + [0]);
    var whole := Add(first, Spread(lm, digits + [0]));
    assert (digits + [0])[..|digits|] == digits;
    assert RemoveAt(whole, c) == Add(RemoveAt(first, c), Spread(Reduced(lm), digits));
    assert whole == InsertAt(RemoveAt(whole, c), c, whole[c]);
  }

  /** A line is a contiguous run of moves. */
  lemma {:induction false} LineRun(lm: seq<nat>, first: seq<int>, last: seq<int>, s: Region, t: Region, n: nat)
    requires IsLayout(lm) && |lm| == |first| > 0 && Ordered(first, last) && n < Product(Outer(lm, first, last))
    requires |s.memory| == |s.shift| == |t.memory| == |t.shift| == |lm|
    ensures var l := ChunkLength(lm, first, last);
      && l > 0 && n * l >= 0 && n * l + l == (n + 1) * l
      && var x := Coordinate(lm, first, last, n * l);
         Run(BoxMoves(lm, first, last, s, t), n * l, Address(lm, s, x), Address(lm, t, x), l)
  {
    var l := ChunkLength(lm, first, last);
    OuterInner(lm, first, last);
    ChunkElement(lm, first, last, n, l - 1);
    var x := Coordinate(lm, first, last, n * l);
    forall i | 0 <= i < l
      ensures RunAt(BoxMoves(lm, first, last, s, t), n * l, Address(lm, s, x), Address(lm, t, x), i)
    {
      ChunkContiguous(lm, first, last, s, n, i);
      ChunkContiguous(lm, first, last, t, n, i);
    }
  }

  /** The functor of the batched loop: one line. */
  method CopyLine<T>(lm: seq<nat>, first: seq<int>, last: seq<int>, s: Region, t: Region, src: array<T>, dst: array<T>,
                     x0: seq<int>, ghost before: seq<T>, ghost moves: seq<Move>, ghost n: nat)
    requires IsLayout(lm) && |lm| == |first| > 0 && Ordered(first, last) && n < Product(Outer(lm, first, last)) && src != dst
    requires |s.memory| == |s.shift| == |t.memory| == |t.shift| == |lm| && |before| == dst.Length
    requires moves == BoxMoves(lm, first, last, s, t)
    requires var c := Find(lm, |lm| - 1);
      |x0| == |lm| - 1 && n * ChunkLength(lm, first, last) >= 0
      && InsertAt(x0, c, first[c]) == Coordinate(lm, first, last, n * ChunkLength(lm, first, last))
    requires ChunksDone(before, dst[..], src[..], moves, n, ChunkLength(lm, first, last))
    modifies dst
    ensures ChunksDone(before, dst[..], src[..], moves, n + 1, ChunkLength(lm, first, last))
  {
    LineRun(lm, first, last, s, t, n);
    var c := Find(lm, |lm| - 1);
    var x1 := InsertAt(x0, c, first[c]);
    CopyChunk(src, dst, Address(lm, s, x1), Address(lm, t, x1), last[c] - first[c] + 1, before, moves, n);
  }

  /** serialization::pack_batch and unpack_batch: the same result as the elementwise nest. */
  method CopyBatch<T>(lm: seq<nat>, first: seq<int>, last: seq<int>, s: Region, t: Region, src: array<T>, dst: array<T>)
    requires CopyReady(lm, first, last, s, t, src.Length, dst.Length) && src != dst
    modifies dst
    ensures dst[..] == Copied(old(dst[..]), src[..], BoxMoves(lm, first, last, s, t))
  {
    var c := Find(lm, |lm| - 1);
    LineBox(lm, first, last);
    OuterInner(lm, first, last);
    var visited := ForLoop(Reduced(lm), RemoveAt(first, c), RemoveAt(last, c));
    ghost var before, moves, l := dst[..], BoxMoves(lm, first, last, s, t), ChunkLength(lm, first, last);
    for n := 0 to |visited|
      invariant ChunksDone(before, dst[..], src[..], moves, n, l)
    {
      LineCoordinate(lm, first, last, n);
      CopyLine(lm, first, last, s, t, src, dst, visited[n], before, moves, n);
    }
    AllChunksDone(before, dst[..], src[..], moves, |visited|, l);
  }

  // Which elements the threads handle.

  function OwnElements(index: nat, perThread: nat, count: nat): seq<nat> {
    seq(count, i requires 0 <= i < count => index * perThread + i)
  }

  /** Thread by thread, the indices index*perThread + i. */
  function ElementsOf(threads: seq<nat>, perThread: nat): seq<nat> {
    if threads == [] then []
    else
      var last := threads[|threads| - 1];
      ElementsOf(threads[..|threads| - 1], perThread) + OwnElements(last, perThread, perThread)
  }

  lemma {:induction false} ElementsIn(threads: seq<nat>, perThread: nat, n: nat)
    requires perThread > 0
    ensures n / perThread >= 0
    ensures n in ElementsOf(threads, perThread) <==> n / perThread in threads
  {
    DivNat(n, perThread);
    if threads != [] {
      var init, last := threads[..|threads| - 1], threads[|threads| - 1];
      ElementsIn(init, perThread, n);
      var own := OwnElements(last, perThread, perThread);
      if n in own {
        var i :| 0 <= i < perThread && own[i] == n;
        DivUnique(n, perThread, last, i);
      }
      if n / perThread == last {
        assert own[n - n / perThread * perThread] == n;
      }
    }
  }

  lemma {:induction false} ElementsOnce(threads: seq<nat>, perThread: nat)
    requires perThread > 0 && EachOnce(threads)
    ensures EachOnce(ElementsOf(threads, perThread))
  {
    if threads != [] {
      var init, last := threads[..|threads| - 1], threads[|threads| - 1];
      ElementsOnce(init, perThread);
      var a := ElementsOf(init, perThread);
      var own := OwnElements(last, perThread, perThread);
      forall i, j | 0 <= i < |a| && 0 <= j < |own|
        ensures a[i] != own[j]
      {
        ElementsIn(init, perThread, a[i]);
        assert a[i] in a;
        if a[i] == own[j] {
          DivUnique(a[i], perThread, last, j);
          assert false;
        }
      }
    }
  }

  /** One index of a thread: decode it with the local strides, add the first coordinate. */
  method CopyElement<T>(lm: seq<nat>, first: seq<int>, last: seq<int>, s: Region, t: Region, src: array<T>, dst: array<T>,
                        localStrides: seq<int>, index: nat)
    requires CopyReady(lm, first, last, s, t, src.Length, dst.Length) && src != dst
    requires localStrides == ElementStrides(lm, Extents(first, last))
    modifies dst
    ensures Does(old(dst[..]), dst[..], src[..], BoxMoves(lm, first, last, s, t), index)
  {
    if index < Size(lm, first, last) {
      var x := LocalCoordinate(lm, first, last, localStrides, index);
      assert BoxMoves(lm, first, last, s, t)[index] == Move(Address(lm, s, x), Address(lm, t, x));
      dst[Address(lm, t, x)] := src[Address(lm, s, x)];
    }
  }

  method LocalCoordinate(lm: seq<nat>, first: seq<int>, ghost last: seq<int>, localStrides: seq<int>, index: nat) returns (x: seq<int>)
    requires IsLayout(lm) && |lm| == |first| > 0 && Ordered(first, last)
    requires localStrides == ElementStrides(lm, Extents(first, last))
    ensures x == Coordinate(lm, first, last, index)
  {
    OrderedExtents(lm, first, last);
    var local := new int[|lm|];
    ComputeCoordinate(lm, localStrides, local, index, Extents(first, last));
    x := Add(local[..], first);
  }

  /** One thread: its run of indices. */
  method CopyThread<T>(lm: seq<nat>, first: seq<int>, last: seq<int>, s: Region, t: Region, src: array<T>, dst: array<T>,
                       localStrides: seq<int>, index: nat, perThread: nat, ghost before: seq<T>, ghost done: seq<nat>)
    requires CopyReady(lm, first, last, s, t, src.Length, dst.Length) && src != dst && |before| == dst.Length
    requires localStrides == ElementStrides(lm, Extents(first, last))
    requires Ran(before, dst[..], src[..], BoxMoves(lm, first, last, s, t), done)
    modifies dst
    ensures Ran(before, dst[..], src[..], BoxMoves(lm, first, last, s, t), done + OwnElements(index, perThread, perThread))
  {
    assert done + OwnElements(index, perThread, 0) == done;
    for i := 0 to perThread
      invariant Ran(before, dst[..], src[..], BoxMoves(lm, first, last, s, t), done + OwnElements(index, perThread, i))
    {
      ghost var now := dst[..];
      var n := index * perThread + i;
      CopyElement(lm, first, last, s, t, src, dst, localStrides, n);
      OwnStep(index, perThread, i, n);
      RanOwn(before, now, dst[..], src[..], BoxMoves(lm, first, last, s, t), done, OwnElements(index, perThread, i), n);
    }
  }

  lemma {:induction false} OwnStep(index: nat, perThread: nat, i: nat, n: nat)
    requires n == index * perThread + i
    ensures OwnElements(index, perThread, i + 1) == OwnElements(index, perThread, i) + [n]
  {
  }

  lemma {:induction false} RanOwn<T>(before: seq<T>, now: seq<T>, next: seq<T>, src: seq<T>, moves: seq<Move>, done: seq<nat>, own: seq<nat>, n: nat)
    requires Ran(before, now, src, moves, done + own) && |now| == |before| && Does(now, next, src, moves, n)
    ensures Ran(before, next, src, moves, done + (own + [n]))
  {
    RanStep(before, now, next, src, moves, done + own, n);
    assert done + own + [n] == done + (own + [n]);
  }

  /** pack_kernel and unpack_kernel with their threads in any order: the same result again. */
  method CopyThreads<T>(lm: seq<nat>, first: seq<int>, last: seq<int>, s: Region, t: Region, src: array<T>, dst: array<T>,
                        localStrides: seq<int>, threads: seq<nat>, perThread: nat)
    requires CopyReady(lm, first, last, s, t, src.Length, dst.Length) && src != dst
    requires Apart(BoxMoves(lm, first, last, s, t))
    requires localStrides == ElementStrides(lm, Extents(first, last))
    requires perThread > 0 && EachOnce(threads)
    requires forall n: nat :: n < Size(lm, first, last) ==> n / perThread in threads
    modifies dst
    ensures dst[..] == Copied(old(dst[..]), src[..], BoxMoves(lm, first, last, s, t))
  {
    ghost var before, moves := dst[..], BoxMoves(lm, first, last, s, t);
    for j := 0 to |threads|
      invariant Ran(before, dst[..], src[..], moves, ElementsOf(threads[..j], perThread))
    {
      CopyThread(lm, first, last, s, t, src, dst, localStrides, threads[j], perThread, before, ElementsOf(threads[..j], perThread));
      assert threads[..j + 1][..j] == threads[..j];
    }
    assert threads[..|threads|] == threads;
    ElementsOnce(threads, perThread);
    forall n: nat | n < |moves|
      ensures n in ElementsOf(threads, perThread)
    {
      ElementsIn(threads, perThread, n);
    }
    AnyThreadOrder(before, src[..], moves, ElementsOf(threads, perThread));
  }
}

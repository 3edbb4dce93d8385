// The compile-time generated loop nests of common/utils.hpp: which coordinates are visited,
// in which order, and which addresses the pointer-arithmetic variant produces.

module LoopNest {
  import opened MixedRadix

  function Add(a: seq<int>, b: seq<int>): (r: seq<int>)
    requires |a| == |b|
    ensures |r| == |a|
    ensures forall i {:trigger r[i]} :: 0 <= i < |a| ==> r[i] == a[i] + b[i]
  {
    seq(|a|, i requires 0 <= i < |a| => a[i] + b[i])
  }

  /** Extents of the box [first, last], both ends included. */
  function Extents(first: seq<int>, last: seq<int>): (e: seq<int>)
    requires |first| == |last|
    ensures |e| == |first|
    ensures forall i {:trigger e[i]} :: 0 <= i < |e| ==> e[i] == last[i] - first[i] + 1
  {
    seq(|first|, i requires 0 <= i < |first| => last[i] - first[i] + 1)
  }

  /** first <= last in every component: the invariant of an iteration space. */
  ghost predicate Ordered(first: seq<int>, last: seq<int>) {
    |first| == |last| && forall i :: 0 <= i < |first| ==> first[i] <= last[i]
  }

  lemma {:induction false} OrderedExtents(lm: seq<nat>, first: seq<int>, last: seq<int>)
    requires IsLayout(lm) && Ordered(first, last) && |lm| == |first|
    ensures Positive(Extents(first, last))
    ensures Positive(Ranked(lm, Extents(first, last)))
  {
  }

  /** y with the dimensions of ranks r, r+1, ... set to first plus the given digits. */
  function Place(lm: seq<nat>, first: seq<int>, y: seq<int>, r: nat, digits: seq<int>): (x: seq<int>)
    requires |first| == |y| == |lm|
    ensures |x| == |lm|
  {
    seq(|lm|, i requires 0 <= i < |lm| =>
      if r <= lm[i] < r + |digits| then first[i] + digits[lm[i] - r] else y[i])
  }

  lemma {:induction false} PlaceHead(lm: seq<nat>, first: seq<int>, y: seq<int>, r: nat, c: int, digits: seq<int>)
    requires IsLayout(lm) && |first| == |y| == |lm| && r < |lm|
    ensures Place(lm, first, y, r, [c] + digits)
      == Place(lm, first, y[Find(lm, r) := first[Find(lm, r)] + c], r + 1, digits)
  {
    var left := Place(lm, first, y, r, [c] + digits);
    var right := Place(lm, first, y[Find(lm, r) := first[Find(lm, r)] + c], r + 1, digits);
    forall i | 0 <= i < |lm|
      ensures left[i] == right[i]
    {
      if lm[i] == r {
        assert i == Find(lm, r);
      } else if r < lm[i] < r + 1 + |digits| {
        assert ([c] + digits)[lm[i] - r] == digits[lm[i] - (r + 1)];
      }
    }
  }

  /** The outermost digit of c rows and m further positions. */
  lemma {:induction false} DecodeRow(e: seq<int>, c: nat, m: nat)
    requires Positive(e) && e != [] && m < Product(e[1..])
    ensures var n := c * Product(e[1..]) + m;
      n >= 0 && Decode(e, n) == [c] + Decode(e[1..], m)
  {
    var p := Product(e[1..]);
    ProductPositive(e[1..]);
    MulLe(0, c, p);
    DivUnique(c * p + m, p, c, m);
  }

  lemma {:induction false} PlaceOuter(lm: seq<nat>, first: seq<int>, y: seq<int>, r: nat, e: seq<int>, c: nat, m: nat)
    requires IsLayout(lm) && |first| == |y| == |lm| && r < |lm|
    requires Positive(e) && e != [] && m < Product(e[1..])
    ensures var n := c * Product(e[1..]) + m;
      n >= 0 && Place(lm, first, y, r, Decode(e, n))
        == Place(lm, first, y[Find(lm, r) := first[Find(lm, r)] + c], r + 1, Decode(e[1..], m))
  {
    DecodeRow(e, c, m);
    PlaceHead(lm, first, y, r, c, Decode(e[1..], m));
  }

  /** The first `count` coordinates of the loop nest over the ranks r, r+1, ..., r+|e|-1. */
  function Visits(lm: seq<nat>, first: seq<int>, y: seq<int>, r: nat, e: seq<int>, count: int): (v: seq<seq<int>>)
    requires |first| == |y| == |lm| && Positive(e) && count >= 0
  {
    seq(count, n requires 0 <= n < count => Place(lm, first, y, r, Decode(e, n)))
  }

  lemma {:induction false} MulNext(c: int, p: int)
    ensures (c + 1) * p == c * p + p
  {
  }

  /** One iteration of a loop contributes the next run of visits. */
  lemma {:induction false} VisitsStep(lm: seq<nat>, first: seq<int>, y: seq<int>, r: nat, e: seq<int>, c: nat)
    requires IsLayout(lm) && |first| == |y| == |lm| && r < |lm|
    requires Positive(e) && e != []
    ensures var p := Product(e[1..]);
      && c * p >= 0 && p > 0 && (c + 1) * p == c * p + p
      && Visits(lm, first, y, r, e, c * p)
         + Visits(lm, first, y[Find(lm, r) := first[Find(lm, r)] + c], r + 1, e[1..], p)
         == Visits(lm, first, y, r, e, (c + 1) * p)
  {
    var p := Product(e[1..]);
    ProductPositive(e[1..]);
    MulLe(0, c, p);
    MulNext(c, p);
    var y' := y[Find(lm, r) := first[Find(lm, r)] + c];
    var head := Visits(lm, first, y, r, e, c * p);
    var tail := Visits(lm, first, y', r + 1, e[1..], p);
    var all := Visits(lm, first, y, r, e, (c + 1) * p);
    assert |head + tail| == |all|;
    forall n | 0 <= n < c * p + p
      ensures (head + tail)[n] == all[n]
    {
      if n >= c * p {
        PlaceOuter(lm, first, y, r, e, c, n - c * p);
      }
    }
  }

  /** All visits of the nest, loop by loop: `Rows` collects the first c iterations of the
      outermost loop. */
  function AllVisits(lm: seq<nat>, first: seq<int>, y: seq<int>, r: nat, e: seq<int>): seq<seq<int>>
    requires IsLayout(lm) && |first| == |y| == |lm| && r + |e| <= |lm|
    decreases |e|, 0
  {
    if e == [] then [y] else VisitRows(lm, first, y, r, e, e[0])
  }

  function VisitRows(lm: seq<nat>, first: seq<int>, y: seq<int>, r: nat, e: seq<int>, c: int): seq<seq<int>>
    requires IsLayout(lm) && |first| == |y| == |lm| && 0 < |e| && r + |e| <= |lm|
    decreases |e| - 1, 1, c
  {
    if c <= 0 then []
    else
      var idx := Find(lm, r);
      VisitRows(lm, first, y, r, e, c - 1)
      + AllVisits(lm, first, y[idx := first[idx] + (c - 1)], r + 1, e[1..])
  }

  lemma {:induction false} AllVisitsClosed(lm: seq<nat>, first: seq<int>, y: seq<int>, r: nat, e: seq<int>)
    requires IsLayout(lm) && |first| == |y| == |lm| && r + |e| <= |lm| && Positive(e)
    ensures Product(e) > 0
    ensures AllVisits(lm, first, y, r, e) == Visits(lm, first, y, r, e, Product(e))
    decreases |e|, 0
  {
    ProductPositive(e);
    if e == [] {
      assert Place(lm, first, y, r, []) == y;
    } else {
      VisitRowsClosed(lm, first, y, r, e, e[0]);
    }
  }

  lemma {:induction false} VisitRowsClosed(lm: seq<nat>, first: seq<int>, y: seq<int>, r: nat, e: seq<int>, c: nat)
    requires IsLayout(lm) && |first| == |y| == |lm| && 0 < |e| && r + |e| <= |lm| && Positive(e)
    ensures c * Product(e[1..]) >= 0
    ensures VisitRows(lm, first, y, r, e, c) == Visits(lm, first, y, r, e, c * Product(e[1..]))
    decreases |e| - 1, 1, c
  {
    if c > 0 {
      VisitRowsClosed(lm, first, y, r, e, c - 1);
      VisitsStep(lm, first, y, r, e, c - 1);
      var idx := Find(lm, r);
      AllVisitsClosed(lm, first, y[idx := first[idx] + (c - 1)], r + 1, e[1..]);
    }
  }

  /** for_loop<D,I,Layout,Skip>: the coordinates passed to the functor, in call order. */
  method ForLoopLevel(lm: seq<nat>, first: seq<int>, last: seq<int>, y: seq<int>, level: nat, skip: nat)
    returns (visited: seq<seq<int>>)
    requires IsLayout(lm) && |first| == |last| == |y| == |lm| && Ordered(first, last)
    requires skip <= level <= |lm|
    ensures visited == AllVisits(lm, first, y, |lm| - level,
                                 Ranked(lm, Extents(first, last))[|lm| - level..|lm| - skip])
    decreases level
  {
    var D := |lm|;
    ghost var r := D - level;
    ghost var e := Ranked(lm, Extents(first, last))[r..D - skip];
    if level == skip {
      return [y];
    }
    var idx := Find(lm, D - level);
    assert e[1..] == Ranked(lm, Extents(first, last))[r + 1..D - skip];
    assert e[0] == last[idx] - first[idx] + 1;
    visited := [];
    var i := first[idx];
    while i <= last[idx]
      invariant first[idx] <= i <= last[idx] + 1
      invariant visited == VisitRows(lm, first, y, r, e, i - first[idx])
    {
      var x := y[idx := i];
      var inner := ForLoopLevel(lm, first, last, x, level - 1, skip);
      visited := visited + inner;
      i := i + 1;
    }
  }

  /** The n-th coordinate of the box [first, last] in layout order. */
  function Coordinate(lm: seq<nat>, first: seq<int>, last: seq<int>, n: nat): (x: seq<int>)
    requires IsLayout(lm) && |lm| == |first| && Ordered(first, last)
    ensures |x| == |lm|
  {
    OrderedExtents(lm, first, last);
    Add(first, Spread(lm, Decode(Ranked(lm, Extents(first, last)), n)))
  }

  /** Number of elements of the box. */
  function Size(lm: seq<nat>, first: seq<int>, last: seq<int>): int
    requires IsLayout(lm) && |lm| == |first| == |last|
  {
    Product(Ranked(lm, Extents(first, last)))
  }

  /** The full loop nest visits the box in layout order: the n-th call gets the n-th
      coordinate, and there is one call per element. */
  method ForLoop(lm: seq<nat>, first: seq<int>, last: seq<int>) returns (visited: seq<seq<int>>)
    requires IsLayout(lm) && |lm| == |first| && Ordered(first, last)
    ensures |visited| == Size(lm, first, last)
    ensures forall n :: 0 <= n < |visited| ==> visited[n] == Coordinate(lm, first, last, n)
  {
    visited := ForLoopLevel(lm, first, last, first, |lm|, 0);
    ghost var e := Ranked(lm, Extents(first, last));
    assert e[0..|lm|] == e;
    OrderedExtents(lm, first, last);
    AllVisitsClosed(lm, first, first, 0, e);
    forall n | 0 <= n < |visited|
      ensures visited[n] == Coordinate(lm, first, last, n)
    {
      var d := Decode(e, n);
      assert Place(lm, first, first, 0, d) == Add(first, Spread(lm, d));
    }
  }

  /** Index at which the loop nest visits x. */
  function IndexOf(lm: seq<nat>, first: seq<int>, last: seq<int>, x: seq<int>): int
    requires IsLayout(lm) && |lm| == |first| == |last| == |x|
  {
    Weighted(Spread(lm, Strides(Ranked(lm, Extents(first, last)), 1, 0)), Sub(x, first))
  }

  function Sub(a: seq<int>, b: seq<int>): (r: seq<int>)
    requires |a| == |b|
    ensures |r| == |a|
    ensures forall i {:trigger r[i]} :: 0 <= i < |a| ==> r[i] == a[i] - b[i]
  {
    seq(|a|, i requires 0 <= i < |a| => a[i] - b[i])
  }

  ghost predicate InBox(x: seq<int>, first: seq<int>, last: seq<int>) {
    |x| == |first| == |last| && forall i :: 0 <= i < |x| ==> first[i] <= x[i] <= last[i]
  }

  /** Every coordinate of the box is visited, at exactly one index, and nothing else is. */
  lemma {:induction false} VisitedOnce(lm: seq<nat>, first: seq<int>, last: seq<int>, x: seq<int>)
    requires IsLayout(lm) && |lm| == |first| && Ordered(first, last) && InBox(x, first, last)
    ensures 0 <= IndexOf(lm, first, last, x) < Size(lm, first, last)
    ensures Coordinate(lm, first, last, IndexOf(lm, first, last, x)) == x
  {
    OrderedExtents(lm, first, last);
    var ext := Extents(first, last);
    assert Within(Sub(x, first), ext);
    DotDecodeInverse(lm, ext, Sub(x, first));
    assert Add(first, Sub(x, first)) == x;
  }

  lemma {:induction false} VisitInBox(lm: seq<nat>, first: seq<int>, last: seq<int>, n: nat)
    requires IsLayout(lm) && |lm| == |first| && Ordered(first, last)
    requires n < Size(lm, first, last)
    ensures InBox(Coordinate(lm, first, last, n), first, last)
    ensures IndexOf(lm, first, last, Coordinate(lm, first, last, n)) == n
  {
    OrderedExtents(lm, first, last);
    var ext := Extents(first, last);
    DecodeDotInverse(lm, ext, n);
    var d := Spread(lm, Decode(Ranked(lm, ext), n));
    assert Within(d, ext);
    forall i | 0 <= i < |lm|
      ensures first[i] <= Coordinate(lm, first, last, n)[i] <= last[i]
    {
      assert 0 <= d[i] < ext[i];
    }
    assert Sub(Add(first, d), first) == d;
  }

  // ------------------------------------------------------ pointer arithmetic variant

  /** The first `count` calls of the pointer-arithmetic nest over the ranks of e: s are the
      strides, b the first coordinates plus shift, in rank order. */
  function Calls(s: seq<int>, b: seq<int>, e: seq<int>, offset: int, iter: int, inner: int, count: int): seq<(int, int)>
    requires |s| == |b| == |e| && Positive(e) && count >= 0
  {
    seq(count, n requires 0 <= n < count =>
      (offset + Weighted(s, Add(b, Decode(e, n))), (iter * Product(e) + n) * inner))
  }

  function AllCalls(s: seq<int>, b: seq<int>, e: seq<int>, offset: int, iter: int, inner: int): seq<(int, int)>
    requires |s| == |b| == |e|
    decreases |e|, 0
  {
    if e == [] then [(offset, iter * inner)] else CallRows(s, b, e, offset, iter, inner, e[0])
  }

  function CallRows(s: seq<int>, b: seq<int>, e: seq<int>, offset: int, iter: int, inner: int, c: int): seq<(int, int)>
    requires |s| == |b| == |e| > 0
    decreases |e| - 1, 1, c
  {
    if c <= 0 then []
    else
      CallRows(s, b, e, offset, iter, inner, c - 1)
      + AllCalls(s[1..], b[1..], e[1..], offset + (b[0] + (c - 1)) * s[0], iter * e[0] + (c - 1), inner)
  }

  lemma {:induction false} AllCallsClosed(s: seq<int>, b: seq<int>, e: seq<int>, offset: int, iter: int, inner: int)
    requires |s| == |b| == |e| && Positive(e)
    ensures Product(e) > 0
    ensures AllCalls(s, b, e, offset, iter, inner) == Calls(s, b, e, offset, iter, inner, Product(e))
    decreases |e|, 0
  {
    ProductPositive(e);
    if e != [] {
      CallRowsClosed(s, b, e, offset, iter, inner, e[0]);
    }
  }

  lemma {:induction false} CallRowsClosed(s: seq<int>, b: seq<int>, e: seq<int>, offset: int, iter: int, inner: int, c: nat)
    requires |s| == |b| == |e| > 0 && Positive(e)
    ensures c * Product(e[1..]) >= 0
    ensures CallRows(s, b, e, offset, iter, inner, c) == Calls(s, b, e, offset, iter, inner, c * Product(e[1..]))
    decreases |e| - 1, 1, c
  {
    if c > 0 {
      CallRowsClosed(s, b, e, offset, iter, inner, c - 1);
      CallsStep(s, b, e, offset, iter, c - 1, inner);
      AllCallsClosed(s[1..], b[1..], e[1..], offset + (b[0] + (c - 1)) * s[0], iter * e[0] + (c - 1), inner);
    }
  }

  /** for_loop_pointer_arithmetic<D,I,Layout>: the pairs of byte offsets passed to the functor. */
  method ForLoopPointerLevel(lm: seq<nat>, first: seq<int>, last: seq<int>, strides: seq<int>, shift: seq<int>,
                             level: nat, offset: int, iter: int)
    returns (calls: seq<(int, int)>)
    requires IsLayout(lm) && |lm| == |first| == |last| == |strides| == |shift| > 0 && Ordered(first, last)
    requires level <= |lm|
    ensures var r := |lm| - level;
      calls == AllCalls(Ranked(lm, strides)[r..], Ranked(lm, Add(first, shift))[r..],
                        Ranked(lm, Extents(first, last))[r..],
                        offset, iter, strides[Find(lm, |lm| - 1)])
    decreases level
  {
    var D := |lm|;
    ghost var r := D - level;
    ghost var e := Ranked(lm, Extents(first, last))[r..];
    ghost var s := Ranked(lm, strides)[r..];
    ghost var b := Ranked(lm, Add(first, shift))[r..];
    if level == 0 {
      var idx0 := Find(lm, D - 1);
      return [(offset, iter * strides[idx0])];
    }
    var idx := Find(lm, D - level);
    ghost var inner := strides[Find(lm, D - 1)];
    assert e[1..] == Ranked(lm, Extents(first, last))[r + 1..] && e[0] == last[idx] - first[idx] + 1;
    assert s[1..] == Ranked(lm, strides)[r + 1..] && s[0] == strides[idx];
    assert b[1..] == Ranked(lm, Add(first, shift))[r + 1..] && b[0] == first[idx] + shift[idx];
    calls := [];
    var it := iter * (last[idx] - first[idx] + 1);
    var i := first[idx];
    while i <= last[idx]
      invariant first[idx] <= i <= last[idx] + 1
      invariant it == iter * e[0] + (i - first[idx])
      invariant calls == CallRows(s, b, e, offset, iter, inner, i - first[idx])
    {
      assert i + shift[idx] == b[0] + (i - first[idx]);
      var sub := ForLoopPointerLevel(lm, first, last, strides, shift, level - 1,
                                     offset + (i + shift[idx]) * strides[idx], it);
      calls := calls + sub;
      i := i + 1;
      it := it + 1;
    }
  }

  lemma {:induction false} CallsStep(s: seq<int>, b: seq<int>, e: seq<int>, offset: int, iter: int, c: nat, inner: int)
    requires |s| == |b| == |e| > 0 && Positive(e)
    ensures var p := Product(e[1..]);
      && c * p >= 0 && p > 0 && (c + 1) * p == c * p + p
      && Calls(s, b, e, offset, iter, inner, c * p)
         + Calls(s[1..], b[1..], e[1..], offset + (b[0] + c) * s[0], iter * e[0] + c, inner, p)
         == Calls(s, b, e, offset, iter, inner, (c + 1) * p)
  {
    var p := Product(e[1..]);
    ProductPositive(e[1..]);
    MulLe(0, c, p);
    var head := Calls(s, b, e, offset, iter, inner, c * p);
    var tail := Calls(s[1..], b[1..], e[1..], offset + (b[0] + c) * s[0], iter * e[0] + c, inner, p);
    var all := Calls(s, b, e, offset, iter, inner, (c + 1) * p);
    forall n | 0 <= n < (c + 1) * p
      ensures (head + tail)[n] == all[n]
    {
      if n >= c * p {
        PointerStep(s, b, e, offset, iter, c, n - c * p, inner);
      }
    }
  }

  lemma {:induction false} RowPosition(iter: int, e0: int, c: int, p: int, m: int)
    ensures (iter * e0 + c) * p + m == iter * (e0 * p) + (c * p + m)
  {
  }

  lemma {:induction false} PointerStep(s: seq<int>, b: seq<int>, e: seq<int>, offset: int, iter: int, c: nat, m: nat, inner: int)
    requires |s| == |b| == |e| > 0 && Positive(e) && m < Product(e[1..])
    ensures var p := Product(e[1..]);
      c * p + m >= 0
      && (offset + (b[0] + c) * s[0] + Weighted(s[1..], Add(b[1..], Decode(e[1..], m))),
          ((iter * e[0] + c) * p + m) * inner)
      == (offset + Weighted(s, Add(b, Decode(e, c * p + m))), (iter * Product(e) + (c * p + m)) * inner)
  {
    DecodeRow(e, c, m);
    var x := Add(b, [c] + Decode(e[1..], m));
    assert x[1..] == Add(b[1..], Decode(e[1..], m)) && x[0] == b[0] + c;
    RowPosition(iter, e[0], c, Product(e[1..]), m);
  }

  /** Same visiting order as ForLoop: call n gets the address of the n-th coordinate shifted
      by the coordinate offset, and the n-th consecutive buffer position. */
  method ForLoopPointer(lm: seq<nat>, first: seq<int>, last: seq<int>, strides: seq<int>, shift: seq<int>)
    returns (calls: seq<(int, int)>)
    requires IsLayout(lm) && |lm| == |first| == |last| == |strides| == |shift| > 0 && Ordered(first, last)
    ensures |calls| == Size(lm, first, last)
    ensures forall n :: 0 <= n < |calls| ==>
      && calls[n].0 == Weighted(strides, Add(Coordinate(lm, first, last, n), shift))
      && calls[n].1 == n * strides[Find(lm, |lm| - 1)]
  {
    calls := ForLoopPointerLevel(lm, first, last, strides, shift, |lm|, 0, 0);
    ghost var e := Ranked(lm, Extents(first, last));
    ghost var s := Ranked(lm, strides);
    ghost var b := Ranked(lm, Add(first, shift));
    assert e[0..] == e && s[0..] == s && b[0..] == b;
    OrderedExtents(lm, first, last);
    AllCallsClosed(s, b, e, 0, 0, strides[Find(lm, |lm| - 1)]);
    forall n | 0 <= n < |calls|
      ensures calls[n].0 == Weighted(strides, Add(Coordinate(lm, first, last, n), shift))
      ensures calls[n].1 == n * strides[Find(lm, |lm| - 1)]
    {
      PointerAddress(lm, first, last, strides, shift, n);
    }
  }

  lemma {:induction false} PointerAddress(lm: seq<nat>, first: seq<int>, last: seq<int>, strides: seq<int>, shift: seq<int>, n: nat)
    requires IsLayout(lm) && |lm| == |first| == |last| == |strides| == |shift| && Ordered(first, last)
    requires Positive(Ranked(lm, Extents(first, last)))
    ensures Weighted(Ranked(lm, strides), Add(Ranked(lm, Add(first, shift)), Decode(Ranked(lm, Extents(first, last)), n)))
         == Weighted(strides, Add(Coordinate(lm, first, last, n), shift))
  {
    var d := Decode(Ranked(lm, Extents(first, last)), n);
    var x := Add(Coordinate(lm, first, last, n), shift);
    var rx := Add(Ranked(lm, Add(first, shift)), d);
    RankedSpread(lm, d);
    assert Ranked(lm, x) == rx;
    SpreadRanked(lm, strides);
    WeightedRanked(lm, Ranked(lm, strides), x);
  }
}

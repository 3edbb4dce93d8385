// Ranges of an RMA exchange and their iterators: a box of a field, walked chunk by chunk along
// the innermost dimension, and the put that copies one range into another.

module RmaRange {
  import opened MixedRadix
  import opened LoopNest
  import opened Copying

  /** Sizes and indices are 32-bit unsigned. */
  const WRAP: nat := 0x1_0000_0000
  const MAX_INT: nat := 0x7fff_ffff

  // ------------------------------------------------------------------ coordinates of chunks

  function Zeros(n: nat): (z: seq<int>)
    ensures |z| == n && forall i {:trigger z[i]} :: 0 <= i < n ==> z[i] == 0
  {
    seq(n, _ => 0)
  }

  /** Outer extents, in rank order: one chunk per combination. */
  function OuterOf(lm: seq<nat>, extent: seq<int>): seq<int>
    requires IsLayout(lm) && |extent| == |lm| > 0
  {
    Ranked(lm, extent)[..|lm| - 1]
  }

  /** Coordinate of chunk n, by direct decoding. */
  function ChunkAt(lm: seq<nat>, extent: seq<int>, n: nat): (x: seq<int>)
    requires IsLayout(lm) && |extent| == |lm| > 0 && Positive(extent)
    ensures |x| == |lm|
  {
    Spread(lm, Decode(OuterOf(lm, extent), n) + [0])
  }

  /** The coordinate one past the last chunk. */
  function EndOf(lm: seq<nat>, extent: seq<int>): (x: seq<int>)
    requires IsLayout(lm) && |extent| == |lm| > 0
    ensures |x| == |lm|
  {
    var inner := Find(lm, |lm| - 1);
    seq(|lm|, i requires 0 <= i < |lm| => if i == inner then extent[i] else extent[i] - 1)
  }

  /** Number of chunks. */
  function Chunks(lm: seq<nat>, extent: seq<int>): int
    requires IsLayout(lm) && |extent| == |lm| > 0
  {
    Product(OuterOf(lm, extent))
  }

  function CoordAt(lm: seq<nat>, extent: seq<int>, n: nat): (x: seq<int>)
    requires IsLayout(lm) && |extent| == |lm| > 0 && Positive(extent)
    ensures |x| == |lm|
  {
    if n < Chunks(lm, extent) then ChunkAt(lm, extent, n) else EndOf(lm, extent)
  }

  lemma {:induction false} ChunksPositive(lm: seq<nat>, extent: seq<int>)
    requires IsLayout(lm) && |extent| == |lm| > 0 && Positive(extent)
    ensures Positive(OuterOf(lm, extent)) && Chunks(lm, extent) > 0
  {
    ProductPositive(OuterOf(lm, extent));
  }

  // ------------------------------------------------------------------ the carry chain

  /** Every digit is at its largest. */
  ghost predicate AllMax(e: seq<int>, x: seq<int>)
    requires |e| == |x|
  {
    forall k :: 0 <= k < |e| ==> x[k] == e[k] - 1
  }

  /** One more, carrying from the last digit towards the first. */
  ghost function IncDigits(e: seq<int>, x: seq<int>): (y: seq<int>)
    requires |e| == |x|
    ensures |y| == |e|
  {
    var r := |e| - 1;
    if e == [] then []
    else if x[r] == e[r] - 1 then IncDigits(e[..r], x[..r]) + [0]
    else x[..r] + [x[r] + 1]
  }

  ghost predicate AddsOne(e: seq<int>, x: seq<int>)
    requires |e| == |x|
  {
    && (AllMax(e, x) <==> Flat(e, x) + 1 == Product(e))
    && (!AllMax(e, x) ==> Within(IncDigits(e, x), e) && Flat(e, IncDigits(e, x)) == Flat(e, x) + 1)
  }

  /** Carrying is adding one to the number that the digits denote. */
  lemma {:induction false} IncIsPlusOne(e: seq<int>, x: seq<int>)
    requires Within(x, e)
    ensures AddsOne(e, x)
  {
    if e != [] {
      var r := |e| - 1;
      IncIsPlusOne(e[..r], x[..r]);
      FlatRange(e[..r], x[..r]);
      assert e == e[..r] + [e[r]] && x == x[..r] + [x[r]];
      MaxDigit(e[..r], e[r], x[..r], x[r]);
      if !AllMax(e, x) {
        NextDigit(e[..r], e[r], x[..r], x[r]);
      }
    }
  }

  lemma {:induction false} AllMaxSnoc(e: seq<int>, l: int, x: seq<int>, k: int)
    requires |e| == |x|
    ensures AllMax(e + [l], x + [k]) <==> AllMax(e, x) && k == l - 1
  {
    var e', x' := e + [l], x + [k];
    if AllMax(e', x') {
      assert x'[|e|] == e'[|e|] - 1;
      forall i | 0 <= i < |e|
        ensures x[i] == e[i] - 1
      {
        assert x'[i] == e'[i] - 1;
      }
    }
  }

  lemma {:induction false} MaxDigit(e: seq<int>, l: int, x: seq<int>, k: int)
    requires |x| == |e| && 0 <= k < l && 0 <= Flat(e, x) < Product(e) && AddsOne(e, x)
    ensures AllMax(e + [l], x + [k]) <==> AllMax(e, x) && k == l - 1
    ensures AllMax(e + [l], x + [k]) <==> Flat(e + [l], x + [k]) + 1 == Product(e + [l])
  {
    AllMaxSnoc(e, l, x, k);
    FlatSnoc(e, l, x, k);
    ProductSnoc(e, l);
    LastDigit(Flat(e, x), Product(e), k, l);
  }

  lemma {:induction false} WithinSnoc(e: seq<int>, l: int, x: seq<int>, k: int)
    requires Within(x, e) && 0 <= k < l
    ensures Within(x + [k], e + [l])
  {
  }

  lemma {:induction false} IncSnoc(e: seq<int>, l: int, x: seq<int>, k: int)
    requires |e| == |x|
    ensures IncDigits(e + [l], x + [k]) == if k == l - 1 then IncDigits(e, x) + [0] else x + [k + 1]
  {
    assert (e + [l])[..|e|] == e && (x + [k])[..|e|] == x;
  }

  lemma {:induction false} NextDigit(e: seq<int>, l: int, x: seq<int>, k: int)
    requires Within(x, e) && 0 <= k < l && AddsOne(e, x) && !(AllMax(e, x) && k == l - 1)
    ensures Within(IncDigits(e + [l], x + [k]), e + [l])
    ensures Flat(e + [l], IncDigits(e + [l], x + [k])) == Flat(e + [l], x + [k]) + 1
  {
    var y, d := if k == l - 1 then IncDigits(e, x) else x, if k == l - 1 then 0 else k + 1;
    IncSnoc(e, l, x, k);
    WithinSnoc(e, l, y, d);
    FlatSnoc(e, l, x, k);
    FlatSnoc(e, l, y, d);
    NextNumber(Flat(e, x), Flat(e, y), k, d, l);
  }

  lemma {:induction false} NextNumber(f: int, g: int, k: int, d: int, l: int)
    requires if k == l - 1 then g == f + 1 && d == 0 else g == f && d == k + 1
    ensures g * l + d == f * l + k + 1
  {
    assert (f + 1) * l == f * l + l;
  }

  lemma {:induction false} LastDigit(f: int, p: int, k: int, l: int)
    requires 0 <= f < p && 0 <= k < l
    ensures f * l + k + 1 == p * l <==> f + 1 == p && k == l - 1
    ensures (f + 1) * l == f * l + l
  {
    if f + 1 < p {
      MulLe(f + 2, p, l);
      assert (f + 2) * l == f * l + 2 * l;
    } else {
      assert p * l == f * l + l;
    }
  }

  /** inc_coord<Dim, Dim, Layout>: nothing left to carry into. */
  method SetEnd(lm: seq<nat>, coord: array<int>, extent: seq<int>)
    requires IsLayout(lm) && coord.Length == |extent| == |lm| > 0
    modifies coord
    ensures coord[..] == EndOf(lm, extent)
    ensures forall i :: 0 <= i < |lm| ==> coord[i] == extent[i] - (if lm[i] == |lm| - 1 then 0 else 1)
  {
    var inner := Find(lm, |lm| - 1);
    for i := 0 to |lm|
      invariant forall a :: 0 <= a < i ==> coord[a] == extent[a] - 1
    {
      coord[i] := extent[i] - 1;
    }
    coord[inner] := extent[inner];
  }

  lemma {:induction false} TwoDigits(e: seq<int>, x: seq<int>)
    requires |e| == |x| == 2 && !AllMax(e, x)
    ensures IncDigits(e, x) == if x[1] == e[1] - 1 then [x[0] + 1, 0] else [x[0], x[1] + 1]
  {
    assert e[..1] == [e[0]] && x[..1] == [x[0]] && x[..1][..0] == [];
  }

  /** inc_coord<3, 1, Layout>: both outer digits without a further carry. */
  method IncCoord3(lm: seq<nat>, coord: array<int>, extent: seq<int>)
    requires IsLayout(lm) && coord.Length == |extent| == |lm| == 3
    requires coord[Find(lm, 1)] < extent[Find(lm, 1)]
    modifies coord
    ensures var e, before := Ranked(lm, extent)[..2], Ranked(lm, old(coord[..]));
      !AllMax(e, before[..2]) ==> Ranked(lm, coord[..]) == IncDigits(e, before[..2]) + before[2..]
  {
    ghost var e, before := Ranked(lm, extent)[..2], Ranked(lm, coord[..]);
    var y, z := Find(lm, 1), Find(lm, 0);
    var cond := coord[y] < extent[y] - 1;
    coord[y] := if cond then coord[y] + 1 else 0;
    coord[z] := coord[z] + (if cond then 0 else 1);
    if !AllMax(e, before[..2]) {
      TwoDigits(e, before[..2]);
    }
  }

  /** What adding one to the digits of rank |lm|-d-1 and outwards makes of a coordinate: the
      carried digits; the end coordinate when they are all at their largest, except in the
      special case for three dimensions, which is only ever reached when they are not. */
  ghost predicate Incremented(lm: seq<nat>, extent: seq<int>, before: seq<int>, after: seq<int>, d: nat)
    requires IsLayout(lm) && 1 <= d <= |lm| && |before| == |after| == |extent| == |lm|
  {
    var e, x := Ranked(lm, extent)[..|lm| - d], Ranked(lm, before);
    && (!AllMax(e, x[..|lm| - d]) ==> Ranked(lm, after) == IncDigits(e, x[..|lm| - d]) + x[|lm| - d..])
    && (AllMax(e, x[..|lm| - d]) && !(|lm| == 3 && d == 1) ==> after == EndOf(lm, extent))
  }

  /** The last digit is at its largest: it becomes zero and the others are incremented. */
  lemma {:induction false} CarryCase(lm: seq<nat>, extent: seq<int>, before: seq<int>, mid: seq<int>, after: seq<int>, d: nat)
    requires IsLayout(lm) && 1 <= d < |lm| && |before| == |mid| == |after| == |extent| == |lm| && !(|lm| == 3 && d == 1)
    requires before[Find(lm, |lm| - d - 1)] == extent[Find(lm, |lm| - d - 1)] - 1
    requires mid == before[Find(lm, |lm| - d - 1) := 0] && Incremented(lm, extent, mid, after, d + 1)
    ensures Incremented(lm, extent, before, after, d)
  {
    var r := |lm| - d - 1;
    assert Ranked(lm, mid) == Ranked(lm, before)[r := 0];
    CarryDigits(Ranked(lm, extent), Ranked(lm, before), r);
  }

  lemma {:induction false} CarryDigits(e: seq<int>, x: seq<int>, r: nat)
    requires r < |e| == |x| && e[r] - 1 == x[r]
    ensures AllMax(e[..r + 1], x[..r + 1]) <==> AllMax(e[..r], x[r := 0][..r])
    ensures IncDigits(e[..r + 1], x[..r + 1]) + x[r + 1..] == IncDigits(e[..r], x[r := 0][..r]) + x[r := 0][r..]
  {
    assert x[..r + 1][..r] == x[..r] == x[r := 0][..r] && e[..r + 1][..r] == e[..r];
    assert x[r := 0][r..] == [0] + x[r + 1..];
  }

  /** It is not: only that digit changes. */
  lemma {:induction false} NoCarryCase(lm: seq<nat>, extent: seq<int>, before: seq<int>, after: seq<int>, d: nat)
    requires IsLayout(lm) && 1 <= d < |lm| && |before| == |after| == |extent| == |lm|
    requires before[Find(lm, |lm| - d - 1)] != extent[Find(lm, |lm| - d - 1)] - 1
    requires after == before[Find(lm, |lm| - d - 1) := before[Find(lm, |lm| - d - 1)] + 1]
    ensures Incremented(lm, extent, before, after, d)
  {
    var r, e, x := |lm| - d - 1, Ranked(lm, extent), Ranked(lm, before);
    assert Ranked(lm, after) == x[r := x[r] + 1];
    assert x[..r + 1][r] != e[..r + 1][r] - 1 && x[..r + 1][..r] == x[..r];
  }

  /** inc_coord<Dim, D, Layout>. */
  method IncCoord(lm: seq<nat>, coord: array<int>, extent: seq<int>, d: nat)
    requires IsLayout(lm) && 1 <= d <= |lm| && coord.Length == |extent| == |lm|
    requires |lm| == 3 && d == 1 ==> coord[Find(lm, 1)] < extent[Find(lm, 1)]
    modifies coord
    ensures Incremented(lm, extent, old(coord[..]), coord[..], d)
    decreases |lm| - d
  {
    if |lm| == d {
      SetEnd(lm, coord, extent);
    } else if |lm| == 3 && d == 1 {
      IncCoord3(lm, coord, extent);
    } else {
      var i := Find(lm, |lm| - d - 1);
      ghost var before := coord[..];
      if coord[i] == extent[i] - 1 {
        coord[i] := 0;
        ghost var mid := coord[..];
        IncCoord(lm, coord, extent, d + 1);
        CarryCase(lm, extent, before, mid, coord[..], d);
      } else {
        coord[i] := coord[i] + 1;
        NoCarryCase(lm, extent, before, coord[..], d);
      }
    }
  }

  // ------------------------------------------------------------------ ranges

  /** Field is what the range needs to know of a field: its layout, its memory, and the number
      of components when its last dimension is the component. */
  datatype Range = Range(lm: seq<nat>, offset: seq<int>, extent: seq<int>, begin: seq<int>, end: seq<int>,
                         reducedStride: seq<int>, size: nat, numElements: nat, chunkSize: nat)

  /** Strides, in chunks, of the outer dimensions; one for the innermost. */
  function ReducedStride(lm: seq<nat>, extent: seq<int>): (s: seq<int>)
    requires IsLayout(lm) && |extent| == |lm| > 0
    ensures |s| == |lm|
  {
    seq(|lm|, i requires 0 <= i < |lm| =>
      if lm[i] == |lm| - 1 then 1 else Product(OuterOf(lm, extent)[lm[i] + 1..]))
  }

  ghost predicate RangeOk(r: Range) {
    && IsLayout(r.lm) && |r.extent| == |r.lm| == |r.offset| == |r.reducedStride| > 0 && Positive(r.extent)
    && r.begin == Zeros(|r.lm|) && r.end == EndOf(r.lm, r.extent)
    && r.size == Chunks(r.lm, r.extent) && r.chunkSize == r.extent[Find(r.lm, |r.lm| - 1)]
    && r.numElements == Product(Ranked(r.lm, r.extent)) == r.size * r.chunkSize < WRAP
    && r.reducedStride == ReducedStride(r.lm, r.extent)
  }

  /** Extent and offset of the range: those of the box, except for the component dimension,
      which the range covers whole. */
  function WithComponents(v: seq<int>, components: bool, c: int): (r: seq<int>)
    requires |v| > 0
    ensures |r| == |v|
  {
    if components then v[..|v| - 1] + [c] else v
  }

  lemma {:induction false} RemainingProduct(s: seq<int>, k: nat)
    requires k < |s|
    ensures Product(s[k..]) == s[k] * Product(s[k + 1..])
  {
    assert s[k..][1..] == s[k + 1..];
  }

  lemma {:induction false} DivExact(p: int, q: int)
    requires q > 0
    ensures p * q / q == p
  {
    DivUnique(p * q, q, p, 0);
  }

  /** Number of elements: chunks times chunk size. */
  lemma {:induction false} SizeSplits(lm: seq<nat>, extent: seq<int>)
    requires IsLayout(lm) && |extent| == |lm| > 0 && Positive(extent)
    ensures Product(extent) == Product(Ranked(lm, extent)) == Chunks(lm, extent) * extent[Find(lm, |lm| - 1)] > 0
  {
    ProductRanked(lm, extent);
    assert Ranked(lm, extent) == OuterOf(lm, extent) + [extent[Find(lm, |lm| - 1)]];
    ProductSnoc(OuterOf(lm, extent), extent[Find(lm, |lm| - 1)]);
    ProductPositive(extent);
  }

  /** The constructor's loop over the strides of the outer dimensions. */
  method ReducedStrides(lm: seq<nat>, extent: seq<int>) returns (s: seq<int>)
    requires IsLayout(lm) && |extent| == |lm| > 0
    ensures s == ReducedStride(lm, extent)
  {
    var D := |lm|;
    ghost var outer := OuterOf(lm, extent);
    s := Zeros(D)[Find(lm, D - 1) := 1];
    var prod := 1;
    assert outer[D - 1..] == [];
    for d := D - 1 downto 0
      invariant |s| == D && prod == Product(outer[d..])
      invariant forall i :: 0 <= i < D && lm[i] >= d ==> s[i] == ReducedStride(lm, extent)[i]
    {
      var i := Find(lm, d);
      RemainingProduct(outer, d);
      s := s[i := prod];
      MulComm(prod, extent[i]);
      prod := prod * extent[i];
    }
  }

  /** The constructor's loop over the dimensions: all vectors by dimension, and the number of
      elements. */
  method RangeVectors(offset: seq<int>, extent: seq<int>, components: bool, numComponents: nat)
    returns (off: seq<int>, ext: seq<int>, end: seq<int>, size: int)
    requires |offset| == |extent| > 0
    ensures off == WithComponents(offset, components, 0) && ext == WithComponents(extent, components, numComponents)
    ensures |end| == |ext| && forall a :: 0 <= a < |end| ==> end[a] == ext[a] - 1
    ensures size == Product(ext)
  {
    var D := |extent|;
    off, ext, end, size := [], [], [], 1;
    for i := 0 to D - 1
      invariant ext == extent[..i] && off == offset[..i] && |end| == i
      invariant forall a :: 0 <= a < i ==> end[a] == extent[a] - 1
      invariant size == Product(ext)
    {
      ProductSnoc(ext, extent[i]);
      ext, off, end, size := ext + [extent[i]], off + [offset[i]], end + [extent[i] - 1], size * extent[i];
    }
    var last := if components then numComponents else extent[D - 1];
    ProductSnoc(ext, last);
    ext, off, end, size := ext + [last], off + [if components then 0 else offset[D - 1]], end + [last - 1], size * last;
  }

  /** The constructor of rma_range. The box must be small enough for the 32-bit sizes. */
  method MakeRange(lm: seq<nat>, offset: seq<int>, extent: seq<int>, components: bool, numComponents: nat) returns (r: Range)
    requires IsLayout(lm) && |offset| == |extent| == |lm| > 0
    requires Positive(WithComponents(extent, components, numComponents))
    requires Product(WithComponents(extent, components, numComponents)) < WRAP
    ensures RangeOk(r) && r.lm == lm
    ensures r.extent == WithComponents(extent, components, numComponents)
    ensures r.offset == WithComponents(offset, components, 0)
  {
    var inner := Find(lm, |lm| - 1);
    var off, ext, end, size := RangeVectors(offset, extent, components, numComponents);
    end := end[inner := ext[inner]];
    assert end == EndOf(lm, ext);
    SizeSplits(lm, ext);
    DivExact(Chunks(lm, ext), ext[inner]);
    ChunksPositive(lm, ext);
    var strides := ReducedStrides(lm, ext);
    r := Range(lm, off, ext, Zeros(|lm|), end, strides, size / ext[inner], size, ext[inner]);
  }

  // ------------------------------------------------------------------ stepping

  /** Where stepping by n from index i leads: the source's 32-bit arithmetic, with its clamps. */
  function Stepped(size: nat, i: nat, n: int): (r: nat)
    requires i <= size < WRAP && -(MAX_INT as int) <= n <= MAX_INT
    ensures r <= size
  {
    if n < 0 && -n > i then 0
    else
      var j := (i + n) % WRAP;
      if j >= size then size else j
  }

  /** rma_range::inc(index, n, coord). */
  method IncBy(r: Range, index: nat, n: int, coord: array<int>) returns (j: nat)
    requires RangeOk(r) && coord.Length == |r.lm| && index <= r.size && -(MAX_INT as int) <= n <= MAX_INT
    modifies coord
    ensures j == Stepped(r.size, index, n)
    ensures coord[..] == CoordAt(r.lm, r.extent, j)
  {
    ChunksPositive(r.lm, r.extent);
    SizeSplits(r.lm, r.extent);
    if n < 0 && -n > index {
      BeginCoord(r.lm, r.extent);
      CopyInto(coord, r.begin);
      return 0;
    }
    j := (index + n) % WRAP;
    if j >= r.size {
      CopyInto(coord, r.end);
      j := r.size;
    } else {
      DecodeInto(r, j, coord);
    }
  }

  method CopyInto(a: array<int>, s: seq<int>)
    requires a.Length == |s|
    modifies a
    ensures a[..] == s
  {
    for i := 0 to |s|
      invariant forall k :: 0 <= k < i ==> a[k] == s[k]
    {
      a[i] := s[i];
    }
  }

  lemma {:induction false} DecodeZero(e: seq<int>)
    requires Positive(e)
    ensures Decode(e, 0) == Zeros(|e|)
  {
    ProductPositive(e);
    assert Within(Zeros(|e|), e);
    FlatZeros(e);
    DecodeFlat(e, Zeros(|e|));
  }

  lemma {:induction false} FlatZeros(e: seq<int>)
    ensures Flat(e, Zeros(|e|)) == 0
  {
    if e != [] {
      assert Zeros(|e|)[1..] == Zeros(|e[1..]|);
      FlatZeros(e[1..]);
    }
  }

  lemma {:induction false} BeginCoord(lm: seq<nat>, extent: seq<int>)
    requires IsLayout(lm) && |extent| == |lm| > 0 && Positive(extent)
    ensures CoordAt(lm, extent, 0) == Zeros(|lm|)
  {
    ChunksPositive(lm, extent);
    DecodeZero(OuterOf(lm, extent));
    assert ChunkAt(lm, extent, 0) == Zeros(|lm|);
  }

  lemma {:induction false} DecodeStep(e: seq<int>, d: nat, n: nat)
    requires d < |e| && Positive(e)
    ensures Positive(e[d..]) && Positive(e[d + 1..]) && Product(e[d + 1..]) > 0
    ensures var p := Product(e[d + 1..]);
      n / p >= 0 && n - n / p * p >= 0 && Decode(e[d..], n) == [n / p] + Decode(e[d + 1..], n - n / p * p)
  {
    assert e[d..][1..] == e[d + 1..];
    ProductPositive(e[d + 1..]);
    DivNat(n, Product(e[d + 1..]));
  }

  // Loop state: the digits of ranks below d are stored, and idx is what is left to decode.
  ghost predicate Decoding(lm: seq<nat>, outer: seq<int>, digits: seq<int>, coord: seq<int>, d: nat, idx: int) {
    && IsLayout(lm) && |coord| == |lm| > 0 && |outer| == |digits| == |lm| - 1 && d < |lm| && idx >= 0 && Positive(outer[d..])
    && Decode(outer[d..], idx) == digits[d..]
    && coord[Find(lm, |lm| - 1)] == 0
    && (forall k :: 0 <= k < d ==> coord[Find(lm, k)] == digits[k])
  }

  lemma {:induction false} DecodingStep(lm: seq<nat>, outer: seq<int>, digits: seq<int>, coord: seq<int>, d: nat, idx: nat)
    requires Decoding(lm, outer, digits, coord, d, idx) && d < |lm| - 1 && Positive(outer)
    ensures var p := Product(outer[d + 1..]);
      p > 0 && Decoding(lm, outer, digits, coord[Find(lm, d) := idx / p], d + 1, idx - idx / p * p)
  {
    DecodeStep(outer, d, idx);
    assert digits[d..][0] == digits[d] && digits[d..][1..] == digits[d + 1..];
  }

  /** One round of the division loop of inc. */
  method DecodeDigit(lm: seq<nat>, coord: array<int>, stride: int, d: nat, idx: nat, ghost outer: seq<int>, ghost digits: seq<int>)
    returns (rest: nat)
    requires Decoding(lm, outer, digits, coord[..], d, idx) && d < |lm| - 1 && Positive(outer)
    requires stride == Product(outer[d + 1..])
    modifies coord
    ensures Decoding(lm, outer, digits, coord[..], d + 1, rest)
  {
    ghost var before := coord[..];
    DecodingStep(lm, outer, digits, before, d, idx);
    coord[Find(lm, d)] := idx / stride;
    assert coord[..] == before[Find(lm, d) := idx / stride];
    rest := idx - idx / stride * stride;
  }

  lemma {:induction false} DecodingStart(lm: seq<nat>, extent: seq<int>, index: nat, coord: seq<int>)
    requires IsLayout(lm) && |coord| == |lm| == |extent| > 0 && Positive(extent) && coord[Find(lm, |lm| - 1)] == 0
    ensures Positive(OuterOf(lm, extent)) && Decoding(lm, OuterOf(lm, extent), Decode(OuterOf(lm, extent), index), coord, 0, index)
  {
    var outer := OuterOf(lm, extent);
    assert outer[0..] == outer && Decode(outer, index)[0..] == Decode(outer, index);
  }

  lemma {:induction false} DecodingEnd(lm: seq<nat>, extent: seq<int>, index: nat, coord: seq<int>, idx: int)
    requires IsLayout(lm) && |coord| == |lm| == |extent| > 0 && Positive(extent)
    requires Decoding(lm, OuterOf(lm, extent), Decode(OuterOf(lm, extent), index), coord, |lm| - 1, idx)
    ensures coord == ChunkAt(lm, extent, index)
  {
    SpreadDigits(lm, coord, Decode(OuterOf(lm, extent), index) + [0]);
  }

  /** The division loop of inc. */
  method DecodeInto(r: Range, index: nat, coord: array<int>)
    requires RangeOk(r) && coord.Length == |r.lm| && index < r.size
    modifies coord
    ensures coord[..] == ChunkAt(r.lm, r.extent, index)
  {
    ghost var outer := OuterOf(r.lm, r.extent);
    ghost var digits := Decode(outer, index);
    var idx := index;
    coord[Find(r.lm, |r.lm| - 1)] := 0;
    DecodingStart(r.lm, r.extent, index, coord[..]);
    for d := 0 to |r.lm| - 1
      invariant Decoding(r.lm, outer, digits, coord[..], d, idx)
    {
      idx := DecodeDigit(r.lm, coord, r.reducedStride[Find(r.lm, d)], d, idx, outer, digits);
    }
    DecodingEnd(r.lm, r.extent, index, coord[..], idx);
  }

  lemma {:induction false} SpreadDigits(lm: seq<nat>, v: seq<int>, digits: seq<int>)
    requires IsLayout(lm) && |v| == |lm| == |digits|
    requires forall k :: 0 <= k < |lm| ==> v[Find(lm, k)] == digits[k]
    ensures v == Spread(lm, digits)
  {
    assert Ranked(lm, v) == digits;
    SpreadRanked(lm, v);
  }

  /** What the carry chain makes of the coordinate of a chunk that is not the last. */
  lemma {:induction false} NextChunk(lm: seq<nat>, extent: seq<int>, index: nat)
    requires IsLayout(lm) && |extent| == |lm| > 0 && Positive(extent) && index + 1 < Chunks(lm, extent)
    ensures var outer, before := OuterOf(lm, extent), Ranked(lm, ChunkAt(lm, extent, index));
      && |before| == |lm| && Within(before[..|lm| - 1], outer) && before[|lm| - 1..] == [0]
      && !AllMax(outer, before[..|lm| - 1])
      && Spread(lm, IncDigits(outer, before[..|lm| - 1]) + [0]) == ChunkAt(lm, extent, index + 1)
  {
    ChunksPositive(lm, extent);
    var outer := OuterOf(lm, extent);
    var digits := Decode(outer, index);
    DecodeRange(outer, index);
    FlatDecode(outer, index);
    RankedSpread(lm, digits + [0]);
    IncIsPlusOne(outer, digits);
    DecodeFlat(outer, IncDigits(outer, digits));
  }

  /** rma_range::inc(index, coord). An iterator at the end stays there, unless the range has so
      many chunks that the 32-bit successor of its end index is zero. */
  method Inc(r: Range, index: nat, coord: array<int>) returns (j: nat)
    requires RangeOk(r) && coord.Length == |r.lm| && index <= r.size && coord[..] == CoordAt(r.lm, r.extent, index)
    modifies coord
    ensures j == Succ(r.size, index)
    ensures index + 1 < WRAP ==> coord[..] == CoordAt(r.lm, r.extent, j)
  {
    SizeFits(r);
    if (index + 1) % WRAP >= r.size {
      CopyInto(coord, r.end);
      return r.size;
    }
    ghost var before := coord[..];
    coord[Find(r.lm, |r.lm| - 1)] := 0;
    assert coord[..] == before[Find(r.lm, |r.lm| - 1) := 0];
    IncReady(r.lm, r.extent, index, before);
    IncOuter(r.lm, coord, r.extent, index);
    j := (index + 1) % WRAP;
  }

  /** The coordinate that the carry chain starts from. */
  lemma {:induction false} IncReady(lm: seq<nat>, extent: seq<int>, index: nat, coord: seq<int>)
    requires IsLayout(lm) && |extent| == |lm| == |coord| > 0 && Positive(extent)
    requires index <= Chunks(lm, extent) && coord == CoordAt(lm, extent, index)
    ensures index < Chunks(lm, extent) ==> coord[Find(lm, |lm| - 1) := 0] == ChunkAt(lm, extent, index)
    ensures |lm| == 3 ==> coord[Find(lm, |lm| - 1) := 0][Find(lm, 1)] < extent[Find(lm, 1)]
  {
    if index < Chunks(lm, extent) {
      DecodeRange(OuterOf(lm, extent), index);
      RankedSpread(lm, Decode(OuterOf(lm, extent), index) + [0]);
      assert Ranked(lm, coord)[|lm| - 1] == 0;
      if |lm| == 3 {
        assert Ranked(lm, coord)[1] == Decode(OuterOf(lm, extent), index)[1] < OuterOf(lm, extent)[1];
      }
    }
  }

  /** The index that ++ leads to. */
  function Succ(size: nat, index: nat): (j: nat)
    requires index <= size < WRAP
    ensures index < size ==> j == index + 1
    ensures index == size ==> j == if size + 1 < WRAP then size else 0
  {
    if index < size then index + 1 else if size + 1 < WRAP then size else 0
  }

  method IncOuter(lm: seq<nat>, coord: array<int>, extent: seq<int>, ghost index: nat)
    requires IsLayout(lm) && |extent| == |lm| == coord.Length > 0 && Positive(extent)
    requires |lm| == 3 ==> coord[Find(lm, 1)] < extent[Find(lm, 1)]
    modifies coord
    ensures index + 1 < Chunks(lm, extent) && old(coord[..]) == ChunkAt(lm, extent, index) ==>
      coord[..] == ChunkAt(lm, extent, index + 1)
  {
    ghost var before := coord[..];
    IncCoord(lm, coord, extent, 1);
    if index + 1 < Chunks(lm, extent) && before == ChunkAt(lm, extent, index) {
      NextChunk(lm, extent, index);
      SpreadRanked(lm, coord[..]);
    }
  }

  lemma {:induction false} SizeFits(r: Range)
    requires RangeOk(r)
    ensures r.size < WRAP
  {
    MulLe(1, r.chunkSize, r.size);
    MulComm(r.size, r.chunkSize);
  }

  // ------------------------------------------------------------------ iterators

  class RangeIterator {
    const range: Range
    const coord: array<int>
    var index: nat

    ghost predicate Valid()
      reads this, coord
    {
      && RangeOk(range) && coord.Length == |range.lm| && index <= range.size
      && coord[..] == CoordAt(range.lm, range.extent, index)
    }

    /** range.begin() */
    constructor Begin(r: Range)
      requires RangeOk(r)
      ensures Valid() && range == r && index == 0 && fresh(coord)
    {
      range, index := r, 0;
      coord := new int[|r.lm|];
      new;
      BeginCoord(r.lm, r.extent);
      CopyInto(coord, r.begin);
    }

    /** range.end() */
    constructor End(r: Range)
      requires RangeOk(r)
      ensures Valid() && range == r && index == r.size && fresh(coord)
    {
      range, index := r, r.size;
      coord := new int[|r.lm|];
      new;
      CopyInto(coord, r.end);
    }

    /** operator++ */
    method Next()
      requires Valid() && range.size < WRAP
      modifies this, coord
      ensures index == Succ(range.size, old(index)) && (old(index) + 1 < WRAP ==> Valid())
    {
      index := Inc(range, index, coord);
    }

    /** operator+= */
    method Advance(n: int)
      requires Valid() && -(MAX_INT as int) <= n <= MAX_INT && range.size < WRAP
      modifies this, coord
      ensures Valid() && index == Stepped(range.size, old(index), n)
    {
      index := IncBy(range, index, n, coord);
    }

    /** operator-- */
    method Prev()
      requires Valid() && range.size < WRAP
      modifies this, coord
      ensures Valid() && index == if old(index) == 0 then 0 else old(index) - 1
    {
      index := IncBy(range, index, -1, coord);
    }
  }

  function Clamp(size: nat, n: int): int {
    if n < 0 then 0 else if n > size then size else n
  }

  /** += n moves by n and stops at the ends, exactly when the 32-bit sum does not wrap. */
  lemma {:induction false} StepIsClamped(size: nat, i: nat, n: int)
    requires i <= size < WRAP && -(MAX_INT as int) <= n <= MAX_INT
    ensures Stepped(size, i, n) == Clamp(size, i + n) <==> i + n < WRAP
    ensures i + n >= WRAP ==> size > MAX_INT as int + 1 && Stepped(size, i, n) == i + n - WRAP
  {
  }

  /** A range of three dimensions whose extents fit into `int`, and a step that leaves its index
      behind where it started instead of at the end. */
  lemma {:induction false} StepWraps() returns (r: Range)
    ensures RangeOk(r) && r.extent == [0xC000, 0x1_0000, 1] && r.size == 0xC000_0000
    ensures Clamp(r.size, 0x9000_0000 + 0x7fff_ffff) == r.size && Stepped(r.size, 0x9000_0000, 0x7fff_ffff) == 0x0fff_ffff
  {
    var lm, extent := [0, 1, 2], [0xC000, 0x1_0000, 1];
    LargeExtents();
    r := Range(lm, [0, 0, 0], extent, Zeros(3), EndOf(lm, extent), ReducedStride(lm, extent), 0xC000_0000, 0xC000_0000, 1);
  }

  lemma {:induction false} LargeExtents()
    ensures IsLayout([0, 1, 2]) && Positive([0xC000, 0x1_0000, 1]) && [0xC000, 0x1_0000, 1][Find([0, 1, 2], 2)] == 1
    ensures Chunks([0, 1, 2], [0xC000, 0x1_0000, 1]) == Product(Ranked([0, 1, 2], [0xC000, 0x1_0000, 1])) == 0xC000_0000
  {
    var lm, extent := [0, 1, 2], [0xC000, 0x1_0000, 1];
    assert lm[0] == 0 && lm[1] == 1 && lm[2] == 2;
    assert IsLayout(lm);
    assert Ranked(lm, extent) == extent && OuterOf(lm, extent) == [0xC000, 0x1_0000];
    ThreeFactors(0xC000, 0x1_0000, 1);
  }

  lemma {:induction false} ThreeFactors(a: int, b: int, c: int)
    ensures Product([a, b]) == a * b && Product([a, b, c]) == a * b * c
  {
    assert [a, b, c][1..] == [b, c] && [b, c][1..] == [c] && [a, b][1..] == [b];
    assert Product([c]) == c && Product([b]) == b;
    assert Product([b, c]) == b * c;
  }

  /** += n and then -= n comes back, exactly when the first step is not clamped or starts at the
      end it would be clamped back to. */
  lemma {:induction false} StepBack(size: nat, i: nat, n: int)
    requires i <= size < WRAP && -(MAX_INT as int) <= n <= MAX_INT
    ensures Stepped(size, Stepped(size, i, n), -n) == i <==>
      0 <= i + n <= size || (i == 0 && n > size) || (i == size && -n > size)
  {
  }

  // Loop state of a traversal: the first n chunks.
  ghost predicate FirstChunks(r: Range, visited: seq<seq<int>>, n: nat)
    requires RangeOk(r)
  {
    |visited| == n <= r.size && forall k :: 0 <= k < n ==> visited[k] == ChunkAt(r.lm, r.extent, k)
  }

  lemma {:induction false} FirstChunksStep(r: Range, visited: seq<seq<int>>, n: nat, x: seq<int>)
    requires RangeOk(r) && FirstChunks(r, visited, n) && n < r.size && x == CoordAt(r.lm, r.extent, n)
    ensures FirstChunks(r, visited + [x], n + 1)
  {
  }

  /** From begin to end with ++: every chunk in layout order, each once. */
  method Traverse(r: Range) returns (visited: seq<seq<int>>)
    requires RangeOk(r)
    ensures |visited| == r.size
    ensures forall n :: 0 <= n < |visited| ==> visited[n] == ChunkAt(r.lm, r.extent, n)
  {
    SizeFits(r);
    var it := new RangeIterator.Begin(r);
    var end := new RangeIterator.End(r);
    visited := [];
    while it.index != end.index
      invariant it.Valid() && fresh(it) && fresh(it.coord) && it.range == r && end.index == r.size
      invariant FirstChunks(r, visited, it.index)
      decreases r.size - it.index
    {
      FirstChunksStep(r, visited, it.index, it.coord[..]);
      visited := visited + [it.coord[..]];
      it.Next();
    }
  }

  // ------------------------------------------------------------------ chunks tile the range

  function LastOf(extent: seq<int>): (l: seq<int>)
    ensures |l| == |extent| && forall i {:trigger l[i]} :: 0 <= i < |l| ==> l[i] == extent[i] - 1
  {
    seq(|extent|, i requires 0 <= i < |extent| => extent[i] - 1)
  }

  lemma {:induction false} RangeAsBox(lm: seq<nat>, extent: seq<int>)
    requires IsLayout(lm) && |extent| == |lm| > 0 && Positive(extent)
    ensures Ordered(Zeros(|lm|), LastOf(extent)) && Extents(Zeros(|lm|), LastOf(extent)) == extent
    ensures Outer(lm, Zeros(|lm|), LastOf(extent)) == OuterOf(lm, extent)
    ensures ChunkLength(lm, Zeros(|lm|), LastOf(extent)) == extent[Find(lm, |lm| - 1)]
  {
  }

  lemma {:induction false} ChunkStart(lm: seq<nat>, extent: seq<int>, n: nat)
    requires IsLayout(lm) && |extent| == |lm| > 0 && Positive(extent) && n < Chunks(lm, extent)
    ensures Ordered(Zeros(|lm|), LastOf(extent)) && 0 <= n * extent[Find(lm, |lm| - 1)]
    ensures Coordinate(lm, Zeros(|lm|), LastOf(extent), n * extent[Find(lm, |lm| - 1)]) == ChunkAt(lm, extent, n)
  {
    RangeAsBox(lm, extent);
    OuterInner(lm, Zeros(|lm|), LastOf(extent));
    DecodeSnoc(OuterOf(lm, extent), extent[Find(lm, |lm| - 1)], n, 0);
  }

  /** x is element k of chunk n. */
  ghost predicate InChunk(lm: seq<nat>, extent: seq<int>, x: seq<int>, n: nat, k: nat)
    requires IsLayout(lm) && |extent| == |lm| > 0 && Positive(extent)
  {
    && n < Chunks(lm, extent) && k < extent[Find(lm, |lm| - 1)]
    && x == ChunkAt(lm, extent, n)[Find(lm, |lm| - 1) := k]
  }

  /** Element k of chunk n is the element number n * chunk size + k of the box. */
  lemma {:induction false} InChunkIndex(lm: seq<nat>, extent: seq<int>, x: seq<int>, n: nat, k: nat)
    requires IsLayout(lm) && |extent| == |lm| > 0 && Positive(extent) && InChunk(lm, extent, x, n, k)
    ensures Within(x, extent)
    ensures Ordered(Zeros(|lm|), LastOf(extent))
    ensures IndexOf(lm, Zeros(|lm|), LastOf(extent), x) == n * extent[Find(lm, |lm| - 1)] + k
  {
    RangeAsBox(lm, extent);
    ChunkStart(lm, extent, n);
    ChunkElement(lm, Zeros(|lm|), LastOf(extent), n, k);
    VisitInBox(lm, Zeros(|lm|), LastOf(extent), n * extent[Find(lm, |lm| - 1)] + k);
    assert forall i :: 0 <= i < |x| ==> LastOf(extent)[i] == extent[i] - 1;
  }

  lemma {:induction false} ChunkAtIndex(lm: seq<nat>, extent: seq<int>, n: nat, k: nat)
    requires IsLayout(lm) && |extent| == |lm| > 0 && Positive(extent)
    requires n < Chunks(lm, extent) && k < extent[Find(lm, |lm| - 1)]
    ensures Ordered(Zeros(|lm|), LastOf(extent))
    ensures var i := n * extent[Find(lm, |lm| - 1)] + k;
      0 <= i < Size(lm, Zeros(|lm|), LastOf(extent)) && InChunk(lm, extent, Coordinate(lm, Zeros(|lm|), LastOf(extent), i), n, k)
  {
    RangeAsBox(lm, extent);
    ChunkStart(lm, extent, n);
    ChunkElement(lm, Zeros(|lm|), LastOf(extent), n, k);
  }

  /** Every element lies in a chunk. */
  lemma {:induction false} ChunkOf(lm: seq<nat>, extent: seq<int>, x: seq<int>) returns (n: nat, k: nat)
    requires IsLayout(lm) && |extent| == |lm| > 0 && Positive(extent) && Within(x, extent)
    ensures InChunk(lm, extent, x, n, k)
  {
    RangeAsBox(lm, extent);
    assert InBox(x, Zeros(|lm|), LastOf(extent));
    VisitedOnce(lm, Zeros(|lm|), LastOf(extent), x);
    OuterInner(lm, Zeros(|lm|), LastOf(extent));
    n, k := SplitIndex(IndexOf(lm, Zeros(|lm|), LastOf(extent), x), extent[Find(lm, |lm| - 1)], Chunks(lm, extent));
    ChunkAtIndex(lm, extent, n, k);
  }

  lemma {:induction false} SplitIndex(i: nat, l: int, p: int) returns (n: nat, k: nat)
    requires l > 0 && i < p * l
    ensures n < p && k < l && i == n * l + k
  {
    DivNat(i, l);
    n, k := i / l, i - i / l * l;
    ChunkBound(i, l, p);
  }

  /** The chunks tile the range: every element lies in exactly one chunk, at one position. */
  lemma {:induction false} ChunksTile(lm: seq<nat>, extent: seq<int>, x: seq<int>) returns (n: nat, k: nat)
    requires IsLayout(lm) && |extent| == |lm| > 0 && Positive(extent) && Within(x, extent)
    ensures InChunk(lm, extent, x, n, k)
    ensures forall n': nat, k': nat :: InChunk(lm, extent, x, n', k') ==> n' == n && k' == k
  {
    n, k := ChunkOf(lm, extent, x);
    forall n': nat, k': nat | InChunk(lm, extent, x, n', k')
      ensures n' == n && k' == k
    {
      SameChunk(lm, extent, x, n, k, n', k');
    }
  }

  lemma {:induction false} SameChunk(lm: seq<nat>, extent: seq<int>, x: seq<int>, n: nat, k: nat, n': nat, k': nat)
    requires IsLayout(lm) && |extent| == |lm| > 0 && Positive(extent)
    requires InChunk(lm, extent, x, n, k) && InChunk(lm, extent, x, n', k')
    ensures n' == n && k' == k
  {
    InChunkIndex(lm, extent, x, n, k);
    InChunkIndex(lm, extent, x, n', k');
    SameSplit(extent[Find(lm, |lm| - 1)], n, k, n', k');
  }

  lemma {:induction false} SameSplit(l: nat, n: nat, k: nat, n': nat, k': nat)
    requires k < l && k' < l && n * l + k == n' * l + k'
    ensures n == n' && k == k'
  {
    DivUnique(n * l + k, l, n, k);
    DivUnique(n * l + k, l, n', k');
  }

  lemma {:induction false} ChunkBound(i: nat, l: int, p: int)
    requires l > 0 && i < p * l
    ensures i / l < p
  {
    DivNat(i, l);
    if i / l >= p {
      MulLe(p, i / l, l);
    }
  }

  // ------------------------------------------------------------------ put

  /** Memory extents of a field and the position of its origin in them. */
  datatype Field = Field(memory: seq<int>, offsets: seq<int>)

  /** rma_range::ptr adds the range's offset, field_descriptor::ptr the field's. */
  function RegionOf(r: Range, f: Field): Region
    requires |r.offset| == |f.offsets|
  {
    Region(f.memory, Add(r.offset, f.offsets), 0)
  }

  ghost predicate RangeInField(r: Range, extent: seq<int>, f: Field)
    requires RangeOk(r)
  {
    && |f.memory| == |f.offsets| == |extent| == |r.lm| && Positive(f.memory) && Positive(extent)
    && Fits(r.lm, Zeros(|r.lm|), LastOf(extent), RegionOf(r, f))
  }

  /** Copying every element of the source range to the same place of the target range. */
  function PutMoves(s: Range, t: Range, fs: Field, ft: Field): seq<Move>
    requires RangeOk(s) && RangeOk(t) && s.lm == t.lm
    requires |fs.memory| == |fs.offsets| == |ft.memory| == |ft.offsets| == |s.lm|
  {
    RangeAsBox(s.lm, s.extent);
    BoxMoves(s.lm, Zeros(|s.lm|), LastOf(s.extent), RegionOf(s, fs), RegionOf(t, ft))
  }

  ghost predicate PutReady(s: Range, t: Range, fs: Field, ft: Field, srcSize: nat, dstSize: nat) {
    && RangeOk(s) && RangeOk(t) && s.lm == t.lm
    && RangeInField(s, s.extent, fs) && RangeInField(t, s.extent, ft)
    && srcSize == Product(Ranked(s.lm, fs.memory)) && dstSize == Product(Ranked(t.lm, ft.memory))
  }

  lemma {:induction false} PutMovesOk(s: Range, t: Range, fs: Field, ft: Field, srcSize: nat, dstSize: nat)
    requires PutReady(s, t, fs, ft, srcSize, dstSize)
    ensures InMemory(PutMoves(s, t, fs, ft), srcSize, dstSize) && Apart(PutMoves(s, t, fs, ft))
    ensures |PutMoves(s, t, fs, ft)| == s.numElements
  {
    RangeAsBox(s.lm, s.extent);
    BoxMovesOk(s.lm, Zeros(|s.lm|), LastOf(s.extent), RegionOf(s, fs), RegionOf(t, ft));
  }

  /** Where the chunk with coordinate c begins in a field. */
  function ChunkPtr(r: Range, f: Field, c: seq<int>): int
    requires IsLayout(r.lm) && |f.memory| == |f.offsets| == |r.offset| == |r.lm| == |c|
  {
    Address(r.lm, RegionOf(r, f), c)
  }

  /** Element k of chunk n is move number n * chunk size + k. */
  lemma {:induction false} PutMoveAt(s: Range, t: Range, fs: Field, ft: Field, n: nat, k: nat)
    requires RangeOk(s) && RangeOk(t) && s.lm == t.lm && n < s.size && k < s.chunkSize
    requires |fs.memory| == |fs.offsets| == |ft.memory| == |ft.offsets| == |s.lm|
    ensures n * s.chunkSize >= 0
    ensures var x := ChunkAt(s.lm, s.extent, n);
      RunAt(PutMoves(s, t, fs, ft), n * s.chunkSize, ChunkPtr(s, fs, x), ChunkPtr(t, ft, x), k)
  {
    RangeAsBox(s.lm, s.extent);
    ChunkStart(s.lm, s.extent, n);
    ChunkContiguous(s.lm, Zeros(|s.lm|), LastOf(s.extent), RegionOf(s, fs), n, k);
    ChunkContiguous(s.lm, Zeros(|s.lm|), LastOf(s.extent), RegionOf(t, ft), n, k);
  }

  lemma {:induction false} BeginToEnd(r: Range)
    requires RangeOk(r)
    ensures Ordered(r.begin, r.end)
    ensures Ranked(r.lm, Extents(r.begin, r.end))[0..|r.lm| - 1] == OuterOf(r.lm, r.extent)
  {
  }

  /** The coordinates put's loop nest passes to its functor. */
  method PutCoordinates(s: Range) returns (visited: seq<seq<int>>)
    requires RangeOk(s)
    ensures |visited| == s.size
    ensures forall n :: 0 <= n < |visited| ==> visited[n] == ChunkAt(s.lm, s.extent, n)
  {
    BeginToEnd(s);
    visited := ForLoopLevel(s.lm, s.begin, s.end, s.begin, |s.lm|, 1);
    ghost var outer := OuterOf(s.lm, s.extent);
    ChunksPositive(s.lm, s.extent);
    AllVisitsClosed(s.lm, s.begin, s.begin, 0, outer);
    forall n | 0 <= n < |visited|
      ensures visited[n] == ChunkAt(s.lm, s.extent, n)
    {
      assert Place(s.lm, s.begin, s.begin, 0, Decode(outer, n)) == Spread(s.lm, Decode(outer, n) + [0]);
    }
  }

  /** A chunk is a contiguous run of moves. */
  lemma {:induction false} ChunkRun(s: Range, t: Range, fs: Field, ft: Field, n: nat)
    requires RangeOk(s) && RangeOk(t) && s.lm == t.lm && n < s.size
    requires |fs.memory| == |fs.offsets| == |ft.memory| == |ft.offsets| == |s.lm|
    ensures n * s.chunkSize >= 0 && n * s.chunkSize + s.chunkSize == (n + 1) * s.chunkSize
    ensures var x := ChunkAt(s.lm, s.extent, n);
      Run(PutMoves(s, t, fs, ft), n * s.chunkSize, ChunkPtr(s, fs, x), ChunkPtr(t, ft, x), s.chunkSize)
  {
    var x := ChunkAt(s.lm, s.extent, n);
    PutMoveAt(s, t, fs, ft, n, s.chunkSize - 1);
    forall i | 0 <= i < s.chunkSize
      ensures RunAt(PutMoves(s, t, fs, ft), n * s.chunkSize, ChunkPtr(s, fs, x), ChunkPtr(t, ft, x), i)
    {
      PutMoveAt(s, t, fs, ft, n, i);
    }
  }

  /** put for two CPU fields whose components are not fused: the same as copying element by
      element. */
  method Put<T>(s: Range, t: Range, fs: Field, ft: Field, src: array<T>, dst: array<T>)
    requires PutReady(s, t, fs, ft, src.Length, dst.Length) && src != dst
    modifies dst
    ensures InMemory(PutMoves(s, t, fs, ft), src.Length, dst.Length)
    ensures dst[..] == Copied(old(dst[..]), src[..], PutMoves(s, t, fs, ft))
  {
    var visited := PutCoordinates(s);
    ghost var before, moves := dst[..], PutMoves(s, t, fs, ft);
    PutMovesOk(s, t, fs, ft, src.Length, dst.Length);
    for n := 0 to |visited|
      invariant ChunksDone(before, dst[..], src[..], moves, n, s.chunkSize)
    {
      ChunkRun(s, t, fs, ft, n);
      CopyChunk(src, dst, ChunkPtr(s, fs, visited[n]), ChunkPtr(t, ft, visited[n]), s.chunkSize, before, moves, n);
    }
    AllChunksDone(before, dst[..], src[..], moves, |visited|, s.chunkSize);
  }

  /** What put achieves: each element of the target range holds the element of the source range
      with the same coordinate, and the rest of the target field is unchanged. */
  lemma {:induction false} PutResult<T>(s: Range, t: Range, fs: Field, ft: Field, src: seq<T>, dst: seq<T>)
    requires PutReady(s, t, fs, ft, |src|, |dst|)
    ensures InMemory(PutMoves(s, t, fs, ft), |src|, |dst|)
    ensures forall x :: Within(x, s.extent) ==>
      && 0 <= Address(s.lm, RegionOf(s, fs), x) < |src| && 0 <= Address(t.lm, RegionOf(t, ft), x) < |dst|
      && Copied(dst, src, PutMoves(s, t, fs, ft))[Address(t.lm, RegionOf(t, ft), x)] == src[Address(s.lm, RegionOf(s, fs), x)]
    ensures forall i :: 0 <= i < |dst| && (forall x :: Within(x, s.extent) ==> Address(t.lm, RegionOf(t, ft), x) != i) ==>
      Copied(dst, src, PutMoves(s, t, fs, ft))[i] == dst[i]
  {
    var first, last := Zeros(|s.lm|), LastOf(s.extent);
    RangeAsBox(s.lm, s.extent);
    BoxCopied(s.lm, first, last, RegionOf(s, fs), RegionOf(t, ft), src, dst);
    forall x
      ensures Within(x, s.extent) <==> InBox(x, first, last)
    {
      WithinIsInBox(x, s.extent);
    }
  }

  lemma {:induction false} WithinIsInBox(x: seq<int>, extent: seq<int>)
    ensures Within(x, extent) <==> InBox(x, Zeros(|extent|), LastOf(extent))
  {
    if InBox(x, Zeros(|extent|), LastOf(extent)) {
      assert forall i :: 0 <= i < |x| ==> LastOf(extent)[i] == extent[i] - 1 && Zeros(|extent|)[i] == 0;
    }
  }

  /** The kernel's split of a thread index into a chunk and a position in it. */
  method SplitThread(s: Range, t: Range, index: nat, ghost fs: Field, ghost ft: Field) returns (line: nat, x: nat)
    requires RangeOk(s) && RangeOk(t) && s.lm == t.lm && |fs.memory| == |fs.offsets| == |ft.memory| == |ft.offsets| == |s.lm|
    requires index < s.numElements == |PutMoves(s, t, fs, ft)|
    ensures line < s.size
    ensures var c := ChunkAt(s.lm, s.extent, line);
      PutMoves(s, t, fs, ft)[index] == Move(ChunkPtr(s, fs, c) + x, ChunkPtr(t, ft, c) + x)
  {
    line, x := SplitBy(index, s.chunkSize, s.size);
    PutMoveAtIndex(s, t, fs, ft, line, x, index);
  }

  lemma {:induction false} PutMoveAtIndex(s: Range, t: Range, fs: Field, ft: Field, n: nat, k: nat, index: nat)
    requires RangeOk(s) && RangeOk(t) && s.lm == t.lm && n < s.size && k < s.chunkSize && index == n * s.chunkSize + k
    requires |fs.memory| == |fs.offsets| == |ft.memory| == |ft.offsets| == |s.lm|
    ensures var c := ChunkAt(s.lm, s.extent, n);
      index < |PutMoves(s, t, fs, ft)| && PutMoves(s, t, fs, ft)[index] == Move(ChunkPtr(s, fs, c) + k, ChunkPtr(t, ft, c) + k)
  {
    PutMoveAt(s, t, fs, ft, n, k);
  }

  method SplitBy(index: nat, l: nat, ghost p: nat) returns (line: nat, x: nat)
    requires l > 0 && index < p * l
    ensures line < p && x < l && index == line * l + x
  {
    DivNat(index, l);
    ChunkBound(index, l, p);
    line := index / l;
    x := index - line * l;
  }

  /** *(begin() += line) */
  method LinePtr(r: Range, f: Field, line: nat) returns (p: int)
    requires RangeOk(r) && |f.memory| == |f.offsets| == |r.lm| && line < r.size <= MAX_INT
    ensures p == ChunkPtr(r, f, ChunkAt(r.lm, r.extent, line))
  {
    var it := new RangeIterator.Begin(r);
    it.Advance(line);
    p := ChunkPtr(r, f, it.coord[..]);
  }

  /** Thread `index` of put_device_to_device_kernel. */
  method PutThread<T>(s: Range, t: Range, fs: Field, ft: Field, src: array<T>, dst: array<T>, index: nat)
    requires RangeOk(s) && RangeOk(t) && s.lm == t.lm && src != dst
    requires |fs.memory| == |fs.offsets| == |ft.memory| == |ft.offsets| == |s.lm|
    requires s.size <= MAX_INT && t.size == s.size && t.extent == s.extent
    requires InMemory(PutMoves(s, t, fs, ft), src.Length, dst.Length) && |PutMoves(s, t, fs, ft)| == s.numElements
    modifies dst
    ensures dst[..] == if index < s.numElements then
        old(dst[..])[PutMoves(s, t, fs, ft)[index].dst := src[PutMoves(s, t, fs, ft)[index].src]]
      else old(dst[..])
  {
    if index < s.numElements {
      var line, x := SplitThread(s, t, index, fs, ft);
      var from := LinePtr(s, fs, line);
      var to := LinePtr(t, ft, line);
      dst[to + x] := src[from + x];
    }
  }

  /** The kernel with its threads in any order: the same result as put on the CPU. */
  method PutKernel<T>(s: Range, t: Range, fs: Field, ft: Field, src: array<T>, dst: array<T>, order: seq<nat>)
    requires PutReady(s, t, fs, ft, src.Length, dst.Length) && src != dst
    requires s.size <= MAX_INT && t.size == s.size && t.extent == s.extent
    requires EachOnce(order) && forall n: nat :: n < s.numElements ==> n in order
    modifies dst
    ensures InMemory(PutMoves(s, t, fs, ft), src.Length, dst.Length)
    ensures dst[..] == Copied(old(dst[..]), src[..], PutMoves(s, t, fs, ft))
  {
    PutMovesOk(s, t, fs, ft, src.Length, dst.Length);
    ghost var before, moves := dst[..], PutMoves(s, t, fs, ft);
    for i := 0 to |order|
      invariant InMemory(Picked(moves, order[..i]), src.Length, dst.Length)
      invariant dst[..] == Copied(before, src[..], Picked(moves, order[..i]))
    {
      PickedStep(before, src[..], moves, order, i);
      PutThread(s, t, fs, ft, src, dst, order[i]);
    }
    assert order[..|order|] == order;
    AnyThreadOrder(before, src[..], moves, order);
  }
}

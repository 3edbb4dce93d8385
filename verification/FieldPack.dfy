// Packing a field as its descriptor does it: one batched kernel call per iteration space, slice
// after slice, and when the slices have the size that was reserved for them.

module FieldPack {
  import opened MixedRadix
  import opened LoopNest
  import opened Pattern
  import opened CommObject
  import opened Copying
  import opened PackKernels
  import opened Cells

  // ------------------------------------------------------------------ the slice of one space

  /** Extents of the buffer that make_buffer_desc strides over. The component dimension gets
      one more than there are components. */
  function BufferMemory(kind: FieldKind, b: Box): seq<int>
    requires |b.first| == |b.last|
  {
    Extents(b.first, b.last) + (if kind.components then [kind.comps + 1] else [])
  }

  function Negated(x: seq<int>): (r: seq<int>)
    ensures |r| == |x| && forall i {:trigger r[i]} :: 0 <= i < |x| ==> r[i] == -x[i]
  {
    seq(|x|, i requires 0 <= i < |x| => -x[i])
  }

  /** The slice of a space, from position `at` of the buffer: coordinates relative to the first
      one, strides from the extents of the global box. */
  function BufferRegion(kind: FieldKind, p: SpacePair, at: int): Region
    requires |p.global.first| == |p.global.last|
  {
    Region(BufferMemory(kind, p.global), Negated(First(kind, p.local)), at)
  }

  /** Every stride spans the global box's extent of the next inner dimension, and one component more
      than there are. */
  ghost predicate BufferSpanning(kind: FieldKind, p: SpacePair, strides: seq<int>, dims: nat)
    requires |p.global.first| == |p.global.last| == dims
  {
    && |strides| == |kind.layout|
    && (forall i :: 0 <= i < |strides| && kind.layout[i] == |strides| - 1 ==> strides[i] == 1)
    && (forall i, j :: 0 <= i < |strides| && 0 <= j < |strides| && kind.layout[j] == kind.layout[i] + 1 ==>
          strides[i] == strides[j] * (if j < dims then p.global.last[j] - p.global.first[j] + 1 else kind.comps + 1))
  }

  lemma {:induction false} BufferStridesSpan(kind: FieldKind, p: SpacePair, strides: seq<int>, dims: nat)
    requires KindOk(kind, dims) && |p.global.first| == |p.global.last| == dims
    requires Spanning(kind.layout, BufferMemory(kind, p.global), strides, 1, 0)
    ensures BufferSpanning(kind, p, strides, dims)
  {
    var e := BufferMemory(kind, p.global);
    forall j | 0 <= j < |e|
      ensures e[j] == if j < dims then p.global.last[j] - p.global.first[j] + 1 else kind.comps + 1
    {
    }
  }

  /** make_buffer_desc: the strides, computed from the coordinates of the global box. */
  method MakeBufferStrides(kind: FieldKind, p: SpacePair, ghost dims: nat) returns (strides: seq<int>)
    requires KindOk(kind, dims) && |p.global.first| == |p.global.last| == dims > 0
    ensures strides == ElementStrides(kind.layout, BufferMemory(kind, p.global))
    ensures BufferSpanning(kind, p, strides, dims)
  {
    var offset := if kind.components then p.global.first + [0] else p.global.first;
    var extents := if kind.components then p.global.last + [kind.comps] else p.global.last;
    extents := Extents(offset, extents);
    assert extents == BufferMemory(kind, p.global);
    var s := new int[|kind.layout|];
    ComputeStrides(kind.layout, extents, s);
    strides := s[..];
    BufferStridesSpan(kind, p, strides, dims);
  }

  // ------------------------------------------------------------------ arithmetic

  lemma {:induction false} ProductAppend(a: seq<int>, b: seq<int>)
    ensures Product(a + b) == Product(a) * Product(b)
  {
    if a == [] {
      assert a + b == b;
    } else {
      assert (a + b)[1..] == a[1..] + b;
      ProductAppend(a[1..], b);
      MulAssoc(a[0], Product(a[1..]), Product(b));
    }
  }

  lemma {:induction false} FlatAppend(a: seq<int>, b: seq<int>, x: seq<int>, y: seq<int>)
    requires |x| == |a| && |y| == |b|
    ensures Flat(a + b, x + y) == Flat(a, x) * Product(b) + Flat(b, y)
  {
    if a == [] {
      assert a + b == b && x + y == y;
    } else {
      assert (a + b)[1..] == a[1..] + b && (x + y)[1..] == x[1..] + y;
      FlatAppend(a[1..], b, x[1..], y);
      ProductAppend(a[1..], b);
      FlatSnocStep(x[0], Product(a[1..]), Product(b), Flat(a[1..], x[1..]));
    }
  }

  function Largest(e: seq<int>): (x: seq<int>)
    ensures |x| == |e| && forall i {:trigger x[i]} :: 0 <= i < |e| ==> x[i] == e[i] - 1
  {
    seq(|e|, i requires 0 <= i < |e| => e[i] - 1)
  }

  lemma {:induction false} FlatLargest(e: seq<int>)
    ensures Flat(e, Largest(e)) == Product(e) - 1
  {
    if e != [] {
      assert Largest(e)[1..] == Largest(e[1..]);
      FlatLargest(e[1..]);
      ScaleDiff(Product(e[1..]), e[0], 1);
      MulComm(e[0] - 1, Product(e[1..]));
      MulComm(e[0], Product(e[1..]));
    }
  }

  ghost predicate Ones(e: seq<int>) {
    forall k :: 0 <= k < |e| ==> e[k] == 1
  }

  lemma {:induction false} ProductOnes(e: seq<int>)
    requires Positive(e)
    ensures Product(e) > 0
    ensures Ones(e) <==> Product(e) == 1
  {
    ProductPositive(e);
    if e != [] {
      ProductOnes(e[1..]);
      var p := Product(e[1..]);
      if e[0] >= 2 {
        MulLe(2, e[0], p);
      } else {
        assert e[0] == 1 && Product(e) == p;
      }
      assert Ones(e) <==> e[0] == 1 && Ones(e[1..]);
    }
  }

  lemma {:induction false} FlatOnes(e: seq<int>, x: seq<int>)
    requires Ones(e) && Within(x, e)
    ensures Flat(e, x) == 0
  {
    if e != [] {
      FlatOnes(e[1..], x[1..]);
    }
  }

  // ------------------------------------------------------------------ positions in the slice

  /** Widening one radix keeps the numbers of all digits when the radices before it are one. */
  lemma {:induction false} WidenedSame(e: seq<int>, c: nat, w: int, x: seq<int>)
    requires c < |e| && Within(x, e) && Ones(e[..c])
    ensures Flat(e[c := w], x) == Flat(e, x)
  {
    var a, b, wide := e[..c], e[c..], e[c := w][c..];
    assert e == a + b && e[c := w] == a + wide && x == x[..c] + x[c..];
    FlatAppend(a, b, x[..c], x[c..]);
    FlatAppend(a, wide, x[..c], x[c..]);
    FlatOnes(a, x[..c]);
    assert b[1..] == wide[1..];
  }

  /** Otherwise the largest digits give a number past the end. */
  lemma {:induction false} WidenedLarger(e: seq<int>, c: nat)
    requires c < |e| && Positive(e) && !Ones(e[..c])
    ensures Flat(e[c := e[c] + 1], Largest(e)) >= Product(e)
  {
    var a, b, wide := e[..c], e[c..], e[c := e[c] + 1][c..];
    assert e == a + b && e[c := e[c] + 1] == a + wide && Largest(e) == Largest(a) + Largest(b);
    FlatAppend(a, wide, Largest(a), Largest(b));
    FlatLargest(a);
    ProductAppend(a, b);
    ProductOnes(a);
    ProductOnes(b[1..]);
    assert wide[1..] == b[1..] && Largest(b)[1..] == Largest(b[1..]);
    FlatLargest(b[1..]);
    WidenedCount(Product(a), e[c], Product(b[1..]));
  }

  lemma {:induction false} WidenedCount(a: int, n: int, b: int)
    requires a >= 2 && n >= 1 && b >= 1
    ensures (a - 1) * ((n + 1) * b) + ((n - 1) * b + b - 1) >= a * (n * b)
  {
    assert (n + 1) * b == n * b + b && (n - 1) * b == n * b - b;
    assert (a - 1) * (n * b + b) == a * (n * b) - n * b + (a - 1) * b by {
      assert (a - 1) * (n * b + b) == (a - 1) * (n * b) + (a - 1) * b;
    }
    MulLe(1, a - 1, b);
  }

  /** Extents of the slice's cells in rank order, with and without the extra component. */
  lemma {:induction false} WidenedRanks(kind: FieldKind, p: SpacePair, dims: nat)
    requires KindOk(kind, dims) && PairMatches(p, dims)
    ensures |BufferMemory(kind, p.global)| == |kind.layout|
    ensures var e := Ranked(kind.layout, Extents(First(kind, p.local), Last(kind, p.local)));
      && Positive(e)
      && (kind.components ==> Ranked(kind.layout, BufferMemory(kind, p.global)) == e[kind.layout[dims] := kind.comps + 1] && e[kind.layout[dims]] == kind.comps)
      && (!kind.components ==> Ranked(kind.layout, BufferMemory(kind, p.global)) == e)
  {
    BoxOrdered(kind, p.local, dims);
    OrderedExtents(kind.layout, First(kind, p.local), Last(kind, p.local));
    if kind.components {
      assert Extents(First(kind, p.local), Last(kind, p.local)) == Extents(p.local.first, p.local.last) + [kind.comps];
      RankedAt(kind.layout, Extents(First(kind, p.local), Last(kind, p.local)), dims);
    }
  }

  /** Dense means that all radices before the components are one. */
  lemma {:induction false} DenseIsOnes(kind: FieldKind, p: SpacePair, dims: nat)
    requires KindOk(kind, dims) && PairMatches(p, dims) && kind.components
    ensures Dense(kind, p.local, dims) <==>
      Ones(Ranked(kind.layout, Extents(First(kind, p.local), Last(kind, p.local)))[..kind.layout[dims]])
  {
    var ext := Extents(First(kind, p.local), Last(kind, p.local));
    var e, c := Ranked(kind.layout, ext), kind.layout[dims];
    forall i | 0 <= i < dims
      ensures Find(kind.layout, kind.layout[i]) == i && e[kind.layout[i]] == p.local.last[i] - p.local.first[i] + 1
    {
      RankedAt(kind.layout, ext, i);
    }
    if Ones(e[..c]) {
      forall i | 0 <= i < dims && kind.layout[i] < c
        ensures p.local.first[i] == p.local.last[i]
      {
        assert e[..c][kind.layout[i]] == 1;
      }
    }
  }

  /** The number of a cell's position in its slice. */
  lemma {:induction false} SlicePosition(kind: FieldKind, p: SpacePair, dims: nat, at: int, n: nat)
    requires KindOk(kind, dims) && PairMatches(p, dims)
    requires n < Size(kind.layout, First(kind, p.local), Last(kind, p.local))
    ensures |BufferMemory(kind, p.global)| == |kind.layout| == |First(kind, p.local)|
    ensures Ordered(First(kind, p.local), Last(kind, p.local))
    ensures var e := Ranked(kind.layout, Extents(First(kind, p.local), Last(kind, p.local)));
      && Positive(e) && Within(Decode(e, n), e)
      && Address(kind.layout, BufferRegion(kind, p, at), Coordinate(kind.layout, First(kind, p.local), Last(kind, p.local), n))
         == at + Flat(Ranked(kind.layout, BufferMemory(kind, p.global)), Decode(e, n))
  {
    var lm, first, last := kind.layout, First(kind, p.local), Last(kind, p.local);
    BoxOrdered(kind, p.local, dims);
    WidenedRanks(kind, p, dims);
    var e := Ranked(lm, Extents(first, last));
    DecodeRange(e, n);
    var m := Ranked(lm, BufferMemory(kind, p.global));
    var x := Coordinate(lm, first, last, n);
    assert Add(x, Negated(first)) == Spread(lm, Decode(e, n));
    WeightedSpread(lm, Strides(m, 1, 0), Decode(e, n));
    WeightedIsFlat(m, 1, Decode(e, n));
  }

  /** The slice of a dense space is consecutive: cell n at position n. */
  lemma {:induction false} DensePosition(kind: FieldKind, p: SpacePair, dims: nat, at: int, n: nat)
    requires KindOk(kind, dims) && PairMatches(p, dims) && Dense(kind, p.local, dims)
    requires n < Size(kind.layout, First(kind, p.local), Last(kind, p.local))
    ensures |BufferMemory(kind, p.global)| == |kind.layout| == |First(kind, p.local)|
    ensures Ordered(First(kind, p.local), Last(kind, p.local))
    ensures Address(kind.layout, BufferRegion(kind, p, at), Coordinate(kind.layout, First(kind, p.local), Last(kind, p.local), n)) == at + n
  {
    var e := Ranked(kind.layout, Extents(First(kind, p.local), Last(kind, p.local)));
    SlicePosition(kind, p, dims, at, n);
    WidenedRanks(kind, p, dims);
    FlatDecode(e, n);
    if kind.components {
      DenseIsOnes(kind, p, dims);
      WidenedSame(e, kind.layout[dims], kind.comps + 1, Decode(e, n));
    }
  }

  ghost predicate PositionFits(kind: FieldKind, p: SpacePair, dims: nat, n: nat)
    requires KindOk(kind, dims) && PairMatches(p, dims)
  {
    var size := Size(kind.layout, First(kind, p.local), Last(kind, p.local));
    && |BufferMemory(kind, p.global)| == |kind.layout| == |First(kind, p.local)| && Ordered(First(kind, p.local), Last(kind, p.local))
    && (n < size ==>
          0 <= Address(kind.layout, BufferRegion(kind, p, 0), Coordinate(kind.layout, First(kind, p.local), Last(kind, p.local), n)) < size)
  }

  lemma {:induction false} DenseFits(kind: FieldKind, p: SpacePair, dims: nat, n: nat)
    requires KindOk(kind, dims) && PairMatches(p, dims) && Dense(kind, p.local, dims)
    ensures PositionFits(kind, p, dims, n)
  {
    BoxOrdered(kind, p.local, dims);
    if n < Size(kind.layout, First(kind, p.local), Last(kind, p.local)) {
      DensePosition(kind, p, dims, 0, n);
    }
  }

  lemma {:induction false} LastPosition(e: seq<int>, c: nat)
    requires c < |e| && Positive(e) && !Ones(e[..c])
    ensures Product(e) > 0
    ensures Flat(e[c := e[c] + 1], Decode(e, Product(e) - 1)) >= Product(e)
  {
    ProductPositive(e);
    WidenedLarger(e, c);
    FlatLargest(e);
    DecodeFlat(e, Largest(e));
  }

  /** Otherwise the last cell lands outside. */
  lemma {:induction false} SparseOverruns(kind: FieldKind, p: SpacePair, dims: nat) returns (n: nat)
    requires KindOk(kind, dims) && PairMatches(p, dims) && !Dense(kind, p.local, dims)
    ensures !PositionFits(kind, p, dims, n)
  {
    var e := Ranked(kind.layout, Extents(First(kind, p.local), Last(kind, p.local)));
    WidenedRanks(kind, p, dims);
    DenseIsOnes(kind, p, dims);
    LastPosition(e, kind.layout[dims]);
    n := Product(e) - 1;
    SlicePosition(kind, p, dims, 0, n);
  }

  /** A space's cells stay within the elements that pack reserves for it, is.size() times the
      number of components, exactly when the dimensions outside of the components have a
      single coordinate; so always without components or with the components outermost. */
  lemma {:induction false} SliceFits(kind: FieldKind, p: SpacePair, dims: nat)
    requires KindOk(kind, dims) && PairMatches(p, dims)
    ensures (forall n: nat :: PositionFits(kind, p, dims, n)) <==> Dense(kind, p.local, dims)
  {
    if Dense(kind, p.local, dims) {
      forall n: nat
        ensures PositionFits(kind, p, dims, n)
      {
        DenseFits(kind, p, dims, n);
      }
    } else {
      var n := SparseOverruns(kind, p, dims);
    }
  }

  /** One dimension with two cells and a single component stored innermost: the second cell
      lies outside of the two elements reserved. */
  lemma {:induction false} InnermostComponentOverruns()
    ensures var kind, b := FieldKind([0, 1], true, 1), Box([0], [1]);
      && KindOk(kind, 1) && PairMatches(SpacePair(b, b), 1) && BoxSize(SpacePair(b, b)) * kind.comps == 2
      && !Dense(kind, b, 1)
      && exists n: nat :: !PositionFits(kind, SpacePair(b, b), 1, n)
  {
    var kind, b := FieldKind([0, 1], true, 1), Box([0], [1]);
    assert kind.layout[0] == 0 && kind.layout[1] == 1;
    assert KindOk(kind, 1);
    assert Extents([0], [1]) == [2] && Product([2]) == 2 * Product([]);
    assert b.first[0] != b.last[0];
    SliceFits(kind, SpacePair(b, b), 1);
  }

  // ------------------------------------------------------------------ all spaces of a halo

  /** Cell m of the list goes to position at + m of the buffer. */
  function PackMoves(lm: seq<nat>, data: Region, cells: seq<seq<int>>, at: int): (m: seq<Move>)
    requires IsLayout(lm) && |data.memory| == |data.shift| == |lm|
    requires forall n :: 0 <= n < |cells| ==> |cells[n]| == |lm|
    ensures |m| == |cells|
    ensures forall n {:trigger m[n]} :: 0 <= n < |m| ==> m[n] == Move(Address(lm, data, cells[n]), at + n)
  {
    seq(|cells|, n requires 0 <= n < |cells| => Move(Address(lm, data, cells[n]), at + n))
  }

  /** The same moves the other way. */
  function Backwards(moves: seq<Move>): (m: seq<Move>)
    ensures |m| == |moves|
    ensures forall n {:trigger m[n]} :: 0 <= n < |m| ==> m[n] == Move(moves[n].dst, moves[n].src)
  {
    seq(|moves|, n requires 0 <= n < |moves| => Move(moves[n].dst, moves[n].src))
  }

  lemma {:induction false} CopiedAppend<T>(dst: seq<T>, src: seq<T>, a: seq<Move>, b: seq<Move>)
    requires InMemory(a, |src|, |dst|) && InMemory(b, |src|, |dst|)
    ensures InMemory(a + b, |src|, |dst|)
    ensures Copied(dst, src, a + b) == Copied(Copied(dst, src, a), src, b)
  {
    if b == [] {
      assert a + b == a;
    } else {
      CopiedAppend(dst, src, a, b[..|b| - 1]);
      assert (a + b)[..|a + b| - 1] == a + b[..|b| - 1];
    }
  }

  ghost predicate CellShape(kind: FieldKind, cells: seq<seq<int>>) {
    forall n :: 0 <= n < |cells| ==> |cells[n]| == |kind.layout|
  }

  lemma {:induction false} ConcatShape(kind: FieldKind, parts: seq<seq<seq<int>>>, n: nat)
    requires n <= |parts| && forall l :: 0 <= l < |parts| ==> CellShape(kind, parts[l])
    ensures CellShape(kind, Concat(parts, n))
  {
    if n > 0 {
      ConcatShape(kind, parts, n - 1);
    }
  }

  ghost predicate FieldReady(kind: FieldKind, dims: nat, data: Region) {
    dims > 0 && KindOk(kind, dims) && |data.memory| == |data.shift| == |kind.layout|
  }

  ghost predicate SpaceReady(kind: FieldKind, p: SpacePair, dims: nat, data: Region) {
    FieldReady(kind, dims, data) && PairMatches(p, dims) && Dense(kind, p.local, dims)
  }

  lemma {:induction false} BoxCellsShaped(kind: FieldKind, p: SpacePair, dims: nat)
    requires BoxOk(kind, p.local, dims)
    ensures CellShape(kind, BoxCells(kind, p.local, dims))
  {
    BoxOrdered(kind, p.local, dims);
  }

  /** The moves that pack one space to position at of the buffer. */
  ghost function SpaceMoves(kind: FieldKind, p: SpacePair, dims: nat, data: Region, at: int): seq<Move>
    requires SpaceReady(kind, p, dims, data)
  {
    BoxCellsShaped(kind, p, dims);
    PackMoves(kind.layout, data, BoxCells(kind, p.local, dims), at)
  }

  /** The moves of the kernel that packs a space, dense or not, from position at of the buffer on,
      with the strides of make_buffer_desc. */
  ghost function Kernel(kind: FieldKind, p: SpacePair, dims: nat, data: Region, at: int): seq<Move>
    requires FieldReady(kind, dims, data) && PairMatches(p, dims)
  {
    SliceShape(kind, p, dims);
    BoxMoves(kind.layout, First(kind, p.local), Last(kind, p.local), data, BufferRegion(kind, p, at))
  }

  /** The kernel that unpacks it runs them backwards. */
  lemma {:induction false} UnpackKernel(kind: FieldKind, p: SpacePair, dims: nat, data: Region, at: int)
    requires FieldReady(kind, dims, data) && PairMatches(p, dims)
    ensures Ordered(First(kind, p.local), Last(kind, p.local)) && |First(kind, p.local)| == |kind.layout| == |BufferMemory(kind, p.global)|
    ensures BoxMoves(kind.layout, First(kind, p.local), Last(kind, p.local), BufferRegion(kind, p, at), data)
         == Backwards(Kernel(kind, p, dims, data, at))
  {
    SliceShape(kind, p, dims);
  }

  /** A dense space's kernel moves are the moves of its cells. */
  lemma {:induction false} KernelMoves(kind: FieldKind, p: SpacePair, dims: nat, data: Region, at: int)
    requires SpaceReady(kind, p, dims, data)
    ensures Kernel(kind, p, dims, data, at) == SpaceMoves(kind, p, dims, data, at)
  {
    SliceShape(kind, p, dims);
    forall n: nat | n < |BoxCells(kind, p.local, dims)|
      ensures Address(kind.layout, BufferRegion(kind, p, at), BoxCells(kind, p.local, dims)[n]) == at + n
    {
      DensePosition(kind, p, dims, at, n);
    }
  }

  lemma {:induction false} SliceShape(kind: FieldKind, p: SpacePair, dims: nat)
    requires KindOk(kind, dims) && PairMatches(p, dims)
    ensures Ordered(First(kind, p.local), Last(kind, p.local)) && |First(kind, p.local)| == |kind.layout| == |BufferMemory(kind, p.global)|
  {
    BoxOrdered(kind, p.local, dims);
  }

  /** The moves have run. */
  ghost predicate SpacesDone<T>(moves: seq<Move>, before: seq<T>, now: seq<T>, src: seq<T>) {
    InMemory(moves, |src|, |before|) && now == Copied(before, src, moves)
  }

  lemma {:induction false} SpaceDone<T>(a: seq<Move>, b: seq<Move>, before: seq<T>, now: seq<T>, next: seq<T>, src: seq<T>)
    requires SpacesDone(a, before, now, src) && SpacesDone(b, now, next, src)
    ensures SpacesDone(a + b, before, next, src)
  {
    CopiedAppend(before, src, a, b);
  }

  /** One round of pack: the kernel's moves run, and the buffer pointer advances by the number of
      elements reserved. */
  method PackSpace<T>(kind: FieldKind, p: SpacePair, data: Region, field: array<T>, buf: array<T>, at: int, ghost dims: nat) returns (size: int)
    requires FieldReady(kind, dims, data) && PairMatches(p, dims) && field != buf
    requires InMemory(Kernel(kind, p, dims, data, at), field.Length, buf.Length)
    modifies buf
    ensures SpacesDone(Kernel(kind, p, dims, data, at), old(buf[..]), buf[..], field[..])
    ensures size == |Kernel(kind, p, dims, data, at)|
  {
    SliceShape(kind, p, dims);
    BoxCellCount(kind, p, dims);
    CopyBatch(kind.layout, First(kind, p.local), Last(kind, p.local), data, BufferRegion(kind, p, at), field, buf);
    var elements := SpaceSize(p);
    size := elements * kind.comps;
  }

  /** One round of unpack. */
  method UnpackSpace<T>(kind: FieldKind, p: SpacePair, data: Region, field: array<T>, buf: array<T>, at: int, ghost dims: nat) returns (size: int)
    requires FieldReady(kind, dims, data) && PairMatches(p, dims) && field != buf
    requires InMemory(Kernel(kind, p, dims, data, at), field.Length, buf.Length)
    modifies field
    ensures SpacesDone(Backwards(Kernel(kind, p, dims, data, at)), old(field[..]), field[..], buf[..])
    ensures size == |Kernel(kind, p, dims, data, at)|
  {
    UnpackKernel(kind, p, dims, data, at);
    BoxCellCount(kind, p, dims);
    CopyBatch(kind.layout, First(kind, p.local), Last(kind, p.local), BufferRegion(kind, p, at), data, buf, field);
    var elements := SpaceSize(p);
    size := elements * kind.comps;
  }

  // The list of spaces.

  ghost predicate SpacesReady(kind: FieldKind, spaces: seq<SpacePair>, dims: nat, data: Region) {
    FieldReady(kind, dims, data) && AllDense(kind, spaces, dims)
  }

  lemma {:induction false} AllCellsShaped(kind: FieldKind, spaces: seq<SpacePair>, dims: nat, data: Region, n: nat)
    requires SpacesReady(kind, spaces, dims, data) && n <= |spaces|
    ensures SpacesOk(kind, spaces, dims) && CellShape(kind, Concat(Parts(kind, spaces, dims), n))
  {
    var parts := Parts(kind, spaces, dims);
    forall l | 0 <= l < |parts|
      ensures CellShape(kind, parts[l])
    {
      BoxCellsShaped(kind, spaces[l], dims);
    }
    ConcatShape(kind, parts, n);
  }

  /** The moves that pack the first n spaces, one slice behind the other from position at. */
  ghost function MovesUpTo(kind: FieldKind, spaces: seq<SpacePair>, dims: nat, data: Region, at: int, n: nat): seq<Move>
    requires SpacesReady(kind, spaces, dims, data) && n <= |spaces|
  {
    AllCellsShaped(kind, spaces, dims, data, n);
    PackMoves(kind.layout, data, Concat(Parts(kind, spaces, dims), n), at)
  }

  lemma {:induction false} PackMovesAppend(lm: seq<nat>, data: Region, a: seq<seq<int>>, b: seq<seq<int>>, at: int)
    requires IsLayout(lm) && |data.memory| == |data.shift| == |lm|
    requires forall n :: 0 <= n < |a| ==> |a[n]| == |lm|
    requires forall n :: 0 <= n < |b| ==> |b[n]| == |lm|
    ensures PackMoves(lm, data, a + b, at) == PackMoves(lm, data, a, at) + PackMoves(lm, data, b, at + |a|)
  {
  }

  lemma {:induction false} MovesStep(kind: FieldKind, spaces: seq<SpacePair>, dims: nat, data: Region, at: int, n: nat)
    requires SpacesReady(kind, spaces, dims, data) && n < |spaces|
    ensures var now := MovesUpTo(kind, spaces, dims, data, at, n);
      MovesUpTo(kind, spaces, dims, data, at, n + 1) == now + SpaceMoves(kind, spaces[n], dims, data, at + |now|)
  {
    AllCellsShaped(kind, spaces, dims, data, n);
    BoxCellsShaped(kind, spaces[n], dims);
    PackMovesAppend(kind.layout, data, Concat(Parts(kind, spaces, dims), n), BoxCells(kind, spaces[n].local, dims), at);
  }

  lemma {:induction false} ConcatPrefix<T>(parts: seq<seq<T>>, n: nat, m: nat)
    requires n <= m <= |parts|
    ensures Concat(parts, n) <= Concat(parts, m)
  {
    if n < m {
      ConcatPrefix(parts, n, m - 1);
    }
  }

  lemma {:induction false} PackMovesPrefix(lm: seq<nat>, data: Region, a: seq<seq<int>>, b: seq<seq<int>>, at: int)
    requires IsLayout(lm) && |data.memory| == |data.shift| == |lm| && a <= b
    requires forall n :: 0 <= n < |b| ==> |b[n]| == |lm|
    ensures forall n :: 0 <= n < |a| ==> |a[n]| == |lm|
    ensures PackMoves(lm, data, a, at) <= PackMoves(lm, data, b, at)
  {
    assert forall n :: 0 <= n < |a| ==> a[n] == b[n];
  }

  lemma {:induction false} MovesPrefix(kind: FieldKind, spaces: seq<SpacePair>, dims: nat, data: Region, at: int, n: nat)
    requires SpacesReady(kind, spaces, dims, data) && n <= |spaces|
    ensures MovesUpTo(kind, spaces, dims, data, at, n) <= MovesUpTo(kind, spaces, dims, data, at, |spaces|)
  {
    AllCellsShaped(kind, spaces, dims, data, |spaces|);
    var parts := Parts(kind, spaces, dims);
    ConcatPrefix(parts, n, |spaces|);
    PackMovesPrefix(kind.layout, data, Concat(parts, n), Concat(parts, |spaces|), at);
  }

  /** The memory of the field and of the buffer suffices. */
  ghost predicate PackFits(kind: FieldKind, spaces: seq<SpacePair>, dims: nat, data: Region, at: int, fieldSize: nat, bufSize: nat) {
    && SpacesReady(kind, spaces, dims, data)
    && InMemory(MovesUpTo(kind, spaces, dims, data, at, |spaces|), fieldSize, bufSize)
  }

  lemma {:induction false} PartFits(a: seq<Move>, b: seq<Move>, all: seq<Move>, srcSize: nat, dstSize: nat)
    requires InMemory(all, srcSize, dstSize) && a + b <= all
    ensures InMemory(b, srcSize, dstSize)
  {
    forall n | 0 <= n < |b|
      ensures b[n] == all[|a| + n]
    {
      assert (a + b)[|a| + n] == b[n];
    }
  }

  lemma {:induction false} BackwardsAppend(a: seq<Move>, b: seq<Move>)
    ensures Backwards(a + b) == Backwards(a) + Backwards(b)
  {
  }

  /** What the loops over the spaces need of one round. */
  lemma {:induction false} StepFits(kind: FieldKind, spaces: seq<SpacePair>, dims: nat, data: Region, at: int, fieldSize: nat, bufSize: nat, n: nat)
    returns (own: seq<Move>)
    requires PackFits(kind, spaces, dims, data, at, fieldSize, bufSize) && n < |spaces|
    ensures SpaceReady(kind, spaces[n], dims, data)
    ensures var now := MovesUpTo(kind, spaces, dims, data, at, n);
      && own == SpaceMoves(kind, spaces[n], dims, data, at + |now|)
      && MovesUpTo(kind, spaces, dims, data, at, n + 1) == now + own
    ensures InMemory(own, fieldSize, bufSize)
  {
    var now := MovesUpTo(kind, spaces, dims, data, at, n);
    own := SpaceMoves(kind, spaces[n], dims, data, at + |now|);
    MovesStep(kind, spaces, dims, data, at, n);
    MovesPrefix(kind, spaces, dims, data, at, n + 1);
    PartFits(now, own, MovesUpTo(kind, spaces, dims, data, at, |spaces|), fieldSize, bufSize);
  }

  // Loop state: the spaces below l have been handled, the next slice starts at pos.
  ghost predicate Packing<T>(kind: FieldKind, spaces: seq<SpacePair>, dims: nat, data: Region, at: int, l: nat, pos: int,
                            before: seq<T>, now: seq<T>, src: seq<T>)
  {
    && PackFits(kind, spaces, dims, data, at, |src|, |before|) && l <= |spaces|
    && pos == at + |MovesUpTo(kind, spaces, dims, data, at, l)|
    && SpacesDone(MovesUpTo(kind, spaces, dims, data, at, l), before, now, src)
  }

  lemma {:induction false} PackStart<T>(kind: FieldKind, spaces: seq<SpacePair>, dims: nat, data: Region, at: int, before: seq<T>, src: seq<T>)
    requires PackFits(kind, spaces, dims, data, at, |src|, |before|)
    ensures Packing(kind, spaces, dims, data, at, 0, at, before, before, src)
  {
  }

  /** One round of the loop. */
  method PackRound<T>(kind: FieldKind, spaces: seq<SpacePair>, data: Region, field: array<T>, buf: array<T>, pos: int, l: nat,
                     ghost dims: nat, ghost at: int, ghost before: seq<T>) returns (next: int)
    requires l < |spaces| && field != buf && Packing(kind, spaces, dims, data, at, l, pos, before, buf[..], field[..])
    modifies buf
    ensures Packing(kind, spaces, dims, data, at, l + 1, next, before, buf[..], field[..])
  {
    ghost var mid := buf[..];
    ghost var own := StepFits(kind, spaces, dims, data, at, field.Length, buf.Length, l);
    assert own == SpaceMoves(kind, spaces[l], dims, data, pos);
    KernelMoves(kind, spaces[l], dims, data, pos);
    var size := PackSpace(kind, spaces[l], data, field, buf, pos, dims);
    SpaceDone(MovesUpTo(kind, spaces, dims, data, at, l), own, before, mid, buf[..], field[..]);
    next := pos + size;
  }

  /** field_descriptor::pack: one batched kernel per space, each slice behind the one before;
      cell m of all cells lands m positions behind the start. */
  method PackField<T>(kind: FieldKind, spaces: seq<SpacePair>, data: Region, field: array<T>, buf: array<T>, at: nat, ghost dims: nat)
    requires PackFits(kind, spaces, dims, data, at, field.Length, buf.Length) && field != buf
    modifies buf
    ensures SpacesDone(MovesUpTo(kind, spaces, dims, data, at, |spaces|), old(buf[..]), buf[..], field[..])
  {
    ghost var before := buf[..];
    PackStart(kind, spaces, dims, data, at, before, field[..]);
    var pos: int := at;
    for l := 0 to |spaces|
      invariant Packing(kind, spaces, dims, data, at, l, pos, before, buf[..], field[..])
    {
      pos := PackRound(kind, spaces, data, field, buf, pos, l, dims, at, before);
    }
  }

  // Loop state: the spaces below l have been handled, the next slice starts at pos.
  ghost predicate Unpacking<T>(kind: FieldKind, spaces: seq<SpacePair>, dims: nat, data: Region, at: int, l: nat, pos: int,
                            before: seq<T>, now: seq<T>, src: seq<T>)
  {
    && PackFits(kind, spaces, dims, data, at, |before|, |src|) && l <= |spaces|
    && pos == at + |MovesUpTo(kind, spaces, dims, data, at, l)|
    && SpacesDone(Backwards(MovesUpTo(kind, spaces, dims, data, at, l)), before, now, src)
  }

  lemma {:induction false} UnpackStart<T>(kind: FieldKind, spaces: seq<SpacePair>, dims: nat, data: Region, at: int, before: seq<T>, src: seq<T>)
    requires PackFits(kind, spaces, dims, data, at, |before|, |src|)
    ensures Unpacking(kind, spaces, dims, data, at, 0, at, before, before, src)
  {
  }

  /** One round of the loop. */
  method UnpackRound<T>(kind: FieldKind, spaces: seq<SpacePair>, data: Region, field: array<T>, buf: array<T>, pos: int, l: nat,
                     ghost dims: nat, ghost at: int, ghost before: seq<T>) returns (next: int)
    requires l < |spaces| && field != buf && Unpacking(kind, spaces, dims, data, at, l, pos, before, field[..], buf[..])
    modifies field
    ensures Unpacking(kind, spaces, dims, data, at, l + 1, next, before, field[..], buf[..])
  {
    ghost var mid := field[..];
    ghost var own := StepFits(kind, spaces, dims, data, at, field.Length, buf.Length, l);
    BackwardsAppend(MovesUpTo(kind, spaces, dims, data, at, l), own);
    assert own == SpaceMoves(kind, spaces[l], dims, data, pos);
    KernelMoves(kind, spaces[l], dims, data, pos);
    var size := UnpackSpace(kind, spaces[l], data, field, buf, pos, dims);
    SpaceDone(Backwards(MovesUpTo(kind, spaces, dims, data, at, l)), Backwards(own), before, mid, field[..], buf[..]);
    next := pos + size;
  }

  /** field_descriptor::unpack. */
  method UnpackField<T>(kind: FieldKind, spaces: seq<SpacePair>, data: Region, field: array<T>, buf: array<T>, at: nat, ghost dims: nat)
    requires PackFits(kind, spaces, dims, data, at, field.Length, buf.Length) && field != buf
    modifies field
    ensures SpacesDone(Backwards(MovesUpTo(kind, spaces, dims, data, at, |spaces|)), old(field[..]), field[..], buf[..])
  {
    ghost var before := field[..];
    UnpackStart(kind, spaces, dims, data, at, before, buf[..]);
    var pos: int := at;
    for l := 0 to |spaces|
      invariant Unpacking(kind, spaces, dims, data, at, l, pos, before, field[..], buf[..])
    {
      pos := UnpackRound(kind, spaces, data, field, buf, pos, l, dims, at, before);
    }
  }

  /** What a field holds after its values have been packed and unpacked into another field of
      the same kind: each cell of the spaces there holds the value of the corresponding cell
      here, provided no two cells there coincide. */
  lemma {:induction false} PackThenUnpack<T>(source: seq<T>, target: seq<T>, buf: seq<T>, out: seq<Move>, back: seq<Move>)
    requires |out| == |back| && InMemory(out, |source|, |buf|) && InMemory(back, |buf|, |target|) && Apart(out) && Apart(back)
    requires forall m :: 0 <= m < |out| ==> out[m].dst == back[m].src
    ensures forall m :: 0 <= m < |out| ==> Copied(target, Copied(buf, source, out), back)[back[m].dst] == source[out[m].src]
  {
    CopiedAt(buf, source, out);
    CopiedAt(target, Copied(buf, source, out), back);
  }
}

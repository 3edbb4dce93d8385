// Field contents, the cells a list of iteration spaces denotes, and the bytes that pack puts
// into and unpack takes out of a message (packer.hpp:29-64, field_descriptor pack / unpack).

module Cells {
  import opened MixedRadix
  import opened LoopNest
  import opened Pattern
  import opened SendHalos
  import opened CommObject

  /** Object representation of one element. */
  type Value = seq<bv8>

  /** Elements of one field, addressed by local coordinates (component last, if any). */
  type Content = map<seq<int>, Value>

  /** Memory layout and components of a field. */
  datatype FieldKind = FieldKind(layout: seq<nat>, components: bool, comps: nat)

  ghost predicate KindOk(kind: FieldKind, dims: nat) {
    && IsLayout(kind.layout)
    && |kind.layout| == dims + (if kind.components then 1 else 0)
    && kind.comps > 0 && (!kind.components ==> kind.comps == 1)
  }

  /** The components, if any, are the outermost dimension in memory. */
  ghost predicate ComponentsOutermost(kind: FieldKind, dims: nat) {
    kind.components ==> |kind.layout| == dims + 1 && kind.layout[dims] == 0
  }

  /** Every dimension outside of the components, in layout order, has a single coordinate. */
  ghost predicate Dense(kind: FieldKind, b: Box, dims: nat) {
    kind.components ==>
      forall i :: 0 <= i < dims && i < |b.first| && i < |b.last| && dims < |kind.layout| && kind.layout[i] < kind.layout[dims] ==>
        b.first[i] == b.last[i]
  }

  function First(kind: FieldKind, b: Box): seq<int> {
    if kind.components then b.first + [0] else b.first
  }

  function Last(kind: FieldKind, b: Box): seq<int> {
    if kind.components then b.last + [kind.comps - 1] else b.last
  }

  ghost predicate Shaped(b: Box, dims: nat) {
    |b.first| == dims && Ordered(b.first, b.last)
  }

  ghost predicate BoxOk(kind: FieldKind, b: Box, dims: nat) {
    KindOk(kind, dims) && Shaped(b, dims)
  }

  ghost predicate PairMatches(p: SpacePair, dims: nat) {
    && Shaped(p.local, dims) && |p.global.first| == |p.global.last| == dims
    && Extents(p.global.first, p.global.last) == Extents(p.local.first, p.local.last)
  }

  /** The spaces for which the field's descriptor fills exactly the slices reserved for them,
      one cell after the other. */
  ghost predicate AllDense(kind: FieldKind, spaces: seq<SpacePair>, dims: nat) {
    forall l :: 0 <= l < |spaces| ==> PairMatches(spaces[l], dims) && Dense(kind, spaces[l].local, dims)
  }

  lemma {:induction false} BoxOrdered(kind: FieldKind, b: Box, dims: nat)
    requires BoxOk(kind, b, dims)
    ensures |First(kind, b)| == |kind.layout| && Ordered(First(kind, b), Last(kind, b))
  {
  }

  /** Cells of a box in the order in which pack and unpack visit them. */
  function BoxCells(kind: FieldKind, b: Box, ghost dims: nat): (c: seq<seq<int>>)
    requires BoxOk(kind, b, dims)
    ensures |c| == Size(kind.layout, First(kind, b), Last(kind, b))
  {
    BoxOrdered(kind, b, dims);
    OrderedExtents(kind.layout, First(kind, b), Last(kind, b));
    ProductPositive(Ranked(kind.layout, Extents(First(kind, b), Last(kind, b))));
    seq(Size(kind.layout, First(kind, b), Last(kind, b)),
        n requires 0 <= n < Size(kind.layout, First(kind, b), Last(kind, b)) =>
          Coordinate(kind.layout, First(kind, b), Last(kind, b), n))
  }

  ghost predicate SpacesOk(kind: FieldKind, spaces: seq<SpacePair>, dims: nat) {
    KindOk(kind, dims) && forall l :: 0 <= l < |spaces| ==> Shaped(spaces[l].local, dims)
  }

  /** The first n parts, one after the other. */
  function Concat<T>(parts: seq<seq<T>>, n: nat): seq<T>
    requires n <= |parts|
  {
    if n == 0 then [] else Concat(parts, n - 1) + parts[n - 1]
  }

  /** The cells of each iteration space. */
  function Parts(kind: FieldKind, spaces: seq<SpacePair>, ghost dims: nat): (p: seq<seq<seq<int>>>)
    requires SpacesOk(kind, spaces, dims)
    ensures |p| == |spaces|
  {
    seq(|spaces|, l requires 0 <= l < |spaces| => BoxCells(kind, spaces[l].local, dims))
  }

  /** Cells of a list of iteration spaces: box after box. */
  function SpaceCells(kind: FieldKind, spaces: seq<SpacePair>, ghost dims: nat): seq<seq<int>>
    requires SpacesOk(kind, spaces, dims)
  {
    Concat(Parts(kind, spaces, dims), |spaces|)
  }

  // ------------------------------------------------------------------ number of cells

  lemma {:induction false} BoxCellCount(kind: FieldKind, p: SpacePair, dims: nat)
    requires BoxOk(kind, p.local, dims)
    ensures |BoxCells(kind, p.local, dims)| == BoxSize(p) * kind.comps
  {
    var first, last := First(kind, p.local), Last(kind, p.local);
    var e := Extents(first, last);
    ProductRanked(kind.layout, e);
    if kind.components {
      ProductRemove(e, dims);
      assert RemoveAt(e, dims) == Extents(p.local.first, p.local.last);
    }
  }

  lemma {:induction false} ConcatLength<T>(parts: seq<seq<T>>, spaces: seq<SpacePair>, comps: nat, n: nat)
    requires n <= |parts| == |spaces|
    requires forall l :: 0 <= l < |parts| ==> |parts[l]| == BoxSize(spaces[l]) * comps
    ensures |Concat(parts, n)| == NumElements(spaces[..n]) * comps
  {
    if n > 0 {
      ConcatLength(parts, spaces, comps, n - 1);
      assert spaces[..n][..n - 1] == spaces[..n - 1];
    }
  }

  /** As many cells as allocate reserves elements for. */
  lemma {:induction false} CellCount(kind: FieldKind, spaces: seq<SpacePair>, dims: nat)
    requires SpacesOk(kind, spaces, dims)
    ensures |SpaceCells(kind, spaces, dims)| == NumElements(spaces) * kind.comps
  {
    var parts := Parts(kind, spaces, dims);
    forall l | 0 <= l < |parts|
      ensures |parts[l]| == BoxSize(spaces[l]) * kind.comps
    {
      BoxCellCount(kind, spaces[l], dims);
    }
    ConcatLength(parts, spaces, kind.comps, |spaces|);
    assert spaces[..|spaces|] == spaces;
  }

  // ------------------------------------------------------------------ cells and boxes

  /** Element m of a concatenation: the n-th element of part l. */
  lemma {:induction false} ConcatAt<T>(parts: seq<seq<T>>, upTo: nat, m: nat) returns (l: nat, n: nat)
    requires upTo <= |parts| && m < |Concat(parts, upTo)|
    ensures l < upTo && n < |parts[l]|
    ensures Concat(parts, upTo)[m] == parts[l][n] && m == |Concat(parts, l)| + n
  {
    var before := Concat(parts, upTo - 1);
    if m < |before| {
      l, n := ConcatAt(parts, upTo - 1, m);
    } else {
      l, n := upTo - 1, m - |before|;
    }
  }

  lemma {:induction false} ConcatOf<T>(parts: seq<seq<T>>, upTo: nat, l: nat, n: nat)
    requires l < upTo <= |parts| && n < |parts[l]|
    ensures |Concat(parts, l)| + n < |Concat(parts, upTo)|
    ensures Concat(parts, upTo)[|Concat(parts, l)| + n] == parts[l][n]
  {
    if l < upTo - 1 {
      ConcatOf(parts, upTo - 1, l, n);
    }
  }

  /** A cell of one of the spaces is among the cells packed for all of them. */
  lemma {:induction false} CellListed(kind: FieldKind, spaces: seq<SpacePair>, dims: nat, l: nat, x: seq<int>)
    requires SpacesOk(kind, spaces, dims) && l < |spaces|
    requires x in BoxCells(kind, spaces[l].local, dims)
    ensures x in SpaceCells(kind, spaces, dims)
  {
    var parts := Parts(kind, spaces, dims);
    var q :| 0 <= q < |parts[l]| && parts[l][q] == x;
    ConcatOf(parts, |spaces|, l, q);
  }

  /** Parts of equal lengths put corresponding elements at the same place. */
  lemma {:induction false} ConcatSameLength<T>(parts: seq<seq<T>>, others: seq<seq<T>>, n: nat)
    requires n <= |parts| == |others|
    requires forall l :: 0 <= l < |parts| ==> |parts[l]| == |others[l]|
    ensures |Concat(parts, n)| == |Concat(others, n)|
  {
    if n > 0 {
      ConcatSameLength(parts, others, n - 1);
    }
  }

  lemma {:induction false} SameExtentsExtended(kind: FieldKind, a: Box, b: Box, dims: nat)
    requires BoxOk(kind, a, dims) && BoxOk(kind, b, dims)
    requires Sub(a.last, a.first) == Sub(b.last, b.first)
    ensures Extents(First(kind, a), Last(kind, a)) == Extents(First(kind, b), Last(kind, b))
  {
    var ea, eb := Extents(First(kind, a), Last(kind, a)), Extents(First(kind, b), Last(kind, b));
    forall i | 0 <= i < |ea|
      ensures ea[i] == eb[i]
    {
      if i < dims {
        assert Sub(a.last, a.first)[i] == Sub(b.last, b.first)[i];
      }
    }
  }

  /** Corresponding cells of two boxes with the same extents differ by the boxes' offset. */
  lemma {:induction false} SameOrder(kind: FieldKind, a: Box, b: Box, dims: nat)
    requires BoxOk(kind, a, dims) && BoxOk(kind, b, dims)
    requires Sub(a.last, a.first) == Sub(b.last, b.first)
    ensures |BoxCells(kind, a, dims)| == |BoxCells(kind, b, dims)|
    ensures forall n :: 0 <= n < |BoxCells(kind, a, dims)| ==> Shifted(kind, a, b, BoxCells(kind, a, dims)[n], BoxCells(kind, b, dims)[n])
  {
    BoxOrdered(kind, a, dims);
    BoxOrdered(kind, b, dims);
    SameExtentsExtended(kind, a, b, dims);
    forall n | 0 <= n < |BoxCells(kind, a, dims)|
      ensures Shifted(kind, a, b, BoxCells(kind, a, dims)[n], BoxCells(kind, b, dims)[n])
    {
      CoordinateShift(kind.layout, First(kind, a), Last(kind, a), First(kind, b), Last(kind, b), n);
    }
  }

  ghost predicate Shifted(kind: FieldKind, a: Box, b: Box, x: seq<int>, y: seq<int>) {
    && |x| == |y| == |First(kind, a)| == |First(kind, b)|
    && Sub(x, First(kind, a)) == Sub(y, First(kind, b))
  }

  lemma {:induction false} CoordinateShift(lm: seq<nat>, af: seq<int>, al: seq<int>, bf: seq<int>, bl: seq<int>, n: nat)
    requires IsLayout(lm) && |lm| == |af| == |bf| && Ordered(af, al) && Ordered(bf, bl)
    requires Extents(af, al) == Extents(bf, bl)
    ensures Sub(Coordinate(lm, af, al, n), af) == Sub(Coordinate(lm, bf, bl, n), bf)
  {
    OrderedExtents(lm, af, al);
    var d := Spread(lm, Decode(Ranked(lm, Extents(af, al)), n));
    assert Sub(Add(af, d), af) == d;
    assert Sub(Add(bf, d), bf) == d;
  }

  /** A coordinate is among the cells of a box exactly when it lies in the box. */
  lemma {:induction false} BoxCellIff(kind: FieldKind, b: Box, dims: nat, x: seq<int>)
    requires BoxOk(kind, b, dims)
    ensures x in BoxCells(kind, b, dims) <==> InBox(x, First(kind, b), Last(kind, b))
  {
    BoxOrdered(kind, b, dims);
    var cells := BoxCells(kind, b, dims);
    if x in cells {
      var n :| 0 <= n < |cells| && cells[n] == x;
      VisitInBox(kind.layout, First(kind, b), Last(kind, b), n);
    }
    if InBox(x, First(kind, b), Last(kind, b)) {
      VisitedOnce(kind.layout, First(kind, b), Last(kind, b), x);
      var n := IndexOf(kind.layout, First(kind, b), Last(kind, b), x);
      assert cells[n] == x;
    }
  }

  /** The cell of domain d that holds the same global coordinate and component as cell c of
      the pair p. */
  function SourceCell(p: SpacePair, d: Domain, c: seq<int>): seq<int>
    requires PairOf(p, |d.first|) && |c| >= |d.first|
  {
    ToLocal(d, ToGlobal(p, c[..|d.first|])) + c[|d.first|..]
  }

  lemma {:induction false} ShiftedSource(kind: FieldKind, p: SpacePair, d: Domain, c: seq<int>, y: seq<int>)
    requires PairOf(p, |d.first|) && |d.last| == |d.first|
    requires Shifted(kind, p.local, Rebase(p, d).local, c, y)
    ensures |c| >= |d.first| && y == SourceCell(p, d, c)
  {
    var a, b := First(kind, p.local), First(kind, Rebase(p, d).local);
    forall i | 0 <= i < |y|
      ensures y[i] == SourceCell(p, d, c)[i]
    {
      assert Sub(c, a)[i] == c[i] - a[i] && Sub(y, b)[i] == y[i] - b[i];
    }
  }

  /** there[n] is the source cell of here[n], for every n. */
  ghost predicate Mapped(p: SpacePair, d: Domain, here: seq<seq<int>>, there: seq<seq<int>>) {
    && PairOf(p, |d.first|) && |here| == |there|
    && forall n :: 0 <= n < |here| ==> |here[n]| >= |d.first| && there[n] == SourceCell(p, d, here[n])
  }

  lemma {:induction false} BoxMapped(kind: FieldKind, p: SpacePair, d: Domain)
    requires PairOf(p, |d.first|) && |d.last| == |d.first|
    requires BoxOk(kind, p.local, |d.first|) && BoxOk(kind, Rebase(p, d).local, |d.first|)
    requires Sub(p.local.last, p.local.first) == Sub(Rebase(p, d).local.last, Rebase(p, d).local.first)
    ensures Mapped(p, d, BoxCells(kind, p.local, |d.first|), BoxCells(kind, Rebase(p, d).local, |d.first|))
  {
    var here, there := BoxCells(kind, p.local, |d.first|), BoxCells(kind, Rebase(p, d).local, |d.first|);
    SameOrder(kind, p.local, Rebase(p, d).local, |d.first|);
    forall n | 0 <= n < |here|
      ensures |here[n]| >= |d.first| && there[n] == SourceCell(p, d, here[n])
    {
      ShiftedSource(kind, p, d, here[n], there[n]);
    }
  }

  lemma {:induction false} ConcatMapped(spaces: seq<SpacePair>, d: Domain, here: seq<seq<seq<int>>>, there: seq<seq<seq<int>>>, m: nat)
    returns (l: nat)
    requires |here| == |there| == |spaces|
    requires forall l :: 0 <= l < |spaces| ==> Mapped(spaces[l], d, here[l], there[l])
    ensures |Concat(here, |spaces|)| == |Concat(there, |spaces|)|
    ensures m < |Concat(here, |spaces|)| ==>
      var c := Concat(here, |spaces|)[m];
      && l < |spaces| && c in here[l] && PairOf(spaces[l], |d.first|) && |c| >= |d.first|
      && Concat(there, |spaces|)[m] == SourceCell(spaces[l], d, c)
  {
    forall l | 0 <= l < |spaces|
      ensures |here[l]| == |there[l]|
    {
      assert Mapped(spaces[l], d, here[l], there[l]);
    }
    ConcatSameLength(here, there, |spaces|);
    l := 0;
    if m < |Concat(here, |spaces|)| {
      var n;
      l, n := ConcatAt(here, |spaces|, m);
      ConcatSameLength(here, there, l);
      assert Mapped(spaces[l], d, here[l], there[l]);
      ConcatOf(there, |spaces|, l, n);
    }
  }

  ghost predicate Rebasable(p: SpacePair, d: Domain) {
    && PairOf(p, |d.first|) && |d.last| == |d.first|
    && Shaped(p.local, |d.first|) && Shaped(Rebase(p, d).local, |d.first|)
    && Sub(p.local.last, p.local.first) == Sub(Rebase(p, d).local.last, Rebase(p, d).local.first)
  }

  /** pack at the source and unpack at the receiver visit corresponding cells in the same
      order. */
  lemma {:induction false} CellsCorrespond(kind: FieldKind, spaces: seq<SpacePair>, d: Domain, m: nat) returns (l: nat)
    requires KindOk(kind, |d.first|) && |d.last| == |d.first|
    requires forall l :: 0 <= l < |spaces| ==> Rebasable(spaces[l], d)
    ensures PairsOf(spaces, |d.first|)
    ensures SpacesOk(kind, spaces, |d.first|) && SpacesOk(kind, RebaseAll(spaces, d), |d.first|)
    ensures |SpaceCells(kind, RebaseAll(spaces, d), |d.first|)| == |SpaceCells(kind, spaces, |d.first|)|
    ensures m < |SpaceCells(kind, spaces, |d.first|)| ==>
      var c := SpaceCells(kind, spaces, |d.first|)[m];
      && l < |spaces| && c in BoxCells(kind, spaces[l].local, |d.first|) && |c| >= |d.first|
      && SpaceCells(kind, RebaseAll(spaces, d), |d.first|)[m] == SourceCell(spaces[l], d, c)
  {
    var dims := |d.first|;
    forall l | 0 <= l < |spaces|
      ensures PairOf(spaces[l], dims) && Shaped(spaces[l].local, dims) && Shaped(Rebase(spaces[l], d).local, dims)
    {
      assert Rebasable(spaces[l], d);
    }
    var here, there := Parts(kind, spaces, dims), Parts(kind, RebaseAll(spaces, d), dims);
    forall l | 0 <= l < |spaces|
      ensures Mapped(spaces[l], d, here[l], there[l])
    {
      assert Rebasable(spaces[l], d);
      BoxMapped(kind, spaces[l], d);
    }
    l := ConcatMapped(spaces, d, here, there, m);
  }

  // ------------------------------------------------------------------ bytes

  ghost predicate Holds(content: Content, cells: seq<seq<int>>, size: nat) {
    forall m :: 0 <= m < |cells| ==> cells[m] in content && |content[cells[m]]| == size
  }

  /** pack: the elements of the cells, one after the other. */
  function Packed(content: Content, cells: seq<seq<int>>): seq<bv8>
    requires forall m :: 0 <= m < |cells| ==> cells[m] in content
  {
    if cells == [] then []
    else Packed(content, cells[..|cells| - 1]) + content[cells[|cells| - 1]]
  }

  lemma {:induction false} SliceOfSum<T>(a: seq<T>, b: seq<T>, lo: int, hi: int)
    requires 0 <= lo <= hi <= |a|
    ensures (a + b)[lo..hi] == a[lo..hi] && (a + b)[|a|..|a| + |b|] == b
  {
  }

  lemma {:induction false} OneMoreElement(n: nat, size: nat)
    ensures n * size >= 0 && (n + 1) * size == n * size + size
  {
    MulLe(0, n, size);
  }

  lemma {:induction false} PackedAt(content: Content, cells: seq<seq<int>>, size: nat, m: nat)
    requires Holds(content, cells, size)
    ensures |Packed(content, cells)| == |cells| * size
    ensures m < |cells| ==>
      && 0 <= m * size <= m * size + size <= |cells| * size
      && Packed(content, cells)[m * size..m * size + size] == content[cells[m]]
  {
    if cells != [] {
      var last := |cells| - 1;
      var before, element := Packed(content, cells[..last]), content[cells[last]];
      PackedAt(content, cells[..last], size, m);
      OneMoreElement(last, size);
      assert |before| == last * size && |element| == size;
      if m < last {
        SliceOfSum(before, element, m * size, m * size + size);
        assert cells[..last][m] == cells[m];
      } else if m == last {
        SliceOfSum(before, element, 0, 0);
        assert m * size == |before|;
      }
    }
  }

  /** unpack: element m of the data goes to cell m. */
  function Unpacked(content: Content, cells: seq<seq<int>>, data: seq<bv8>, size: nat): Content
    requires |data| == |cells| * size
  {
    if cells == [] then content
    else
      var last := |cells| - 1;
      assert |cells| * size == last * size + size;
      MulLe(0, last, size);
      Unpacked(content, cells[..last], data[..last * size], size)[cells[last] := data[last * size..]]
  }

  /** Value v is written to x by some element of the data. */
  ghost predicate WrittenAt(cells: seq<seq<int>>, data: seq<bv8>, size: nat, x: seq<int>, m: nat, v: Value)
    requires |data| == |cells| * size
  {
    && m < |cells| && cells[m] == x
    && 0 <= m * size <= m * size + size <= |data| && data[m * size..m * size + size] == v
  }

  /** Some element of the data carries value v for cell x. */
  ghost predicate Delivers(cells: seq<seq<int>>, data: seq<bv8>, size: nat, x: seq<int>, v: Value)
    requires |data| == |cells| * size
  {
    exists m: nat :: WrittenAt(cells, data, size, x, m, v)
  }

  /** Unpacking touches exactly the listed cells, each with an element meant for it. */
  lemma {:induction false} UnpackedEffect(content: Content, cells: seq<seq<int>>, data: seq<bv8>, size: nat, x: seq<int>)
    requires |data| == |cells| * size
    ensures Unpacked(content, cells, data, size).Keys == content.Keys + set c | c in cells
    ensures x !in cells && x in content ==> Unpacked(content, cells, data, size)[x] == content[x]
    ensures x in cells ==> Delivers(cells, data, size, x, Unpacked(content, cells, data, size)[x])
  {
    if cells != [] {
      var last := |cells| - 1;
      assert |cells| * size == last * size + size;
      MulLe(0, last, size);
      var front, data' := cells[..last], data[..last * size];
      UnpackedEffect(content, front, data', size, x);
      var r := Unpacked(content, cells, data, size);
      assert cells == front + [cells[last]];
      if x == cells[last] {
        assert data[last * size..] == data[last * size..last * size + size];
        assert WrittenAt(cells, data, size, x, last, r[x]);
      } else if x in cells {
        assert Delivers(front, data', size, x, Unpacked(content, front, data', size)[x]);
        var m: nat :| WrittenAt(front, data', size, x, m, Unpacked(content, front, data', size)[x]);
        assert data'[m * size..m * size + size] == data[m * size..m * size + size];
        assert WrittenAt(cells, data, size, x, m, r[x]);
      }
    }
  }

  /** Of several elements for one cell the last one stays. */
  lemma {:induction false} LastElementStays(content: Content, cells: seq<seq<int>>, data: seq<bv8>, size: nat, m: nat)
    requires |data| == |cells| * size && m < |cells| && forall k :: m < k < |cells| ==> cells[k] != cells[m]
    ensures 0 <= m * size <= m * size + size <= |data|
    ensures cells[m] in Unpacked(content, cells, data, size)
    ensures Unpacked(content, cells, data, size)[cells[m]] == data[m * size..m * size + size]
  {
    var last := |cells| - 1;
    OneMoreElement(last, size);
    var front, data' := cells[..last], data[..last * size];
    if m < last {
      LastElementStays(content, front, data', size, m);
      LaterElement(Unpacked(content, front, data', size), cells[last], data[last * size..], cells[m]);
      SameElement(data, last * size, m * size, size);
    } else {
      assert data[last * size..] == data[m * size..m * size + size];
    }
  }

  lemma {:induction false} LaterElement(content: Content, c: seq<int>, v: Value, x: seq<int>)
    requires x in content && x != c
    ensures x in content[c := v] && content[c := v][x] == content[x]
  {
  }

  lemma {:induction false} SameElement(data: seq<bv8>, end: nat, at: nat, size: nat)
    requires at + size <= end <= |data|
    ensures data[..end][at..at + size] == data[at..at + size]
  {
  }

  // ------------------------------------------------------------------ message buffers

  function Overwrite(buf: seq<bv8>, offset: nat, data: seq<bv8>): (r: seq<bv8>)
    requires offset + |data| <= |buf|
    ensures |r| == |buf|
  {
    buf[..offset] + data + buf[offset + |data|..]
  }

  /** Slices are written in turn at their offsets. */
  function Filled(buf: seq<bv8>, infos: seq<FieldInfo>, slices: seq<seq<bv8>>): (r: seq<bv8>)
    requires |infos| == |slices|
    requires forall n :: 0 <= n < |infos| ==> infos[n].offset + |slices[n]| <= |buf|
    ensures |r| == |buf|
  {
    if infos == [] then buf
    else
      var last := |infos| - 1;
      Overwrite(Filled(buf, infos[..last], slices[..last]), infos[last].offset, slices[last])
  }

  ghost predicate Disjoint(infos: seq<FieldInfo>, slices: seq<seq<bv8>>)
    requires |infos| == |slices|
  {
    forall m, n :: 0 <= m < n < |infos| ==> infos[m].offset + |slices[m]| <= infos[n].offset
  }

  /** A slice that no later one overlaps is there. */
  lemma {:induction false} LastSliceStays(buf: seq<bv8>, infos: seq<FieldInfo>, slices: seq<seq<bv8>>, n: nat)
    requires |infos| == |slices| && n < |infos|
    requires forall m :: 0 <= m < |infos| ==> infos[m].offset + |slices[m]| <= |buf|
    requires forall m :: n < m < |infos| ==>
      infos[n].offset + |slices[n]| <= infos[m].offset || infos[m].offset + |slices[m]| <= infos[n].offset
    ensures Filled(buf, infos, slices)[infos[n].offset..infos[n].offset + |slices[n]|] == slices[n]
  {
    var last := |infos| - 1;
    var before := Filled(buf, infos[..last], slices[..last]);
    var r := Filled(buf, infos, slices);
    if n < last {
      LastSliceStays(buf, infos[..last], slices[..last], n);
      assert r[infos[n].offset..infos[n].offset + |slices[n]|] == before[infos[n].offset..infos[n].offset + |slices[n]|];
    }
  }

  /** A byte that lies in no slice is padding and keeps what the memory held. */
  lemma {:induction false} PaddingStays(buf: seq<bv8>, infos: seq<FieldInfo>, slices: seq<seq<bv8>>, k: nat)
    requires |infos| == |slices| && k < |buf|
    requires forall m :: 0 <= m < |infos| ==> infos[m].offset + |slices[m]| <= |buf|
    requires forall m :: 0 <= m < |infos| ==> !(infos[m].offset <= k < infos[m].offset + |slices[m]|)
    ensures Filled(buf, infos, slices)[k] == buf[k]
  {
    if infos != [] {
      var last := |infos| - 1;
      PaddingStays(buf, infos[..last], slices[..last], k);
    }
  }

  /** Every slice survives the packing of the others: what unpack reads at a slice's offset is
      what pack wrote there, whatever the padding bytes hold. */
  lemma {:induction false} SliceRestored(buf: seq<bv8>, infos: seq<FieldInfo>, slices: seq<seq<bv8>>, n: nat)
    requires |infos| == |slices| && n < |infos|
    requires forall m :: 0 <= m < |infos| ==> infos[m].offset + |slices[m]| <= |buf|
    requires Disjoint(infos, slices)
    ensures Filled(buf, infos, slices)[infos[n].offset..infos[n].offset + |slices[n]|] == slices[n]
  {
    LastSliceStays(buf, infos, slices, n);
  }
}

// A put on the memory of two fields does what the bulk exchange says of their cells.

module BulkPut {
  import opened MixedRadix
  import opened LoopNest
  import opened Pattern
  import opened SendHalos
  import opened Cells
  import opened EndToEnd
  import opened Copying
  import opened FieldMemory
  import opened BulkStores
  import opened RmaRange

  /** The range of a box of a field, all components included. */
  ghost predicate RangeOf(r: Range, kind: FieldKind, b: Box) {
    && RangeOk(r) && r.lm == kind.layout && r.offset == First(kind, b) && |First(kind, b)| == |Last(kind, b)|
    && r.extent == Extents(First(kind, b), Last(kind, b))
  }

  /** The memory holds the content of a field that starts at the beginning of its allocation. */
  ghost predicate FieldIn(lm: seq<nat>, m: Memory, content: Content) {
    Represents(lm, m, content) && m.region.base == 0 && |m.elements| == Product(Ranked(lm, m.region.memory))
  }

  function FieldOf(m: Memory): Field {
    Field(m.region.memory, m.region.shift)
  }

  /** rma_range::ptr and field_descriptor::ptr add up to the address of a cell. */
  lemma {:induction false} SameAddress(r: Range, kind: FieldKind, b: Box, m: Memory, y: seq<int>)
    requires RangeOf(r, kind, b) && MemoryOk(r.lm, m) && m.region.base == 0 && |y| == |r.lm|
    ensures |First(kind, b)| == |r.lm| && Address(r.lm, RegionOf(r, FieldOf(m)), y) == Address(r.lm, m.region, Add(y, First(kind, b)))
  {
    assert Add(y, Add(r.offset, m.region.shift)) == Add(Add(y, r.offset), m.region.shift);
  }

  /** A box whose cells are in the content lies inside the field's memory. */
  lemma {:induction false} BoxFits(r: Range, kind: FieldKind, b: Box, dims: nat, m: Memory, content: Content)
    requires BoxOk(kind, b, dims) && RangeOf(r, kind, b) && FieldIn(r.lm, m, content)
    requires forall y :: y in BoxCells(kind, b, dims) ==> y in content
    ensures RangeInField(r, r.extent, FieldOf(m))
  {
    var first, last := First(kind, b), Last(kind, b);
    BoxOrdered(kind, b, dims);
    BoxCellIff(kind, b, dims, first);
    BoxCellIff(kind, b, dims, last);
    assert first in content && last in content;
    assert HoldsCell(r.lm, m, content, first) && HoldsCell(r.lm, m, content, last);
    forall i | 0 <= i < |r.lm|
      ensures 0 <= RegionOf(r, FieldOf(m)).shift[i] && LastOf(r.extent)[i] + RegionOf(r, FieldOf(m)).shift[i] < m.region.memory[i]
    {
      assert FirstCell(m.region)[i] <= first[i] && last[i] <= LastCell(m.region)[i];
    }
  }

  /** Cells of the two ends differ by the offsets of their ranges. */
  lemma {:induction false} OriginShift(x: Transfer, y: seq<int>)
    requires TransferOk(x) && y in Here(x)
    ensures var first, there := First(x.kind, x.space.local), First(x.kind, Rebase(x.space, x.d).local);
      |y| == |first| == |there| == |x.kind.layout| && OriginCell(x, y) == Add(Sub(y, first), there)
  {
    var a, b, dims := x.space.local, Rebase(x.space, x.d).local, |x.d.first|;
    BoxOrdered(x.kind, a, dims);
    SameOrder(x.kind, a, b, dims);
    var n :| 0 <= n < |Here(x)| && Here(x)[n] == y;
    CellByCell(x, n);
    var z := There(x)[n];
    assert Shifted(x.kind, a, b, y, z);
    forall i | 0 <= i < |z|
      ensures z[i] == Add(Sub(y, First(x.kind, a)), First(x.kind, b))[i]
    {
      assert Sub(y, First(x.kind, a))[i] == Sub(z, First(x.kind, b))[i];
    }
  }

  lemma {:induction false} HereOffset(x: Transfer, y: seq<int>)
    requires TransferOk(x) && |y| == |x.kind.layout|
    ensures |First(x.kind, x.space.local)| == |Last(x.kind, x.space.local)| == |y|
    ensures y in Here(x) <==> Within(Sub(y, First(x.kind, x.space.local)), Extents(First(x.kind, x.space.local), Last(x.kind, x.space.local)))
    ensures Add(Sub(y, First(x.kind, x.space.local)), First(x.kind, x.space.local)) == y
  {
    var first, last := First(x.kind, x.space.local), Last(x.kind, x.space.local);
    BoxOrdered(x.kind, x.space.local, |x.d.first|);
    BoxCellIff(x.kind, x.space.local, |x.d.first|, y);
    var o, e := Sub(y, first), Extents(first, last);
    if Within(o, e) {
      forall i | 0 <= i < |y|
        ensures first[i] <= y[i] <= last[i]
      {
        assert 0 <= o[i] < e[i];
      }
    }
  }

  /** What a put on the memory of two fields starts from. */
  ghost predicate PutOk(x: Transfer, held: Store, s: Range, t: Range, from: Memory, to: Memory) {
    && HeldAt(x, held) && FieldIn(x.kind.layout, from, held[x.from]) && FieldIn(x.kind.layout, to, held[x.to])
    && RangeOf(s, x.kind, Rebase(x.space, x.d).local) && RangeOf(t, x.kind, x.space.local)
  }

  lemma {:induction false} PutIsReady(x: Transfer, held: Store, s: Range, t: Range, from: Memory, to: Memory)
    requires PutOk(x, held, s, t, from, to)
    ensures s.extent == t.extent && PutReady(s, t, FieldOf(from), FieldOf(to), |from.elements|, |to.elements|)
  {
    var dims := |x.d.first|;
    SameExtentsExtended(x.kind, x.space.local, Rebase(x.space, x.d).local, dims);
    BoxFits(s, x.kind, Rebase(x.space, x.d).local, dims, from, held[x.from]);
    BoxFits(t, x.kind, x.space.local, dims, to, held[x.to]);
  }

  ghost function Elements(x: Transfer, held: Store, s: Range, t: Range, from: Memory, to: Memory): (e: seq<Value>)
    requires PutOk(x, held, s, t, from, to)
    ensures |e| == |to.elements|
  {
    PutIsReady(x, held, s, t, from, to);
    PutMovesOk(s, t, FieldOf(from), FieldOf(to), |from.elements|, |to.elements|);
    Copied(to.elements, from.elements, PutMoves(s, t, FieldOf(from), FieldOf(to)))
  }

  /** A cell of the target range. */
  lemma {:induction false} HereMoved(x: Transfer, held: Store, s: Range, t: Range, from: Memory, to: Memory, y: seq<int>)
    requires PutOk(x, held, s, t, from, to) && y in Here(x)
    ensures |y| == |x.kind.layout| && OriginCell(x, y) in held[x.from]
    ensures 0 <= Address(x.kind.layout, to.region, y) < |to.elements|
    ensures Elements(x, held, s, t, from, to)[Address(x.kind.layout, to.region, y)] == held[x.from][OriginCell(x, y)]
  {
    PutIsReady(x, held, s, t, from, to);
    OriginShift(x, y);
    HereOffset(x, y);
    var first, o := First(x.kind, x.space.local), Sub(y, First(x.kind, x.space.local));
    SameAddress(t, x.kind, x.space.local, to, o);
    SameAddress(s, x.kind, Rebase(x.space, x.d).local, from, o);
    PutResult(s, t, FieldOf(from), FieldOf(to), from.elements, to.elements);
    assert Within(o, s.extent);
    assert HoldsCell(x.kind.layout, from, held[x.from], OriginCell(x, y));
  }

  lemma {:induction false} HereHeld(x: Transfer, held: Store, y: seq<int>)
    requires HeldAt(x, held) && y in Here(x)
    ensures y in held[x.to]
  {
    var n :| 0 <= n < |Here(x)| && Here(x)[n] == y;
  }

  lemma {:induction false} AddressesDiffer(lm: seq<nat>, m: Memory, content: Content, y: seq<int>, z: seq<int>)
    requires Represents(lm, m, content) && y in content && z in content && y != z
    ensures |y| == |z| == |lm| && 0 <= Address(lm, m.region, y) < |m.elements| && Address(lm, m.region, y) != Address(lm, m.region, z)
  {
    assert HoldsCell(lm, m, content, y) && HoldsCell(lm, m, content, z);
    CellAddress(lm, m, y);
  }

  /** What the range's coordinate o stands for. */
  lemma {:induction false} OffsetHere(x: Transfer, t: Range, to: Memory, o: seq<int>) returns (z: seq<int>)
    requires TransferOk(x) && RangeOf(t, x.kind, x.space.local) && MemoryOk(t.lm, to) && to.region.base == 0 && Within(o, t.extent)
    ensures z in Here(x) && |o| == |z| == |t.lm| && Address(t.lm, RegionOf(t, FieldOf(to)), o) == Address(t.lm, to.region, z)
  {
    var first := First(x.kind, x.space.local);
    z := Add(o, first);
    assert Sub(z, first) == o;
    HereOffset(x, z);
    SameAddress(t, x.kind, x.space.local, to, o);
  }

  lemma {:induction false} PutLeaves(s: Range, t: Range, fs: Field, ft: Field, src: seq<Value>, dst: seq<Value>, i: nat)
    requires PutReady(s, t, fs, ft, |src|, |dst|) && i < |dst|
    requires forall o :: Within(o, s.extent) ==> |o| == |t.lm| && Address(t.lm, RegionOf(t, ft), o) != i
    ensures InMemory(PutMoves(s, t, fs, ft), |src|, |dst|) && Copied(dst, src, PutMoves(s, t, fs, ft))[i] == dst[i]
  {
    PutResult(s, t, fs, ft, src, dst);
  }

  /** Any other cell of the target field. */
  lemma {:induction false} OtherKept(x: Transfer, held: Store, s: Range, t: Range, from: Memory, to: Memory, y: seq<int>)
    requires PutOk(x, held, s, t, from, to) && y in held[x.to] && y !in Here(x)
    ensures |y| == |x.kind.layout| && 0 <= Address(x.kind.layout, to.region, y) < |to.elements|
    ensures Elements(x, held, s, t, from, to)[Address(x.kind.layout, to.region, y)] == held[x.to][y]
  {
    PutIsReady(x, held, s, t, from, to);
    assert HoldsCell(t.lm, to, held[x.to], y);
    forall o | Within(o, s.extent)
      ensures |o| == |t.lm| && Address(t.lm, RegionOf(t, FieldOf(to)), o) != Address(t.lm, to.region, y)
    {
      var z := OffsetHere(x, t, to, o);
      HereHeld(x, held, z);
      AddressesDiffer(t.lm, to, held[x.to], y, z);
    }
    PutLeaves(s, t, FieldOf(from), FieldOf(to), from.elements, to.elements, Address(t.lm, to.region, y));
  }

  /** A put moves the cells: afterwards the target's memory holds what the bulk exchange says. */
  lemma {:induction false} PutMovesCells(x: Transfer, held: Store, s: Range, t: Range, from: Memory, to: Memory)
    requires PutOk(x, held, s, t, from, to)
    ensures FieldIn(x.kind.layout, to.(elements := Elements(x, held, s, t, from, to)), AfterPut(x, held)[x.to])
  {
    var after, content := to.(elements := Elements(x, held, s, t, from, to)), AfterPut(x, held)[x.to];
    forall y {:trigger HoldsCell(x.kind.layout, after, content, y)}
      ensures HoldsCell(x.kind.layout, after, content, y)
    {
      assert HoldsCell(x.kind.layout, to, held[x.to], y);
      if y in Here(x) {
        HereMoved(x, held, s, t, from, to, y);
      } else if y in held[x.to] {
        OtherKept(x, held, s, t, from, to, y);
      }
    }
  }

  /** put between the memories of two different fields. */
  method PutFields(ghost x: Transfer, ghost held: Store, s: Range, t: Range, from: Region, to: Region, src: array<Value>, dst: array<Value>)
    requires src != dst && PutOk(x, held, s, t, Memory(from, src[..]), Memory(to, dst[..]))
    modifies dst
    ensures FieldIn(x.kind.layout, Memory(to, dst[..]), AfterPut(x, held)[x.to])
  {
    ghost var before := Memory(to, dst[..]);
    PutIsReady(x, held, s, t, Memory(from, src[..]), before);
    PutMovesCells(x, held, s, t, Memory(from, src[..]), before);
    Put(s, t, Field(from.memory, from.shift), Field(to.memory, to.shift), src, dst);
  }
}

// The halo exchange on the memory of the fields: the kernels' strided moves between a field's
// elements and a message's slices do what the cell-by-cell view of packing and unpacking says.

module FieldMemory {
  import opened MixedRadix
  import opened LoopNest
  import opened OrderedMap
  import opened Pattern
  import opened CommObject
  import opened ExchangeCycle
  import opened Matching
  import opened Delivery
  import opened Copying
  import opened PackKernels
  import opened Cells
  import opened EndToEnd
  import opened HaloExchange
  import opened FieldPack

  // ------------------------------------------------------------------ one field's memory

  /** The elements of a field in memory order, and where its cells are. */
  datatype Memory = Memory(region: Region, elements: seq<Value>)

  function FirstCell(r: Region): seq<int> {
    Negated(r.shift)
  }

  function LastCell(r: Region): seq<int>
    requires |r.memory| == |r.shift|
  {
    Sub(LastOffsets(r.memory), r.shift)
  }

  function LastOffsets(e: seq<int>): (l: seq<int>)
    ensures |l| == |e| && forall i {:trigger l[i]} :: 0 <= i < |l| ==> l[i] == e[i] - 1
  {
    seq(|e|, i requires 0 <= i < |e| => e[i] - 1)
  }

  ghost predicate MemoryOk(lm: seq<nat>, m: Memory) {
    && IsLayout(lm) && |lm| > 0 && RegionOk(lm, m.region) && EndOfRegion(lm, m.region) <= |m.elements|
  }

  ghost predicate InRegion(lm: seq<nat>, r: Region, x: seq<int>)
    requires RegionOk(lm, r)
  {
    InBox(x, FirstCell(r), LastCell(r))
  }

  lemma {:induction false} RegionBox(lm: seq<nat>, r: Region)
    requires RegionOk(lm, r)
    ensures Ordered(FirstCell(r), LastCell(r)) && |FirstCell(r)| == |lm| && Fits(lm, FirstCell(r), LastCell(r), r)
  {
  }

  /** A cell's address is that of one of the elements, and of no other cell. */
  lemma {:induction false} CellAddress(lm: seq<nat>, m: Memory, x: seq<int>)
    requires MemoryOk(lm, m) && InRegion(lm, m.region, x)
    ensures |x| == |lm| && 0 <= Address(lm, m.region, x) < |m.elements|
    ensures forall y :: InRegion(lm, m.region, y) && y != x ==> |y| == |lm| && Address(lm, m.region, y) != Address(lm, m.region, x)
  {
    RegionBox(lm, m.region);
    AddressInMemory(lm, FirstCell(m.region), LastCell(m.region), m.region, x);
    forall y | InRegion(lm, m.region, y) && y != x
      ensures |y| == |lm| && Address(lm, m.region, y) != Address(lm, m.region, x)
    {
      AddressApart(lm, FirstCell(m.region), LastCell(m.region), m.region, x, y);
    }
  }

  /** Cell x holds the content's value. */
  ghost predicate HoldsCell(lm: seq<nat>, m: Memory, content: Content, x: seq<int>)
    requires MemoryOk(lm, m)
  {
    && (x in content <==> InRegion(lm, m.region, x))
    && (x in content ==> |x| == |lm| && 0 <= Address(lm, m.region, x) < |m.elements| && m.elements[Address(lm, m.region, x)] == content[x])
  }

  /** The memory holds exactly the cells of the content. */
  ghost predicate Represents(lm: seq<nat>, m: Memory, content: Content) {
    MemoryOk(lm, m) && forall x :: HoldsCell(lm, m, content, x)
  }

  /** Writing one element writes one cell. */
  lemma {:induction false} WriteCell(lm: seq<nat>, m: Memory, content: Content, x: seq<int>, v: Value)
    requires Represents(lm, m, content) && x in content
    ensures HoldsCell(lm, m, content, x)
    ensures Represents(lm, m.(elements := m.elements[Address(lm, m.region, x) := v]), content[x := v])
  {
    assert HoldsCell(lm, m, content, x);
    CellAddress(lm, m, x);
    var n := m.(elements := m.elements[Address(lm, m.region, x) := v]);
    forall y {:trigger HoldsCell(lm, n, content[x := v], y)}
      ensures HoldsCell(lm, n, content[x := v], y)
    {
      assert HoldsCell(lm, m, content, y);
    }
  }

  // ------------------------------------------------------------------ slices as elements

  /** The bytes of a row of elements. */
  function Joined(values: seq<Value>): seq<bv8> {
    if values == [] then [] else Joined(values[..|values| - 1]) + values[|values| - 1]
  }

  method JoinAll(values: array<Value>) returns (bytes: seq<bv8>)
    ensures bytes == Joined(values[..])
  {
    bytes := [];
    for n := 0 to values.Length
      invariant bytes == Joined(values[..n])
    {
      assert values[..n + 1][..n] == values[..n];
      bytes := bytes + values[n];
    }
    assert values[..values.Length] == values[..];
  }

  /** Elements that are the values of the cells, one after the other, are what pack produces. */
  lemma {:induction false} JoinedIsPacked(values: seq<Value>, content: Content, cells: seq<seq<int>>)
    requires |values| == |cells|
    requires forall m :: 0 <= m < |cells| ==> cells[m] in content && values[m] == content[cells[m]]
    ensures Joined(values) == Packed(content, cells)
  {
    if cells != [] {
      var last := |cells| - 1;
      JoinedIsPacked(values[..last], content, cells[..last]);
    }
  }

  /** Element m of a slice. */
  function ElementAt(bytes: seq<bv8>, size: nat, m: nat): Value {
    if m * size >= 0 && m * size + size <= |bytes| then bytes[m * size..m * size + size] else []
  }

  function ElementsOf(bytes: seq<bv8>, size: nat, n: nat): (e: seq<Value>)
    ensures |e| == n && forall m {:trigger e[m]} :: 0 <= m < n ==> e[m] == ElementAt(bytes, size, m)
  {
    seq(n, m requires 0 <= m < n => ElementAt(bytes, size, m))
  }

  // ------------------------------------------------------------------ packing

  ghost predicate CellsIn(content: Content, cells: seq<seq<int>>) {
    forall n :: 0 <= n < |cells| ==> cells[n] in content
  }

  /** The cells of dense spaces, and the moves between their elements and a slice. */
  lemma {:induction false} SliceMoves(kind: FieldKind, spaces: seq<SpacePair>, dims: nat, m: Memory, content: Content) returns (cells: seq<seq<int>>)
    requires dims > 0 && KindOk(kind, dims) && AllDense(kind, spaces, dims) && Represents(kind.layout, m, content)
    requires SpacesOk(kind, spaces, dims) && CellsIn(content, SpaceCells(kind, spaces, dims))
    ensures cells == SpaceCells(kind, spaces, dims) && CellShape(kind, cells)
    ensures SpacesReady(kind, spaces, dims, m.region)
    ensures MovesUpTo(kind, spaces, dims, m.region, 0, |spaces|) == PackMoves(kind.layout, m.region, cells, 0)
    ensures PackFits(kind, spaces, dims, m.region, 0, |m.elements|, |cells|)
    ensures forall n :: 0 <= n < |cells| ==>
      0 <= Address(kind.layout, m.region, cells[n]) < |m.elements| && m.elements[Address(kind.layout, m.region, cells[n])] == content[cells[n]]
  {
    cells := SpaceCells(kind, spaces, dims);
    assert SpacesReady(kind, spaces, dims, m.region);
    AllCellsShaped(kind, spaces, dims, m.region, |spaces|);
    forall n | 0 <= n < |cells|
      ensures HoldsCell(kind.layout, m, content, cells[n])
    {
    }
  }

  lemma {:induction false} SliceArrived(kind: FieldKind, m: Memory, before: seq<Value>, now: seq<Value>, cells: seq<seq<int>>, content: Content)
    requires IsLayout(kind.layout) && |m.region.memory| == |m.region.shift| == |kind.layout| && CellShape(kind, cells)
    requires |before| == |cells|
    requires SpacesDone(PackMoves(kind.layout, m.region, cells, 0), before, now, m.elements)
    requires forall n :: 0 <= n < |cells| ==>
      cells[n] in content && 0 <= Address(kind.layout, m.region, cells[n]) < |m.elements|
      && m.elements[Address(kind.layout, m.region, cells[n])] == content[cells[n]]
    ensures Joined(now) == Packed(content, cells)
  {
    var moves := PackMoves(kind.layout, m.region, cells, 0);
    CopiedAt(before, m.elements, moves);
    forall n | 0 <= n < |cells|
      ensures now[n] == content[cells[n]]
    {
      assert now[moves[n].dst] == m.elements[moves[n].src];
    }
    JoinedIsPacked(now, content, cells);
  }

  /** field_descriptor::pack into the slice of a message: the bytes are the values of the spaces'
      cells, cell after cell. */
  method PackSlice(kind: FieldKind, spaces: seq<SpacePair>, m: Memory, ghost dims: nat, ghost content: Content) returns (bytes: seq<bv8>)
    requires dims > 0 && KindOk(kind, dims) && AllDense(kind, spaces, dims) && Represents(kind.layout, m, content)
    requires SpacesOk(kind, spaces, dims) && CellsIn(content, SpaceCells(kind, spaces, dims))
    ensures bytes == Packed(content, SpaceCells(kind, spaces, dims))
  {
    ghost var cells := SliceMoves(kind, spaces, dims, m, content);
    CellCount(kind, spaces, dims);
    var count := CountElements(spaces);
    var field := ArrayOf(m.elements);
    var buf := ArrayOf(Blank(count * kind.comps));
    ghost var before := buf[..];
    PackField(kind, spaces, m.region, field, buf, 0, dims);
    SliceArrived(kind, m, before, buf[..], cells, content);
    bytes := JoinAll(buf);
  }

  method ArrayOf(s: seq<Value>) returns (a: array<Value>)
    ensures fresh(a) && a[..] == s
  {
    a := new Value[|s|](i requires 0 <= i < |s| => s[i]);
  }

  function Blank(n: nat): (b: seq<Value>)
    ensures |b| == n
  {
    seq(n, i requires 0 <= i < n => [])
  }

  // ------------------------------------------------------------------ unpacking

  /** What unpacking the first n cells leaves, cell by cell. */
  function UnpackedPrefix(content: Content, cells: seq<seq<int>>, bytes: seq<bv8>, size: nat, n: nat): Content
    requires |bytes| == |cells| * size && n <= |cells|
  {
    PrefixBytes(n, |cells|, size);
    Unpacked(content, cells[..n], bytes[..n * size], size)
  }

  lemma {:induction false} PrefixBytes(n: nat, all: nat, size: nat)
    requires n <= all
    ensures 0 <= n * size <= all * size
  {
    MulLe(0, n, size);
    MulLe(n, all, size);
  }

  lemma {:induction false} PrefixStep(content: Content, cells: seq<seq<int>>, bytes: seq<bv8>, size: nat, n: nat)
    requires |bytes| == |cells| * size && n < |cells|
    ensures UnpackedPrefix(content, cells, bytes, size, n + 1)
         == UnpackedPrefix(content, cells, bytes, size, n)[cells[n] := ElementAt(bytes, size, n)]
  {
    PrefixBytes(n, |cells|, size);
    PrefixBytes(n + 1, |cells|, size);
    OneMoreElement(n, size);
    var front, data := cells[..n + 1], bytes[..(n + 1) * size];
    assert front[..n] == cells[..n] && data[..n * size] == bytes[..n * size];
    assert data[n * size..] == bytes[n * size..n * size + size];
  }

  /** Running the first n moves into the field's elements writes the first n cells. */
  lemma {:induction false} UnpackedCells(lm: seq<nat>, m: Memory, content: Content, cells: seq<seq<int>>, values: seq<Value>,
                                         bytes: seq<bv8>, size: nat, moves: seq<Move>, n: nat)
    requires Represents(lm, m, content) && |bytes| == |cells| * size && n <= |cells| == |moves|
    requires forall k :: 0 <= k < |cells| ==> |cells[k]| == |lm| && cells[k] in content
    requires moves == Backwards(PackMoves(lm, m.region, cells, 0)) && InMemory(moves, |values|, |m.elements|)
    requires values == ElementsOf(bytes, size, |cells|)
    ensures InMemory(moves[..n], |values|, |m.elements|)
    ensures UnpackedPrefix(content, cells, bytes, size, n).Keys == content.Keys
    ensures Represents(lm, m.(elements := Copied(m.elements, values, moves[..n])), UnpackedPrefix(content, cells, bytes, size, n))
  {
    if n > 0 {
      UnpackedCells(lm, m, content, cells, values, bytes, size, moves, n - 1);
      var before := m.(elements := Copied(m.elements, values, moves[..n - 1]));
      CopiedMore(m.elements, values, moves, n - 1);
      assert moves[n - 1] == Move(n - 1, Address(lm, m.region, cells[n - 1]));
      NextCell(lm, before, content, cells, bytes, size, n - 1, values[n - 1]);
    }
  }

  /** Writing the next element writes the next cell. */
  lemma {:induction false} NextCell(lm: seq<nat>, m: Memory, content: Content, cells: seq<seq<int>>, bytes: seq<bv8>, size: nat, n: nat, v: Value)
    requires |bytes| == |cells| * size && n < |cells| && |cells[n]| == |lm| && cells[n] in content
    requires UnpackedPrefix(content, cells, bytes, size, n).Keys == content.Keys
    requires Represents(lm, m, UnpackedPrefix(content, cells, bytes, size, n)) && v == ElementAt(bytes, size, n)
    ensures UnpackedPrefix(content, cells, bytes, size, n + 1).Keys == content.Keys
    ensures 0 <= Address(lm, m.region, cells[n]) < |m.elements|
    ensures Represents(lm, m.(elements := m.elements[Address(lm, m.region, cells[n]) := v]), UnpackedPrefix(content, cells, bytes, size, n + 1))
  {
    PrefixStep(content, cells, bytes, size, n);
    WriteCell(lm, m, UnpackedPrefix(content, cells, bytes, size, n), cells[n], v);
  }

  /** field_descriptor::unpack from the slice of a message. */
  method UnpackSlice(kind: FieldKind, spaces: seq<SpacePair>, m: Memory, bytes: seq<bv8>, size: nat, ghost dims: nat, ghost content: Content)
    returns (now: Memory)
    requires dims > 0 && KindOk(kind, dims) && AllDense(kind, spaces, dims) && Represents(kind.layout, m, content)
    requires SpacesOk(kind, spaces, dims) && CellsIn(content, SpaceCells(kind, spaces, dims))
    requires |bytes| == |SpaceCells(kind, spaces, dims)| * size
    ensures now.region == m.region && Represents(kind.layout, now, Unpacked(content, SpaceCells(kind, spaces, dims), bytes, size))
    ensures Unpacked(content, SpaceCells(kind, spaces, dims), bytes, size).Keys == content.Keys
  {
    ghost var cells := SliceMoves(kind, spaces, dims, m, content);
    CellCount(kind, spaces, dims);
    var count := CountElements(spaces);
    var field := ArrayOf(m.elements);
    var buf := ArrayOf(ElementsOf(bytes, size, count * kind.comps));
    UnpackField(kind, spaces, m.region, field, buf, 0, dims);
    ghost var moves := Backwards(PackMoves(kind.layout, m.region, cells, 0));
    UnpackedCells(kind.layout, m, content, cells, buf[..], bytes, size, moves, |cells|);
    assert moves[..|cells|] == moves && cells[..|cells|] == cells && bytes[..|cells| * size] == bytes;
    now := m.(elements := field[..]);
  }

  // ------------------------------------------------------------------ all fields

  type Memories = map<FieldPtr, Memory>

  ghost predicate FieldRepresents(u: Setup, mems: Memories, store: Store, f: FieldPtr) {
    f.slot < |u.slots| ==>
      f in mems && f in store && Represents(u.slots[f.slot].layout, mems[f], store[f])
  }

  /** The memories hold the contents of all fields. */
  ghost predicate AllRepresent(u: Setup, mems: Memories, store: Store) {
    mems.Keys == store.Keys && forall f :: f in store ==> FieldRepresents(u, mems, store, f)
  }

  ghost predicate SameCells(a: Store, b: Store) {
    a.Keys == b.Keys && forall f :: f in a ==> a[f].Keys == b[f].Keys
  }

  ghost predicate SameRegions(a: Memories, b: Memories) {
    a.Keys == b.Keys && forall f :: f in a ==> a[f].region == b[f].region
  }

  /** The cells of an info are cells of its field. */
  ghost predicate CellsHeld(u: Setup, store: Store, f: FieldInfo) {
    InfoShaped(u, f) && f.field in store && CellsIn(store[f.field], InfoCells(u, f))
  }

  lemma {:induction false} StillHeld(u: Setup, a: Store, b: Store, f: FieldInfo)
    requires SameCells(a, b) && CellsHeld(u, a, f)
    ensures CellsHeld(u, b, f)
  {
  }

  /** One slice of a message. */
  method PackInfo(u: Setup, mems: Memories, f: FieldInfo, ghost store: Store) returns (slice: seq<bv8>)
    requires u.dims > 0 && AllRepresent(u, mems, store) && CellsHeld(u, store, f)
    ensures slice == SliceOf(u, store, f)
  {
    assert FieldRepresents(u, mems, store, f.field);
    var slot := u.slots[f.field.slot];
    slice := PackSlice(KindOf(slot), f.spaces, mems[f.field], u.dims, store[f.field]);
  }

  // Loop state: the first n slices have been written into the message.
  ghost predicate Written(memory: seq<bv8>, infos: seq<FieldInfo>, slices: seq<seq<bv8>>, n: nat, data: seq<bv8>) {
    && n <= |infos| == |slices| && (forall a :: 0 <= a < |infos| ==> infos[a].offset + |slices[a]| <= |memory|)
    && data == Filled(memory, infos[..n], slices[..n])
  }

  lemma {:induction false} WrittenNext(memory: seq<bv8>, infos: seq<FieldInfo>, slices: seq<seq<bv8>>, n: nat, data: seq<bv8>)
    requires Written(memory, infos, slices, n, data) && n < |infos|
    ensures infos[n].offset + |slices[n]| <= |data|
    ensures Written(memory, infos, slices, n + 1, Overwrite(data, infos[n].offset, slices[n]))
  {
    FilledStep(memory, infos, slices, n);
  }

  lemma {:induction false} WrittenAll(u: Setup, store: Store, b: Buffer, memory: seq<bv8>, slices: seq<seq<bv8>>, data: seq<bv8>)
    requires Packable(u, store, b) && |memory| == b.size && slices == Slices(u, store, b)
    ensures Written(memory, b.infos, slices, 0, memory)
    ensures Written(memory, b.infos, slices, |b.infos|, data) ==> data == MessageOf(u, store, b, memory)
  {
    assert b.infos[..|b.infos|] == b.infos && slices[..|b.infos|] == slices;
  }

  lemma {:induction false} SliceHeld(u: Setup, store: Store, b: Buffer, slices: seq<seq<bv8>>, n: nat)
    requires Packable(u, store, b) && slices == Slices(u, store, b) && n < |b.infos|
    ensures CellsHeld(u, store, b.infos[n]) && slices[n] == SliceOf(u, store, b.infos[n])
  {
  }

  /** packer::pack for one buffer, on the memory of the fields. */
  method PackBuffer(u: Setup, mems: Memories, b: Buffer, memory: seq<bv8>, ghost store: Store) returns (data: seq<bv8>)
    requires u.dims > 0 && AllRepresent(u, mems, store) && Packable(u, store, b) && |memory| == b.size
    ensures data == MessageOf(u, store, b, memory)
    ensures forall n: nat :: SliceStands(u, store, b, data, n)
    ensures forall k: nat :: PaddingHeld(u, store, b, memory, data, k)
  {
    MessageBytes(u, store, b, memory);
    data := memory;
    ghost var slices := Slices(u, store, b);
    WrittenAll(u, store, b, memory, slices, data);
    for n := 0 to |b.infos|
      invariant Written(memory, b.infos, slices, n, data)
    {
      SliceHeld(u, store, b, slices, n);
      var slice := PackInfo(u, mems, b.infos[n], store);
      WrittenNext(memory, b.infos, slices, n, data);
      data := Overwrite(data, b.infos[n].offset, slice);
    }
    WrittenAll(u, store, b, memory, slices, data);
  }

  /** From mems and store to now and cur: contents follow the store, cells stay where they are. */
  ghost predicate Tracks(u: Setup, mems: Memories, store: Store, now: Memories, cur: Store) {
    AllRepresent(u, now, cur) && SameCells(store, cur) && SameRegions(mems, now)
  }

  lemma {:induction false} TracksOn(u: Setup, mems: Memories, store: Store, mid: Memories, cur: Store, now: Memories, next: Store)
    requires Tracks(u, mems, store, mid, cur) && Tracks(u, mid, cur, now, next)
    ensures Tracks(u, mems, store, now, next)
  {
  }

  /** One field's memory and contents change. */
  lemma {:induction false} OneField(u: Setup, mems: Memories, store: Store, f: FieldPtr, m: Memory, content: Content)
    requires AllRepresent(u, mems, store) && f in store && f.slot < |u.slots|
    requires Represents(u.slots[f.slot].layout, m, content) && m.region == mems[f].region && content.Keys == store[f].Keys
    ensures Tracks(u, mems, store, mems[f := m], store[f := content])
  {
    var now, next := mems[f := m], store[f := content];
    forall g | g in next
      ensures FieldRepresents(u, now, next, g)
    {
      assert FieldRepresents(u, mems, store, g);
    }
  }

  /** Unpacking one info on the memory of its field. */
  method UnpackInfo(u: Setup, mems: Memories, f: FieldInfo, data: seq<bv8>, ghost store: Store) returns (now: Memories)
    requires u.dims > 0 && AllRepresent(u, mems, store) && CellsHeld(u, store, f) && f.offset + InfoBytes(u, f) <= |data|
    ensures Tracks(u, mems, store, now, InfoUnpacked(u, store, f, data))
  {
    assert FieldRepresents(u, mems, store, f.field);
    var slot := u.slots[f.field.slot];
    var m := UnpackSlice(KindOf(slot), f.spaces, mems[f.field], InfoSlice(u, f, data), slot.elemSize, u.dims, store[f.field]);
    OneField(u, mems, store, f.field, m, Unpacked(store[f.field], InfoCells(u, f), InfoSlice(u, f, data), slot.elemSize));
    now := mems[f.field := m];
  }

  ghost predicate InfoHeld(u: Setup, store: Store, b: Buffer, n: nat) {
    n < |b.infos| ==> CellsHeld(u, store, b.infos[n])
  }

  ghost predicate BufferHeld(u: Setup, store: Store, b: Buffer) {
    Readable(u, b) && forall n: nat :: InfoHeld(u, store, b, n)
  }

  /** One round of the loop over the infos of a buffer. */
  method UnpackNext(u: Setup, mems: Memories, b: Buffer, data: seq<bv8>, n: nat, first: Memories, ghost store: Store) returns (now: Memories)
    requires u.dims > 0 && BufferHeld(u, store, b) && |data| == b.size && n < |b.infos|
    requires Tracks(u, first, store, mems, UnpackedUpTo(u, store, b, data, n))
    ensures Tracks(u, first, store, now, UnpackedUpTo(u, store, b, data, n + 1))
  {
    ghost var cur := UnpackedUpTo(u, store, b, data, n);
    assert InfoHeld(u, store, b, n);
    StillHeld(u, store, cur, b.infos[n]);
    now := UnpackInfo(u, mems, b.infos[n], data, cur);
    TracksOn(u, first, store, mems, cur, now, InfoUnpacked(u, cur, b.infos[n], data));
  }

  /** packer::unpack for one buffer, on the memory of the fields. */
  method UnpackBuffer(u: Setup, mems: Memories, b: Buffer, data: seq<bv8>, ghost store: Store) returns (now: Memories)
    requires u.dims > 0 && AllRepresent(u, mems, store) && BufferHeld(u, store, b) && |data| == b.size
    ensures Tracks(u, mems, store, now, UnpackedUpTo(u, store, b, data, |b.infos|))
  {
    now := mems;
    for n := 0 to |b.infos|
      invariant Tracks(u, mems, store, now, UnpackedUpTo(u, store, b, data, n))
    {
      now := UnpackNext(u, now, b, data, n, mems, store);
    }
  }

  lemma {:induction false} BufferStillHeld(u: Setup, a: Store, b: Store, buffer: Buffer)
    requires SameCells(a, b) && BufferHeld(u, a, buffer)
    ensures BufferHeld(u, b, buffer)
  {
    forall n: nat
      ensures InfoHeld(u, b, buffer, n)
    {
      assert InfoHeld(u, a, buffer, n);
      if n < |buffer.infos| {
        StillHeld(u, a, b, buffer.infos[n]);
      }
    }
  }

  ghost predicate MessageHeld(u: Setup, store: Store, order: seq<Entry<Buffer>>, data: seq<seq<bv8>>, a: nat)
    requires |order| == |data|
  {
    a < |order| ==> BufferHeld(u, store, order[a].val) && |data[a]| == order[a].val.size
  }

  /** One message has arrived. */
  method UnpackMessage(u: Setup, mems: Memories, order: seq<Entry<Buffer>>, data: seq<seq<bv8>>, a: nat, first: Memories, ghost store: Store)
    returns (now: Memories)
    requires u.dims > 0 && |order| == |data| && a < |order| && MessageHeld(u, store, order, data, a)
    requires Tracks(u, first, store, mems, Received(u, store, order, data, a))
    ensures Tracks(u, first, store, now, Received(u, store, order, data, a + 1))
  {
    ghost var cur := Received(u, store, order, data, a);
    BufferStillHeld(u, store, cur, order[a].val);
    now := UnpackBuffer(u, mems, order[a].val, data[a], cur);
    TracksOn(u, first, store, mems, cur, now, Received(u, store, order, data, a + 1));
  }

  /** wait: unpack the messages in the order in which they complete. */
  method UnpackAll(u: Setup, mems: Memories, order: seq<Entry<Buffer>>, data: seq<seq<bv8>>, ghost store: Store) returns (now: Memories)
    requires u.dims > 0 && AllRepresent(u, mems, store) && |order| == |data|
    requires forall a: nat :: MessageHeld(u, store, order, data, a)
    ensures Tracks(u, mems, store, now, Received(u, store, order, data, |order|))
  {
    now := mems;
    for a := 0 to |order|
      invariant Tracks(u, mems, store, now, Received(u, store, order, data, a))
    {
      now := UnpackMessage(u, now, order, data, a, mems, store);
    }
  }

  // ------------------------------------------------------------------ end to end

  /** Every cell that a slot receives is a cell of the receiving field. */
  lemma {:induction false} ReceivedHeld(u: Setup, store: Store, r: nat, i: nat, s: nat, k: nat, j: nat, f: FieldInfo)
    requires SetupOk(u) && GridOk(u) && StoreOk(u, store) && At(u, r, i) && At(u, s, k) && j < |u.slots|
    requires f.field == FieldPtr(DomId(u, r, i), j) && f.spaces == SlotSpaces(u, r, i, s, k, j) && InfoShaped(u, f)
    ensures CellsHeld(u, store, f)
  {
    forall m | 0 <= m < |InfoCells(u, f)|
      ensures InfoCells(u, f)[m] in store[f.field]
    {
      var l := SlotCells(u, r, i, s, k, j, m);
      var h := ReceivedIffOwned(u, r, i, j, s, k, l, InfoCells(u, f)[m]);
      assert CellIn(KindOf(u.slots[j]), u.dims, HalosOfSlot(u, r, i, j)[h].local, InfoCells(u, f)[m]);
    }
  }

  lemma {:induction false} ArrivalHeld(u: Setup, store: Store, r: nat, e: Entry<Buffer>, data: seq<bv8>)
    requires SetupOk(u) && GridOk(u) && StoreOk(u, store) && r < |u.world|
    requires e in Active(BuffersOf(u, r, true)) && MayArrive(u, store, r, e, data)
    ensures BufferHeld(u, store, e.val) && |data| == e.val.size
  {
    var i, s, k, memory := ArrivalIsChannel(u, store, r, e, data);
    forall n: nat
      ensures InfoHeld(u, store, e.val, n)
    {
      if n < |e.val.infos| {
        var j := InfoExtent(u, r, i, s, k, n);
        ReceivedHeld(u, store, r, i, s, k, j, e.val.infos[n]);
      }
    }
  }

  /** The element of cell x of field j of domain (r, i) is what the exchange promises. */
  ghost predicate CellFilled(u: Setup, mems: Memories, store: Store, r: nat, i: nat, j: nat, x: seq<int>)
    requires SetupOk(u) && At(u, r, i) && j < |u.slots|
  {
    var f, lm := FieldPtr(DomId(u, r, i), j), u.slots[j].layout;
    && f in mems && MemoryOk(lm, mems[f])
    && (InRegion(lm, mems[f].region, x) ==>
          && |x| == |lm| && 0 <= Address(lm, mems[f].region, x) < |mems[f].elements|
          && mems[f].elements[Address(lm, mems[f].region, x)] == Expected(u, store, r, i, j, x))
  }

  /** All receives of the rank have completed, in this order and with these messages. */
  ghost predicate AllArrived(u: Setup, store: Store, r: nat, order: seq<Entry<Buffer>>, data: seq<seq<bv8>>)
    requires SetupOk(u) && r < |u.world|
  {
    Arrivals(u, store, r, order, data) && forall e :: e in Active(BuffersOf(u, r, true)) ==> e in order
  }

  lemma {:induction false} MessagesHeld(u: Setup, store: Store, r: nat, order: seq<Entry<Buffer>>, data: seq<seq<bv8>>)
    requires SetupOk(u) && GridOk(u) && StoreOk(u, store) && r < |u.world| && AllArrived(u, store, r, order, data)
    ensures |order| == |data| && forall a: nat :: MessageHeld(u, store, order, data, a)
  {
    forall a: nat
      ensures MessageHeld(u, store, order, data, a)
    {
      if a < |order| {
        ArrivalHeld(u, store, r, order[a], data[a]);
      }
    }
  }

  lemma {:induction false} FilledCell(u: Setup, now: Memories, cur: Store, store: Store, r: nat, i: nat, j: nat, x: seq<int>)
    requires SetupOk(u) && At(u, r, i) && j < |u.slots| && AllRepresent(u, now, cur) && FieldPtr(DomId(u, r, i), j) in cur
    requires ValueAt(cur, FieldPtr(DomId(u, r, i), j), x) == Expected(u, store, r, i, j, x)
    ensures CellFilled(u, now, store, r, i, j, x)
  {
    var f := FieldPtr(DomId(u, r, i), j);
    assert FieldRepresents(u, now, cur, f);
    assert HoldsCell(u.slots[j].layout, now[f], cur[f], x);
  }

  lemma {:induction false} FieldStored(u: Setup, store: Store, r: nat, i: nat, j: nat)
    requires SetupOk(u) && StoreOk(u, store) && At(u, r, i) && j < |u.slots|
    ensures FieldPtr(DomId(u, r, i), j) in store
  {
    var slot := u.slots[j];
  }

  lemma {:induction false} CellArrived(u: Setup, mems: Memories, now: Memories, store: Store, r: nat, order: seq<Entry<Buffer>>, data: seq<seq<bv8>>,
                                       i: nat, j: nat, x: seq<int>)
    requires SetupOk(u) && GridOk(u) && StoreOk(u, store) && r < |u.world| && AllArrived(u, store, r, order, data)
    requires Tracks(u, mems, store, now, Received(u, store, order, data, |order|)) && At(u, r, i) && j < |u.slots|
    ensures CellFilled(u, now, store, r, i, j, x)
  {
    ExchangeFillsHalos(u, store, r, order, data, i, j, x);
    FieldStored(u, store, r, i, j);
    FilledCell(u, now, Received(u, store, order, data, |order|), store, r, i, j, x);
  }

  /** The end-to-end theorem on memory: after the strided kernels have unpacked all messages of an
      exchange, in whatever order, every element of every field of the rank that is a halo cell
      with an owner is the element at the owner's cell of the same global coordinate before the
      exchange, and every other one is what it was. */
  method FillHalos(u: Setup, mems: Memories, r: nat, order: seq<Entry<Buffer>>, data: seq<seq<bv8>>, ghost store: Store) returns (now: Memories)
    requires SetupOk(u) && GridOk(u) && StoreOk(u, store) && r < |u.world| && AllRepresent(u, mems, store)
    requires AllArrived(u, store, r, order, data)
    ensures SameRegions(mems, now)
    ensures forall i: nat, j: nat, x :: At(u, r, i) && j < |u.slots| ==> CellFilled(u, now, store, r, i, j, x)
  {
    MessagesHeld(u, store, r, order, data);
    now := UnpackAll(u, mems, order, data, store);
    forall i: nat, j: nat, x: seq<int> | At(u, r, i) && j < |u.slots|
      ensures CellFilled(u, now, store, r, i, j, x)
    {
      CellArrived(u, mems, now, store, r, order, data, i, j, x);
    }
  }
}

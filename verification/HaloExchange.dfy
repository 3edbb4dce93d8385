// Messages of one exchange, their delivery in any order, and the end-to-end theorem.

module HaloExchange {
  import opened LoopNest
  import opened OrderedMap
  import opened Pattern
  import opened SendHalos
  import opened Duality
  import opened CommObject
  import opened ExchangeCycle
  import opened Matching
  import opened Delivery
  import opened Cells
  import opened EndToEnd

  // ------------------------------------------------------------------ pack and unpack a buffer

  ghost predicate InfoShaped(u: Setup, f: FieldInfo) {
    && f.field.slot < |u.slots|
    && SpacesOk(KindOf(u.slots[f.field.slot]), f.spaces, u.dims) && AllDense(KindOf(u.slots[f.field.slot]), f.spaces, u.dims)
  }

  function InfoCells(u: Setup, f: FieldInfo): seq<seq<int>>
    requires InfoShaped(u, f)
  {
    SpaceCells(KindOf(u.slots[f.field.slot]), f.spaces, u.dims)
  }

  function InfoBytes(u: Setup, f: FieldInfo): nat
    requires InfoShaped(u, f)
  {
    |InfoCells(u, f)| * u.slots[f.field.slot].elemSize
  }

  ghost predicate Packable(u: Setup, store: Store, b: Buffer) {
    forall n :: 0 <= n < |b.infos| ==>
      && InfoShaped(u, b.infos[n]) && b.infos[n].field in store
      && Holds(store[b.infos[n].field], InfoCells(u, b.infos[n]), u.slots[b.infos[n].field.slot].elemSize)
      && b.infos[n].offset + InfoBytes(u, b.infos[n]) <= b.size
  }

  /** What field.pack writes for one info. */
  function SliceOf(u: Setup, store: Store, f: FieldInfo): seq<bv8>
    requires InfoShaped(u, f) && f.field in store
    requires forall m :: 0 <= m < |InfoCells(u, f)| ==> InfoCells(u, f)[m] in store[f.field]
  {
    Packed(store[f.field], InfoCells(u, f))
  }

  lemma {:induction false} SliceLength(u: Setup, store: Store, f: FieldInfo)
    requires InfoShaped(u, f) && f.field in store
    requires Holds(store[f.field], InfoCells(u, f), u.slots[f.field.slot].elemSize)
    ensures |SliceOf(u, store, f)| == InfoBytes(u, f)
  {
    PackedAt(store[f.field], InfoCells(u, f), u.slots[f.field.slot].elemSize, 0);
  }

  ghost function Slices(u: Setup, store: Store, b: Buffer): (s: seq<seq<bv8>>)
    requires Packable(u, store, b)
    ensures |s| == |b.infos|
    ensures forall n {:trigger s[n]} :: 0 <= n < |s| ==>
      s[n] == SliceOf(u, store, b.infos[n]) && |s[n]| == InfoBytes(u, b.infos[n])
  {
    forall n | 0 <= n < |b.infos|
      ensures |SliceOf(u, store, b.infos[n])| == InfoBytes(u, b.infos[n])
    {
      SliceLength(u, store, b.infos[n]);
    }
    seq(|b.infos|, n requires 0 <= n < |b.infos| => SliceOf(u, store, b.infos[n]))
  }

  /** The message sent for a buffer: its slices written into memory whose other bytes (the
      padding) are arbitrary. */
  ghost function MessageOf(u: Setup, store: Store, b: Buffer, memory: seq<bv8>): (data: seq<bv8>)
    requires Packable(u, store, b) && |memory| == b.size
    ensures |data| == b.size
  {
    Filled(memory, b.infos, Slices(u, store, b))
  }

  ghost predicate InfosApart(u: Setup, f: FieldInfo, g: FieldInfo) {
    && InfoShaped(u, f) && InfoShaped(u, g)
    && (f.offset + InfoBytes(u, f) <= g.offset || g.offset + InfoBytes(u, g) <= f.offset)
  }

  /** No later slice overlaps slice n. */
  ghost predicate Uncovered(u: Setup, b: Buffer, n: nat) {
    forall m :: n < m < |b.infos| ==> InfosApart(u, b.infos[n], b.infos[m])
  }

  /** Slice n of a message, if no later one overlaps it: the elements of the info's cells. */
  ghost predicate SliceStands(u: Setup, store: Store, b: Buffer, data: seq<bv8>, n: nat)
    requires Packable(u, store, b) && |data| == b.size
  {
    n < |b.infos| && Uncovered(u, b, n) ==>
      data[b.infos[n].offset..b.infos[n].offset + InfoBytes(u, b.infos[n])] == SliceOf(u, store, b.infos[n])
  }

  /** Byte k of a message, if it lies in no slice: what the memory held. */
  ghost predicate PaddingHeld(u: Setup, store: Store, b: Buffer, memory: seq<bv8>, data: seq<bv8>, k: nat)
    requires Packable(u, store, b) && |data| == |memory| == b.size
  {
    k < b.size && (forall n :: 0 <= n < |b.infos| ==> !(b.infos[n].offset <= k < b.infos[n].offset + InfoBytes(u, b.infos[n])))
    ==> data[k] == memory[k]
  }

  lemma {:induction false} StandingSlice(u: Setup, b: Buffer, memory: seq<bv8>, slices: seq<seq<bv8>>, n: nat, length: nat)
    requires |slices| == |b.infos| && n < |b.infos| && Uncovered(u, b, n) && length == |slices[n]|
    requires forall m :: 0 <= m < |b.infos| ==> InfoShaped(u, b.infos[m]) && |slices[m]| == InfoBytes(u, b.infos[m])
    requires forall m :: 0 <= m < |b.infos| ==> b.infos[m].offset + |slices[m]| <= |memory|
    ensures var at := b.infos[n].offset; at + length <= |memory| && Filled(memory, b.infos, slices)[at..at + length] == slices[n]
  {
    LaterApart(u, b, slices, n);
    LastSliceStays(memory, b.infos, slices, n);
  }

  lemma {:induction false} LaterApart(u: Setup, b: Buffer, slices: seq<seq<bv8>>, n: nat)
    requires |slices| == |b.infos| && n < |b.infos| && Uncovered(u, b, n)
    requires forall m :: 0 <= m < |b.infos| ==> InfoShaped(u, b.infos[m]) && |slices[m]| == InfoBytes(u, b.infos[m])
    ensures forall m :: n < m < |b.infos| ==>
      b.infos[n].offset + |slices[n]| <= b.infos[m].offset || b.infos[m].offset + |slices[m]| <= b.infos[n].offset
  {
  }

  lemma {:induction false} HeldPadding(u: Setup, store: Store, b: Buffer, memory: seq<bv8>, slices: seq<seq<bv8>>, k: nat)
    requires Packable(u, store, b) && |memory| == b.size && slices == Slices(u, store, b)
    ensures PaddingHeld(u, store, b, memory, Filled(memory, b.infos, slices), k)
  {
    if k < b.size && (forall n :: 0 <= n < |b.infos| ==> !(b.infos[n].offset <= k < b.infos[n].offset + |slices[n]|)) {
      PaddingStays(memory, b.infos, slices, k);
    }
  }

  lemma {:induction false} SlicesBounded(u: Setup, store: Store, b: Buffer) returns (slices: seq<seq<bv8>>)
    requires Packable(u, store, b)
    ensures slices == Slices(u, store, b)
    ensures forall m :: 0 <= m < |b.infos| ==> InfoShaped(u, b.infos[m]) && |slices[m]| == InfoBytes(u, b.infos[m])
    ensures forall m :: 0 <= m < |b.infos| ==> b.infos[m].offset + |slices[m]| <= b.size
    ensures forall m :: 0 <= m < |b.infos| ==> slices[m] == SliceOf(u, store, b.infos[m])
  {
    slices := Slices(u, store, b);
  }

  lemma {:induction false} StandingAt(u: Setup, store: Store, b: Buffer, memory: seq<bv8>, n: nat)
    requires Packable(u, store, b) && |memory| == b.size
    ensures SliceStands(u, store, b, MessageOf(u, store, b, memory), n)
  {
    var slices := SlicesBounded(u, store, b);
    if n < |b.infos| && Uncovered(u, b, n) {
      StandingSlice(u, b, memory, slices, n, InfoBytes(u, b.infos[n]));
    }
  }

  /** Every byte of a message. */
  lemma {:induction false} MessageBytes(u: Setup, store: Store, b: Buffer, memory: seq<bv8>)
    requires Packable(u, store, b) && |memory| == b.size
    ensures forall n: nat :: SliceStands(u, store, b, MessageOf(u, store, b, memory), n)
    ensures forall k: nat :: PaddingHeld(u, store, b, memory, MessageOf(u, store, b, memory), k)
  {
    forall n: nat
      ensures SliceStands(u, store, b, MessageOf(u, store, b, memory), n)
    {
      StandingAt(u, store, b, memory, n);
    }
    forall k: nat
      ensures PaddingHeld(u, store, b, memory, MessageOf(u, store, b, memory), k)
    {
      HeldPadding(u, store, b, memory, Slices(u, store, b), k);
    }
  }

  lemma {:induction false} FilledStep(memory: seq<bv8>, infos: seq<FieldInfo>, slices: seq<seq<bv8>>, n: nat)
    requires n < |infos| == |slices|
    requires forall a :: 0 <= a < |infos| ==> infos[a].offset + |slices[a]| <= |memory|
    ensures Filled(memory, infos[..n + 1], slices[..n + 1]) == Overwrite(Filled(memory, infos[..n], slices[..n]), infos[n].offset, slices[n])
  {
    assert infos[..n + 1][..n] == infos[..n] && slices[..n + 1][..n] == slices[..n];
  }

  ghost predicate Readable(u: Setup, b: Buffer) {
    forall n :: 0 <= n < |b.infos| ==> InfoShaped(u, b.infos[n]) && b.infos[n].offset + InfoBytes(u, b.infos[n]) <= b.size
  }

  /** The bytes of the message that info f reads. */
  function InfoSlice(u: Setup, f: FieldInfo, data: seq<bv8>): (r: seq<bv8>)
    requires InfoShaped(u, f) && f.offset + InfoBytes(u, f) <= |data|
    ensures |r| == InfoBytes(u, f)
  {
    data[f.offset..f.offset + InfoBytes(u, f)]
  }

  function InfoUnpacked(u: Setup, store: Store, f: FieldInfo, data: seq<bv8>): Store
    requires InfoShaped(u, f) && f.offset + InfoBytes(u, f) <= |data|
  {
    if f.field !in store then store
    else store[f.field := Unpacked(store[f.field], InfoCells(u, f), InfoSlice(u, f, data),
                                   u.slots[f.field.slot].elemSize)]
  }

  /** The receiver's fields after unpacking the first n infos of a message. */
  ghost function UnpackedUpTo(u: Setup, store: Store, b: Buffer, data: seq<bv8>, n: nat): Store
    requires Readable(u, b) && |data| == b.size && n <= |b.infos|
  {
    if n == 0 then store else InfoUnpacked(u, UnpackedUpTo(u, store, b, data, n - 1), b.infos[n - 1], data)
  }

  // ------------------------------------------------------------------ one channel

  /** Piece n of the two ends of a channel stems from one slot. */
  lemma {:induction false} SlotOfPiece(sp: seq<seq<Piece>>, sq: seq<seq<Piece>>, n: nat) returns (j: nat)
    requires |sp| == |sq| && n < |Flatten(sp)|
    requires forall a :: 0 <= a < |sp| ==> |sp[a]| == |sq[a]| <= 1
    ensures |Flatten(sp)| == |Flatten(sq)|
    ensures j < |sp| && sp[j] == [Flatten(sp)[n]] && sq[j] == [Flatten(sq)[n]]
  {
    var last := |sp| - 1;
    FlattenLength(sp, sq);
    FlattenLength(sp[..last], sq[..last]);
    if n < |Flatten(sp[..last])| {
      j := SlotOfPiece(sp[..last], sq[..last], n);
    } else {
      j := last;
    }
  }

  lemma {:induction false} FlattenLength(sp: seq<seq<Piece>>, sq: seq<seq<Piece>>)
    requires |sp| == |sq| && forall a :: 0 <= a < |sp| ==> |sp[a]| == |sq[a]|
    ensures |Flatten(sp)| == |Flatten(sq)|
  {
    if sp != [] {
      FlattenLength(sp[..|sp| - 1], sq[..|sq| - 1]);
    }
  }

  lemma {:induction false} PieceOfSlot(sp: seq<seq<Piece>>, j: nat) returns (n: nat)
    requires j < |sp| && |sp[j]| == 1
    ensures n < |Flatten(sp)| && Flatten(sp)[n] == sp[j][0]
  {
    var last := |sp| - 1;
    if j < last {
      n := PieceOfSlot(sp[..last], j);
    } else {
      n := |Flatten(sp[..last])|;
    }
  }

  /** Info n of a channel at the receiver (b) and at the sender (c): slot j, the receiver's
      spaces and their re-based copies. */
  ghost predicate InfosOfSlot(u: Setup, r: nat, i: nat, s: nat, k: nat, j: nat, f: FieldInfo, g: FieldInfo)
    requires SetupOk(u) && At(u, r, i) && At(u, s, k)
  {
    && j < |u.slots| && |u.world[s][k].first| == |u.world[s][k].last|
    && SlotSpaces(u, r, i, s, k, j) != [] && PairsOf(SlotSpaces(u, r, i, s, k, j), |u.world[s][k].first|)
    && f.field == FieldPtr(DomId(u, r, i), j) && f.spaces == SlotSpaces(u, r, i, s, k, j)
    && g.field == FieldPtr(DomId(u, s, k), j) && g.spaces == RebaseAll(SlotSpaces(u, r, i, s, k, j), u.world[s][k])
    && f.offset == g.offset
  }

  lemma {:induction false} SidesShort(u: Setup, r: nat, i: nat, s: nat, k: nat)
    requires SetupOk(u) && At(u, r, i) && At(u, s, k)
    ensures forall j :: 0 <= j < |u.slots| ==> |Side(u, r, i, s, k, true)[j]| == |Side(u, r, i, s, k, false)[j]| <= 1
  {
    forall j | 0 <= j < |u.slots|
      ensures |Side(u, r, i, s, k, true)[j]| == |Side(u, r, i, s, k, false)[j]| <= 1
    {
      SlotAgreement(u, r, i, s, k, j);
    }
  }

  lemma {:induction false} ChannelInfo(u: Setup, r: nat, i: nat, s: nat, k: nat, n: nat) returns (j: nat)
    requires SetupOk(u) && Linked(u, r, i, s, k) && n < |ChannelBuffer(u, r, i, s, k, true).infos|
    ensures var b, c := ChannelBuffer(u, r, i, s, k, true), ChannelBuffer(u, r, i, s, k, false);
      && |c.infos| == |b.infos| && InfosOfSlot(u, r, i, s, k, j, b.infos[n], c.infos[n])
      && b.infos[n].offset + NumElements(b.infos[n].spaces) * u.slots[j].comps * u.slots[j].elemSize <= b.size == c.size
      && forall m :: n < m < |b.infos| ==>
           b.infos[n].offset + NumElements(b.infos[n].spaces) * u.slots[j].comps * u.slots[j].elemSize <= b.infos[m].offset
  {
    var sp, sq := Side(u, r, i, s, k, true), Side(u, r, i, s, k, false);
    var b := ChannelBuffer(u, r, i, s, k, true);
    SidesShort(u, r, i, s, k);
    EndsAgree(u, r, i, s, k);
    j := SlotOfPiece(sp, sq, n);
    SlotAgreement(u, r, i, s, k, j);
    DomainDims(u, s, k);
    assert End(Flatten(sp)[n], b.infos[n]) == b.infos[n].offset + NumElements(b.infos[n].spaces) * u.slots[j].comps * u.slots[j].elemSize;
  }

  /** A slot with data on the channel has its info in the buffer. */
  lemma {:induction false} InfoOfSlot(u: Setup, r: nat, i: nat, s: nat, k: nat, j: nat) returns (n: nat)
    requires SetupOk(u) && At(u, r, i) && At(u, s, k) && j < |u.slots| && SlotSpaces(u, r, i, s, k, j) != []
    ensures Linked(u, r, i, s, k) && n < |ChannelBuffer(u, r, i, s, k, true).infos|
    ensures var f := ChannelBuffer(u, r, i, s, k, true).infos[n];
      f.field == FieldPtr(DomId(u, r, i), j) && f.spaces == SlotSpaces(u, r, i, s, k, j)
  {
    var sp := Side(u, r, i, s, k, true);
    SlotAgreement(u, r, i, s, k, j);
    n := PieceOfSlot(sp, j);
    assert sp[j] == SlotPieces(u, r, i, j, true, PieceKey(u, r, i, s, k));
  }

  // ------------------------------------------------------------------ spaces of a slot

  ghost predicate Inside(b: Box, outer: Box) {
    InBox(b.first, outer.first, outer.last) && InBox(b.last, outer.first, outer.last)
  }

  lemma {:induction false} SlotSpacesRebase(u: Setup, r: nat, i: nat, s: nat, k: nat, j: nat)
    requires SetupOk(u) && At(u, r, i) && At(u, s, k) && j < |u.slots|
    ensures |u.world[s][k].first| == |u.world[s][k].last| == u.dims
    ensures forall l :: 0 <= l < |SlotSpaces(u, r, i, s, k, j)| ==>
      && Rebasable(SlotSpaces(u, r, i, s, k, j)[l], u.world[s][k])
      && Inside(Rebase(SlotSpaces(u, r, i, s, k, j)[l], u.world[s][k]).local, LocalExtent(u.world[s][k]))
  {
    DomainDims(u, s, k);
    SlotHalosValid(u, r, i, j);
    var x, d := SlotSpaces(u, r, i, s, k, j), u.world[s][k];
    forall l | 0 <= l < |x|
      ensures Rebasable(x[l], d) && Inside(Rebase(x[l], d).local, LocalExtent(d))
    {
      RebasedInside(HalosOfSlot(u, r, i, j), d, l);
    }
  }

  lemma {:induction false} DenseRebased(kind: FieldKind, x: SpacePair, d: Domain, dims: nat)
    requires Rebasable(x, d) && ValidHalo(x, dims) && |d.first| == dims && Dense(kind, x.local, dims)
    ensures PairMatches(x, dims) && PairMatches(Rebase(x, d), dims) && Dense(kind, Rebase(x, d).local, dims)
  {
    var y := Rebase(x, d);
    forall a | 0 <= a < dims
      ensures x.local.last[a] - x.local.first[a] == x.global.last[a] - x.global.first[a]
      ensures y.local.last[a] - y.local.first[a] == x.local.last[a] - x.local.first[a]
    {
      assert Sub(x.local.last, x.local.first)[a] == Sub(x.global.last, x.global.first)[a];
      assert Sub(y.local.last, y.local.first)[a] == Sub(x.local.last, x.local.first)[a];
    }
  }

  /** What the receiver of a slot unpacks and its sender packs stays within the slices. */
  lemma {:induction false} SlotFits(u: Setup, r: nat, i: nat, s: nat, k: nat, j: nat)
    requires SetupOk(u) && GridOk(u) && At(u, r, i) && At(u, s, k) && j < |u.slots|
    ensures |u.world[s][k].first| == |u.world[s][k].last| == u.dims && PairsOf(SlotSpaces(u, r, i, s, k, j), u.dims)
    ensures AllDense(KindOf(u.slots[j]), SlotSpaces(u, r, i, s, k, j), u.dims)
    ensures AllDense(KindOf(u.slots[j]), RebaseAll(SlotSpaces(u, r, i, s, k, j), u.world[s][k]), u.dims)
  {
    var x, d := SlotSpaces(u, r, i, s, k, j), u.world[s][k];
    SlotSpacesRebase(u, r, i, s, k, j);
    SlotHalosValid(u, r, i, j);
    assert SlotDense(u, r, i, s, k, j);
    forall l | 0 <= l < |x|
      ensures PairOf(x[l], u.dims)
      ensures PairMatches(x[l], u.dims) && PairMatches(Rebase(x[l], d), u.dims) && Dense(KindOf(u.slots[j]), Rebase(x[l], d).local, u.dims)
    {
      RebasedInside(HalosOfSlot(u, r, i, j), d, l);
      DenseRebased(KindOf(u.slots[j]), x[l], d, u.dims);
    }
  }

  /** Both ends of a slot list the same number of cells, matching cell by cell. */
  lemma {:induction false} SlotCells(u: Setup, r: nat, i: nat, s: nat, k: nat, j: nat, m: nat) returns (l: nat)
    requires SetupOk(u) && At(u, r, i) && At(u, s, k) && j < |u.slots| && KindOk(KindOf(u.slots[j]), u.dims)
    ensures var x, d, kind := SlotSpaces(u, r, i, s, k, j), u.world[s][k], KindOf(u.slots[j]);
      && |d.first| == |d.last| == u.dims && PairsOf(x, u.dims)
      && SpacesOk(kind, x, u.dims) && SpacesOk(kind, RebaseAll(x, d), u.dims)
      && |SpaceCells(kind, RebaseAll(x, d), u.dims)| == |SpaceCells(kind, x, u.dims)| == NumElements(x) * kind.comps
      && (m < |SpaceCells(kind, x, u.dims)| ==>
            var c := SpaceCells(kind, x, u.dims)[m];
            && l < |x| && c in BoxCells(kind, x[l].local, u.dims) && |c| >= u.dims
            && SpaceCells(kind, RebaseAll(x, d), u.dims)[m] == SourceCell(x[l], d, c))
  {
    SlotSpacesRebase(u, r, i, s, k, j);
    l := CellsCorrespond(KindOf(u.slots[j]), SlotSpaces(u, r, i, s, k, j), u.world[s][k], m);
    CellCount(KindOf(u.slots[j]), SlotSpaces(u, r, i, s, k, j), u.dims);
  }

  lemma {:induction false} InsideCell(kind: FieldKind, dims: nat, b: Box, outer: Box, y: seq<int>)
    requires CellIn(kind, dims, b, y) && Inside(b, outer) && |b.first| == |b.last| == dims
    ensures CellIn(kind, dims, outer, y)
  {
    forall a | 0 <= a < dims
      ensures outer.first[a] <= y[..dims][a] <= outer.last[a]
    {
      assert b.first[a] <= y[..dims][a] <= b.last[a];
    }
  }

  /** pack only reads cells of the source's own domain. */
  lemma {:induction false} PackReadsOwnDomain(u: Setup, store: Store, r: nat, i: nat, s: nat, k: nat, j: nat)
    requires SetupOk(u) && StoreOk(u, store) && At(u, r, i) && At(u, s, k) && j < |u.slots|
    requires KindOk(KindOf(u.slots[j]), u.dims)
    ensures |u.world[s][k].first| == |u.world[s][k].last| && PairsOf(SlotSpaces(u, r, i, s, k, j), |u.world[s][k].first|)
    ensures var kind, there := KindOf(u.slots[j]), RebaseAll(SlotSpaces(u, r, i, s, k, j), u.world[s][k]);
      && SpacesOk(kind, there, u.dims)
      && FieldPtr(DomId(u, s, k), j) in store
      && Holds(store[FieldPtr(DomId(u, s, k), j)], SpaceCells(kind, there, u.dims), u.slots[j].elemSize)
  {
    SlotSpacesRebase(u, r, i, s, k, j);
    var content := store[FieldPtr(DomId(u, s, k), j)];
    RebasedCells(KindOf(u.slots[j]), SlotSpaces(u, r, i, s, k, j), u.world[s][k], content,
                 HalosOfSlot(u, s, k, j), u.slots[j].elemSize);
  }

  lemma {:induction false} RebasedCells(kind: FieldKind, x: seq<SpacePair>, d: Domain, content: Content,
                                        halos: seq<SpacePair>, size: nat)
    requires KindOk(kind, |d.first|) && |d.first| == |d.last|
    requires forall l :: 0 <= l < |x| ==> Rebasable(x[l], d) && Inside(Rebase(x[l], d).local, LocalExtent(d))
    requires Covers(content, kind, |d.first|, d, halos, size)
    ensures PairsOf(x, |d.first|) && SpacesOk(kind, RebaseAll(x, d), |d.first|)
    ensures Holds(content, SpaceCells(kind, RebaseAll(x, d), |d.first|), size)
  {
    forall l | 0 <= l < |x|
      ensures PairOf(x[l], |d.first|) && Shaped(Rebase(x[l], d).local, |d.first|)
    {
      assert Rebasable(x[l], d);
    }
    var there := RebaseAll(x, d);
    forall l | 0 <= l < |there|
      ensures Inside(there[l].local, LocalExtent(d))
    {
      assert Inside(Rebase(x[l], d).local, LocalExtent(d));
    }
    DomainCells(kind, there, |d.first|, LocalExtent(d), content, size);
  }

  lemma {:induction false} DomainCells(kind: FieldKind, spaces: seq<SpacePair>, dims: nat, outer: Box, content: Content, size: nat)
    requires SpacesOk(kind, spaces, dims)
    requires forall l :: 0 <= l < |spaces| ==> Inside(spaces[l].local, outer)
    requires forall x :: x in content ==> |content[x]| == size
    requires forall x :: CellIn(kind, dims, outer, x) ==> x in content
    ensures Holds(content, SpaceCells(kind, spaces, dims), size)
  {
    var parts := Parts(kind, spaces, dims);
    forall m | 0 <= m < |Concat(parts, |spaces|)|
      ensures Concat(parts, |spaces|)[m] in content
    {
      var l, n := ConcatAt(parts, |spaces|, m);
      var y := parts[l][n];
      assert y in BoxCells(kind, spaces[l].local, dims);
      BoxCellIff(kind, spaces[l].local, dims, y);
      CellInBox(kind, dims, spaces[l].local, y);
      InsideCell(kind, dims, spaces[l].local, outer, y);
    }
  }

  // ------------------------------------------------------------------ delivery of one channel

  /** Both ends of a slot's info cover the same number of bytes, before the next info starts. */
  lemma {:induction false} InfoExtent(u: Setup, r: nat, i: nat, s: nat, k: nat, n: nat) returns (j: nat)
    requires SetupOk(u) && GridOk(u) && Linked(u, r, i, s, k) && n < |ChannelBuffer(u, r, i, s, k, true).infos|
    ensures var b, c := ChannelBuffer(u, r, i, s, k, true), ChannelBuffer(u, r, i, s, k, false);
      && |c.infos| == |b.infos| && InfosOfSlot(u, r, i, s, k, j, b.infos[n], c.infos[n])
      && InfoShaped(u, b.infos[n]) && InfoShaped(u, c.infos[n])
      && InfoBytes(u, b.infos[n]) == InfoBytes(u, c.infos[n])
      && b.infos[n].offset + InfoBytes(u, b.infos[n]) <= b.size == c.size
      && forall m :: n < m < |b.infos| ==> b.infos[n].offset + InfoBytes(u, b.infos[n]) <= b.infos[m].offset
  {
    j := ChannelInfo(u, r, i, s, k, n);
    var l := SlotCells(u, r, i, s, k, j, 0);
    SlotFits(u, r, i, s, k, j);
    var b, c := ChannelBuffer(u, r, i, s, k, true), ChannelBuffer(u, r, i, s, k, false);
    assert |InfoCells(u, b.infos[n])| == |InfoCells(u, c.infos[n])| == NumElements(b.infos[n].spaces) * u.slots[j].comps;
  }

  /** The sender's buffer can be packed and the receiver's unpacked. */
  lemma {:induction false} ChannelUsable(u: Setup, store: Store, r: nat, i: nat, s: nat, k: nat)
    requires SetupOk(u) && GridOk(u) && StoreOk(u, store) && Linked(u, r, i, s, k)
    ensures Packable(u, store, ChannelBuffer(u, r, i, s, k, false))
    ensures Readable(u, ChannelBuffer(u, r, i, s, k, true))
    ensures ChannelBuffer(u, r, i, s, k, true).size == ChannelBuffer(u, r, i, s, k, false).size
  {
    var b, c := ChannelBuffer(u, r, i, s, k, true), ChannelBuffer(u, r, i, s, k, false);
    EndsAgree(u, r, i, s, k);
    forall n | 0 <= n < |c.infos|
      ensures InfoShaped(u, c.infos[n]) && c.infos[n].field in store
      ensures Holds(store[c.infos[n].field], InfoCells(u, c.infos[n]), u.slots[c.infos[n].field.slot].elemSize)
      ensures c.infos[n].offset + InfoBytes(u, c.infos[n]) <= c.size
      ensures InfoShaped(u, b.infos[n]) && b.infos[n].offset + InfoBytes(u, b.infos[n]) <= b.size
    {
      var j := InfoExtent(u, r, i, s, k, n);
      PackReadsOwnDomain(u, store, r, i, s, k, j);
    }
  }

  /** The receiver's info f reads from the data what the sender packed for its info g. */
  ghost predicate ReadsWhatWasPacked(u: Setup, store: Store, f: FieldInfo, g: FieldInfo, data: seq<bv8>) {
    && InfoShaped(u, f) && InfoShaped(u, g) && g.field in store
    && Holds(store[g.field], InfoCells(u, g), u.slots[g.field.slot].elemSize)
    && f.offset + InfoBytes(u, f) <= |data|
    && InfoSlice(u, f, data) == SliceOf(u, store, g)
  }

  ghost predicate SlicesApart(u: Setup, c: Buffer)
    requires forall n :: 0 <= n < |c.infos| ==> InfoShaped(u, c.infos[n])
  {
    forall a, m :: 0 <= a < m < |c.infos| ==> c.infos[a].offset + InfoBytes(u, c.infos[a]) <= c.infos[m].offset
  }

  lemma {:induction false} SliceReadAt(u: Setup, store: Store, c: Buffer, memory: seq<bv8>, n: nat, offset: nat, length: nat)
    requires Packable(u, store, c) && |memory| == c.size && n < |c.infos|
    requires SlicesApart(u, c)
    requires offset == c.infos[n].offset && length == InfoBytes(u, c.infos[n])
    ensures offset + length <= c.size
    ensures MessageOf(u, store, c, memory)[offset..offset + length] == SliceOf(u, store, c.infos[n])
  {
    var slices := SlicesFit(u, store, c, n);
    FilledAt(memory, c.infos, slices, n, offset, length);
  }

  lemma {:induction false} FilledAt(memory: seq<bv8>, infos: seq<FieldInfo>, slices: seq<seq<bv8>>, n: nat, offset: nat, length: nat)
    requires |infos| == |slices| && n < |infos| && offset == infos[n].offset && length == |slices[n]|
    requires forall a :: 0 <= a < |infos| ==> infos[a].offset + |slices[a]| <= |memory|
    requires Disjoint(infos, slices)
    ensures offset + length <= |memory| && Filled(memory, infos, slices)[offset..offset + length] == slices[n]
  {
    SliceRestored(memory, infos, slices, n);
  }

  lemma {:induction false} SlicesFit(u: Setup, store: Store, c: Buffer, n: nat) returns (slices: seq<seq<bv8>>)
    requires Packable(u, store, c) && n < |c.infos|
    requires SlicesApart(u, c)
    ensures slices == Slices(u, store, c) && |slices| == |c.infos|
    ensures slices[n] == SliceOf(u, store, c.infos[n]) && |slices[n]| == InfoBytes(u, c.infos[n])
    ensures forall a :: 0 <= a < |c.infos| ==> c.infos[a].offset + |slices[a]| <= c.size
    ensures Disjoint(c.infos, slices)
  {
    slices := Slices(u, store, c);
  }

  /** Reading a slice of a packed message at its offset. */
  lemma {:induction false} SliceRead(u: Setup, store: Store, c: Buffer, memory: seq<bv8>, n: nat, f: FieldInfo)
    requires Packable(u, store, c) && |memory| == c.size && n < |c.infos|
    requires SlicesApart(u, c)
    requires InfoShaped(u, f) && f.offset == c.infos[n].offset && InfoBytes(u, f) == InfoBytes(u, c.infos[n])
    ensures ReadsWhatWasPacked(u, store, f, c.infos[n], MessageOf(u, store, c, memory))
  {
    SliceReadAt(u, store, c, memory, n, f.offset, InfoBytes(u, f));
    assert Holds(store[c.infos[n].field], InfoCells(u, c.infos[n]), u.slots[c.infos[n].field.slot].elemSize);
  }

  /** What the receiver reads at an info's offset is what the sender packed for it. */
  lemma {:induction false} SliceArrives(u: Setup, store: Store, r: nat, i: nat, s: nat, k: nat, b: Buffer, c: Buffer, n: nat, memory: seq<bv8>)
    returns (j: nat)
    requires SetupOk(u) && GridOk(u) && Linked(u, r, i, s, k)
    requires b == ChannelBuffer(u, r, i, s, k, true) && c == ChannelBuffer(u, r, i, s, k, false)
    requires n < |b.infos| && Packable(u, store, c) && |memory| == c.size
    ensures |c.infos| == |b.infos| && InfosOfSlot(u, r, i, s, k, j, b.infos[n], c.infos[n])
    ensures ReadsWhatWasPacked(u, store, b.infos[n], c.infos[n], MessageOf(u, store, c, memory))
  {
    j := InfoExtent(u, r, i, s, k, n);
    InfosOrdered(u, r, i, s, k);
    SliceRead(u, store, c, memory, n, b.infos[n]);
  }

  lemma {:induction false} InfosOrdered(u: Setup, r: nat, i: nat, s: nat, k: nat)
    requires SetupOk(u) && GridOk(u) && Linked(u, r, i, s, k)
    requires forall n :: 0 <= n < |ChannelBuffer(u, r, i, s, k, false).infos| ==> InfoShaped(u, ChannelBuffer(u, r, i, s, k, false).infos[n])
    ensures SlicesApart(u, ChannelBuffer(u, r, i, s, k, false))
  {
    var c := ChannelBuffer(u, r, i, s, k, false);
    EndsAgree(u, r, i, s, k);
    forall a, m | 0 <= a < m < |c.infos|
      ensures c.infos[a].offset + InfoBytes(u, c.infos[a]) <= c.infos[m].offset
    {
      var ja := InfoExtent(u, r, i, s, k, a);
      var jm := InfoExtent(u, r, i, s, k, m);
    }
  }

  /** Element m of a slice that arrives at slot j's info is the value of the matching cell of
      the source domain. */
  lemma {:induction false} ElementOfSlice(u: Setup, store: Store, f: FieldInfo, g: FieldInfo, data: seq<bv8>, x: seq<int>, m: nat, v: Value)
    requires ReadsWhatWasPacked(u, store, f, g, data) && f.field.slot == g.field.slot
    requires |InfoCells(u, f)| == |InfoCells(u, g)|
    requires WrittenAt(InfoCells(u, f), InfoSlice(u, f, data), u.slots[f.field.slot].elemSize, x, m, v)
    ensures m < |InfoCells(u, g)| && InfoCells(u, f)[m] == x && v == ValueAt(store, g.field, InfoCells(u, g)[m])
  {
    PackedAt(store[g.field], InfoCells(u, g), u.slots[g.field.slot].elemSize, m);
  }

  /** The element that info n of a message carries for a cell is what the exchange promises
      for that cell. */
  lemma {:induction false} InfoCarriesExpected(u: Setup, store: Store, r: nat, i: nat, s: nat, k: nat, j: nat, f: FieldInfo, g: FieldInfo,
                                               data: seq<bv8>, x: seq<int>, m: nat, v: Value)
    requires SetupOk(u) && GridOk(u) && At(u, r, i) && At(u, s, k) && InfosOfSlot(u, r, i, s, k, j, f, g)
    requires ReadsWhatWasPacked(u, store, f, g, data)
    requires WrittenAt(InfoCells(u, f), InfoSlice(u, f, data), u.slots[f.field.slot].elemSize, x, m, v)
    ensures HasOwner(u, r, i, j, x) && v == Expected(u, store, r, i, j, x)
  {
    var l := SlotCells(u, r, i, s, k, j, m);
    ElementOfSlice(u, store, f, g, data, x, m, v);
    var h := ReceivedIffOwned(u, r, i, j, s, k, l, x);
    OwnerUnique(u, store, r, i, j, x, h, s, k);
  }

  /** Some of the first n infos of b writes cell x of field f. */
  ghost predicate Writes(u: Setup, b: Buffer, n: nat, f: FieldPtr, x: seq<int>) {
    exists a :: 0 <= a < n && a < |b.infos| && InfoShaped(u, b.infos[a]) && b.infos[a].field == f && x in InfoCells(u, b.infos[a])
  }

  /** Info f of a message carries value v for cell x. */
  ghost predicate Carries(u: Setup, f: FieldInfo, data: seq<bv8>, x: seq<int>, v: Value)
    requires InfoShaped(u, f) && f.offset + InfoBytes(u, f) <= |data|
  {
    Delivers(InfoCells(u, f), InfoSlice(u, f, data), u.slots[f.field.slot].elemSize, x, v)
  }

  /** Unpacking one info: exactly its cells change, to elements of its slice. */
  lemma {:induction false} InfoEffect(u: Setup, cur: Store, f: FieldInfo, data: seq<bv8>, ptr: FieldPtr, x: seq<int>)
    requires InfoShaped(u, f) && f.offset + InfoBytes(u, f) <= |data| && ptr in cur
    ensures ptr in InfoUnpacked(u, cur, f, data)
    ensures !(f.field == ptr && x in InfoCells(u, f)) ==> ValueAt(InfoUnpacked(u, cur, f, data), ptr, x) == ValueAt(cur, ptr, x)
    ensures f.field == ptr && x in InfoCells(u, f) ==> Carries(u, f, data, x, ValueAt(InfoUnpacked(u, cur, f, data), ptr, x))
  {
    if f.field == ptr {
      UnpackedEffect(cur[ptr], InfoCells(u, f), InfoSlice(u, f, data), u.slots[f.field.slot].elemSize, x);
    }
  }

  // Cell x of field f, unless it has been written.
  ghost predicate Spared(store: Store, after: Store, f: FieldPtr, x: seq<int>, written: bool) {
    f in after && (!written ==> ValueAt(after, f, x) == ValueAt(store, f, x))
  }

  lemma {:induction false} SparedOn(u: Setup, store: Store, before: Store, b: Buffer, data: seq<bv8>, n: nat, f: FieldPtr, x: seq<int>)
    requires Readable(u, b) && |data| == b.size && n < |b.infos| && Spared(store, before, f, x, Writes(u, b, n, f, x))
    ensures Spared(store, InfoUnpacked(u, before, b.infos[n], data), f, x, Writes(u, b, n + 1, f, x))
  {
    WritesStep(u, b, n + 1, f, x);
    InfoEffect(u, before, b.infos[n], data, f, x);
  }

  /** A cell that no info writes stays as it is. */
  lemma {:induction false} UnwrittenStays(u: Setup, store: Store, b: Buffer, data: seq<bv8>, n: nat, f: FieldPtr, x: seq<int>)
    requires Readable(u, b) && |data| == b.size && n <= |b.infos| && f in store
    ensures Spared(store, UnpackedUpTo(u, store, b, data, n), f, x, Writes(u, b, n, f, x))
  {
    if n > 0 {
      UnwrittenStays(u, store, b, data, n - 1, f, x);
      SparedOn(u, store, UnpackedUpTo(u, store, b, data, n - 1), b, data, n - 1, f, x);
    }
  }

  /** Info n is unpacked on top of the infos before it: the cells it writes hold what it carries, all
      others what they held. */
  lemma {:induction false} InfoCounts(u: Setup, store: Store, b: Buffer, data: seq<bv8>, n: nat, f: FieldPtr, x: seq<int>)
    requires Readable(u, b) && |data| == b.size && n < |b.infos| && f in store
    ensures b.infos[n].field == f && x in InfoCells(u, b.infos[n]) ==>
      Carries(u, b.infos[n], data, x, ValueAt(UnpackedUpTo(u, store, b, data, n + 1), f, x))
    ensures !(b.infos[n].field == f && x in InfoCells(u, b.infos[n])) ==>
      ValueAt(UnpackedUpTo(u, store, b, data, n + 1), f, x) == ValueAt(UnpackedUpTo(u, store, b, data, n), f, x)
  {
    UnwrittenStays(u, store, b, data, n, f, x);
    InfoEffect(u, UnpackedUpTo(u, store, b, data, n), b.infos[n], data, f, x);
  }

  /** Whatever info e of a message carries for cell x of field f is v, and then `good` holds. */
  ghost predicate CarriesOnly(u: Setup, e: FieldInfo, data: seq<bv8>, f: FieldPtr, x: seq<int>, good: bool, v: Value) {
    && InfoShaped(u, e) && e.offset + InfoBytes(u, e) <= |data|
    && forall w :: e.field == f && Carries(u, e, data, x, w) ==> good && w == v
  }

  ghost predicate BufferCarriesOnly(u: Setup, b: Buffer, data: seq<bv8>, f: FieldPtr, x: seq<int>, good: bool, v: Value) {
    && Readable(u, b) && |data| == b.size
    && forall a :: 0 <= a < |b.infos| ==> CarriesOnly(u, b.infos[a], data, f, x, good, v)
  }

  /** Cell x of field f between two states: written with v, or left alone. */
  ghost predicate Settled(before: Store, after: Store, f: FieldPtr, x: seq<int>, written: bool, good: bool, v: Value) {
    && f in before && f in after
    && (written ==> good && ValueAt(after, f, x) == v)
    && (!written ==> ValueAt(after, f, x) == ValueAt(before, f, x))
  }

  lemma {:induction false} SettledStep(s0: Store, s1: Store, s2: Store, f: FieldPtr, x: seq<int>, w1: bool, w2: bool, good: bool, v: Value)
    requires Settled(s0, s1, f, x, w1, good, v) && Settled(s1, s2, f, x, w2, good, v)
    ensures Settled(s0, s2, f, x, w1 || w2, good, v)
  {
  }

  lemma {:induction false} MatchedInfoGood(u: Setup, store: Store, r: nat, i: nat, s: nat, k: nat, j: nat, f: FieldInfo, g: FieldInfo, data: seq<bv8>,
                                           i': nat, j': nat, x: seq<int>)
    requires SetupOk(u) && GridOk(u) && At(u, r, i) && At(u, s, k) && InfosOfSlot(u, r, i, s, k, j, f, g)
    requires ReadsWhatWasPacked(u, store, f, g, data) && At(u, r, i') && j' < |u.slots|
    ensures CarriesOnly(u, f, data, FieldPtr(DomId(u, r, i'), j'), x, HasOwner(u, r, i', j', x), Expected(u, store, r, i', j', x))
  {
    forall v | f.field == FieldPtr(DomId(u, r, i'), j') && Carries(u, f, data, x, v)
      ensures HasOwner(u, r, i', j', x) && v == Expected(u, store, r, i', j', x)
    {
      assert j' == j && u.world[r][i].id == u.world[r][i'].id;
      assert i' == i;
      var m: nat :| WrittenAt(InfoCells(u, f), InfoSlice(u, f, data), u.slots[f.field.slot].elemSize, x, m, v);
      InfoCarriesExpected(u, store, r, i, s, k, j, f, g, data, x, m, v);
    }
  }

  lemma {:induction false} ChannelInfoGood(u: Setup, store: Store, r: nat, i: nat, s: nat, k: nat, b: Buffer, c: Buffer, n: nat, memory: seq<bv8>,
                                           i': nat, j': nat, x: seq<int>)
    requires SetupOk(u) && GridOk(u) && Linked(u, r, i, s, k)
    requires b == ChannelBuffer(u, r, i, s, k, true) && c == ChannelBuffer(u, r, i, s, k, false)
    requires n < |b.infos| && Packable(u, store, c) && |memory| == c.size && At(u, r, i') && j' < |u.slots|
    ensures CarriesOnly(u, b.infos[n], MessageOf(u, store, c, memory), FieldPtr(DomId(u, r, i'), j'), x,
                        HasOwner(u, r, i', j', x), Expected(u, store, r, i', j', x))
  {
    var j := SliceArrives(u, store, r, i, s, k, b, c, n, memory);
    MatchedInfoGood(u, store, r, i, s, k, j, b.infos[n], c.infos[n], MessageOf(u, store, c, memory), i', j', x);
  }

  lemma {:induction false} InfoSettles(u: Setup, cur: Store, e: FieldInfo, data: seq<bv8>, f: FieldPtr, x: seq<int>, good: bool, v: Value)
    requires f in cur && CarriesOnly(u, e, data, f, x, good, v)
    ensures Settled(cur, InfoUnpacked(u, cur, e, data), f, x, e.field == f && x in InfoCells(u, e), good, v)
  {
    InfoEffect(u, cur, e, data, f, x);
  }

  /** Unpacking a message: every cell it writes gets the value carried for it, every other
      cell is left alone. */
  lemma {:induction false} BufferDelivery(u: Setup, cur: Store, b: Buffer, data: seq<bv8>, n: nat, f: FieldPtr, x: seq<int>, good: bool, v: Value)
    requires n <= |b.infos| && f in cur && BufferCarriesOnly(u, b, data, f, x, good, v)
    ensures Settled(cur, UnpackedUpTo(u, cur, b, data, n), f, x, Writes(u, b, n, f, x), good, v)
  {
    if n > 0 {
      BufferDelivery(u, cur, b, data, n - 1, f, x, good, v);
      DeliveryStep(u, cur, UnpackedUpTo(u, cur, b, data, n - 1), b, data, n, f, x, good, v);
    }
  }

  lemma {:induction false} DeliveryStep(u: Setup, cur: Store, before: Store, b: Buffer, data: seq<bv8>, n: nat, f: FieldPtr, x: seq<int>,
                                        good: bool, v: Value)
    requires 0 < n <= |b.infos| && BufferCarriesOnly(u, b, data, f, x, good, v)
    requires Settled(cur, before, f, x, Writes(u, b, n - 1, f, x), good, v)
    ensures Settled(cur, InfoUnpacked(u, before, b.infos[n - 1], data), f, x, Writes(u, b, n, f, x), good, v)
  {
    var e := b.infos[n - 1];
    var w1, w2 := Writes(u, b, n - 1, f, x), e.field == f && x in InfoCells(u, e);
    InfoSettles(u, before, e, data, f, x, good, v);
    SettledStep(cur, before, InfoUnpacked(u, before, e, data), f, x, w1, w2, good, v);
    WritesStep(u, b, n, f, x);
  }

  lemma {:induction false} WritesStep(u: Setup, b: Buffer, n: nat, f: FieldPtr, x: seq<int>)
    requires 0 < n <= |b.infos| && InfoShaped(u, b.infos[n - 1])
    ensures Writes(u, b, n, f, x) <==> Writes(u, b, n - 1, f, x) || (b.infos[n - 1].field == f && x in InfoCells(u, b.infos[n - 1]))
  {
  }

  // ------------------------------------------------------------------ all messages, any order

  /** data is what the network may deliver for the posted receive e of rank r: a message with
      that source, destination and tag, packed from the source's fields, padding arbitrary. */
  ghost predicate MayArrive(u: Setup, store: Store, r: nat, e: Entry<Buffer>, data: seq<bv8>)
    requires SetupOk(u)
  {
    && 0 <= e.val.address < |u.world|
    && exists f: Entry<Buffer>, memory: seq<bv8> ::
         && f in Active(BuffersOf(u, e.val.address, false)) && f.val.address == r && f.val.tag == e.val.tag
         && |memory| == f.val.size && Packable(u, store, f.val)
         && data == MessageOf(u, store, f.val, memory)
  }

  /** The continuation of one receive: unpack its message. */
  ghost function Delivered(u: Setup, store: Store, b: Buffer, data: seq<bv8>): Store {
    if Readable(u, b) && |data| == b.size then UnpackedUpTo(u, store, b, data, |b.infos|) else store
  }

  /** Fields after the first n receives of `order` have completed and been unpacked. */
  ghost function Received(u: Setup, store: Store, order: seq<Entry<Buffer>>, data: seq<seq<bv8>>, n: nat): Store
    requires |data| == |order| && n <= |order|
  {
    if n == 0 then store else Delivered(u, Received(u, store, order, data, n - 1), order[n - 1].val, data[n - 1])
  }

  ghost predicate WritesAny(u: Setup, order: seq<Entry<Buffer>>, n: nat, f: FieldPtr, x: seq<int>) {
    exists a :: 0 <= a < n && a < |order| && Writes(u, order[a].val, |order[a].val.infos|, f, x)
  }

  ghost predicate Arrivals(u: Setup, store: Store, r: nat, order: seq<Entry<Buffer>>, data: seq<seq<bv8>>)
    requires SetupOk(u) && r < |u.world|
  {
    && |data| == |order|
    && (forall a :: 0 <= a < |order| ==> order[a] in Active(BuffersOf(u, r, true)))
    && (forall a :: 0 <= a < |order| ==> MayArrive(u, store, r, order[a], data[a]))
  }

  lemma {:induction false} FieldDelivered(u: Setup, cur: Store, b: Buffer, data: seq<bv8>, f: FieldPtr, x: seq<int>)
    requires f in cur
    ensures Spared(cur, Delivered(u, cur, b, data), f, x, Writes(u, b, |b.infos|, f, x))
  {
    if Readable(u, b) && |data| == b.size {
      UnwrittenStays(u, cur, b, data, |b.infos|, f, x);
    }
  }

  lemma {:induction false} FieldReceived(u: Setup, store: Store, order: seq<Entry<Buffer>>, data: seq<seq<bv8>>, n: nat, f: FieldPtr)
    requires |data| == |order| && n <= |order| && f in store
    ensures f in Received(u, store, order, data, n)
  {
    if n > 0 {
      FieldReceived(u, store, order, data, n - 1, f);
      FieldDelivered(u, Received(u, store, order, data, n - 1), order[n - 1].val, data[n - 1], f, []);
    }
  }

  /** The n-th message to complete is unpacked on top of the ones before it: it leaves alone the cells
      that it does not write. */
  lemma {:induction false} MessageSpares(u: Setup, store: Store, order: seq<Entry<Buffer>>, data: seq<seq<bv8>>, n: nat, f: FieldPtr, x: seq<int>)
    requires |data| == |order| && n < |order| && f in store && !Writes(u, order[n].val, |order[n].val.infos|, f, x)
    ensures ValueAt(Received(u, store, order, data, n + 1), f, x) == ValueAt(Received(u, store, order, data, n), f, x)
  {
    FieldReceived(u, store, order, data, n, f);
    FieldDelivered(u, Received(u, store, order, data, n), order[n].val, data[n], f, x);
  }

  /** A delivered message is the message of the receive's own channel. */
  lemma {:induction false} ArrivalIsChannel(u: Setup, store: Store, r: nat, e: Entry<Buffer>, data: seq<bv8>)
    returns (i: nat, s: nat, k: nat, memory: seq<bv8>)
    requires SetupOk(u) && GridOk(u) && StoreOk(u, store) && r < |u.world|
    requires e in Active(BuffersOf(u, r, true)) && MayArrive(u, store, r, e, data)
    ensures Linked(u, r, i, s, k) && e.val == ChannelBuffer(u, r, i, s, k, true)
    ensures Packable(u, store, ChannelBuffer(u, r, i, s, k, false)) && Readable(u, e.val)
    ensures |memory| == ChannelBuffer(u, r, i, s, k, false).size == e.val.size
    ensures data == MessageOf(u, store, ChannelBuffer(u, r, i, s, k, false), memory)
  {
    i, s, k := ActiveIsChannel(u, r, true, e);
    EndsAgree(u, r, i, s, k);
    ChannelUsable(u, store, r, i, s, k);
    var g := ReceiveMatchesOneSend(u, r, e);
    var f: Entry<Buffer>, mem: seq<bv8> :|
      && f in Active(BuffersOf(u, e.val.address, false)) && f.val.address == r && f.val.tag == e.val.tag
      && |mem| == f.val.size && Packable(u, store, f.val)
      && data == MessageOf(u, store, f.val, mem);
    memory := mem;
    ChannelIsActive(u, r, i, s, k, false);
    assert Entry(PieceKey(u, r, i, s, k), ChannelBuffer(u, r, i, s, k, false)) == g;
    assert f == g;
  }

  /** A delivered message carries only promised values. */
  lemma {:induction false} ArrivalGood(u: Setup, store: Store, r: nat, e: Entry<Buffer>, data: seq<bv8>, i': nat, j': nat, x: seq<int>)
    requires SetupOk(u) && GridOk(u) && StoreOk(u, store) && r < |u.world|
    requires e in Active(BuffersOf(u, r, true)) && MayArrive(u, store, r, e, data) && At(u, r, i') && j' < |u.slots|
    ensures BufferCarriesOnly(u, e.val, data, FieldPtr(DomId(u, r, i'), j'), x, HasOwner(u, r, i', j', x), Expected(u, store, r, i', j', x))
  {
    var i, s, k, memory := ArrivalIsChannel(u, store, r, e, data);
    forall a | 0 <= a < |e.val.infos|
      ensures CarriesOnly(u, e.val.infos[a], data, FieldPtr(DomId(u, r, i'), j'), x, HasOwner(u, r, i', j', x), Expected(u, store, r, i', j', x))
    {
      ChannelInfoGood(u, store, r, i, s, k, e.val, ChannelBuffer(u, r, i, s, k, false), a, memory, i', j', x);
    }
  }

  ghost predicate EntryCarriesOnly(u: Setup, order: seq<Entry<Buffer>>, data: seq<seq<bv8>>, a: nat, f: FieldPtr, x: seq<int>, good: bool, v: Value) {
    a < |order| && a < |data| && BufferCarriesOnly(u, order[a].val, data[a], f, x, good, v)
  }

  lemma {:induction false} ReceivedSoFar(u: Setup, store: Store, order: seq<Entry<Buffer>>, data: seq<seq<bv8>>, n: nat,
                                         f: FieldPtr, x: seq<int>, good: bool, v: Value)
    requires n <= |order| == |data| && f in store
    requires forall a :: 0 <= a < |order| ==> EntryCarriesOnly(u, order, data, a, f, x, good, v)
    ensures Settled(store, Received(u, store, order, data, n), f, x, WritesAny(u, order, n, f, x), good, v)
  {
    if n > 0 {
      ReceivedSoFar(u, store, order, data, n - 1, f, x, good, v);
      assert EntryCarriesOnly(u, order, data, n - 1, f, x, good, v);
      ReceivedStep(u, store, Received(u, store, order, data, n - 1), order, data, n, f, x, good, v);
    }
  }

  lemma {:induction false} ReceivedStep(u: Setup, store: Store, before: Store, order: seq<Entry<Buffer>>, data: seq<seq<bv8>>, n: nat,
                                        f: FieldPtr, x: seq<int>, good: bool, v: Value)
    requires 0 < n <= |order| == |data|
    requires EntryCarriesOnly(u, order, data, n - 1, f, x, good, v)
    requires Settled(store, before, f, x, WritesAny(u, order, n - 1, f, x), good, v)
    ensures Settled(store, Delivered(u, before, order[n - 1].val, data[n - 1]), f, x, WritesAny(u, order, n, f, x), good, v)
  {
    var b := order[n - 1].val;
    var w1, w2 := WritesAny(u, order, n - 1, f, x), Writes(u, b, |b.infos|, f, x);
    BufferDelivery(u, before, b, data[n - 1], |b.infos|, f, x, good, v);
    SettledStep(store, before, Delivered(u, before, b, data[n - 1]), f, x, w1, w2, good, v);
    WritesAnyStep(u, order, n, f, x);
  }

  lemma {:induction false} WritesAnyStep(u: Setup, order: seq<Entry<Buffer>>, n: nat, f: FieldPtr, x: seq<int>)
    requires 0 < n <= |order|
    ensures WritesAny(u, order, n, f, x) <==>
      WritesAny(u, order, n - 1, f, x) || Writes(u, order[n - 1].val, |order[n - 1].val.infos|, f, x)
  {
  }

  /** A cell among those received from domain (s, k) is written by the buffer of that channel. */
  lemma {:induction false} ReceivedIsWritten(u: Setup, r: nat, i: nat, j: nat, s: nat, k: nat, x: seq<int>) returns (e: Entry<Buffer>)
    requires SetupOk(u) && At(u, r, i) && At(u, s, k) && j < |u.slots| && SlotSpaces(u, r, i, s, k, j) != []
    requires SpacesOk(KindOf(u.slots[j]), SlotSpaces(u, r, i, s, k, j), u.dims)
    requires AllDense(KindOf(u.slots[j]), SlotSpaces(u, r, i, s, k, j), u.dims)
    requires x in SpaceCells(KindOf(u.slots[j]), SlotSpaces(u, r, i, s, k, j), u.dims)
    ensures e in Active(BuffersOf(u, r, true)) && Writes(u, e.val, |e.val.infos|, FieldPtr(DomId(u, r, i), j), x)
  {
    var n := InfoOfSlot(u, r, i, s, k, j);
    ChannelIsActive(u, r, i, s, k, true);
    e := Entry(PieceKey(u, r, i, s, k), ChannelBuffer(u, r, i, s, k, true));
    assert x in InfoCells(u, e.val.infos[n]);
  }

  /** Every cell with an owner is written by some posted receive. */
  lemma {:induction false} OwnedIsWritten(u: Setup, r: nat, i: nat, j: nat, x: seq<int>) returns (e: Entry<Buffer>)
    requires SetupOk(u) && GridOk(u) && At(u, r, i) && j < |u.slots| && HasOwner(u, r, i, j, x)
    ensures e in Active(BuffersOf(u, r, true)) && Writes(u, e.val, |e.val.infos|, FieldPtr(DomId(u, r, i), j), x)
  {
    var h: nat, s: nat, k: nat :| Owned(u, r, i, j, x, h, s, k);
    var l := OwnedIsReceived(u, r, i, j, s, k, h, x);
    var m := SlotCells(u, r, i, s, k, j, 0);
    SlotFits(u, r, i, s, k, j);
    CellListed(KindOf(u.slots[j]), SlotSpaces(u, r, i, s, k, j), u.dims, l, x);
    e := ReceivedIsWritten(u, r, i, j, s, k, x);
  }

  /** The messages that arrive carry nothing but promised values. */
  lemma {:induction false} ArrivalsCarry(u: Setup, store: Store, r: nat, order: seq<Entry<Buffer>>, data: seq<seq<bv8>>,
                                         i: nat, j: nat, x: seq<int>)
    requires SetupOk(u) && GridOk(u) && StoreOk(u, store) && r < |u.world| && Arrivals(u, store, r, order, data)
    requires At(u, r, i) && j < |u.slots|
    ensures |order| == |data| && FieldPtr(DomId(u, r, i), j) in store
    ensures forall a :: 0 <= a < |order| ==>
      EntryCarriesOnly(u, order, data, a, FieldPtr(DomId(u, r, i), j), x, HasOwner(u, r, i, j, x), Expected(u, store, r, i, j, x))
  {
    var slot := u.slots[j];
    forall a | 0 <= a < |order|
      ensures EntryCarriesOnly(u, order, data, a, FieldPtr(DomId(u, r, i), j), x, HasOwner(u, r, i, j, x), Expected(u, store, r, i, j, x))
    {
      assert MayArrive(u, store, r, order[a], data[a]);
      ArrivalGood(u, store, r, order[a], data[a], i, j, x);
    }
  }

  /** When all receives have completed, an owned cell has been written. */
  lemma {:induction false} OwnedArrives(u: Setup, r: nat, order: seq<Entry<Buffer>>, i: nat, j: nat, x: seq<int>)
    requires SetupOk(u) && GridOk(u) && At(u, r, i) && j < |u.slots|
    requires forall e :: e in Active(BuffersOf(u, r, true)) ==> e in order
    ensures HasOwner(u, r, i, j, x) ==> WritesAny(u, order, |order|, FieldPtr(DomId(u, r, i), j), x)
  {
    if HasOwner(u, r, i, j, x) {
      var e := OwnedIsWritten(u, r, i, j, x);
      assert e in order;
    }
  }

  /** End to end. On every rank, for every order in which the posted receives complete and
      whatever the padding bytes were: each halo cell whose global coordinate belongs to a
      domain holds that domain's value from before the exchange, and every other cell is
      unchanged. */
  lemma {:induction false} ExchangeFillsHalos(u: Setup, store: Store, r: nat, order: seq<Entry<Buffer>>, data: seq<seq<bv8>>,
                                              i: nat, j: nat, x: seq<int>)
    requires SetupOk(u) && GridOk(u) && StoreOk(u, store) && r < |u.world|
    requires Arrivals(u, store, r, order, data)
    requires forall e :: e in Active(BuffersOf(u, r, true)) ==> e in order
    requires At(u, r, i) && j < |u.slots|
    ensures ValueAt(Received(u, store, order, data, |order|), FieldPtr(DomId(u, r, i), j), x) == Expected(u, store, r, i, j, x)
  {
    ArrivalsCarry(u, store, r, order, data, i, j, x);
    ReceivedSoFar(u, store, order, data, |order|, FieldPtr(DomId(u, r, i), j), x, HasOwner(u, r, i, j, x), Expected(u, store, r, i, j, x));
    OwnedArrives(u, r, order, i, j, x);
  }
}

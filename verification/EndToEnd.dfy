// The halo exchange as a whole: after every rank has run exchange and wait, for every order in
// which messages complete, the fields hold what a halo exchange promises.

module EndToEnd {
  import opened LoopNest
  import opened OrderedMap
  import opened Pattern
  import opened SendHalos
  import opened Duality
  import opened CommObject
  import opened ExchangeCycle
  import opened Matching
  import opened Cells

  /** Contents of all fields of all ranks. A rank only touches the fields of its own domains. */
  type Store = map<FieldPtr, Content>

  function KindOf(s: Slot): FieldKind {
    FieldKind(s.layout, s.components, s.comps)
  }

  function ValueAt(store: Store, f: FieldPtr, x: seq<int>): Value {
    if f in store && x in store[f] then store[f][x] else []
  }

  // ------------------------------------------------------------------ assumptions

  /** The generator's halos of one domain do not overlap in local coordinates. */
  ghost predicate HalosApart(halos: seq<SpacePair>) {
    forall g, h, y ::
      0 <= g < |halos| && 0 <= h < |halos|
      && InBox(y, halos[g].local.first, halos[g].local.last) && InBox(y, halos[h].local.first, halos[h].local.last)
      ==> g == h
  }

  ghost predicate InDomain(d: Domain, g: seq<int>) {
    InBox(g, d.first, d.last)
  }

  /** Domains partition (part of) the grid: no global coordinate has two owners. */
  ghost predicate DomainsApart(w: World) {
    forall r, i, s, k, g ::
      0 <= r < |w| && 0 <= i < |w[r]| && 0 <= s < |w| && 0 <= k < |w[s]|
      && InDomain(w[r][i], g) && InDomain(w[s][k], g)
      ==> r == s && i == k
  }

  ghost function HalosOfSlot(u: Setup, r: nat, i: nat, j: nat): seq<SpacePair>
    requires SetupOk(u) && At(u, r, i) && j < |u.slots|
  {
    var p := u.patterns[u.slots[j].pattern];
    p.halos[r][i]
  }

  /** What domain (r, i) receives from domain (s, k) in slot j is packed and unpacked within its
      slice. */
  ghost predicate SlotDense(u: Setup, r: nat, i: nat, s: nat, k: nat, j: nat)
    requires SetupOk(u)
  {
    At(u, r, i) && At(u, s, k) && j < |u.slots| ==>
      forall l :: 0 <= l < |SlotSpaces(u, r, i, s, k, j)| ==> Dense(KindOf(u.slots[j]), SlotSpaces(u, r, i, s, k, j)[l].local, u.dims)
  }

  ghost predicate GridOk(u: Setup)
    requires SetupOk(u)
  {
    && DomainsApart(u.world)
    && (forall j :: 0 <= j < |u.slots| ==> KindOk(KindOf(u.slots[j]), u.dims))
    && (forall r: nat, i: nat, s: nat, k: nat, j: nat :: SlotDense(u, r, i, s, k, j))
    && (forall r: nat, i: nat, j: nat :: At(u, r, i) && j < |u.slots| ==> HalosApart(HalosOfSlot(u, r, i, j)))
  }

  /** Fields whose components are outermost in memory meet the condition on any grid. */
  lemma {:induction false} OutermostIsDense(u: Setup)
    requires SetupOk(u) && forall j :: 0 <= j < |u.slots| ==> ComponentsOutermost(KindOf(u.slots[j]), u.dims)
    ensures forall r: nat, i: nat, s: nat, k: nat, j: nat :: SlotDense(u, r, i, s, k, j)
  {
    forall r: nat, i: nat, s: nat, k: nat, j: nat
      ensures SlotDense(u, r, i, s, k, j)
    {
      if At(u, r, i) && At(u, s, k) && j < |u.slots| {
        assert ComponentsOutermost(KindOf(u.slots[j]), u.dims);
      }
    }
  }

  /** x is a cell of a field of this kind whose spatial part lies in the box. */
  ghost predicate CellIn(kind: FieldKind, dims: nat, b: Box, x: seq<int>) {
    && |x| == |kind.layout| >= dims
    && InBox(x[..dims], b.first, b.last)
    && (kind.components ==> |x| == dims + 1 && 0 <= x[dims] < kind.comps)
  }

  /** The memory of a field covers its domain and all its halos. */
  ghost predicate Covers(content: Content, kind: FieldKind, dims: nat, d: Domain, halos: seq<SpacePair>, size: nat)
    requires |d.first| == |d.last|
  {
    && (forall x :: x in content ==> |content[x]| == size)
    && (forall x :: CellIn(kind, dims, LocalExtent(d), x) ==> x in content)
    && (forall h, x :: 0 <= h < |halos| && CellIn(kind, dims, halos[h].local, x) ==> x in content)
  }

  ghost predicate StoreOk(u: Setup, store: Store)
    requires SetupOk(u)
  {
    forall r: nat, i: nat, j: nat :: At(u, r, i) && j < |u.slots| ==>
      && FieldPtr(DomId(u, r, i), j) in store
      && Covers(store[FieldPtr(DomId(u, r, i), j)], KindOf(u.slots[j]), u.dims, u.world[r][i], HalosOfSlot(u, r, i, j), u.slots[j].elemSize)
  }

  // ------------------------------------------------------------------ what is promised

  /** Cell x of field j of domain (r, i) lies in halo h, and its global coordinate belongs to
      domain (s, k). */
  ghost predicate Owned(u: Setup, r: nat, i: nat, j: nat, x: seq<int>, h: nat, s: nat, k: nat)
    requires SetupOk(u) && At(u, r, i) && j < |u.slots|
  {
    var halos := HalosOfSlot(u, r, i, j);
    && At(u, s, k) && h < |halos|
    && CellIn(KindOf(u.slots[j]), u.dims, halos[h].local, x)
    && PairOf(halos[h], u.dims)
    && InDomain(u.world[s][k], ToGlobal(halos[h], x[..u.dims]))
  }

  ghost predicate HasOwner(u: Setup, r: nat, i: nat, j: nat, x: seq<int>)
    requires SetupOk(u) && At(u, r, i) && j < |u.slots|
  {
    exists h: nat, s: nat, k: nat :: Owned(u, r, i, j, x, h, s, k)
  }

  /** The owner's value at the same global coordinate and component. */
  ghost function OwnersValue(u: Setup, store: Store, r: nat, i: nat, j: nat, x: seq<int>, h: nat, s: nat, k: nat): Value
    requires SetupOk(u) && At(u, r, i) && j < |u.slots| && Owned(u, r, i, j, x, h, s, k)
  {
    DomainDims(u, s, k);
    ValueAt(store, FieldPtr(DomId(u, s, k), j), SourceCell(HalosOfSlot(u, r, i, j)[h], u.world[s][k], x))
  }

  /** A halo cell with an owner holds the owner's value from before the exchange; every other
      cell keeps its own. */
  ghost function Expected(u: Setup, store: Store, r: nat, i: nat, j: nat, x: seq<int>): Value
    requires SetupOk(u) && At(u, r, i) && j < |u.slots|
  {
    if HasOwner(u, r, i, j, x) then
      var h: nat, s: nat, k: nat :| Owned(u, r, i, j, x, h, s, k);
      OwnersValue(u, store, r, i, j, x, h, s, k)
    else ValueAt(store, FieldPtr(DomId(u, r, i), j), x)
  }

  lemma {:induction false} DomainDims(u: Setup, s: nat, k: nat)
    requires SetupOk(u) && At(u, s, k)
    ensures |u.world[s][k].first| == |u.world[s][k].last| == u.dims > 0
    ensures Ordered(u.world[s][k].first, u.world[s][k].last)
  {
  }

  lemma {:induction false} SlotHalosValid(u: Setup, r: nat, i: nat, j: nat)
    requires SetupOk(u) && At(u, r, i) && j < |u.slots|
    ensures HalosOf(HalosOfSlot(u, r, i, j), u.dims)
  {
    var p := u.patterns[u.slots[j].pattern];
    UsePattern(u, u.slots[j].pattern);
    PatternShape(u.world, p, u.dims, r, i, r, i);
  }

  /** A cell has at most one owner, so the promise is unambiguous. */
  lemma {:induction false} OwnerUnique(u: Setup, store: Store, r: nat, i: nat, j: nat, x: seq<int>, h: nat, s: nat, k: nat)
    requires SetupOk(u) && GridOk(u) && At(u, r, i) && j < |u.slots| && Owned(u, r, i, j, x, h, s, k)
    ensures Expected(u, store, r, i, j, x) == OwnersValue(u, store, r, i, j, x, h, s, k)
  {
    forall h': nat, s': nat, k': nat | Owned(u, r, i, j, x, h', s', k')
      ensures h' == h && s' == s && k' == k
    {
      assert HalosApart(HalosOfSlot(u, r, i, j));
    }
    assert HasOwner(u, r, i, j, x);
  }

  // ------------------------------------------------------------------ intersections and owners

  /** The cells received from domain (s, k) are exactly the halo cells it owns. */
  lemma {:induction false} ReceivedIffOwned(u: Setup, r: nat, i: nat, j: nat, s: nat, k: nat, l: nat, x: seq<int>) returns (h: nat)
    requires SetupOk(u) && At(u, r, i) && At(u, s, k) && j < |u.slots| && l < |SlotSpaces(u, r, i, s, k, j)|
    requires KindOk(KindOf(u.slots[j]), u.dims)
    requires BoxOk(KindOf(u.slots[j]), SlotSpaces(u, r, i, s, k, j)[l].local, u.dims)
    requires x in BoxCells(KindOf(u.slots[j]), SlotSpaces(u, r, i, s, k, j)[l].local, u.dims)
    ensures Owned(u, r, i, j, x, h, s, k)
    ensures PairOf(SlotSpaces(u, r, i, s, k, j)[l], u.dims) && |u.world[s][k].first| == u.dims <= |x|
    ensures SourceCell(SlotSpaces(u, r, i, s, k, j)[l], u.world[s][k], x)
         == SourceCell(HalosOfSlot(u, r, i, j)[h], u.world[s][k], x)
  {
    var halos, d, kind := HalosOfSlot(u, r, i, j), u.world[s][k], KindOf(u.slots[j]);
    var p := SlotSpaces(u, r, i, s, k, j)[l];
    SlotHalosValid(u, r, i, j);
    DomainDims(u, s, k);
    IntersectionAt(halos, d, l);
    h :| 0 <= h < |halos| && p == Intersect(halos[h], d);
    BoxCellIff(kind, p.local, u.dims, x);
    CellInBox(kind, u.dims, p.local, x);
    IntersectCells(halos[h], d, x[..u.dims]);
  }

  lemma {:induction false} CellInBox(kind: FieldKind, dims: nat, b: Box, x: seq<int>)
    requires BoxOk(kind, b, dims)
    ensures InBox(x, First(kind, b), Last(kind, b)) <==> CellIn(kind, dims, b, x)
  {
    if InBox(x, First(kind, b), Last(kind, b)) {
      assert |x| == |First(kind, b)|;
      forall a | 0 <= a < dims
        ensures b.first[a] <= x[..dims][a] <= b.last[a]
      {
        assert First(kind, b)[a] <= x[a] <= Last(kind, b)[a];
      }
      if kind.components {
        assert First(kind, b)[dims] <= x[dims] <= Last(kind, b)[dims];
      }
    }
    if CellIn(kind, dims, b, x) {
      forall a | 0 <= a < |x|
        ensures First(kind, b)[a] <= x[a] <= Last(kind, b)[a]
      {
        if a < dims {
          assert b.first[a] <= x[..dims][a] <= b.last[a];
        }
      }
    }
  }

  /** Conversely, a halo cell owned by (s, k) is among the cells received from it. */
  lemma {:induction false} OwnedIsReceived(u: Setup, r: nat, i: nat, j: nat, s: nat, k: nat, h: nat, x: seq<int>) returns (l: nat)
    requires SetupOk(u) && At(u, r, i) && j < |u.slots| && Owned(u, r, i, j, x, h, s, k)
    requires KindOk(KindOf(u.slots[j]), u.dims)
    ensures l < |SlotSpaces(u, r, i, s, k, j)|
    ensures BoxOk(KindOf(u.slots[j]), SlotSpaces(u, r, i, s, k, j)[l].local, u.dims)
    ensures x in BoxCells(KindOf(u.slots[j]), SlotSpaces(u, r, i, s, k, j)[l].local, u.dims)
  {
    var halos, d, kind := HalosOfSlot(u, r, i, j), u.world[s][k], KindOf(u.slots[j]);
    SlotHalosValid(u, r, i, j);
    DomainDims(u, s, k);
    IntersectCells(halos[h], d, x[..u.dims]);
    var p := Intersect(halos[h], d);
    NonEmptyBox(p, x[..u.dims], halos[h], d);
    l := Listed(halos, d, h);
    IntersectValid(halos[h], d);
    CellInBox(kind, u.dims, p.local, x);
    BoxCellIff(kind, p.local, u.dims, x);
  }

  lemma {:induction false} NonEmptyBox(p: SpacePair, y: seq<int>, h: SpacePair, d: Domain)
    requires ValidHalo(h, |d.first|) && |d.last| == |d.first| == |y| && p == Intersect(h, d)
    requires InBox(y, p.local.first, p.local.last)
    ensures LessEqual(p.global.first, p.global.last)
  {
    forall a | 0 <= a < |y|
      ensures p.global.first[a] <= p.global.last[a]
    {
      assert p.local.first[a] <= y[a] <= p.local.last[a];
      assert p.local.first[a] == h.local.first[a] + (p.global.first[a] - h.global.first[a]);
      assert p.local.last[a] == h.local.first[a] + (p.global.last[a] - h.global.first[a]);
    }
  }

  lemma {:induction false} Listed(halos: seq<SpacePair>, d: Domain, h: nat) returns (l: nat)
    requires HalosOf(halos, |d.first|) && |d.first| == |d.last| && h < |halos|
    requires var x := Intersect(halos[h], d); LessEqual(x.global.first, x.global.last)
    ensures l < |Intersections(halos, d)| && Intersections(halos, d)[l] == Intersect(halos[h], d)
    decreases |halos|
  {
    var n := |halos| - 1;
    assert HalosOf(halos[..n], |d.first|);
    if h < n {
      assert halos[..n][h] == halos[h];
      l := Listed(halos[..n], d, h);
    } else {
      l := |Intersections(halos[..n], d)|;
    }
  }
}

// Construction of a structured communication pattern (structured/pattern.hpp): receive halos
// by intersection with all domain extents, tags, and the send halos derived from them.
// Every method below is one rank's share; `world` is what all_gather hands to every rank.

module Pattern {
  import opened LoopNest
  import opened OrderedMap

  datatype Box = Box(first: seq<int>, last: seq<int>)

  /** The same hypercube in local and in global coordinates. */
  datatype SpacePair = SpacePair(local: Box, global: Box)

  datatype Domain = Domain(id: int, first: seq<int>, last: seq<int>)

  /** Value of a halo map entry. Its key is (id, tag); the rank belongs to the
      extended_domain_id but takes no part in the ordering. */
  datatype Halo = Halo(rank: int, spaces: seq<SpacePair>)

  type HaloMap = seq<Entry<Halo>>

  /** Domains of every rank. */
  type World = seq<seq<Domain>>

  ghost predicate UniqueIds(w: World) {
    forall r, i, s, k ::
      0 <= r < |w| && 0 <= i < |w[r]| && 0 <= s < |w| && 0 <= k < |w[s]| && w[r][i].id == w[s][k].id
      ==> r == s && i == k
  }

  ghost predicate ValidWorld(w: World, dims: nat) {
    && dims > 0
    && UniqueIds(w)
    && forall r, i :: 0 <= r < |w| && 0 <= i < |w[r]| ==> |w[r][i].first| == dims && Ordered(w[r][i].first, w[r][i].last)
  }

  // ------------------------------------------------------------------ geometry

  function MaxC(a: seq<int>, b: seq<int>): (r: seq<int>)
    requires |a| == |b|
    ensures |r| == |a|
    ensures forall i {:trigger r[i]} :: 0 <= i < |a| ==> r[i] == if a[i] < b[i] then b[i] else a[i]
  {
    seq(|a|, i requires 0 <= i < |a| => if a[i] < b[i] then b[i] else a[i])
  }

  function MinC(a: seq<int>, b: seq<int>): (r: seq<int>)
    requires |a| == |b|
    ensures |r| == |a|
    ensures forall i {:trigger r[i]} :: 0 <= i < |a| ==> r[i] == if b[i] < a[i] then b[i] else a[i]
  {
    seq(|a|, i requires 0 <= i < |a| => if b[i] < a[i] then b[i] else a[i])
  }

  /** coordinate::operator<=, component by component. */
  predicate LessEqual(a: seq<int>, b: seq<int>)
    requires |a| == |b|
  {
    forall i :: 0 <= i < |a| ==> a[i] <= b[i]
  }

  ghost predicate BoxOf(b: Box, dims: nat) {
    |b.first| == dims && |b.last| == dims
  }

  ghost predicate PairOf(p: SpacePair, dims: nat) {
    BoxOf(p.local, dims) && BoxOf(p.global, dims)
  }

  /** A halo of the generator: non-empty, and the same size in both coordinate systems. */
  ghost predicate ValidHalo(h: SpacePair, dims: nat) {
    && PairOf(h, dims)
    && Ordered(h.local.first, h.local.last)
    && Sub(h.local.last, h.local.first) == Sub(h.global.last, h.global.first)
  }

  /** The halo generator's intersect: the global boxes are intersected and the local box
      moves along. */
  function Intersect(h: SpacePair, d: Domain): (x: SpacePair)
    requires PairOf(h, |d.first|) && |d.last| == |d.first|
    ensures PairOf(x, |d.first|)
  {
    var g := Box(MaxC(h.global.first, d.first), MinC(h.global.last, d.last));
    SpacePair(Box(Add(h.local.first, Sub(g.first, h.global.first)),
                  Add(h.local.first, Sub(g.last, h.global.first))), g)
  }

  /** Global coordinate of the local coordinate y under a pair. */
  function ToGlobal(p: SpacePair, y: seq<int>): seq<int>
    requires PairOf(p, |y|)
  {
    Add(p.global.first, Sub(y, p.local.first))
  }

  /** Local coordinate, inside domain d, of a global coordinate. */
  function ToLocal(d: Domain, g: seq<int>): seq<int>
    requires |g| == |d.first|
  {
    Sub(g, d.first)
  }

  /** A local cell lies in the intersection exactly when it lies in the halo and its global
      coordinate lies in the domain; the intersection keeps the halo's coordinate map. */
  lemma {:induction false} IntersectCells(h: SpacePair, d: Domain, y: seq<int>)
    requires ValidHalo(h, |d.first|) && |d.last| == |d.first| == |y|
    ensures var x := Intersect(h, d);
      && ToGlobal(x, y) == ToGlobal(h, y)
      && (InBox(y, x.local.first, x.local.last) <==>
          InBox(y, h.local.first, h.local.last) && InBox(ToGlobal(h, y), d.first, d.last))
  {
    var x := Intersect(h, d);
    var g := ToGlobal(h, y);
    var ext := Sub(h.local.last, h.local.first);
    assert ext == Sub(h.global.last, h.global.first);
    forall i | 0 <= i < |y|
      ensures ToGlobal(x, y)[i] == g[i]
      ensures x.local.first[i] <= y[i] <= x.local.last[i] <==>
        h.local.first[i] <= y[i] <= h.local.last[i] && d.first[i] <= g[i] <= d.last[i]
    {
      assert ext[i] == h.local.last[i] - h.local.first[i] && ext[i] == h.global.last[i] - h.global.first[i];
    }
  }

  /** A non-empty intersection is a halo again, inside the original one and inside the domain. */
  lemma {:induction false} IntersectValid(h: SpacePair, d: Domain)
    requires ValidHalo(h, |d.first|) && |d.last| == |d.first|
    requires var x := Intersect(h, d); LessEqual(x.global.first, x.global.last)
    ensures var x := Intersect(h, d);
      && ValidHalo(x, |d.first|)
      && InBox(x.global.first, d.first, d.last) && InBox(x.global.last, d.first, d.last)
  {
    var x := Intersect(h, d);
    var l, g := Sub(x.local.last, x.local.first), Sub(x.global.last, x.global.first);
    forall i | 0 <= i < |d.first|
      ensures l[i] == g[i] && x.local.first[i] <= x.local.last[i]
    {
      assert x.global.first[i] <= x.global.last[i];
    }
    assert l == g;
  }

  // ------------------------------------------------------------------ receive halos

  /** What a domain with the given halos receives from domain d, in halo order. */
  function Intersections(halos: seq<SpacePair>, d: Domain): (s: seq<SpacePair>)
    requires |d.last| == |d.first| && forall h :: 0 <= h < |halos| ==> PairOf(halos[h], |d.first|)
  {
    if halos == [] then []
    else
      var n := |halos| - 1;
      var before := Intersections(halos[..n], d);
      var x := Intersect(halos[n], d);
      if LessEqual(x.global.first, x.global.last) then before + [x] else before
  }

  /** idx lists, in increasing order, the halos that domain d meets, and spaces are what it has of
      them. */
  ghost predicate InHaloOrder(spaces: seq<SpacePair>, halos: seq<SpacePair>, d: Domain, idx: seq<nat>)
    requires |d.last| == |d.first| && forall h :: 0 <= h < |halos| ==> PairOf(halos[h], |d.first|)
  {
    && |idx| == |spaces|
    && (forall a, b :: 0 <= a < b < |idx| ==> idx[a] < idx[b])
    && (forall a :: 0 <= a < |idx| ==> idx[a] < |halos| && spaces[a] == Intersect(halos[idx[a]], d))
    && (forall h: nat :: h < |halos| ==>
          (h in idx <==> LessEqual(Intersect(halos[h], d).global.first, Intersect(halos[h], d).global.last)))
  }

  /** Every halo that the domain meets gives one space, in halo order, and no other does. */
  lemma {:induction false} IntersectionsInOrder(halos: seq<SpacePair>, d: Domain) returns (idx: seq<nat>)
    requires |d.last| == |d.first| && forall h :: 0 <= h < |halos| ==> PairOf(halos[h], |d.first|)
    ensures InHaloOrder(Intersections(halos, d), halos, d, idx)
  {
    idx := [];
    if halos != [] {
      var n := |halos| - 1;
      var before := IntersectionsInOrder(halos[..n], d);
      var x := Intersect(halos[n], d);
      idx := before + (if LessEqual(x.global.first, x.global.last) then [n] else []);
      forall h: nat | h < |halos|
        ensures h in idx <==> LessEqual(Intersect(halos[h], d).global.first, Intersect(halos[h], d).global.last)
      {
        if h < n {
          assert halos[..n][h] == halos[h];
        }
      }
    }
  }

  ghost predicate HalosOf(halos: seq<SpacePair>, dims: nat) {
    forall h :: 0 <= h < |halos| ==> ValidHalo(halos[h], dims)
  }

  function SpacesAt(m: HaloMap, k: Key): seq<SpacePair> {
    GetOr(m, k, Halo(0, [])).spaces
  }

  /** Entry e describes what comes from domain k of rank r. */
  ghost predicate FromDomain(e: Entry<Halo>, w: World, r: nat, k: nat) {
    r < |w| && k < |w[r]| && e.key == Key(w[r][k].id, 0) && e.val.rank == r
  }

  ghost predicate EntriesFromWorld(m: HaloMap, w: World) {
    forall e :: e in m ==> e.val.spaces != [] && exists r: nat, k: nat :: FromDomain(e, w, r, k)
  }

  /** A receive map before tagging: keyed by domain id with tag 0, one entry per domain that
      intersects some halo, holding all the intersections with that domain in halo order. */
  ghost predicate IsRecvMap(m: HaloMap, w: World, halos: seq<SpacePair>, dims: nat)
    requires ValidWorld(w, dims) && HalosOf(halos, dims)
  {
    && Sorted(m)
    && EntriesFromWorld(m, w)
    && forall r, k :: 0 <= r < |w| && 0 <= k < |w[r]| ==>
         SpacesAt(m, Key(w[r][k].id, 0)) == Intersections(halos, w[r][k])
  }

  /** recv_halos()[domain_id].push_back(x). */
  function PushBack(m: HaloMap, k: Key, rank: int, x: SpacePair): HaloMap {
    if Contains(m, k) then Put(m, k, Halo(Get(m, k).rank, Get(m, k).spaces + [x]))
    else Put(m, k, Halo(rank, [x]))
  }

  lemma {:induction false} PushBackEffect(m: HaloMap, w: World, r: nat, k: nat, x: SpacePair, k': Key)
    requires Sorted(m) && EntriesFromWorld(m, w) && r < |w| && k < |w[r]|
    ensures var key := Key(w[r][k].id, 0);
      var n := PushBack(m, key, r, x);
      && Sorted(n) && EntriesFromWorld(n, w)
      && SpacesAt(n, k') == if k' == key then SpacesAt(m, key) + [x] else SpacesAt(m, k')
  {
    var key := Key(w[r][k].id, 0);
    var h := if Contains(m, key) then Halo(Get(m, key).rank, Get(m, key).spaces + [x]) else Halo(r, [x]);
    var n := PushBack(m, key, r, x);
    assert n == Put(m, key, h);
    PutSorted(m, key, h);
    PutGet(m, key, h, k', Halo(0, []));
    forall e | e in n
      ensures e.val.spaces != [] && exists r', k' :: FromDomain(e, w, r', k')
    {
      PutIn(m, key, h, e);
      if e !in m || e.key == key {
        assert e == Entry(key, h);
        if Contains(m, key) {
          var old_ := m[LowerBound(m, key)];
          assert old_ in m;
          var r': nat, k': nat :| FromDomain(old_, w, r', k');
          assert FromDomain(e, w, r', k');
        } else {
          assert FromDomain(e, w, r, k);
        }
      }
    }
  }

  /** Number of halos already intersected with domain (r, k) when the loops stand at halo h,
      rank j, domain i. */
  function Seen(h: nat, j: nat, i: nat, r: nat, k: nat): nat {
    if r < j || (r == j && k < i) then h + 1 else h
  }

  ghost predicate RecvProgress(m: HaloMap, w: World, halos: seq<SpacePair>, dims: nat, h: nat, j: nat, i: nat)
    requires ValidWorld(w, dims) && HalosOf(halos, dims) && h < |halos|
  {
    && Sorted(m)
    && EntriesFromWorld(m, w)
    && forall r, k :: 0 <= r < |w| && 0 <= k < |w[r]| ==>
         SpacesAt(m, Key(w[r][k].id, 0)) == Intersections(halos[..Seen(h, j, i, r, k)], w[r][k])
  }

  lemma {:induction false} RecvStepAt(m: HaloMap, w: World, halos: seq<SpacePair>, dims: nat, h: nat, j: nat, i: nat, r: nat, k: nat)
    requires ValidWorld(w, dims) && HalosOf(halos, dims) && h < |halos| && j < |w| && i < |w[j]|
    requires r < |w| && k < |w[r]|
    requires Sorted(m) && EntriesFromWorld(m, w)
    requires SpacesAt(m, Key(w[r][k].id, 0)) == Intersections(halos[..Seen(h, j, i, r, k)], w[r][k])
    ensures SpacesAt(IntersectStep(m, w, halos[h], j, i), Key(w[r][k].id, 0))
         == Intersections(halos[..Seen(h, j, i + 1, r, k)], w[r][k])
  {
    assert halos[..h + 1][..h] == halos[..h];
    PushBackEffect(m, w, j, i, Intersect(halos[h], w[j][i]), Key(w[r][k].id, 0));
    assert w[r][k].id == w[j][i].id <==> r == j && k == i;
  }

  /** The body of the innermost loop. */
  function IntersectStep(m: HaloMap, w: World, halo: SpacePair, j: nat, i: nat): HaloMap
    requires j < |w| && i < |w[j]| && PairOf(halo, |w[j][i].first|) && |w[j][i].last| == |w[j][i].first|
  {
    var x := Intersect(halo, w[j][i]);
    if LessEqual(x.global.first, x.global.last) then PushBack(m, Key(w[j][i].id, 0), j, x) else m
  }

  lemma {:induction false} RecvStep(m: HaloMap, w: World, halos: seq<SpacePair>, dims: nat, h: nat, j: nat, i: nat)
    requires ValidWorld(w, dims) && HalosOf(halos, dims) && h < |halos| && j < |w| && i < |w[j]|
    requires RecvProgress(m, w, halos, dims, h, j, i)
    ensures RecvProgress(IntersectStep(m, w, halos[h], j, i), w, halos, dims, h, j, i + 1)
  {
    PushBackEffect(m, w, j, i, Intersect(halos[h], w[j][i]), Key(0, 0));
    forall r, k | 0 <= r < |w| && 0 <= k < |w[r]|
      ensures SpacesAt(IntersectStep(m, w, halos[h], j, i), Key(w[r][k].id, 0))
           == Intersections(halos[..Seen(h, j, i + 1, r, k)], w[r][k])
    {
      RecvStepAt(m, w, halos, dims, h, j, i, r, k);
    }
  }

  lemma {:induction false} RecvStart(m: HaloMap, w: World, halos: seq<SpacePair>, dims: nat, h: nat)
    requires ValidWorld(w, dims) && HalosOf(halos, dims) && h < |halos|
    requires IsRecvMap(m, w, halos[..h], dims)
    ensures RecvProgress(m, w, halos, dims, h, 0, 0)
  {
  }

  lemma {:induction false} RecvNextRank(m: HaloMap, w: World, halos: seq<SpacePair>, dims: nat, h: nat, j: nat)
    requires ValidWorld(w, dims) && HalosOf(halos, dims) && h < |halos| && j < |w|
    requires RecvProgress(m, w, halos, dims, h, j, |w[j]|)
    ensures RecvProgress(m, w, halos, dims, h, j + 1, 0)
  {
    assert forall r, k :: 0 <= r < |w| && 0 <= k < |w[r]| ==> Seen(h, j, |w[j]|, r, k) == Seen(h, j + 1, 0, r, k);
  }

  lemma {:induction false} RecvNextHalo(m: HaloMap, w: World, halos: seq<SpacePair>, dims: nat, h: nat)
    requires ValidWorld(w, dims) && HalosOf(halos, dims) && h < |halos|
    requires RecvProgress(m, w, halos, dims, h, |w|, 0)
    ensures IsRecvMap(m, w, halos[..h + 1], dims)
  {
    assert forall r, k :: 0 <= r < |w| && 0 <= k < |w[r]| ==> Seen(h, |w|, 0, r, k) == h + 1;
  }

  /** Intersects the halos of one domain with every domain extent of every rank. */
  method MakeRecvHalos(w: World, halos: seq<SpacePair>, ghost dims: nat) returns (m: HaloMap)
    requires ValidWorld(w, dims) && HalosOf(halos, dims)
    ensures IsRecvMap(m, w, halos, dims)
  {
    m := [];
    assert halos[..0] == [];
    for h := 0 to |halos|
      invariant IsRecvMap(m, w, halos[..h], dims)
    {
      RecvStart(m, w, halos, dims, h);
      for j := 0 to |w|
        invariant RecvProgress(m, w, halos, dims, h, j, 0)
      {
        for i := 0 to |w[j]|
          invariant RecvProgress(m, w, halos, dims, h, j, i)
        {
          RecvStep(m, w, halos, dims, h, j, i);
          var x := Intersect(halos[h], w[j][i]);
          if LessEqual(x.global.first, x.global.last) {
            m := PushBack(m, Key(w[j][i].id, 0), j, x);
          }
        }
        RecvNextRank(m, w, halos, dims, h, j);
      }
      RecvNextHalo(m, w, halos, dims, h);
    }
    assert halos[..|halos|] == halos;
  }
}

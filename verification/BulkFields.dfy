// The bulk exchange of the fields of one pattern, from the pattern to the cells: whatever the
// participants do and in whatever order, once a participant has completed a round, its halos hold
// what their owners' fields held when the owners began the exchange of that round.

module BulkFields {
  import opened LoopNest
  import opened OrderedMap
  import opened Pattern
  import opened SendHalos
  import opened Duality
  import opened Matching
  import opened CommObject
  import opened Cells
  import opened EndToEnd
  import opened BulkRanges
  import opened BulkExchange
  import opened BulkStores
  import R = RmaProtocol

  /** Fields of one pattern: slot j of every domain has kind kinds[j] and elements of sizes[j]
      bytes; adds[r] lists the domains of rank r in the order in which their fields are added. */
  datatype Bulk = Bulk(w: World, p: PatternData, dims: nat, t: Topology, adds: seq<seq<nat>>,
                       kinds: seq<FieldKind>, sizes: seq<nat>, rounds: nat)

  ghost predicate BulkOk(u: Bulk) {
    && PatternOk(u.w, u.p, u.dims) && AddsOk(u.w, u.adds, |u.kinds|) && |u.sizes| == |u.kinds|
    && forall j :: 0 <= j < |u.kinds| ==> KindOk(u.kinds[j], u.dims)
  }

  ghost function Targets(u: Bulk): (posts: seq<seq<Post>>)
    requires BulkOk(u)
    ensures MapsOk(u.w, u.p, u.adds) && posts == TargetPosts(u.w, u.p, u.t, u.adds) && |posts| == |u.w|
  {
    PatternMapsOk(u.w, u.p, u.dims, u.adds, |u.kinds|);
    TargetPosts(u.w, u.p, u.t, u.adds)
  }

  ghost function Sources(u: Bulk): (posts: seq<seq<Post>>)
    requires BulkOk(u)
    ensures MapsOk(u.w, u.p, u.adds) && posts == SourcePosts(u.w, u.p, u.t, u.adds) && |posts| == |u.w|
  {
    PatternMapsOk(u.w, u.p, u.dims, u.adds, |u.kinds|);
    SourcePosts(u.w, u.p, u.t, u.adds)
  }

  lemma {:induction false} EndsMeet(u: Bulk)
    requires BulkOk(u)
    ensures PostsOk(Targets(u), Sources(u))
  {
    PatternPostsOk(u.w, u.p, u.dims, u.t, u.adds, |u.kinds|);
  }

  ghost predicate IsTarget(u: Bulk, r: nat, n: nat)
    requires BulkOk(u)
  {
    r < |u.w| && n < |Targets(u)[r]|
  }

  // ------------------------------------------------------------------ one target range

  /** Where a target range comes from: entry j of the receive halos of its domain, space l; what
      arrives there comes from domain k of rank s. */
  datatype Origin = Origin(i: nat, j: nat, l: nat, s: nat, k: nat)

  ghost predicate OriginOk(u: Bulk, r: nat, n: nat, o: Origin)
    requires BulkOk(u) && IsTarget(u, r, n)
  {
    var q := Targets(u)[r][n];
    && q.dom == o.i < |u.w[r]| == |u.p.recv[r]| == |u.p.halos[r]| && o.j < |u.p.recv[r][o.i]|
    && q.rank == o.s < |u.w| && o.k < |u.w[o.s]| && q.slot < |u.kinds|
    && |u.w[o.s][o.k].first| == |u.w[o.s][o.k].last| == u.dims && HalosOf(u.p.halos[r][o.i], u.dims)
    && var e := u.p.recv[r][o.i][o.j];
       && e.key.major == u.w[o.s][o.k].id && e.key.minor == q.tag && e.val.rank == o.s && Stays(u.t, r, true, e)
       && e.val.spaces == Intersections(u.p.halos[r][o.i], u.w[o.s][o.k]) && o.l < |e.val.spaces| && q.space == e.val.spaces[o.l]
  }

  lemma {:induction false} OriginOf(u: Bulk, r: nat, n: nat) returns (o: Origin)
    requires BulkOk(u) && IsTarget(u, r, n)
    ensures OriginOk(u, r, n, o)
  {
    var q := Targets(u)[r][n];
    var j, l := TargetOrigin(u.w, u.p, u.t, u.adds, r, n);
    RecvRank(u.w, u.p, u.dims, r, q.dom, j);
    var k := SourceOf(u.w, u.p, u.dims, r, q.dom, j, q.rank);
    RecvEntry(u.w, u.p, u.dims, r, q.dom, j, q.rank, k);
    DomainShape(u.w, u.dims, q.rank, k);
    o := Origin(q.dom, j, l, q.rank, k);
  }

  lemma {:induction false} DomainShape(w: World, dims: nat, s: nat, k: nat)
    requires ValidWorld(w, dims) && s < |w| && k < |w[s]|
    ensures |w[s][k].first| == |w[s][k].last| == dims && Ordered(w[s][k].first, w[s][k].last)
  {
  }

  /** The source range on the channel is one of the domain that the halo names. */
  lemma {:induction false} SourceDomain(u: Bulk, s: nat, m: nat, r: nat, i: nat, j: nat, k: nat)
    requires BulkOk(u) && s < |u.w| && m < |Sources(u)[s]| && r < |u.w| && i < |u.p.recv[r]| && j < |u.p.recv[r][i]|
    requires OnIt(Sources(u)[s][m], r, u.p.recv[r][i][j].key.minor)
    requires u.p.recv[r][i][j].val.rank == s && Stays(u.t, r, true, u.p.recv[r][i][j])
    requires k < |u.w[s]| && u.p.recv[r][i][j].key.major == u.w[s][k].id
    ensures Sources(u)[s][m].dom == k
  {
    var recv, dom := u.p.recv[r][i][j], Sources(u)[s][m].dom;
    var e, l := RankPostsIn(LocalCopies(u.p.send[s], u.t, s), u.adds[s], m);
    var r', i', j' := SourceOrigin(u.w, u.p, u.dims, u.t, s, dom, e);
    KeptIn(u.p.recv[r][i], u.t, r, true, recv);
    SameRecv(u.w, u.p, u.dims, r, i, i', recv, u.p.recv[r][i'][j'], u.t);
    SameDomain(u.w, u.dims, s, k, dom);
  }

  /** The range that serves target range n of rank r. */
  ghost function Server(u: Bulk, r: nat, n: nat): (q: Post)
    requires BulkOk(u) && IsTarget(u, r, n)
    ensures PostsOk(Targets(u), Sources(u)) && 0 <= Targets(u)[r][n].rank < |u.w|
    ensures SourceRange(Targets(u), Sources(u), r, n) < |Sources(u)[Targets(u)[r][n].rank]|
    ensures q == Sources(u)[Targets(u)[r][n].rank][SourceRange(Targets(u), Sources(u), r, n)]
  {
    EndsMeet(u);
    var m := SourceRange(Targets(u), Sources(u), r, n);
    Sources(u)[Targets(u)[r][n].rank][m]
  }

  lemma {:induction false} ServerDomain(u: Bulk, r: nat, n: nat, o: Origin)
    requires BulkOk(u) && IsTarget(u, r, n) && OriginOk(u, r, n, o)
    ensures Server(u, r, n).dom == o.k && Server(u, r, n).slot == Targets(u)[r][n].slot
  {
    var q, m := Server(u, r, n), SourceRange(Targets(u), Sources(u), r, n);
    SourceDomain(u, o.s, m, r, o.i, o.j, o.k);
    SourceServes(u.w, u.p, u.dims, u.t, u.adds, |u.kinds|, r, n);
  }

  ghost function TransferOf(u: Bulk, r: nat, n: nat): (x: Transfer)
    requires BulkOk(u) && IsTarget(u, r, n)
    ensures TransferOk(x) && |x.d.first| == u.dims
  {
    ServerShape(u, r, n);
    var q, server := Targets(u)[r][n], Server(u, r, n);
    var d := u.w[q.rank][server.dom];
    Transfer(FieldPtr(u.w[r][q.dom].id, q.slot), FieldPtr(d.id, q.slot), u.kinds[q.slot], u.sizes[q.slot], q.space, d)
  }

  lemma {:induction false} ServerShape(u: Bulk, r: nat, n: nat)
    requires BulkOk(u) && IsTarget(u, r, n)
    ensures var q, k := Targets(u)[r][n], Server(u, r, n).dom;
      && 0 <= q.rank < |u.w| && k < |u.w[q.rank]| && q.dom < |u.w[r]| && q.slot < |u.kinds| && |u.w[q.rank][k].first| == u.dims
      && KindOk(u.kinds[q.slot], u.dims) && Rebasable(q.space, u.w[q.rank][k])
  {
    var o := OriginOf(u, r, n);
    ServerDomain(u, r, n, o);
    DomainShape(u.w, u.dims, o.s, o.k);
    RebasedInside(u.p.halos[r][o.i], u.w[o.s][o.k], o.l);
  }

  // ------------------------------------------------------------------ target ranges do not overlap

  /** Halos of one domain overlap neither each other nor the domain, and domains do not overlap. */
  ghost predicate BulkGridOk(u: Bulk)
    requires BulkOk(u)
  {
    && DomainsApart(u.w)
    && forall r: nat, i: nat :: HalosOutside(u, r, i)
  }

  ghost predicate HalosOutside(u: Bulk, r: nat, i: nat)
    requires BulkOk(u)
  {
    r < |u.w| && i < |u.w[r]| && i < |u.p.halos[r]| && |u.w[r][i].first| == |u.w[r][i].last| ==>
      HalosApart(u.p.halos[r][i]) && HalosClear(u.p.halos[r][i], LocalExtent(u.w[r][i]))
  }

  ghost predicate HalosClear(halos: seq<SpacePair>, inner: Box) {
    forall h :: 0 <= h < |halos| ==> BoxesApart(halos[h].local, inner)
  }

  ghost predicate BoxesApart(a: Box, b: Box) {
    forall y :: InBox(y, a.first, a.last) ==> !InBox(y, b.first, b.last)
  }

  /** A cell of an intersection lies in one of the halos, and its global coordinate in the domain. */
  lemma {:induction false} IntersectionIn(halos: seq<SpacePair>, d: Domain, l: nat, y: seq<int>) returns (h: nat)
    requires HalosOf(halos, |d.first|) && |d.first| == |d.last| && l < |Intersections(halos, d)|
    requires InBox(y, Intersections(halos, d)[l].local.first, Intersections(halos, d)[l].local.last)
    ensures h < |halos| && |y| == |d.first| && InBox(y, halos[h].local.first, halos[h].local.last)
    ensures PairOf(halos[h], |y|) && InDomain(d, ToGlobal(halos[h], y)) && Intersections(halos, d)[l] == Intersect(halos[h], d)
  {
    IntersectionAt(halos, d, l);
    h :| 0 <= h < |halos| && Intersections(halos, d)[l] == Intersect(halos[h], d);
    IntersectCells(halos[h], d, y);
  }

  /** What comes from one domain: different halos. */
  lemma {:induction false} SpacesApart(halos: seq<SpacePair>, d: Domain, a: nat, b: nat)
    requires HalosOf(halos, |d.first|) && |d.first| == |d.last| && HalosApart(halos) && a < b < |Intersections(halos, d)|
    ensures BoxesApart(Intersections(halos, d)[a].local, Intersections(halos, d)[b].local)
    decreases |halos|
  {
    var n := |halos| - 1;
    var before := Intersections(halos[..n], d);
    assert HalosOf(halos[..n], |d.first|) && HalosApart(halos[..n]);
    if b < |before| {
      SpacesApart(halos[..n], d, a, b);
    } else {
      forall y | InBox(y, before[a].local.first, before[a].local.last)
        ensures !InBox(y, Intersections(halos, d)[b].local.first, Intersections(halos, d)[b].local.last)
      {
        var h := IntersectionIn(halos[..n], d, a, y);
        IntersectCells(halos[n], d, y);
        assert InBox(y, halos[h].local.first, halos[h].local.last);
      }
    }
  }

  /** What comes from different domains: different owners. */
  lemma {:induction false} OwnersApart(w: World, halos: seq<SpacePair>, s: nat, k: nat, l: nat, s': nat, k': nat, l': nat)
    requires DomainsApart(w) && HalosApart(halos) && s < |w| && k < |w[s]| && s' < |w| && k' < |w[s']| && (s != s' || k != k')
    requires |w[s][k].first| == |w[s][k].last| == |w[s'][k'].first| == |w[s'][k'].last| && HalosOf(halos, |w[s][k].first|)
    requires l < |Intersections(halos, w[s][k])| && l' < |Intersections(halos, w[s'][k'])|
    ensures BoxesApart(Intersections(halos, w[s][k])[l].local, Intersections(halos, w[s'][k'])[l'].local)
  {
    var a, b := Intersections(halos, w[s][k])[l], Intersections(halos, w[s'][k'])[l'];
    forall y | InBox(y, a.local.first, a.local.last)
      ensures !InBox(y, b.local.first, b.local.last)
    {
      if InBox(y, b.local.first, b.local.last) {
        var h := IntersectionIn(halos, w[s][k], l, y);
        var h' := IntersectionIn(halos, w[s'][k'], l', y);
        assert false;
      }
    }
  }

  ghost predicate EntriesApart(e: Entry<Halo>, f: Entry<Halo>) {
    forall a, b :: 0 <= a < |e.val.spaces| && 0 <= b < |f.val.spaces| && (e == f ==> a != b) ==> BoxesApart(e.val.spaces[a].local, f.val.spaces[b].local)
  }

  ghost predicate MapApart(m: HaloMap) {
    (forall x, y :: 0 <= x < y < |m| ==> m[x] != m[y]) && forall e, f :: e in m && f in m ==> EntriesApart(e, f)
  }

  lemma {:induction false} EntriesOfDomain(u: Bulk, r: nat, i: nat, e: Entry<Halo>, f: Entry<Halo>)
    requires BulkOk(u) && BulkGridOk(u) && r < |u.w| && i < |u.w[r]| == |u.p.recv[r]| && e in u.p.recv[r][i] && f in u.p.recv[r][i]
    ensures EntriesApart(e, f)
  {
    var o := EntryOrigin(u, r, i, e);
    var o' := EntryOrigin(u, r, i, f);
    DomainShape(u.w, u.dims, r, i);
    assert HalosOutside(u, r, i);
    forall a, b | 0 <= a < |e.val.spaces| && 0 <= b < |f.val.spaces| && (e == f ==> a != b)
      ensures BoxesApart(e.val.spaces[a].local, f.val.spaces[b].local)
    {
      if o.s != o'.s || o.k != o'.k {
        OwnersApart(u.w, u.p.halos[r][i], o.s, o.k, a, o'.s, o'.k, b);
      } else {
        OneEntry(u, r, i, e, f);
        SpacesApart(u.p.halos[r][i], u.w[o.s][o.k], if a < b then a else b, if a < b then b else a);
      }
    }
  }

  /** One entry for each source domain. */
  lemma {:induction false} OneEntry(u: Bulk, r: nat, i: nat, e: Entry<Halo>, f: Entry<Halo>)
    requires BulkOk(u) && r < |u.w| && i < |u.w[r]| == |u.p.recv[r]| && e in u.p.recv[r][i] && f in u.p.recv[r][i]
    requires e.key.major == f.key.major
    ensures e == f
  {
    PatternShape(u.w, u.p, u.dims, r, i, r, i);
  }

  lemma {:induction false} EntryOrigin(u: Bulk, r: nat, i: nat, e: Entry<Halo>) returns (o: Origin)
    requires BulkOk(u) && r < |u.w| && i < |u.w[r]| == |u.p.recv[r]| && e in u.p.recv[r][i]
    ensures o.s < |u.w| && o.k < |u.w[o.s]| && |u.w[o.s][o.k].first| == |u.w[o.s][o.k].last| == u.dims
    ensures |u.p.halos[r]| == |u.w[r]| && HalosOf(u.p.halos[r][i], u.dims)
    ensures e.key.major == u.w[o.s][o.k].id && e.val.rank == o.s && e.val.spaces == Intersections(u.p.halos[r][i], u.w[o.s][o.k])
  {
    var j :| 0 <= j < |u.p.recv[r][i]| && u.p.recv[r][i][j] == e;
    RecvRank(u.w, u.p, u.dims, r, i, j);
    var k := SourceOf(u.w, u.p, u.dims, r, i, j, e.val.rank);
    RecvEntry(u.w, u.p, u.dims, r, i, j, e.val.rank, k);
    DomainShape(u.w, u.dims, e.val.rank, k);
    o := Origin(i, j, 0, e.val.rank, k);
  }

  lemma {:induction false} KeptApart(u: Bulk, r: nat, i: nat)
    requires BulkOk(u) && BulkGridOk(u) && r < |u.w| && i < |u.w[r]| == |u.p.recv[r]|
    ensures MapApart(Kept(u.p.recv[r][i], u.t, r, true))
  {
    var m := Kept(u.p.recv[r][i], u.t, r, true);
    assert IsPatternMap(u.p.recv[r][i], u.w, u.p.halos[r][i], u.dims);
    KeptSorted(u.p.recv[r][i], u.t, r, true);
    forall e, f | e in m && f in m
      ensures EntriesApart(e, f)
    {
      KeptIn(u.p.recv[r][i], u.t, r, true, e);
      KeptIn(u.p.recv[r][i], u.t, r, true, f);
      EntriesOfDomain(u, r, i, e, f);
    }
    forall x, y | 0 <= x < y < |m|
      ensures m[x] != m[y]
    {
      assert Less(m[x].key, m[y].key);
    }
  }

  // The posts of a rank.

  predicate SameField(a: Post, b: Post) {
    a.dom == b.dom && a.slot == b.slot
  }

  ghost predicate PostsApart(posts: seq<Post>) {
    forall n, m :: 0 <= n < m < |posts| && SameField(posts[n], posts[m]) ==> BoxesApart(posts[n].space.local, posts[m].space.local)
  }

  ghost predicate CrossApart(a: seq<Post>, b: seq<Post>) {
    forall n, m :: 0 <= n < |a| && 0 <= m < |b| && SameField(a[n], b[m]) ==> BoxesApart(a[n].space.local, b[m].space.local)
  }

  lemma {:induction false} JoinApart(a: seq<Post>, b: seq<Post>)
    requires PostsApart(a) && PostsApart(b) && CrossApart(a, b)
    ensures PostsApart(a + b)
  {
  }

  lemma {:induction false} MapPostsApart(m: HaloMap, dom: nat, slot: nat)
    requires MapApart(m)
    ensures PostsApart(MapPosts(m, dom, slot))
  {
    if m != [] {
      var init, last := m[..|m| - 1], m[|m| - 1];
      var a, b := MapPosts(init, dom, slot), EntryPosts(last, dom, slot);
      MapPostsApart(init, dom, slot);
      forall n, q | 0 <= n < |a| && 0 <= q < |b|
        ensures BoxesApart(a[n].space.local, b[q].space.local)
      {
        var e, l := MapPostsIn(init, dom, slot, n);
        assert e != last && EntriesApart(e, last);
      }
      assert EntriesApart(last, last);
      JoinApart(a, b);
    }
  }

  lemma {:induction false} RankPostsApart(maps: seq<HaloMap>, adds: seq<nat>)
    requires forall a :: 0 <= a < |adds| ==> adds[a] < |maps|
    requires forall i :: 0 <= i < |maps| ==> MapApart(maps[i])
    ensures PostsApart(RankPosts(maps, adds))
  {
    if adds != [] {
      var init, last := adds[..|adds| - 1], adds[|adds| - 1];
      var a, b := RankPosts(maps, init), MapPosts(maps[last], last, BulkRanges.Count(init, last));
      RankPostsApart(maps, init);
      MapPostsApart(maps[last], last, BulkRanges.Count(init, last));
      forall n, q | 0 <= n < |a| && 0 <= q < |b|
        ensures !SameField(a[n], b[q])
      {
        var e, l := RankPostsIn(maps, init, n);
        var f, l' := MapPostsIn(maps[last], last, BulkRanges.Count(init, last), q);
      }
      JoinApart(a, b);
    }
  }

  lemma {:induction false} TargetsApart(u: Bulk, r: nat)
    requires BulkOk(u) && BulkGridOk(u) && r < |u.w|
    ensures PostsApart(Targets(u)[r])
  {
    var maps := LocalCopies(u.p.recv[r], u.t, r);
    MapsPerDomain(u.w, u.p, u.dims, r);
    forall i | 0 <= i < |maps|
      ensures MapApart(maps[i])
    {
      KeptApart(u, r, i);
    }
    assert Targets(u)[r] == RankPosts(maps, u.adds[r]);
    RankPostsApart(maps, u.adds[r]);
  }

  // ------------------------------------------------------------------ cells of the two ends

  lemma {:induction false} BoxCell(kind: FieldKind, dims: nat, b: Box, y: seq<int>)
    requires BoxOk(kind, b, dims)
    ensures y in BoxCells(kind, b, dims) <==> CellIn(kind, dims, b, y)
  {
    BoxCellIff(kind, b, dims, y);
    CellInBox(kind, dims, b, y);
  }

  /** A cell of a target range lies in one of the halos of its domain. */
  lemma {:induction false} HereInHalo(u: Bulk, r: nat, n: nat, o: Origin, y: seq<int>) returns (h: nat)
    requires BulkOk(u) && IsTarget(u, r, n) && OriginOk(u, r, n, o) && y in Here(TransferOf(u, r, n))
    ensures h < |u.p.halos[r][o.i]| && CellIn(u.kinds[Targets(u)[r][n].slot], u.dims, u.p.halos[r][o.i][h].local, y)
  {
    var q := Targets(u)[r][n];
    ServerShape(u, r, n);
    BoxCell(u.kinds[q.slot], u.dims, q.space.local, y);
    h := IntersectionIn(u.p.halos[r][o.i], u.w[o.s][o.k], o.l, y[..u.dims]);
  }

  /** A cell of a source range lies in its domain. */
  lemma {:induction false} ThereInDomain(u: Bulk, r: nat, n: nat, o: Origin, z: seq<int>)
    requires BulkOk(u) && IsTarget(u, r, n) && OriginOk(u, r, n, o)
    ensures z in There(TransferOf(u, r, n)) ==> CellIn(u.kinds[Targets(u)[r][n].slot], u.dims, LocalExtent(u.w[o.s][o.k]), z)
  {
    var q, d := Targets(u)[r][n], u.w[o.s][o.k];
    ServerShape(u, r, n);
    ServerDomain(u, r, n, o);
    BoxCell(u.kinds[q.slot], u.dims, Rebase(q.space, d).local, z);
    DomainShape(u.w, u.dims, o.s, o.k);
    RebasedInside(u.p.halos[r][o.i], d, o.l);
    if z in There(TransferOf(u, r, n)) {
      WithinOuter(z[..u.dims], Rebase(q.space, d).local, LocalExtent(d));
    }
  }

  lemma {:induction false} WithinOuter(y: seq<int>, b: Box, outer: Box)
    requires InBox(y, b.first, b.last) && InBox(b.first, outer.first, outer.last) && InBox(b.last, outer.first, outer.last)
    ensures InBox(y, outer.first, outer.last)
  {
    forall a | 0 <= a < |y|
      ensures outer.first[a] <= y[a] <= outer.last[a]
    {
      assert b.first[a] <= y[a] <= b.last[a] && outer.first[a] <= b.first[a] && b.last[a] <= outer.last[a];
    }
  }

  /** The fields that a channel connects. */
  lemma {:induction false} TransferFields(u: Bulk, r: nat, n: nat, o: Origin)
    requires BulkOk(u) && IsTarget(u, r, n) && OriginOk(u, r, n, o)
    ensures var x, q := TransferOf(u, r, n), Targets(u)[r][n];
      && x.to == FieldPtr(u.w[r][o.i].id, q.slot) && x.from == FieldPtr(u.w[o.s][o.k].id, q.slot)
      && x.kind == u.kinds[q.slot] && x.size == u.sizes[q.slot] && x.space == q.space && x.d == u.w[o.s][o.k]
  {
    ServerDomain(u, r, n, o);
  }

  lemma {:induction false} IdsTell(u: Bulk, r: nat, i: nat, s: nat, k: nat)
    requires BulkOk(u) && r < |u.w| && i < |u.w[r]| && s < |u.w| && k < |u.w[s]| && u.w[r][i].id == u.w[s][k].id
    ensures r == s && i == k
  {
  }

  /** A cell of a target range is outside of the target's domain. */
  lemma {:induction false} HereOutside(u: Bulk, r: nat, n: nat, o: Origin, y: seq<int>)
    requires BulkOk(u) && BulkGridOk(u) && IsTarget(u, r, n) && OriginOk(u, r, n, o) && y in Here(TransferOf(u, r, n))
    ensures |u.w[r][o.i].first| == |u.w[r][o.i].last| == u.dims <= |y|
    ensures !InBox(y[..u.dims], LocalExtent(u.w[r][o.i]).first, LocalExtent(u.w[r][o.i]).last)
  {
    var h := HereInHalo(u, r, n, o, y);
    ClearOfDomain(u, r, o.i, h);
  }

  lemma {:induction false} ClearOfDomain(u: Bulk, r: nat, i: nat, h: nat)
    requires BulkOk(u) && BulkGridOk(u) && r < |u.w| && i < |u.w[r]| && i < |u.p.halos[r]| && h < |u.p.halos[r][i]|
    ensures |u.w[r][i].first| == |u.w[r][i].last| == u.dims && BoxesApart(u.p.halos[r][i][h].local, LocalExtent(u.w[r][i]))
  {
    DomainShape(u.w, u.dims, r, i);
    assert HalosOutside(u, r, i);
  }

  /** A put changes no source range: those lie inside of the domains, halos outside. */
  lemma {:induction false} SparesSources(u: Bulk, r: nat, n: nat, r': nat, n': nat)
    requires BulkOk(u) && BulkGridOk(u) && IsTarget(u, r, n) && IsTarget(u, r', n')
    requires TransferOf(u, r, n).to == TransferOf(u, r', n').from
    ensures NoneIn(Here(TransferOf(u, r, n)), There(TransferOf(u, r', n')))
  {
    var o := OriginOf(u, r, n);
    var o' := OriginOf(u, r', n');
    TransferFields(u, r, n, o);
    TransferFields(u, r', n', o');
    IdsTell(u, r, o.i, o'.s, o'.k);
    forall y | y in Here(TransferOf(u, r, n))
      ensures y !in There(TransferOf(u, r', n'))
    {
      HereOutside(u, r, n, o, y);
      ThereInDomain(u, r', n', o', y);
    }
  }

  lemma {:induction false} SparesTargets(u: Bulk, r: nat, n: nat, r': nat, n': nat)
    requires BulkOk(u) && BulkGridOk(u) && IsTarget(u, r, n) && IsTarget(u, r', n') && (r != r' || n != n')
    requires TransferOf(u, r, n).to == TransferOf(u, r', n').to
    ensures NoneIn(Here(TransferOf(u, r, n)), Here(TransferOf(u, r', n')))
  {
    var o := OriginOf(u, r, n);
    var o' := OriginOf(u, r', n');
    TransferFields(u, r, n, o);
    TransferFields(u, r', n', o');
    IdsTell(u, r, o.i, r', o'.i);
    TargetsApart(u, r);
    var a, b := Targets(u)[r][n], Targets(u)[r][n'];
    assert SameField(a, b) && SameField(b, a);
    assert BoxesApart(a.space.local, b.space.local) || BoxesApart(b.space.local, a.space.local);
    ServerShape(u, r, n);
    ServerShape(u, r, n');
    forall y | y in Here(TransferOf(u, r, n))
      ensures y !in Here(TransferOf(u, r', n'))
    {
      BoxCell(u.kinds[a.slot], u.dims, a.space.local, y);
      BoxCell(u.kinds[b.slot], u.dims, b.space.local, y);
    }
  }

  // ------------------------------------------------------------------ the channels' transfers

  ghost function TransferRow(u: Bulk, r: nat): (row: seq<Transfer>)
    requires BulkOk(u) && r < |u.w|
    ensures |row| == |Targets(u)[r]| && forall n {:trigger row[n]} :: 0 <= n < |row| ==> row[n] == TransferOf(u, r, n)
  {
    seq(|Targets(u)[r]|, n requires 0 <= n < |Targets(u)[r]| => TransferOf(u, r, n))
  }

  ghost function TransferRows(u: Bulk): (rows: seq<seq<Transfer>>)
    requires BulkOk(u)
    ensures |rows| == |u.w| == |Targets(u)|
    ensures forall r {:trigger rows[r]} :: 0 <= r < |rows| ==> rows[r] == TransferRow(u, r) && |rows[r]| == |Targets(u)[r]|
  {
    seq(|u.w|, r requires 0 <= r < |u.w| => TransferRow(u, r))
  }

  /** What each channel of the protocol transfers. */
  ghost function Transfers(u: Bulk): seq<Transfer>
    requires BulkOk(u)
  {
    Concat(TransferRows(u), |u.w|)
  }

  ghost function Protocol(u: Bulk): (g: R.Config)
    requires BulkOk(u)
    ensures PostsOk(Targets(u), Sources(u)) && g == ProtocolOf(Targets(u), Sources(u), u.rounds)
  {
    EndsMeet(u);
    ProtocolOf(Targets(u), Sources(u), u.rounds)
  }

  ghost predicate SameLengths<A, B>(a: seq<seq<A>>, b: seq<seq<B>>) {
    |a| == |b| && forall r :: 0 <= r < |a| ==> |a[r]| == |b[r]|
  }

  lemma {:induction false} SameRows<A, B>(a: seq<seq<A>>, b: seq<seq<B>>, n: nat)
    requires SameLengths(a, b) && n <= |a|
    ensures |Concat(a, n)| == |Concat(b, n)|
  {
    if n > 0 {
      SameRows(a, b, n - 1);
    }
  }

  lemma {:induction false} RowsMatch(u: Bulk)
    requires BulkOk(u)
    ensures PostsOk(Targets(u), Sources(u)) && SameLengths(Rows(Targets(u)), TransferRows(u))
  {
    EndsMeet(u);
  }

  lemma {:induction false} PlaceOf(rows: seq<seq<Transfer>>, r: nat, n: nat, c: nat)
    requires r < |rows| && n < |rows[r]| && c == |Concat(rows, r)| + n
    ensures c < |Concat(rows, |rows|)| && Concat(rows, |rows|)[c] == rows[r][n]
  {
    ConcatOf(rows, |rows|, r, n);
  }

  lemma {:induction false} TransferAt(u: Bulk, r: nat, n: nat)
    requires BulkOk(u) && IsTarget(u, r, n)
    ensures PostsOk(Targets(u), Sources(u))
    ensures ChannelOf(Targets(u), r, n) < |Transfers(u)| && Transfers(u)[ChannelOf(Targets(u), r, n)] == TransferOf(u, r, n)
  {
    RowsMatch(u);
    var rows, row, c := TransferRows(u), TransferRow(u, r), ChannelOf(Targets(u), r, n);
    SameRows(Rows(Targets(u)), rows, r);
    PlaceOf(rows, r, n, c);
    assert rows[r] == row && row[n] == TransferOf(u, r, n);
  }

  /** Every channel of the protocol belongs to a target range. */
  lemma {:induction false} ChannelTarget(u: Bulk, c: nat) returns (r: nat, n: nat)
    requires BulkOk(u) && c < |Protocol(u).links|
    ensures IsTarget(u, r, n) && c == ChannelOf(Targets(u), r, n) && c < |Transfers(u)| && Transfers(u)[c] == TransferOf(u, r, n)
    ensures Protocol(u).links[c].src == Targets(u)[r][n].rank && Protocol(u).links[c].dst == r
  {
    r, n := ChannelHasTarget(Targets(u), Sources(u), u.rounds, c);
    ChannelEnds(Targets(u), Sources(u), u.rounds, r, n);
    TransferAt(u, r, n);
  }

  lemma {:induction false} TransferCount(u: Bulk)
    requires BulkOk(u)
    ensures |Transfers(u)| == |Protocol(u).links|
  {
    RowsMatch(u);
    SameRows(Rows(Targets(u)), TransferRows(u), |u.w|);
  }

  lemma {:induction false} TransfersApart(u: Bulk)
    requires BulkOk(u) && BulkGridOk(u)
    ensures Apart(Transfers(u))
  {
    var ts := Transfers(u);
    TransferCount(u);
    forall c: nat, e: nat
      ensures SparesAt(ts, c, e)
    {
      if c < |ts| && e < |ts| {
        var r, n := ChannelTarget(u, c);
        var r', n' := ChannelTarget(u, e);
        if ts[c].to == ts[e].from {
          SparesSources(u, r, n, r', n');
        }
        if c != e && ts[c].to == ts[e].to {
          SparesTargets(u, r, n, r', n');
        }
      }
    }
  }

  // ------------------------------------------------------------------ what the fields hold

  /** Every domain has its fields, and their memory covers the domain and its halos. */
  ghost predicate FieldHeld(u: Bulk, held: Store, r: nat, i: nat, j: nat)
    requires BulkOk(u)
  {
    r < |u.w| && i < |u.w[r]| && i < |u.p.halos[r]| && j < |u.kinds| && |u.w[r][i].first| == |u.w[r][i].last| ==>
      && FieldPtr(u.w[r][i].id, j) in held
      && Covers(held[FieldPtr(u.w[r][i].id, j)], u.kinds[j], u.dims, u.w[r][i], u.p.halos[r][i], u.sizes[j])
  }

  ghost predicate FieldsHeld(u: Bulk, held: Store)
    requires BulkOk(u)
  {
    forall r: nat, i: nat, j: nat :: FieldHeld(u, held, r, i, j)
  }

  lemma {:induction false} TransferHeld(u: Bulk, held: Store, r: nat, n: nat)
    requires BulkOk(u) && IsTarget(u, r, n) && FieldsHeld(u, held)
    ensures HeldAt(TransferOf(u, r, n), held)
  {
    var o := OriginOf(u, r, n);
    var x, q := TransferOf(u, r, n), Targets(u)[r][n];
    TransferFields(u, r, n, o);
    DomainShape(u.w, u.dims, r, o.i);
    PatternShape(u.w, u.p, u.dims, o.s, o.k, o.s, o.k);
    assert FieldHeld(u, held, r, o.i, q.slot) && FieldHeld(u, held, o.s, o.k, q.slot);
    forall m | 0 <= m < |Here(x)|
      ensures Here(x)[m] in held[x.to]
    {
      var h := HereInHalo(u, r, n, o, Here(x)[m]);
    }
    forall m | 0 <= m < |There(x)|
      ensures There(x)[m] in held[x.from]
    {
      ThereInDomain(u, r, n, o, There(x)[m]);
    }
  }

  // ------------------------------------------------------------------ steps

  ghost predicate CellOf(d: Domain, dims: nat, f: FieldPtr, y: seq<int>) {
    && f.domain == d.id && |d.first| == |d.last| == dims <= |y|
    && InBox(y[..dims], LocalExtent(d).first, LocalExtent(d).last)
  }

  /** A cell inside one of the domains of rank p. */
  ghost predicate OwnCell(u: Bulk, p: nat, f: FieldPtr, y: seq<int>) {
    p < |u.w| && exists k :: 0 <= k < |u.w[p]| && CellOf(u.w[p][k], u.dims, f, y)
  }

  lemma {:induction false} OwnCellIn(u: Bulk, p: nat, r: nat, i: nat, f: FieldPtr, y: seq<int>)
    requires BulkOk(u) && r < |u.w| && i < |u.w[r]| && f.domain == u.w[r][i].id
    ensures OwnCell(u, p, f, y) ==> p == r && CellOf(u.w[r][i], u.dims, f, y)
  {
    if OwnCell(u, p, f, y) {
      var k :| 0 <= k < |u.w[p]| && CellOf(u.w[p][k], u.dims, f, y);
      IdsTell(u, r, i, p, k);
    }
  }

  ghost predicate OwnWrite(u: Bulk, p: nat, before: Store, after: Store, f: FieldPtr, y: seq<int>)
    requires before.Keys == after.Keys
  {
    f in before ==>
      && (y in before[f] <==> y in after[f])
      && (y in before[f] ==> |after[f][y]| == |before[f][y]| && (after[f][y] != before[f][y] ==> OwnCell(u, p, f, y)))
  }

  /** The application of rank p writes cells of its own domains, in any way. */
  ghost predicate OwnWrites(u: Bulk, p: nat, before: Store, after: Store) {
    before.Keys == after.Keys && forall f, y :: OwnWrite(u, p, before, after, f, y)
  }

  ghost predicate DataAt(g: R.Config, ts: seq<Transfer>, a: R.Step, after: Store, c: nat) {
    a.Write? && c < |ts| && c < |g.links| && c < |a.v| && g.links[c].src == a.p && HeldAt(ts[c], after) ==> a.v[c] == SourceData(ts[c], after)
  }

  /** What a step does to the fields: finishing a put moves the channel's cells, a write changes
      the writer's domains, and nothing else changes anything. */
  ghost predicate FieldStep(u: Bulk, a: R.Step, before: Store, after: Store)
    requires BulkOk(u)
  {
    if a.Write? then OwnWrites(u, a.p, before, after) && forall c: nat :: DataAt(Protocol(u), Transfers(u), a, after, c)
    else StoreStep(Protocol(u), Transfers(u), a, before, after)
  }

  lemma {:induction false} WriteSeen(u: Bulk, p: nat, before: Store, after: Store, r: nat, n: nat)
    requires BulkOk(u) && BulkGridOk(u) && IsTarget(u, r, n) && OwnWrites(u, p, before, after)
    requires HeldAt(TransferOf(u, r, n), before)
    ensures HeldAt(TransferOf(u, r, n), after)
    ensures var x := TransferOf(u, r, n);
      Agree(x.to, Here(x), before, after) && (Targets(u)[r][n].rank != p ==> Agree(x.from, There(x), before, after))
  {
    var x := TransferOf(u, r, n);
    SameShape(u, p, before, after, x.to, Here(x), x.size);
    SameShape(u, p, before, after, x.from, There(x), x.size);
    forall y | y in Here(x)
      ensures after[x.to][y] == before[x.to][y]
    {
      HereUnwritten(u, p, before, after, r, n, y);
    }
    if Targets(u)[r][n].rank != p {
      forall z | z in There(x)
        ensures after[x.from][z] == before[x.from][z]
      {
        ThereUnwritten(u, p, before, after, r, n, z);
      }
    }
  }

  lemma {:induction false} SameShape(u: Bulk, p: nat, before: Store, after: Store, f: FieldPtr, cells: seq<seq<int>>, size: nat)
    requires OwnWrites(u, p, before, after) && f in before && Holds(before[f], cells, size)
    ensures f in after && Holds(after[f], cells, size) && forall y :: y in cells ==> y in before[f] && y in after[f]
  {
    forall m | 0 <= m < |cells|
      ensures cells[m] in after[f] && |after[f][cells[m]]| == size
    {
      assert OwnWrite(u, p, before, after, f, cells[m]);
    }
  }

  lemma {:induction false} HereUnwritten(u: Bulk, p: nat, before: Store, after: Store, r: nat, n: nat, y: seq<int>)
    requires BulkOk(u) && BulkGridOk(u) && IsTarget(u, r, n) && OwnWrites(u, p, before, after) && y in Here(TransferOf(u, r, n))
    requires var f := TransferOf(u, r, n).to; f in before && y in before[f]
    ensures var f := TransferOf(u, r, n).to; f in after && y in after[f] && after[f][y] == before[f][y]
  {
    var f := TransferOf(u, r, n).to;
    var o := OriginOf(u, r, n);
    TransferFields(u, r, n, o);
    assert OwnWrite(u, p, before, after, f, y);
    HereOutside(u, r, n, o, y);
    OwnCellIn(u, p, r, o.i, f, y);
  }

  lemma {:induction false} ThereUnwritten(u: Bulk, p: nat, before: Store, after: Store, r: nat, n: nat, z: seq<int>)
    requires BulkOk(u) && IsTarget(u, r, n) && OwnWrites(u, p, before, after) && Targets(u)[r][n].rank != p
    requires var f := TransferOf(u, r, n).from; f in before && z in before[f]
    ensures var f := TransferOf(u, r, n).from; f in after && z in after[f] && after[f][z] == before[f][z]
  {
    var f := TransferOf(u, r, n).from;
    var o := OriginOf(u, r, n);
    TransferFields(u, r, n, o);
    assert OwnWrite(u, p, before, after, f, z);
    OwnCellIn(u, p, o.s, o.k, f, z);
  }

  // ------------------------------------------------------------------ runs

  ghost predicate FieldStepAt(u: Bulk, steps: seq<R.Step>, held: seq<Store>, n: nat)
    requires BulkOk(u)
  {
    n < |steps| && n + 1 < |held| ==> FieldStep(u, steps[n], held[n], held[n + 1])
  }

  ghost predicate StartsWith(u: Bulk, st: R.State, held: Store, c: nat)
    requires BulkOk(u)
  {
    c < |Transfers(u)| && c < |st.fields| && HeldAt(Transfers(u)[c], held) ==> st.fields[c] == SourceData(Transfers(u)[c], held)
  }

  /** What the fields hold before, between and after the steps. */
  ghost predicate FieldRun(u: Bulk, steps: seq<R.Step>, held: seq<Store>)
    requires BulkOk(u)
  {
    |held| == |steps| + 1 && FieldsHeld(u, held[0]) && forall n: nat :: FieldStepAt(u, steps, held, n)
  }

  /** Any run of the participants, and what the fields hold in each of its states. */
  ghost predicate BulkRun(u: Bulk, states: seq<R.State>, steps: seq<R.Step>, held: seq<Store>)
    requires BulkOk(u)
  {
    && R.Run(Protocol(u), states, steps) && FieldRun(u, steps, held)
    && forall c: nat :: StartsWith(u, states[0], held[0], c)
  }

  ghost predicate HeldIn(ts: seq<Transfer>, held: Store, c: nat) {
    c < |ts| ==> HeldAt(ts[c], held)
  }

  ghost predicate AllHeld(ts: seq<Transfer>, held: Store) {
    forall c: nat :: HeldIn(ts, held, c)
  }

  lemma {:induction false} FieldsCover(u: Bulk, held: Store)
    requires BulkOk(u) && FieldsHeld(u, held)
    ensures AllHeld(Transfers(u), held)
  {
    TransferCount(u);
    forall c: nat
      ensures HeldIn(Transfers(u), held, c)
    {
      if c < |Transfers(u)| {
        var r, n := ChannelTarget(u, c);
        TransferHeld(u, held, r, n);
      }
    }
  }

  lemma {:induction false} WriteIsWritten(u: Bulk, a: R.Step, before: Store, after: Store, c: nat)
    requires BulkOk(u) && BulkGridOk(u) && a.Write? && FieldStep(u, a, before, after) && AllHeld(Transfers(u), before)
    ensures HeldIn(Transfers(u), after, c) && Written(Protocol(u), Transfers(u), a, before, after, c)
  {
    TransferCount(u);
    if c < |Transfers(u)| {
      var r, n := ChannelTarget(u, c);
      assert HeldIn(Transfers(u), before, c);
      WriteSeen(u, a.p, before, after, r, n);
      assert DataAt(Protocol(u), Transfers(u), a, after, c);
    }
  }

  lemma {:induction false} StepHeld(ts: seq<Transfer>, g: R.Config, a: R.Step, before: Store, after: Store)
    requires Apart(ts) && AllHeld(ts, before) && !a.Write? && StoreStep(g, ts, a, before, after)
    ensures AllHeld(ts, after)
  {
    forall e: nat
      ensures HeldIn(ts, after, e)
    {
      assert HeldIn(ts, before, e);
      if a.FinishPut? && e < |ts| {
        assert HeldIn(ts, before, a.c);
        PutShown(ts, a.c, before, e);
      }
    }
  }

  lemma {:induction false} StepStores(u: Bulk, a: R.Step, before: Store, after: Store)
    requires BulkOk(u) && BulkGridOk(u) && FieldStep(u, a, before, after) && AllHeld(Transfers(u), before)
    ensures StoreStep(Protocol(u), Transfers(u), a, before, after) && AllHeld(Transfers(u), after)
  {
    if a.Write? {
      forall c: nat
        ensures HeldIn(Transfers(u), after, c) && Written(Protocol(u), Transfers(u), a, before, after, c)
      {
        WriteIsWritten(u, a, before, after, c);
      }
    } else {
      TransfersApart(u);
      StepHeld(Transfers(u), Protocol(u), a, before, after);
    }
  }

  lemma {:induction false} StepAt(u: Bulk, steps: seq<R.Step>, held: seq<Store>, n: nat)
    requires BulkOk(u) && FieldRun(u, steps, held) && n < |steps|
    ensures FieldStep(u, steps[n], held[n], held[n + 1])
  {
    assert FieldStepAt(u, steps, held, n);
  }

  lemma {:induction false} NextHeld(u: Bulk, steps: seq<R.Step>, held: seq<Store>, n: nat)
    requires BulkOk(u) && BulkGridOk(u) && FieldRun(u, steps, held) && n < |steps| && AllHeld(Transfers(u), held[n])
    ensures AllHeld(Transfers(u), held[n + 1]) && StoreStep(Protocol(u), Transfers(u), steps[n], held[n], held[n + 1])
  {
    var a, before, after := steps[n], held[n], held[n + 1];
    StepAt(u, steps, held, n);
    StepStores(u, a, before, after);
  }

  ghost predicate StaysHeld(ts: seq<Transfer>, held: seq<Store>, n: nat) {
    n + 1 < |held| && AllHeld(ts, held[n]) ==> AllHeld(ts, held[n + 1])
  }

  lemma {:induction false} AlwaysHeld(ts: seq<Transfer>, held: seq<Store>, n: nat)
    requires n < |held| && AllHeld(ts, held[0]) && forall m: nat :: StaysHeld(ts, held, m)
    ensures AllHeld(ts, held[n])
  {
    if n > 0 {
      AlwaysHeld(ts, held, n - 1);
      assert StaysHeld(ts, held, n - 1);
    }
  }

  lemma {:induction false} RunHeld(u: Bulk, steps: seq<R.Step>, held: seq<Store>, n: nat)
    requires BulkOk(u) && BulkGridOk(u) && FieldRun(u, steps, held) && n <= |steps|
    ensures AllHeld(Transfers(u), held[n])
  {
    FieldsCover(u, held[0]);
    forall m: nat
      ensures StaysHeld(Transfers(u), held, m)
    {
      if m < |steps| && AllHeld(Transfers(u), held[m]) {
        NextHeld(u, steps, held, m);
      }
    }
    AlwaysHeld(Transfers(u), held, n);
  }

  /** A run of the participants is one in which the protocol's data is that of the fields. */
  lemma {:induction false} RunIsStoreRun(u: Bulk, states: seq<R.State>, steps: seq<R.Step>, held: seq<Store>)
    requires BulkOk(u) && BulkGridOk(u) && BulkRun(u, states, steps, held)
    ensures StoreRun(Protocol(u), Transfers(u), states, steps, held)
  {
    TransfersApart(u);
    TransferCount(u);
    forall n: nat
      ensures StoreStepAt(Protocol(u), Transfers(u), steps, held, n)
    {
      if n < |steps| {
        RunHeld(u, steps, held, n);
        NextHeld(u, steps, held, n);
      }
    }
    RunHeld(u, steps, held, 0);
    forall c: nat
      ensures ShownAt(Transfers(u), states[0], held[0], c)
    {
      assert HeldIn(Transfers(u), held[0], c) && StartsWith(u, states[0], held[0], c);
    }
  }

  // ------------------------------------------------------------------ freshness

  /** Step b begins participant s's exchange of the round that participant r has completed. */
  ghost predicate SameRound(states: seq<R.State>, steps: seq<R.Step>, now: nat, r: nat, b: nat, s: nat) {
    && b < now < |states| && b < |steps| && steps[b] == R.Begin(s) && s < |states[b].parts| && r < |states[now].parts|
    && R.Round(states[b].parts[s]) + 1 == R.Round(states[now].parts[r])
  }

  ghost predicate Completed(st: R.State, r: nat) {
    r < |st.parts| && st.parts[r].stage == R.Ready && R.Round(st.parts[r]) > 0
  }

  /** Freshness of the target ranges: once a participant has completed k rounds, each cell of its
      target ranges holds what the cell of the same global coordinate of the same field held when
      its owner began its k-th exchange. */
  lemma {:induction false} RangesFresh(u: Bulk, states: seq<R.State>, steps: seq<R.Step>, held: seq<Store>, now: nat, r: nat, n: nat)
    returns (b: nat)
    requires BulkOk(u) && BulkGridOk(u) && BulkRun(u, states, steps, held) && now <= |steps|
    requires IsTarget(u, r, n) && Completed(states[now], r)
    ensures 0 <= Targets(u)[r][n].rank && SameRound(states, steps, now, r, b, Targets(u)[r][n].rank)
    ensures HeldAt(TransferOf(u, r, n), held[now]) && HeldAt(TransferOf(u, r, n), held[b])
    ensures forall y :: CameFrom(TransferOf(u, r, n), held[now], held[b], y)
  {
    var c := ChannelOf(Targets(u), r, n);
    TransferAt(u, r, n);
    TransferCount(u);
    ChannelEnds(Targets(u), Sources(u), u.rounds, r, n);
    RunIsStoreRun(u, states, steps, held);
    R.ReadyOwnsHalos(Protocol(u), states, steps, now, c);
    b := FieldsFresh(Protocol(u), Transfers(u), states, steps, held, now, c);
  }

  // ------------------------------------------------------------------ every owned cell has a channel

  lemma {:induction false} MapPostsHave(m: HaloMap, dom: nat, slot: nat, e: Entry<Halo>, l: nat) returns (n: nat)
    requires e in m && l < |e.val.spaces|
    ensures n < |MapPosts(m, dom, slot)| && MapPosts(m, dom, slot)[n] == Post(e.val.rank, e.key.minor, e.val.spaces[l], dom, slot)
  {
    var init, last := m[..|m| - 1], m[|m| - 1];
    if e in init {
      n := MapPostsHave(init, dom, slot, e, l);
    } else {
      n := |MapPosts(init, dom, slot)| + (|last.val.spaces| - 1 - l);
    }
  }

  /** A halo of a domain is posted for each of the domain's fields. */
  lemma {:induction false} RankPostsHave(maps: seq<HaloMap>, adds: seq<nat>, i: nat, slot: nat, e: Entry<Halo>, l: nat) returns (n: nat)
    requires (forall a :: 0 <= a < |adds| ==> adds[a] < |maps|) && slot < BulkRanges.Count(adds, i)
    requires i < |maps| && e in maps[i] && l < |e.val.spaces|
    ensures n < |RankPosts(maps, adds)| && RankPosts(maps, adds)[n] == Post(e.val.rank, e.key.minor, e.val.spaces[l], i, slot)
  {
    var init, last := adds[..|adds| - 1], adds[|adds| - 1];
    if slot < BulkRanges.Count(init, i) {
      n := RankPostsHave(maps, init, i, slot, e, l);
    } else {
      var m := MapPostsHave(maps[i], i, slot, e, l);
      n := |RankPosts(maps, init)| + m;
    }
  }

  /** Cell y of field j of domain (r, i) lies in halo h, its global coordinate belongs to domain
      (s, k), and rank s shares memory with rank r. */
  ghost predicate OwnedBy(u: Bulk, r: nat, i: nat, j: nat, y: seq<int>, h: nat, s: nat, k: nat)
    requires BulkOk(u)
  {
    && r < |u.w| && i < |u.w[r]| && i < |u.p.halos[r]| && h < |u.p.halos[r][i]| && j < |u.kinds| && s < |u.w| && k < |u.w[s]|
    && u.t.rma && (r == s || (u.t.xpmem && r < |u.t.node| && s < |u.t.node| && u.t.node[r] == u.t.node[s]))
    && CellIn(u.kinds[j], u.dims, u.p.halos[r][i][h].local, y) && PairOf(u.p.halos[r][i][h], u.dims)
    && |u.w[s][k].first| == u.dims && InDomain(u.w[s][k], ToGlobal(u.p.halos[r][i][h], y[..u.dims]))
  }

  lemma {:induction false} OwnedSpace(halos: seq<SpacePair>, d: Domain, h: nat, y: seq<int>) returns (l: nat)
    requires HalosOf(halos, |d.first|) && |d.first| == |d.last| == |y| && h < |halos|
    requires InBox(y, halos[h].local.first, halos[h].local.last) && InDomain(d, ToGlobal(halos[h], y))
    ensures l < |Intersections(halos, d)| && Intersections(halos, d)[l] == Intersect(halos[h], d)
  {
    IntersectCells(halos[h], d, y);
    NonEmptyBox(Intersect(halos[h], d), y, halos[h], d);
    l := Listed(halos, d, h);
  }

  /** What intersects a halo of a domain is received by it. */
  lemma {:induction false} ReceivedFrom(u: Bulk, r: nat, i: nat, s: nat, k: nat) returns (e: Entry<Halo>)
    requires BulkOk(u) && r < |u.w| && i < |u.w[r]| == |u.p.halos[r]| == |u.p.recv[r]| && s < |u.w| && k < |u.w[s]|
    requires |u.w[s][k].first| == |u.w[s][k].last| == u.dims && HalosOf(u.p.halos[r][i], u.dims)
    requires Intersections(u.p.halos[r][i], u.w[s][k]) != []
    ensures e in u.p.recv[r][i] && e.key.major == u.w[s][k].id && e.val == Halo(s, Intersections(u.p.halos[r][i], u.w[s][k]))
  {
    assert IsPatternMap(u.p.recv[r][i], u.w, u.p.halos[r][i], u.dims);
    var q :| 0 <= q < |u.p.recv[r][i]| && Receives(u.p.recv[r][i][q], u.w, u.p.halos[r][i], u.dims, s, k);
    e := u.p.recv[r][i][q];
  }

  /** The entry and the space in which an owned cell is received. */
  lemma {:induction false} OwnedEntry(u: Bulk, r: nat, i: nat, j: nat, y: seq<int>, h: nat, s: nat, k: nat) returns (e: Entry<Halo>, l: nat)
    requires BulkOk(u) && OwnedBy(u, r, i, j, y, h, s, k)
    ensures |u.p.recv[r]| == |u.w[r]| && e in u.p.recv[r][i] && e.key.major == u.w[s][k].id && e.val.rank == s && Stays(u.t, r, true, e)
    ensures |u.w[s][k].last| == u.dims && PairOf(u.p.halos[r][i][h], |u.w[s][k].first|)
    ensures l < |e.val.spaces| && e.val.spaces[l] == Intersect(u.p.halos[r][i][h], u.w[s][k])
    ensures ValidHalo(u.p.halos[r][i][h], u.dims)
  {
    DomainShape(u.w, u.dims, s, k);
    PatternShape(u.w, u.p, u.dims, r, i, s, k);
    l := OwnedSpace(u.p.halos[r][i], u.w[s][k], h, y[..u.dims]);
    e := ReceivedFrom(u, r, i, s, k);
  }

  /** The target range for a space of a receive halo. */
  lemma {:induction false} PostedTarget(u: Bulk, r: nat, i: nat, j: nat, e: Entry<Halo>, l: nat) returns (n: nat)
    requires BulkOk(u) && r < |u.w| && i < |u.w[r]| == |u.p.recv[r]| && j < |u.kinds|
    requires e in u.p.recv[r][i] && Stays(u.t, r, true, e) && l < |e.val.spaces|
    ensures IsTarget(u, r, n) && Targets(u)[r][n] == Post(e.val.rank, e.key.minor, e.val.spaces[l], i, j)
  {
    KeptIn(u.p.recv[r][i], u.t, r, true, e);
    n := RankPostsHave(LocalCopies(u.p.recv[r], u.t, r), u.adds[r], i, j, e, l);
    assert Targets(u)[r] == RankPosts(LocalCopies(u.p.recv[r], u.t, r), u.adds[r]);
  }

  /** It is served by the domain that the halo names. */
  lemma {:induction false} PostedServer(u: Bulk, r: nat, n: nat, e: Entry<Halo>, s: nat, k: nat)
    requires BulkOk(u) && IsTarget(u, r, n) && Targets(u)[r][n].dom < |u.p.recv[r]| && e in u.p.recv[r][Targets(u)[r][n].dom]
    requires Stays(u.t, r, true, e) && OnIt(Targets(u)[r][n], e.val.rank, e.key.minor)
    requires s < |u.w| && k < |u.w[s]| && e.key.major == u.w[s][k].id
    ensures var x, q := TransferOf(u, r, n), Targets(u)[r][n];
      && q.dom < |u.w[r]| && q.slot < |u.kinds| && x.to == FieldPtr(u.w[r][q.dom].id, q.slot) && x.from == FieldPtr(u.w[s][k].id, q.slot)
      && x.kind == u.kinds[q.slot] && x.space == q.space && x.d == u.w[s][k]
  {
    var o := OriginOf(u, r, n);
    var f := u.p.recv[r][o.i][o.j];
    KeptIn(u.p.recv[r][o.i], u.t, r, true, e);
    KeptIn(u.p.recv[r][o.i], u.t, r, true, f);
    SameRecv(u.w, u.p, u.dims, r, o.i, o.i, e, f, u.t);
    IdsTell(u, s, k, o.s, o.k);
    TransferFields(u, r, n, o);
  }

  /** The target range of an owned cell, and the domain that serves it. */
  lemma {:induction false} OwnedTarget(u: Bulk, r: nat, i: nat, j: nat, y: seq<int>, h: nat, s: nat, k: nat) returns (n: nat)
    requires BulkOk(u) && OwnedBy(u, r, i, j, y, h, s, k)
    ensures |u.w[s][k].last| == u.dims && IsTarget(u, r, n) && Targets(u)[r][n].rank == s
    ensures var x := TransferOf(u, r, n);
      && x.to == FieldPtr(u.w[r][i].id, j) && x.from == FieldPtr(u.w[s][k].id, j) && x.kind == u.kinds[j]
      && x.space == Intersect(u.p.halos[r][i][h], u.w[s][k]) && x.d == u.w[s][k]
  {
    var e, l := OwnedEntry(u, r, i, j, y, h, s, k);
    n := PostedTarget(u, r, i, j, e, l);
    PostedServer(u, r, n, e, s, k);
  }

  lemma {:induction false} OwnedHere(u: Bulk, x: Transfer, halo: SpacePair, y: seq<int>)
    requires TransferOk(x) && |x.d.first| == u.dims && ValidHalo(halo, u.dims) && x.space == Intersect(halo, x.d)
    requires CellIn(x.kind, u.dims, halo.local, y) && InDomain(x.d, ToGlobal(halo, y[..u.dims]))
    ensures y in Here(x) && OriginCell(x, y) == SourceCell(halo, x.d, y)
  {
    IntersectCells(halo, x.d, y[..u.dims]);
    BoxCell(x.kind, u.dims, x.space.local, y);
  }

  /** The bulk exchange fills the halos: once a participant has completed k rounds, every halo cell
      that is owned by a rank with which it shares memory holds what the owner's field held, at the
      same global coordinate and component, when the owner began its k-th exchange. */
  lemma {:induction false} BulkFillsHalos(u: Bulk, states: seq<R.State>, steps: seq<R.Step>, held: seq<Store>, now: nat,
                                          r: nat, i: nat, j: nat, y: seq<int>, h: nat, s: nat, k: nat) returns (b: nat)
    requires BulkOk(u) && BulkGridOk(u) && BulkRun(u, states, steps, held) && now <= |steps|
    requires Completed(states[now], r) && OwnedBy(u, r, i, j, y, h, s, k)
    ensures SameRound(states, steps, now, r, b, s)
    ensures |u.w[s][k].last| == |u.w[s][k].first| <= |y| && PairOf(u.p.halos[r][i][h], |u.w[s][k].first|)
    ensures var here, there, z := FieldPtr(u.w[r][i].id, j), FieldPtr(u.w[s][k].id, j), SourceCell(u.p.halos[r][i][h], u.w[s][k], y);
      && here in held[now] && y in held[now][here] && there in held[b] && z in held[b][there]
      && held[now][here][y] == held[b][there][z]
  {
    var n := OwnedTarget(u, r, i, j, y, h, s, k);
    var e, l := OwnedEntry(u, r, i, j, y, h, s, k);
    b := RangesFresh(u, states, steps, held, now, r, n);
    var x := TransferOf(u, r, n);
    OwnedHere(u, x, u.p.halos[r][i][h], y);
    assert CameFrom(x, held[now], held[b], y);
  }
}

// Fields registered with the bulk communication object: every halo goes to exactly one of the
// local and the remote copy of its pattern, and the ranges the two ends of a local halo create
// meet in the same order although every participant only looks at its own maps.

module BulkRanges {
  import opened OrderedMap
  import opened Pattern
  import opened SendHalos
  import opened Duality
  import opened Matching
  import Connect
  import opened AccessGuard

  // ------------------------------------------------------------------ locality

  /** How the library is built, and which ranks share memory. */
  datatype Topology = Topology(rma: bool, xpmem: bool, node: seq<int>)

  function LocalityOf(t: Topology, me: int, other: int): Locality {
    if !t.rma then RemoteNode
    else if me == other then SameThread
    else if t.xpmem && 0 <= me < |t.node| && 0 <= other < |t.node| && t.node[me] == t.node[other] then SameNode
    else RemoteNode
  }

  /** A range is local within a rank, and within a node if memory can be mapped across processes. */
  lemma {:induction false} LocalityIs(t: Topology, me: int, other: int)
    ensures LocalityOf(t, me, other) == SameThread <==> t.rma && me == other
    ensures LocalityOf(t, me, other) == SameNode <==>
      t.rma && me != other && t.xpmem && 0 <= me < |t.node| && 0 <= other < |t.node| && t.node[me] == t.node[other]
  {
  }

  /** Both ranks judge alike. */
  lemma {:induction false} LocalityMutual(t: Topology, a: int, b: int)
    ensures LocalityOf(t, a, b) == LocalityOf(t, b, a)
  {
  }

  // ------------------------------------------------------------------ the two copies of a pattern

  predicate Stays(t: Topology, me: int, local: bool, e: Entry<Halo>) {
    (LocalityOf(t, me, e.val.rank) != RemoteNode) == local
  }

  /** The entries of a halo map that stay in the local (or remote) copy. */
  function Kept(m: HaloMap, t: Topology, me: int, local: bool): HaloMap {
    if m == [] then []
    else Kept(m[..|m| - 1], t, me, local) + (if Stays(t, me, local, m[|m| - 1]) then [m[|m| - 1]] else [])
  }

  lemma {:induction false} KeptAppend(a: HaloMap, b: HaloMap, t: Topology, me: int, local: bool)
    ensures Kept(a + b, t, me, local) == Kept(a, t, me, local) + Kept(b, t, me, local)
  {
    if b == [] {
      assert a + b == a;
    } else {
      KeptAppend(a, b[..|b| - 1], t, me, local);
      assert (a + b)[..|a + b| - 1] == a + b[..|b| - 1];
    }
  }

  // Loop state: the first x entries have been looked at, `it` of them are still there.
  ghost predicate Erasing(m: HaloMap, t: Topology, me: int, local: bool, r: HaloMap, it: int, x: int) {
    && 0 <= x <= |m| && it == |Kept(m[..x], t, me, local)|
    && r == Kept(m[..x], t, me, local) + m[x..]
  }

  lemma {:induction false} ErasingStep(m: HaloMap, t: Topology, me: int, local: bool, r: HaloMap, it: int, x: int)
    requires Erasing(m, t, me, local, r, it, x) && it < |r|
    ensures 0 <= it && x < |m| && r[it] == m[x]
    ensures if Stays(t, me, local, r[it]) then Erasing(m, t, me, local, r, it + 1, x + 1)
            else Erasing(m, t, me, local, r[..it] + r[it + 1..], it, x + 1)
  {
    var k := Kept(m[..x], t, me, local);
    assert m[..x + 1][..x] == m[..x];
    if Stays(t, me, local, m[x]) {
      assert Kept(m[..x + 1], t, me, local) == k + [m[x]];
    } else {
      assert Kept(m[..x + 1], t, me, local) == k + [];
    }
  }

  /** The constructor's erase-while-iterating loop. */
  method EraseOthers(m: HaloMap, t: Topology, me: int, local: bool) returns (r: HaloMap)
    ensures r == Kept(m, t, me, local)
    ensures forall e: Entry<Halo> :: e in r ==> e in m
    ensures forall e: Entry<Halo> :: e in m && e.val.rank == me ==> (e in r <==> local == t.rma)
    ensures forall e: Entry<Halo> :: e in m && e.val.rank != me ==> (e in r <==>
      local == (t.rma && t.xpmem && 0 <= me < |t.node| && 0 <= e.val.rank < |t.node| && t.node[me] == t.node[e.val.rank]))
  {
    r := m;
    var it := 0;
    ghost var x := 0;
    while it < |r|
      invariant Erasing(m, t, me, local, r, it, x)
      decreases |m| - x
    {
      ErasingStep(m, t, me, local, r, it, x);
      if (LocalityOf(t, me, r[it].val.rank) != RemoteNode) != local {
        r := r[..it] + r[it + 1..];
      } else {
        it := it + 1;
      }
      x := x + 1;
    }
    assert m[..x] == m;
    forall e
      ensures e in r <==> e in m && Stays(t, me, local, e)
    {
      KeptIn(m, t, me, local, e);
    }
  }

  /** Exactly the entries of the right kind stay, in their order. */
  lemma {:induction false} KeptIn(m: HaloMap, t: Topology, me: int, local: bool, e: Entry<Halo>)
    ensures e in Kept(m, t, me, local) <==> e in m && Stays(t, me, local, e)
  {
    if m != [] {
      KeptIn(m[..|m| - 1], t, me, local, e);
      assert m == m[..|m| - 1] + [m[|m| - 1]];
    }
  }

  lemma {:induction false} KeptSorted(m: HaloMap, t: Topology, me: int, local: bool)
    requires Sorted(m)
    ensures Sorted(Kept(m, t, me, local))
  {
    if m != [] {
      var init, last := m[..|m| - 1], m[|m| - 1];
      KeptSorted(init, t, me, local);
      var k := Kept(init, t, me, local);
      forall i | 0 <= i < |k|
        ensures Less(k[i].key, last.key)
      {
        KeptIn(init, t, me, local, k[i]);
        var j :| 0 <= j < |init| && init[j] == k[i];
        assert m[j] == k[i];
      }
    }
  }

  /** Registering another field of the same pattern runs the loops again on the copies: nothing
      changes. */
  lemma {:induction false} KeptTwice(m: HaloMap, t: Topology, me: int, local: bool)
    ensures Kept(Kept(m, t, me, local), t, me, local) == Kept(m, t, me, local)
  {
    if m != [] {
      var init, last := m[..|m| - 1], m[|m| - 1];
      KeptTwice(init, t, me, local);
      if Stays(t, me, local, last) {
        KeptAppend(Kept(init, t, me, local), [last], t, me, local);
        assert [last][..0] == [] && Kept([last][..0], t, me, local) == [];
        assert Kept([last], t, me, local) == [last];
      } else {
        assert Kept(init, t, me, local) + [] == Kept(init, t, me, local);
      }
    }
  }

  /** Every halo of a pattern is in exactly one of the two copies, and no copy has others. */
  lemma {:induction false} CopiesPartition(m: HaloMap, t: Topology, me: int, e: Entry<Halo>)
    ensures e in m <==> e in Kept(m, t, me, true) || e in Kept(m, t, me, false)
    ensures !(e in Kept(m, t, me, true) && e in Kept(m, t, me, false))
    ensures |m| == |Kept(m, t, me, true)| + |Kept(m, t, me, false)|
  {
    KeptIn(m, t, me, true, e);
    KeptIn(m, t, me, false, e);
    KeptCount(m, t, me);
  }

  lemma {:induction false} KeptCount(m: HaloMap, t: Topology, me: int)
    ensures |m| == |Kept(m, t, me, true)| + |Kept(m, t, me, false)|
  {
    if m != [] {
      KeptCount(m[..|m| - 1], t, me);
    }
  }

  lemma {:induction false} MirrorIn(w: World, p: PatternData, dims: nat, r: nat, i: nat, j: nat, s: nat, k: nat, e: Entry<Halo>)
    requires PatternOk(w, p, dims) && Mirrors(w, p.recv, r, i, j, s, k, e)
    ensures s < |p.send| && k < |p.send[s]| && e in p.send[s][k]
  {
    SendsMirrorReceives(w, p.halos, p.recv, p.sends, p.send, dims, s, k, e);
  }

  /** The two ends of a halo put it into the same copy. */
  lemma {:induction false} EndsSplitAlike(w: World, p: PatternData, dims: nat, t: Topology, r: nat, i: nat, j: nat, s: nat, k: nat,
                                          e: Entry<Halo>, local: bool)
    requires PatternOk(w, p, dims) && Mirrors(w, p.recv, r, i, j, s, k, e)
    ensures s < |p.send| && k < |p.send[s]|
    ensures p.recv[r][i][j] in Kept(p.recv[r][i], t, r, local) <==> e in Kept(p.send[s][k], t, s, local)
  {
    MirrorIn(w, p, dims, r, i, j, s, k, e);
    KeptIn(p.recv[r][i], t, r, local, p.recv[r][i][j]);
    KeptIn(p.send[s][k], t, s, local, e);
    LocalityMutual(t, r, s);
  }

  // ------------------------------------------------------------------ ranges of a field

  /** A range and the message that completes it: to or from rank, under tag. The field is number
      slot of local domain dom. */
  datatype Post = Post(rank: int, tag: int, space: SpacePair, dom: nat, slot: nat)

  /** One halo: its iteration spaces from last to first. */
  function EntryPosts(e: Entry<Halo>, dom: nat, slot: nat): (p: seq<Post>)
    ensures |p| == |e.val.spaces|
  {
    var n := |e.val.spaces|;
    seq(n, q requires 0 <= q < n => Post(e.val.rank, e.key.minor, e.val.spaces[n - 1 - q], dom, slot))
  }

  function MapPosts(m: HaloMap, dom: nat, slot: nat): seq<Post> {
    if m == [] then [] else MapPosts(m[..|m| - 1], dom, slot) + EntryPosts(m[|m| - 1], dom, slot)
  }

  /** How many boxes the first h halos have. */
  function BoxesBefore(m: HaloMap, h: nat): nat
    requires h <= |m|
  {
    if h == 0 then 0 else BoxesBefore(m, h - 1) + |m[h - 1].val.spaces|
  }

  /** Behind the first `base` posts, halo after halo, the boxes of each from last to first. */
  ghost predicate BoxPosted(posts: seq<Post>, base: nat, m: HaloMap, dom: nat, slot: nat, h: nat, l: nat) {
    h < |m| && l < |m[h].val.spaces| ==>
      && base + BoxesBefore(m, h + 1) <= |posts|
      && posts[base + BoxesBefore(m, h + 1) - 1 - l] == Post(m[h].val.rank, m[h].key.minor, m[h].val.spaces[l], dom, slot)
  }

  lemma {:induction false} MapPostsAt(m: HaloMap, dom: nat, slot: nat)
    ensures |MapPosts(m, dom, slot)| == BoxesBefore(m, |m|)
    ensures forall h: nat, l: nat :: BoxPosted(MapPosts(m, dom, slot), 0, m, dom, slot, h, l)
  {
    if m != [] {
      var n := |m| - 1;
      var before, last := MapPosts(m[..n], dom, slot), EntryPosts(m[n], dom, slot);
      MapPostsAt(m[..n], dom, slot);
      SameBoxes(m, n, n);
      forall h: nat, l: nat
        ensures BoxPosted(MapPosts(m, dom, slot), 0, m, dom, slot, h, l)
      {
        if h < n {
          assert BoxPosted(before, 0, m[..n], dom, slot, h, l);
          SameBoxes(m, n, h + 1);
        } else if h == n && l < |m[n].val.spaces| {
          assert (before + last)[|before| + (|last| - 1 - l)] == last[|last| - 1 - l];
        }
      }
    }
  }

  lemma {:induction false} SameBoxes(m: HaloMap, n: nat, h: nat)
    requires h <= n <= |m|
    ensures BoxesBefore(m[..n], h) == BoxesBefore(m, h)
  {
    if h > 0 {
      SameBoxes(m, n, h - 1);
    }
  }

  /** The loop over halos of add_field: source ranges for send halos, target ranges for receive
      halos, and the order in which their messages are posted. */
  method PostHalos(m: HaloMap, dom: nat, slot: nat) returns (posts: seq<Post>)
    ensures posts == MapPosts(m, dom, slot)
    ensures |posts| == BoxesBefore(m, |m|) && forall h: nat, l: nat :: BoxPosted(posts, 0, m, dom, slot, h, l)
  {
    MapPostsAt(m, dom, slot);
    posts := [];
    for h := 0 to |m|
      invariant posts == MapPosts(m[..h], dom, slot)
    {
      var it := |m[h].val.spaces|;
      while it > 0
        invariant 0 <= it <= |m[h].val.spaces|
        invariant posts == MapPosts(m[..h], dom, slot) + EntryPosts(m[h], dom, slot)[..|m[h].val.spaces| - it]
      {
        it := it - 1;
        assert EntryPosts(m[h], dom, slot)[..|m[h].val.spaces| - it]
            == EntryPosts(m[h], dom, slot)[..|m[h].val.spaces| - it - 1] + [EntryPosts(m[h], dom, slot)[|m[h].val.spaces| - it - 1]];
        posts := posts + [Post(m[h].val.rank, m[h].key.minor, m[h].val.spaces[it], dom, slot)];
      }
      assert m[..h + 1][..h] == m[..h] && EntryPosts(m[h], dom, slot)[..|m[h].val.spaces|] == EntryPosts(m[h], dom, slot);
    }
    assert m[..|m|] == m;
  }

  function Count(adds: seq<nat>, i: nat): nat {
    if adds == [] then 0 else Count(adds[..|adds| - 1], i) + (if adds[|adds| - 1] == i then 1 else 0)
  }

  /** Everything one rank posts while fields are added: adds[n] is the domain of the n-th field,
      maps[i] the local copy of domain i's halos. */
  function RankPosts(maps: seq<HaloMap>, adds: seq<nat>): seq<Post>
    requires forall n :: 0 <= n < |adds| ==> adds[n] < |maps|
  {
    if adds == [] then []
    else
      var init, last := adds[..|adds| - 1], adds[|adds| - 1];
      RankPosts(maps, init) + MapPosts(maps[last], last, Count(init, last))
  }

  /** How many ranges the first n fields have. */
  function RangesBefore(maps: seq<HaloMap>, adds: seq<nat>, n: nat): nat
    requires n <= |adds| && forall k :: 0 <= k < |adds| ==> adds[k] < |maps|
  {
    if n == 0 then 0 else RangesBefore(maps, adds, n - 1) + BoxesBefore(maps[adds[n - 1]], |maps[adds[n - 1]]|)
  }

  /** The n-th field's boxes, behind those of the fields before; its number is that of the earlier
      fields on its domain. */
  ghost predicate FieldPosted(posts: seq<Post>, maps: seq<HaloMap>, adds: seq<nat>, n: nat, h: nat, l: nat)
    requires forall k :: 0 <= k < |adds| ==> adds[k] < |maps|
  {
    n < |adds| ==>
      BoxPosted(posts, RangesBefore(maps, adds, n), maps[adds[n]], adds[n], Count(adds[..n], adds[n]), h, l)
  }

  lemma {:induction false} RangesLater(maps: seq<HaloMap>, adds: seq<nat>, k: nat, n: nat)
    requires k <= n <= |adds| && forall k :: 0 <= k < |adds| ==> adds[k] < |maps|
    ensures RangesBefore(maps, adds[..n], k) == RangesBefore(maps, adds, k)
  {
    if k > 0 {
      RangesLater(maps, adds, k - 1, n);
    }
  }

  lemma {:induction false} BoxStays(posts: seq<Post>, more: seq<Post>, base: nat, m: HaloMap, dom: nat, slot: nat, h: nat, l: nat)
    requires BoxPosted(posts, base, m, dom, slot, h, l)
    ensures BoxPosted(posts + more, base, m, dom, slot, h, l)
  {
  }

  lemma {:induction false} BoxBehind(posts: seq<Post>, more: seq<Post>, m: HaloMap, dom: nat, slot: nat, h: nat, l: nat)
    requires BoxPosted(more, 0, m, dom, slot, h, l)
    ensures BoxPosted(posts + more, |posts|, m, dom, slot, h, l)
  {
    if h < |m| && l < |m[h].val.spaces| {
      var i := BoxesBefore(m, h + 1) - 1 - l;
      assert (posts + more)[|posts| + i] == more[i];
    }
  }

  lemma {:induction false} RankPostsAt(maps: seq<HaloMap>, adds: seq<nat>)
    requires forall n :: 0 <= n < |adds| ==> adds[n] < |maps|
    ensures |RankPosts(maps, adds)| == RangesBefore(maps, adds, |adds|)
    ensures forall n: nat, h: nat, l: nat :: FieldPosted(RankPosts(maps, adds), maps, adds, n, h, l)
  {
    if adds != [] {
      var e := |adds| - 1;
      var before, last := RankPosts(maps, adds[..e]), MapPosts(maps[adds[e]], adds[e], Count(adds[..e], adds[e]));
      RankPostsAt(maps, adds[..e]);
      MapPostsAt(maps[adds[e]], adds[e], Count(adds[..e], adds[e]));
      RangesLater(maps, adds, e, e);
      forall n: nat, h: nat, l: nat
        ensures FieldPosted(RankPosts(maps, adds), maps, adds, n, h, l)
      {
        if n < e {
          assert FieldPosted(before, maps, adds[..e], n, h, l) && adds[..e][..n] == adds[..n];
          RangesLater(maps, adds, n, e);
          BoxStays(before, last, RangesBefore(maps, adds, n), maps[adds[n]], adds[n], Count(adds[..n], adds[n]), h, l);
        } else if n == e {
          BoxBehind(before, last, maps[adds[e]], adds[e], Count(adds[..e], adds[e]), h, l);
        }
      }
    }
  }

  /** add_field, field after field. */
  method AddFields(ds: seq<Domain>, maps: seq<HaloMap>, adds: seq<nat>) returns (posts: seq<Post>)
    requires |ds| == |maps| && forall n :: 0 <= n < |adds| ==> adds[n] < |maps|
    requires forall a, b :: 0 <= a < b < |ds| ==> ds[a].id != ds[b].id
    ensures posts == RankPosts(maps, adds)
    ensures |posts| == RangesBefore(maps, adds, |adds|)
    ensures forall n: nat, h: nat, l: nat :: FieldPosted(posts, maps, adds, n, h, l)
  {
    RankPostsAt(maps, adds);
    posts := [];
    for n := 0 to |adds|
      invariant posts == RankPosts(maps, adds[..n])
    {
      var mine := AddField(ds, maps, ds[adds[n]].id, Count(adds[..n], adds[n]), adds[n]);
      posts := posts + mine;
      assert adds[..n + 1][..n] == adds[..n];
    }
    assert adds[..|adds|] == adds;
  }

  /** One field: the loop over the pattern's domains picks the field's own. */
  method AddField(ds: seq<Domain>, maps: seq<HaloMap>, id: int, slot: nat, ghost i: nat) returns (posts: seq<Post>)
    requires |ds| == |maps| && i < |ds| && ds[i].id == id
    requires forall a, b :: 0 <= a < b < |ds| ==> ds[a].id != ds[b].id
    ensures posts == MapPosts(maps[i], i, slot)
  {
    posts := [];
    for a := 0 to |ds|
      invariant posts == if a <= i then [] else MapPosts(maps[i], i, slot)
    {
      if ds[a].id == id {
        var mine := PostHalos(maps[a], a, slot);
        posts := posts + mine;
      }
    }
  }

  // ------------------------------------------------------------------ one channel

  /** The messages to or from one rank under one tag: they arrive in the order posted. */
  function OnChannel(posts: seq<Post>, rank: int, tag: int): seq<Post> {
    if posts == [] then []
    else
      var last := posts[|posts| - 1];
      OnChannel(posts[..|posts| - 1], rank, tag) + (if last.rank == rank && last.tag == tag then [last] else [])
  }

  lemma {:induction false} OnChannelAppend(a: seq<Post>, b: seq<Post>, rank: int, tag: int)
    ensures OnChannel(a + b, rank, tag) == OnChannel(a, rank, tag) + OnChannel(b, rank, tag)
  {
    if b == [] {
      assert a + b == a;
    } else {
      OnChannelAppend(a, b[..|b| - 1], rank, tag);
      assert (a + b)[..|a + b| - 1] == a + b[..|b| - 1];
    }
  }

  predicate Uses(e: Entry<Halo>, rank: int, tag: int) {
    e.val.rank == rank && e.key.minor == tag
  }

  lemma {:induction false} OnChannelSame(posts: seq<Post>, rank: int, tag: int, all: bool)
    requires forall n :: 0 <= n < |posts| ==> (posts[n].rank == rank && posts[n].tag == tag) == all
    ensures OnChannel(posts, rank, tag) == if all then posts else []
  {
    if posts != [] {
      OnChannelSame(posts[..|posts| - 1], rank, tag, all);
    }
  }

  /** At most the entry q of the map uses the channel. */
  lemma {:induction false} MapOnChannel(m: HaloMap, dom: nat, slot: nat, rank: int, tag: int, q: nat)
    requires forall n :: 0 <= n < |m| && Uses(m[n], rank, tag) ==> n == q
    ensures OnChannel(MapPosts(m, dom, slot), rank, tag) == if q < |m| && Uses(m[q], rank, tag) then EntryPosts(m[q], dom, slot) else []
  {
    if m != [] {
      var init, last := m[..|m| - 1], m[|m| - 1];
      MapOnChannel(init, dom, slot, rank, tag, q);
      OnChannelAppend(MapPosts(init, dom, slot), EntryPosts(last, dom, slot), rank, tag);
      OnChannelSame(EntryPosts(last, dom, slot), rank, tag, Uses(last, rank, tag));
    }
  }

  /** One halo for every field, in the order in which the fields were added. */
  function FieldPosts(e: Entry<Halo>, dom: nat, fields: nat): seq<Post> {
    if fields == 0 then [] else FieldPosts(e, dom, fields - 1) + EntryPosts(e, dom, fields - 1)
  }

  /** At most entry q of map i uses the channel. */
  ghost predicate OnlyUser(maps: seq<HaloMap>, i: nat, q: nat, rank: int, tag: int) {
    forall a, n :: 0 <= a < |maps| && 0 <= n < |maps[a]| && Uses(maps[a][n], rank, tag) ==> a == i && n == q
  }

  lemma {:induction false} RankOnChannel(maps: seq<HaloMap>, adds: seq<nat>, rank: int, tag: int, i: nat, q: nat)
    requires forall n :: 0 <= n < |adds| ==> adds[n] < |maps|
    requires OnlyUser(maps, i, q, rank, tag)
    ensures OnChannel(RankPosts(maps, adds), rank, tag) ==
      if i < |maps| && q < |maps[i]| && Uses(maps[i][q], rank, tag) then FieldPosts(maps[i][q], i, Count(adds, i)) else []
  {
    if adds != [] {
      var init, last := adds[..|adds| - 1], adds[|adds| - 1];
      RankOnChannel(maps, init, rank, tag, i, q);
      OnChannelAppend(RankPosts(maps, init), MapPosts(maps[last], last, Count(init, last)), rank, tag);
      if last == i {
        MapOnChannel(maps[i], i, Count(init, i), rank, tag, q);
      } else {
        assert forall n :: 0 <= n < |maps[last]| ==> !Uses(maps[last][n], rank, tag);
        MapOnChannel(maps[last], last, Count(init, last), rank, tag, 0);
      }
    }
  }

  /** A target range and the source range that serves it: same field, same global box, and the
      local box re-based to the source's domain. */
  ghost predicate Serves(ds: seq<Domain>, target: Post, source: Post) {
    && source.dom < |ds| && |ds[source.dom].first| == |ds[source.dom].last| && PairOf(target.space, |ds[source.dom].first|)
    && source.slot == target.slot && source.space.global == target.space.global
    && source.space == Rebase(target.space, ds[source.dom])
  }

  /** The k-th source range on the channel serves the k-th target range; ds are the domains of the
      source's rank. */
  ghost predicate Paired(ds: seq<Domain>, targets: seq<Post>, sources: seq<Post>) {
    |targets| == |sources| && forall n :: 0 <= n < |targets| ==> Serves(ds, targets[n], sources[n])
  }

  lemma {:induction false} FieldsPaired(ds: seq<Domain>, e: Entry<Halo>, f: Entry<Halo>, i: nat, k: nat, fields: nat)
    requires k < |ds| && |ds[k].first| == |ds[k].last| && PairsOf(e.val.spaces, |ds[k].first|) && f.val.spaces == RebaseAll(e.val.spaces, ds[k])
    ensures Paired(ds, FieldPosts(e, i, fields), FieldPosts(f, k, fields))
  {
    if fields > 0 {
      FieldsPaired(ds, e, f, i, k, fields - 1);
    }
  }

  // ------------------------------------------------------------------ both ends of a channel

  /** The local copies of one pattern, seen from one rank. */
  function LocalCopies(maps: seq<HaloMap>, t: Topology, me: int): (r: seq<HaloMap>)
    ensures |r| == |maps|
  {
    seq(|maps|, i requires 0 <= i < |maps| => Kept(maps[i], t, me, true))
  }

  /** Only one local receive of rank r comes from rank s under a tag. */
  lemma {:induction false} OneTarget(w: World, p: PatternData, dims: nat, t: Topology, r: nat, s: nat, tag: int, i: nat, q: nat)
    requires PatternOk(w, p, dims) && r < |w| && i < |p.recv[r]|
    requires q < |Kept(p.recv[r][i], t, r, true)| && Uses(Kept(p.recv[r][i], t, r, true)[q], s, tag)
    ensures OnlyUser(LocalCopies(p.recv[r], t, r), i, q, s, tag)
  {
    var maps := LocalCopies(p.recv[r], t, r);
    assert IsPatternMap(p.recv[r][i], w, p.halos[r][i], dims);
    KeptSorted(p.recv[r][i], t, r, true);
    forall a, n | 0 <= a < |maps| && 0 <= n < |maps[a]| && Uses(maps[a][n], s, tag)
      ensures a == i && n == q
    {
      SameRecv(w, p, dims, r, i, a, maps[i][q], maps[a][n], t);
      ListedOnce(maps[i], q, n);
    }
  }

  lemma {:induction false} SameRecv(w: World, p: PatternData, dims: nat, r: nat, i: nat, a: nat, e: Entry<Halo>, f: Entry<Halo>, t: Topology)
    requires PatternOk(w, p, dims) && r < |w| && i < |p.recv[r]| && a < |p.recv[r]|
    requires e in Kept(p.recv[r][i], t, r, true) && f in Kept(p.recv[r][a], t, r, true)
    requires e.val.rank == f.val.rank && e.key.minor == f.key.minor
    ensures a == i && e == f
  {
    KeptIn(p.recv[r][i], t, r, true, e);
    KeptIn(p.recv[r][a], t, r, true, f);
    assert TagsOk(p.recv[r], p.maxTag);
    SameTagSameHalo(p.recv[r], p.maxTag, i, a, e, f);
  }

  lemma {:induction false} SameTagSameHalo(recv: seq<HaloMap>, maxTag: nat, i: nat, a: nat, e: Entry<Halo>, f: Entry<Halo>)
    requires TagsOk(recv, maxTag) && i < |recv| && a < |recv| && e in recv[i] && f in recv[a]
    requires e.val.rank == f.val.rank && e.key.minor == f.key.minor
    ensures a == i && e == f
  {
    var x :| 0 <= x < |recv[i]| && recv[i][x] == e;
    var y :| 0 <= y < |recv[a]| && recv[a][y] == f;
  }

  /** Sorted maps list an entry once. */
  lemma {:induction false} ListedOnce(m: HaloMap, x: nat, y: nat)
    requires Sorted(m) && x < |m| && y < |m| && m[x] == m[y]
    ensures x == y
  {
    assert Less(m[x].key, m[y].key) || Less(m[y].key, m[x].key) || x == y;
  }

  /** Where a local send halo of domain (s, k) comes from: a local receive halo, of which it is
      the mirror image. */
  lemma {:induction false} SourceOrigin(w: World, p: PatternData, dims: nat, t: Topology, s: nat, k: nat, e: Entry<Halo>)
    returns (r: nat, i: nat, j: nat)
    requires PatternOk(w, p, dims) && s < |w| && k < |p.send[s]| && e in Kept(p.send[s][k], t, s, true)
    ensures k < |w[s]| && Mirrors(w, p.recv, r, i, j, s, k, e) && e.val.rank == r
    ensures p.recv[r][i][j] in Kept(p.recv[r][i], t, r, true)
  {
    assert Connect.Collected(p.send[s], w, s, p.sends, |w|);
    KeptIn(p.send[s][k], t, s, true, e);
    SendsMirrorReceives(w, p.halos, p.recv, p.sends, p.send, dims, s, k, e);
    r, i, j :| Mirrors(w, p.recv, r, i, j, s, k, e);
    EndsSplitAlike(w, p, dims, t, r, i, j, s, k, e, true);
  }

  /** Two local send halos of rank s to rank r under one tag are the same. */
  lemma {:induction false} SameSend(w: World, p: PatternData, dims: nat, t: Topology, s: nat, k: nat, a: nat, e: Entry<Halo>, f: Entry<Halo>)
    requires PatternOk(w, p, dims) && s < |w| && k < |p.send[s]| && a < |p.send[s]|
    requires e in Kept(p.send[s][k], t, s, true) && f in Kept(p.send[s][a], t, s, true)
    requires e.val.rank == f.val.rank && e.key.minor == f.key.minor
    ensures a == k && e == f
  {
    var r, i, j := SourceOrigin(w, p, dims, t, s, k, e);
    var r', i', j' := SourceOrigin(w, p, dims, t, s, a, f);
    SameRecv(w, p, dims, r, i, i', p.recv[r][i][j], p.recv[r][i'][j'], t);
    assert w[s][k].id == w[s][a].id;
    SameDomain(w, dims, s, k, a);
  }

  lemma {:induction false} SameDomain(w: World, dims: nat, s: nat, k: nat, a: nat)
    requires ValidWorld(w, dims) && s < |w| && k < |w[s]| && a < |w[s]| && w[s][k].id == w[s][a].id
    ensures k == a
  {
  }

  /** Only one local send of rank s goes to rank r under a tag. */
  lemma {:induction false} OneSource(w: World, p: PatternData, dims: nat, t: Topology, s: nat, r: int, tag: int, k: nat, q: nat)
    requires PatternOk(w, p, dims) && s < |w| && k < |p.send[s]|
    requires q < |Kept(p.send[s][k], t, s, true)| && Uses(Kept(p.send[s][k], t, s, true)[q], r, tag)
    ensures OnlyUser(LocalCopies(p.send[s], t, s), k, q, r, tag)
  {
    var maps := LocalCopies(p.send[s], t, s);
    assert Connect.Collected(p.send[s], w, s, p.sends, |w|);
    KeptSorted(p.send[s][k], t, s, true);
    forall a, n | 0 <= a < |maps| && 0 <= n < |maps[a]| && Uses(maps[a][n], r, tag)
      ensures a == k && n == q
    {
      SameSend(w, p, dims, t, s, k, a, maps[k][q], maps[a][n]);
      ListedOnce(maps[k], q, n);
    }
  }

  ghost predicate AddsOk(w: World, adds: seq<seq<nat>>, fields: nat) {
    && |adds| == |w|
    && (forall r, n :: 0 <= r < |w| && 0 <= n < |adds[r]| ==> adds[r][n] < |w[r]|)
    && (forall r, i: nat :: 0 <= r < |w| && i < |w[r]| ==> Count(adds[r], i) == fields)
  }

  /** Nobody on rank me uses the channel. */
  ghost predicate NoUser(maps: seq<HaloMap>, rank: int, tag: int) {
    forall a, n :: 0 <= a < |maps| && 0 <= n < |maps[a]| ==> !Uses(maps[a][n], rank, tag)
  }

  lemma {:induction false} TargetHasSource(w: World, p: PatternData, dims: nat, t: Topology, r: nat, s: nat, tag: int, i: nat, q: nat)
    returns (k: nat, l: nat)
    requires PatternOk(w, p, dims) && r < |w| && s < |w| && i < |p.recv[r]|
    requires q < |Kept(p.recv[r][i], t, r, true)| && Uses(Kept(p.recv[r][i], t, r, true)[q], s, tag)
    ensures k < |w[s]| == |p.send[s]| && l < |Kept(p.send[s][k], t, s, true)|
    ensures var e, f, d := Kept(p.recv[r][i], t, r, true)[q], Kept(p.send[s][k], t, s, true)[l], w[s][k];
      Uses(f, r, tag) && |d.first| == |d.last| && PairsOf(e.val.spaces, |d.first|) && f.val.spaces == RebaseAll(e.val.spaces, d)
  {
    var e := Kept(p.recv[r][i], t, r, true)[q];
    KeptIn(p.recv[r][i], t, r, true, e);
    var j :| 0 <= j < |p.recv[r][i]| && p.recv[r][i][j] == e;
    MapsPerDomain(w, p, dims, r);
    MapsPerDomain(w, p, dims, s);
    k := SourceOf(w, p, dims, r, i, j, s);
    var f := MirrorOf(w, p, dims, t, r, i, j, s, k);
    l :| 0 <= l < |Kept(p.send[s][k], t, s, true)| && Kept(p.send[s][k], t, s, true)[l] == f;
  }

  lemma {:induction false} MirrorOf(w: World, p: PatternData, dims: nat, t: Topology, r: nat, i: nat, j: nat, s: nat, k: nat)
    returns (f: Entry<Halo>)
    requires PatternOk(w, p, dims) && r < |w| && s < |w| && i < |w[r]| == |p.recv[r]| && k < |w[s]| == |p.send[s]|
    requires j < |p.recv[r][i]| && p.recv[r][i][j].key.major == w[s][k].id && p.recv[r][i][j] in Kept(p.recv[r][i], t, r, true)
    ensures Mirrors(w, p.recv, r, i, j, s, k, f) && f in Kept(p.send[s][k], t, s, true)
  {
    RecvEntry(w, p, dims, r, i, j, s, k);
    PatternShape(w, p, dims, r, i, s, k);
    f := Mirror(w, r, w[r][i].id, p.recv[r][i][j], w[s][k]);
    assert Mirrors(w, p.recv, r, i, j, s, k, f);
    EndsSplitAlike(w, p, dims, t, r, i, j, s, k, f, true);
  }

  lemma {:induction false} SourceOf(w: World, p: PatternData, dims: nat, r: nat, i: nat, j: nat, s: nat) returns (k: nat)
    requires PatternOk(w, p, dims) && r < |w| && i < |w[r]| && |p.recv[r]| == |w[r]| && j < |p.recv[r][i]| && s < |w|
    requires p.recv[r][i][j].val.rank == s
    ensures k < |w[s]| && p.recv[r][i][j].key.major == w[s][k].id
  {
    assert IsPatternMap(p.recv[r][i], w, p.halos[r][i], dims);
    PatternMapReceivable(p.recv[r][i], w, p.halos[r][i], dims, j);
    k := Position(w[s], p.recv[r][i][j].key.major);
  }

  lemma {:induction false} SourceHasTarget(w: World, p: PatternData, dims: nat, t: Topology, r: nat, s: nat, tag: int, k: nat, e: Entry<Halo>)
    returns (i: nat, e': Entry<Halo>)
    requires PatternOk(w, p, dims) && r < |w| && s < |w| && k < |p.send[s]|
    requires e in Kept(p.send[s][k], t, s, true) && Uses(e, r, tag)
    ensures i < |p.recv[r]| && e' in Kept(p.recv[r][i], t, r, true) && Uses(e', s, tag)
  {
    var r', i', j := SourceOrigin(w, p, dims, t, s, k, e);
    i, e' := i', p.recv[r][i'][j];
  }

  /** A channel that some target range uses. */
  lemma {:induction false} UsedChannel(w: World, p: PatternData, dims: nat, t: Topology, adds: seq<seq<nat>>, fields: nat, r: nat, s: nat, tag: int,
                                       i: nat, q: nat) returns (k: nat)
    requires PatternOk(w, p, dims) && AddsOk(w, adds, fields) && r < |w| && s < |w| && |p.recv[r]| == |w[r]| && |p.send[s]| == |w[s]|
    requires i < |p.recv[r]| && q < |Kept(p.recv[r][i], t, r, true)| && Uses(Kept(p.recv[r][i], t, r, true)[q], s, tag)
    ensures k < |w[s]|
    ensures Paired(w[s], OnChannel(RankPosts(LocalCopies(p.recv[r], t, r), adds[r]), s, tag),
                   OnChannel(RankPosts(LocalCopies(p.send[s], t, s), adds[s]), r, tag))
  {
    var l: nat;
    k, l := TargetHasSource(w, p, dims, t, r, s, tag, i, q);
    OneTarget(w, p, dims, t, r, s, tag, i, q);
    OneSource(w, p, dims, t, s, r, tag, k, l);
    ChannelPaired(w, LocalCopies(p.recv[r], t, r), LocalCopies(p.send[s], t, s), adds[r], adds[s], fields, r, s, tag, i, q, k, l);
  }

  lemma {:induction false} ChannelPaired(w: World, maps: seq<HaloMap>, others: seq<HaloMap>, addsR: seq<nat>, addsS: seq<nat>, fields: nat,
                                         r: nat, s: nat, tag: int, i: nat, q: nat, k: nat, l: nat)
    requires i < |maps| && q < |maps[i]| && Uses(maps[i][q], s, tag) && OnlyUser(maps, i, q, s, tag)
    requires k < |others| && l < |others[k]| && Uses(others[k][l], r, tag) && OnlyUser(others, k, l, r, tag)
    requires s < |w| && k < |w[s]| && |w[s][k].first| == |w[s][k].last|
    requires PairsOf(maps[i][q].val.spaces, |w[s][k].first|) && others[k][l].val.spaces == RebaseAll(maps[i][q].val.spaces, w[s][k])
    requires forall n :: 0 <= n < |addsR| ==> addsR[n] < |maps|
    requires forall n :: 0 <= n < |addsS| ==> addsS[n] < |others|
    requires Count(addsR, i) == Count(addsS, k) == fields
    ensures Paired(w[s], OnChannel(RankPosts(maps, addsR), s, tag), OnChannel(RankPosts(others, addsS), r, tag))
  {
    RankOnChannel(maps, addsR, s, tag, i, q);
    RankOnChannel(others, addsS, r, tag, k, l);
    FieldsPaired(w[s], maps[i][q], others[k][l], i, k, fields);
  }

  lemma {:induction false} UnusedChannel(maps: seq<HaloMap>, adds: seq<nat>, rank: int, tag: int)
    requires NoUser(maps, rank, tag) && forall n :: 0 <= n < |adds| ==> adds[n] < |maps|
    ensures OnChannel(RankPosts(maps, adds), rank, tag) == []
  {
    RankOnChannel(maps, adds, rank, tag, 0, 0);
  }

  lemma {:induction false} NoUserIn(maps: seq<HaloMap>, rank: int, tag: int, i: nat, e: Entry<Halo>)
    requires NoUser(maps, rank, tag) && i < |maps| && e in maps[i]
    ensures !Uses(e, rank, tag)
  {
    var q :| 0 <= q < |maps[i]| && maps[i][q] == e;
  }

  lemma {:induction false} SourceIdleAt(w: World, p: PatternData, dims: nat, t: Topology, r: nat, s: nat, tag: int, k: nat, e: Entry<Halo>)
    requires PatternOk(w, p, dims) && r < |w| && s < |w| && k < |p.send[s]| && e in Kept(p.send[s][k], t, s, true)
    requires NoUser(LocalCopies(p.recv[r], t, r), s, tag)
    ensures !Uses(e, r, tag)
  {
    if Uses(e, r, tag) {
      var i, e' := SourceHasTarget(w, p, dims, t, r, s, tag, k, e);
      NoUserIn(LocalCopies(p.recv[r], t, r), s, tag, i, e');
    }
  }

  lemma {:induction false} SourceIdle(w: World, p: PatternData, dims: nat, t: Topology, r: nat, s: nat, tag: int)
    requires PatternOk(w, p, dims) && r < |w| && s < |w|
    requires NoUser(LocalCopies(p.recv[r], t, r), s, tag)
    ensures NoUser(LocalCopies(p.send[s], t, s), r, tag)
  {
    var others := LocalCopies(p.send[s], t, s);
    forall k, l | 0 <= k < |others| && 0 <= l < |others[k]|
      ensures !Uses(others[k][l], r, tag)
    {
      SourceIdleAt(w, p, dims, t, r, s, tag, k, others[k][l]);
    }
  }

  lemma {:induction false} MapsPerDomain(w: World, p: PatternData, dims: nat, r: nat)
    requires PatternOk(w, p, dims) && r < |w|
    ensures |p.recv[r]| == |w[r]| && |p.send[r]| == |w[r]|
  {
    assert Connect.Collected(p.send[r], w, r, p.sends, |w|);
  }

  /** Pairing: for fields of one pattern, every rank adding the same number of fields on each of
      its domains, the messages that the target ranges of rank r send to rank s under a tag and
      the receives that the source ranges of rank s post for them match one to one in order:
      the k-th source range serves the k-th target range. */
  lemma {:induction false} RangesPair(w: World, p: PatternData, dims: nat, t: Topology, adds: seq<seq<nat>>, fields: nat, r: nat, s: nat, tag: int)
    requires PatternOk(w, p, dims) && AddsOk(w, adds, fields) && r < |w| && s < |w|
    ensures |p.recv[r]| == |w[r]| && |p.send[s]| == |w[s]|
    ensures var targets := OnChannel(RankPosts(LocalCopies(p.recv[r], t, r), adds[r]), s, tag);
      var sources := OnChannel(RankPosts(LocalCopies(p.send[s], t, s), adds[s]), r, tag);
      Paired(w[s], targets, sources)
  {
    MapsPerDomain(w, p, dims, r);
    MapsPerDomain(w, p, dims, s);
    var maps, others := LocalCopies(p.recv[r], t, r), LocalCopies(p.send[s], t, s);
    if NoUser(maps, s, tag) {
      SourceIdle(w, p, dims, t, r, s, tag);
      UnusedChannel(maps, adds[r], s, tag);
      UnusedChannel(others, adds[s], r, tag);
    } else {
      var i, q :| 0 <= i < |maps| && 0 <= q < |maps[i]| && Uses(maps[i][q], s, tag);
      var k := UsedChannel(w, p, dims, t, adds, fields, r, s, tag, i, q);
    }
  }
}

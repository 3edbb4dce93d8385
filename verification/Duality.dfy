// What pattern construction guarantees across ranks that never see each other's state: the
// send halos of one domain mirror the receive halos of the others.

module Duality {
  import opened LoopNest
  import opened OrderedMap
  import opened Pattern
  import opened SendHalos
  import opened Connect

  /** Everything the ranks hold once make_pattern has returned: for rank r, t[r] are the
      tagged receive maps, sends[r] the nested map, send[r] the final send halos. */
  ghost predicate Constructed(w: World, halos: seq<seq<seq<SpacePair>>>, t: seq<seq<HaloMap>>,
                              sends: seq<RankMap>, send: seq<seq<HaloMap>>, dims: nat)
  {
    && ValidWorld(w, dims)
    && |w| == |halos| == |t| == |sends| == |send|
    && (forall r :: 0 <= r < |w| ==> |w[r]| == |halos[r]| == |t[r]|)
    && (forall r, i :: 0 <= r < |w| && 0 <= i < |w[r]| ==>
          HalosOf(halos[r][i], dims) && IsPatternMap(t[r][i], w, halos[r][i], dims))
    && AllSendMaps(w, t, sends, dims)
    && (forall r :: 0 <= r < |w| ==> Collected(send[r], w, r, sends, |w|))
  }

  /** The mirror image, at domain (s, k), of a receive entry of the domain with id `own` on
      rank r: same tag, same boxes in the same order, re-based. */
  ghost function Mirror(w: World, r: nat, own: int, e: Entry<Halo>, d: Domain): Entry<Halo>
    requires PairsOf(e.val.spaces, |d.first|) && |d.last| == |d.first|
  {
    Entry(Key(own, e.key.minor), Halo(r, RebaseAll(e.val.spaces, d)))
  }

  /** e is the mirror image of the j-th receive entry of domain i of rank r, which names
      domain k of rank s as its source. */
  ghost predicate Mirrors(w: World, t: seq<seq<HaloMap>>, r: nat, i: nat, j: nat, s: nat, k: nat, e: Entry<Halo>)
  {
    && r < |w| && r < |t| && i < |w[r]| && i < |t[r]| && j < |t[r][i]| && s < |w| && k < |w[s]|
    && t[r][i][j].key.major == w[s][k].id && t[r][i][j].val.rank == s
    && |w[s][k].last| == |w[s][k].first| && PairsOf(t[r][i][j].val.spaces, |w[s][k].first|)
    && e == Mirror(w, r, w[r][i].id, t[r][i][j], w[s][k])
  }

  ghost predicate MirrorsSome(w: World, t: seq<seq<HaloMap>>, s: nat, k: nat, e: Entry<Halo>) {
    exists r: nat, i: nat, j: nat :: Mirrors(w, t, r, i, j, s, k, e)
  }

  lemma {:induction false} SendIsMirror(w: World, halos: seq<seq<seq<SpacePair>>>, t: seq<seq<HaloMap>>,
                                        sends: seq<RankMap>, send: seq<seq<HaloMap>>, dims: nat, s: nat, k: nat, e: Entry<Halo>)
    requires Constructed(w, halos, t, sends, send, dims) && s < |w| && k < |w[s]| && k < |send[s]| && e in send[s][k]
    ensures MirrorsSome(w, t, s, k, e)
  {
    assert Collected(send[s], w, s, sends, |w|);
    assert HoldsFrom(send[s], w, s, sends, |w|, k, e);
    var r: nat :| r < |sends| && Delivered(r, s, |w|) && Leaf(sends[r], s, w[s][k].id, e);
    var i, j := LeafOrigin(w, t, sends, dims, r, s, w[s][k].id, e);
    assert SendReady(w, r, t[r], dims) && Receivable(w, t[r][i][j], dims);
    PositionOf(w, dims, s, k);
    assert Mirrors(w, t, r, i, j, s, k, e);
  }

  lemma {:induction false} MirrorIsSent(w: World, halos: seq<seq<seq<SpacePair>>>, t: seq<seq<HaloMap>>,
                                        sends: seq<RankMap>, send: seq<seq<HaloMap>>, dims: nat,
                                        r: nat, i: nat, j: nat, s: nat, k: nat, e: Entry<Halo>)
    requires Constructed(w, halos, t, sends, send, dims) && s < |w| && k < |w[s]| && Mirrors(w, t, r, i, j, s, k, e)
    ensures k < |send[s]| && e in send[s][k]
  {
    assert Collected(send[s], w, s, sends, |w|);
    assert SendReady(w, r, t[r], dims) && Receivable(w, t[r][i][j], dims);
    PositionOf(w, dims, s, k);
    assert SentFor(w, r, t[r], dims, i, j, s, w[s][k].id, e);
    assert SentBefore(w, r, t[r], dims, |t[r]|, 0, s, w[s][k].id, e);
    assert Leaf(sends[r], s, w[s][k].id, e);
    assert Delivered(r, s, |w|);
    assert HoldsFrom(send[s], w, s, sends, |w|, k, e);
  }

  /** Duality: the send halos of domain (s, k) are exactly the mirror images of the receive
      halos, on any rank, that name it as their source. */
  lemma {:induction false} SendsMirrorReceives(w: World, halos: seq<seq<seq<SpacePair>>>, t: seq<seq<HaloMap>>,
                                   sends: seq<RankMap>, send: seq<seq<HaloMap>>, dims: nat,
                                   s: nat, k: nat, e: Entry<Halo>)
    requires Constructed(w, halos, t, sends, send, dims) && s < |w| && k < |w[s]|
    ensures Sorted(send[s][k])
    ensures e in send[s][k] <==> MirrorsSome(w, t, s, k, e)
  {
    assert Collected(send[s], w, s, sends, |w|);
    if e in send[s][k] {
      SendIsMirror(w, halos, t, sends, send, dims, s, k, e);
    }
    if MirrorsSome(w, t, s, k, e) {
      var r: nat, i: nat, j: nat :| Mirrors(w, t, r, i, j, s, k, e);
      MirrorIsSent(w, halos, t, sends, send, dims, r, i, j, s, k, e);
    }
  }

  lemma {:induction false} PositionOf(w: World, dims: nat, s: nat, k: nat)
    requires ValidWorld(w, dims) && s < |w| && k < |w[s]|
    ensures Position(w[s], w[s][k].id) == k
  {
    var p := Position(w[s], w[s][k].id);
    assert p < |w[s]|;
    assert w[s][p].id == w[s][k].id;
  }

  /** A receive entry re-based at its source keeps its size and its global box, and its local
      box lies inside the source's own extent. */
  lemma {:induction false} RebasedInside(halos: seq<SpacePair>, d: Domain, l: nat)
    requires HalosOf(halos, |d.first|) && Ordered(d.first, d.last)
    requires l < |Intersections(halos, d)|
    ensures var x := Intersections(halos, d)[l];
      && ValidHalo(x, |d.first|)
      && InBox(x.global.first, d.first, d.last) && InBox(x.global.last, d.first, d.last)
      && var y := Rebase(x, d);
         && y.global == x.global
         && Ordered(y.local.first, y.local.last)
         && Sub(y.local.last, y.local.first) == Sub(x.local.last, x.local.first)
         && InBox(y.local.first, LocalExtent(d).first, LocalExtent(d).last)
         && InBox(y.local.last, LocalExtent(d).first, LocalExtent(d).last)
  {
    IntersectionAt(halos, d, l);
    var x := Intersections(halos, d)[l];
    var y := Rebase(x, d);
    var ey, eg := Sub(y.local.last, y.local.first), Sub(x.global.last, x.global.first);
    forall i | 0 <= i < |d.first|
      ensures ey[i] == eg[i]
      ensures 0 <= y.local.first[i] <= y.local.last[i] <= d.last[i] - d.first[i]
    {
      assert x.global.first[i] <= x.global.last[i] by {
        assert Sub(x.local.last, x.local.first)[i] == eg[i];
      }
      assert d.first[i] <= x.global.first[i] && x.global.last[i] <= d.last[i];
    }
    assert ey == eg;
  }

  /** Every listed intersection is the non-empty intersection of one of the halos. */
  lemma {:induction false} IntersectionAt(halos: seq<SpacePair>, d: Domain, l: nat)
    requires HalosOf(halos, |d.first|) && |d.first| == |d.last|
    requires l < |Intersections(halos, d)|
    ensures var x := Intersections(halos, d)[l];
      && ValidHalo(x, |d.first|)
      && InBox(x.global.first, d.first, d.last) && InBox(x.global.last, d.first, d.last)
      && exists h :: 0 <= h < |halos| && x == Intersect(halos[h], d)
    decreases |halos|
  {
    var n := |halos| - 1;
    assert HalosOf(halos[..n], |d.first|);
    var before := Intersections(halos[..n], d);
    if l < |before| {
      IntersectionAt(halos[..n], d, l);
      var h :| 0 <= h < |halos[..n]| && before[l] == Intersect(halos[..n][h], d);
      assert halos[h] == halos[..n][h];
    } else {
      IntersectValid(halos[n], d);
    }
  }
}

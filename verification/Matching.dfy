// One exchange over any list of patterns, seen from all ranks: independently computed tags,
// sizes and offsets agree, and every posted receive matches exactly one sent message.

module Matching {
  import opened MixedRadix
  import opened LoopNest
  import opened OrderedMap
  import opened Pattern
  import opened Tags
  import opened SendHalos
  import opened Duality
  import opened CommObject
  import opened ExchangeCycle

  /** Results of one make_pattern call on all ranks. */
  datatype PatternData = PatternData(halos: seq<seq<seq<SpacePair>>>, recv: seq<seq<HaloMap>>,
                                     sends: seq<RankMap>, send: seq<seq<HaloMap>>, maxTag: nat)

  /** Distinct tags for all receives of one rank from the same remote rank, up to maxTag. */
  ghost predicate TagsOk(t: seq<HaloMap>, maxTag: nat) {
    && (forall i, j, k, l ::
          0 <= i < |t| && 0 <= j < |t[i]| && 0 <= k < |t| && 0 <= l < |t[k]|
          && t[i][j].val.rank == t[k][l].val.rank && t[i][j].key.minor == t[k][l].key.minor
          ==> i == k && j == l)
    && (forall i, j :: 0 <= i < |t| && 0 <= j < |t[i]| ==> 0 <= t[i][j].key.minor <= maxTag)
  }

  ghost predicate PatternOk(w: World, p: PatternData, dims: nat) {
    && Constructed(w, p.halos, p.recv, p.sends, p.send, dims)
    && forall r :: 0 <= r < |w| ==> TagsOk(p.recv[r], p.maxTag)
  }

  /** AssignTags delivers what is assumed of the tags. */
  lemma {:induction false} AssignedTagsOk(recv: seq<HaloMap>, t: seq<HaloMap>, maxTag: nat, globalMax: nat)
    requires IsTagged(recv, t) && IsMaxTag(t, maxTag) && maxTag <= globalMax
    ensures TagsOk(t, globalMax)
  {
    forall i, j, k, l |
      0 <= i < |t| && 0 <= j < |t[i]| && 0 <= k < |t| && 0 <= l < |t[k]|
      && t[i][j].val.rank == t[k][l].val.rank && t[i][j].key.minor == t[k][l].key.minor
      ensures i == k && j == l
    {
      if i < k || (i == k && j < l) {
        TagsDistinct(recv, t, i, j, k, l);
      } else if k < i || (i == k && l < j) {
        TagsDistinct(recv, t, k, l, i, j);
      }
    }
  }

  /** The j-th field of every domain: which pattern it is exchanged with, its element type,
      its number of components and its memory layout. */
  datatype Slot = Slot(pattern: nat, elemSize: nat, align: nat, comps: nat, components: bool, layout: seq<nat>)

  /** One argument of exchange on some rank: field `slot` of local domain `dom`. */
  datatype Call = Call(dom: nat, slot: nat)

  datatype Setup = Setup(world: World, dims: nat, patterns: seq<PatternData>, slots: seq<Slot>,
                         calls: seq<seq<Call>>)

  function Count(calls: seq<Call>, dom: nat, n: nat): nat
    requires n <= |calls|
  {
    if n == 0 then 0 else Count(calls, dom, n - 1) + if calls[n - 1].dom == dom then 1 else 0
  }

  ghost predicate CallOk(calls: seq<Call>, doms: nat, slots: nat, n: nat)
    requires n < |calls|
  {
    calls[n].dom < doms && calls[n].slot < slots && calls[n].slot == Count(calls, calls[n].dom, n)
  }

  /** The arguments of one rank: any interleaving of its domains, as long as each domain lists
      its fields in slot order. */
  ghost predicate InSlotOrder(calls: seq<Call>, doms: nat, slots: nat) {
    && (forall n :: 0 <= n < |calls| ==> CallOk(calls, doms, slots, n))
    && (forall d: nat :: d < doms ==> Count(calls, d, |calls|) == slots)
  }

  /** Pattern p, if there is one, is what pattern construction promises. */
  ghost predicate PatternAt(u: Setup, p: nat) {
    p < |u.patterns| ==> PatternOk(u.world, u.patterns[p], u.dims)
  }

  ghost predicate ShapeOk(w: World, p: PatternData) {
    && |p.recv| == |p.send| == |p.halos| == |w|
    && forall r :: 0 <= r < |w| ==> |p.recv[r]| == |p.send[r]| == |p.halos[r]| == |w[r]|
  }

  ghost predicate SetupOk(u: Setup) {
    && ValidWorld(u.world, u.dims)
    && (forall p :: 0 <= p < |u.patterns| ==> ShapeOk(u.world, u.patterns[p]))
    && (forall p: nat :: PatternAt(u, p))
    && (forall j :: 0 <= j < |u.slots| ==>
          u.slots[j].pattern < |u.patterns| && u.slots[j].elemSize > 0 && u.slots[j].align > 0 && u.slots[j].comps > 0)
    && |u.calls| == |u.world|
    && (forall r :: 0 <= r < |u.world| ==> |u.world[r]| > 0 && InSlotOrder(u.calls[r], |u.world[r]|, |u.slots|))
  }

  lemma {:induction false} UsePattern(u: Setup, p: nat)
    requires SetupOk(u) && p < |u.patterns|
    ensures PatternOk(u.world, u.patterns[p], u.dims)
  {
    assert PatternAt(u, p);
  }

  ghost predicate At(u: Setup, r: nat, i: nat) {
    r < |u.world| && i < |u.world[r]|
  }

  function DomId(u: Setup, r: nat, i: nat): int
    requires r < |u.world| && i < |u.world[r]|
  {
    u.world[r][i].id
  }

  ghost function RecvMap(u: Setup, p: nat, r: nat, i: nat): HaloMap
    requires SetupOk(u) && p < |u.patterns| && At(u, r, i)
  {
    u.patterns[p].recv[r][i]
  }

  ghost function SendMapOf(u: Setup, p: nat, r: nat, i: nat): HaloMap
    requires SetupOk(u) && p < |u.patterns| && At(u, r, i)
  {
    u.patterns[p].send[r][i]
  }

  ghost function ArgOf(u: Setup, r: nat, c: Call): Arg
    requires SetupOk(u) && At(u, r, c.dom) && c.slot < |u.slots|
  {
    var s := u.slots[c.slot];
    Arg(s.pattern, u.patterns[s.pattern].maxTag, DomId(u, r, c.dom),
        RecvMap(u, s.pattern, r, c.dom), SendMapOf(u, s.pattern, r, c.dom),
        FieldPtr(DomId(u, r, c.dom), c.slot), s.elemSize, s.align, s.comps)
  }

  ghost function ArgAt(u: Setup, r: nat, n: nat): Arg
    requires SetupOk(u) && r < |u.world| && n < |u.calls[r]|
  {
    assert CallOk(u.calls[r], |u.world[r]|, |u.slots|, n);
    ArgOf(u, r, u.calls[r][n])
  }

  /** The arguments of exchange on rank r. */
  ghost function ArgsOf(u: Setup, r: nat): (args: seq<Arg>)
    requires SetupOk(u) && r < |u.world|
    ensures |args| == |u.calls[r]|
    ensures forall n {:trigger args[n]} :: 0 <= n < |args| ==> args[n] == ArgAt(u, r, n)
  {
    seq(|u.calls[r]|, n requires 0 <= n < |u.calls[r]| => ArgAt(u, r, n))
  }

  // ------------------------------------------------------------------ tag offsets agree

  /** How far the most advanced domain has got after n arguments. */
  function Reached(calls: seq<Call>, n: nat): nat
    requires n <= |calls|
  {
    if n == 0 then 0
    else
      var c := Count(calls, calls[n - 1].dom, n - 1) + 1;
      if Reached(calls, n - 1) < c then c else Reached(calls, n - 1)
  }

  lemma {:induction false} ReachedBound(calls: seq<Call>, d: nat, n: nat)
    requires n <= |calls|
    ensures Count(calls, d, n) <= Reached(calls, n)
  {
    if n > 0 {
      ReachedBound(calls, d, n - 1);
    }
  }

  lemma {:induction false} ReachedSlots(calls: seq<Call>, doms: nat, slots: nat, n: nat)
    requires InSlotOrder(calls, doms, slots) && n <= |calls|
    ensures Reached(calls, n) <= slots
  {
    if n > 0 {
      ReachedSlots(calls, doms, slots, n - 1);
      assert CallOk(calls, doms, slots, n - 1);
    }
  }

  /** args repeats the containers of canon, slot by slot, for every domain. */
  ghost predicate Interleaves(args: seq<Arg>, calls: seq<Call>, canon: seq<Arg>, doms: nat) {
    && InSlotOrder(calls, doms, |canon|)
    && |args| == |calls|
    && forall n :: 0 <= n < |calls| ==> SameContainer(args[n], canon, calls[n].slot)
  }

  ghost predicate SameContainer(a: Arg, canon: seq<Arg>, slot: nat) {
    slot < |canon| && a.container == canon[slot].container && a.maxTag == canon[slot].maxTag
  }

  ghost predicate SameBooks(args: seq<Arg>, n: nat, canon: seq<Arg>, m: nat, p: int)
    requires n <= |args| && m <= |canon|
  {
    && TagsUsed(args, n) == TagsUsed(canon, m)
    && (Met(args, p, n) <==> Met(canon, p, m))
    && OffsetAfter(args, p, n) == OffsetAfter(canon, p, m)
  }

  lemma {:induction false} BooksStep(args: seq<Arg>, n: nat, canon: seq<Arg>, m: nat, slot: nat, p: int)
    requires 0 < n <= |args| && slot <= m <= |canon| && slot < |canon|
    requires args[n - 1].container == canon[slot].container && args[n - 1].maxTag == canon[slot].maxTag
    requires SameBooks(args, n - 1, canon, m, p) && SameBooks(args, n - 1, canon, m, args[n - 1].container)
    ensures SameBooks(args, n, canon, if m < slot + 1 then slot + 1 else m, p)
  {
    if slot < m {
      MetAt(canon, slot, m);
    }
  }

  lemma {:induction false} ReachedStep(calls: seq<Call>, doms: nat, slots: nat, n: nat)
    requires InSlotOrder(calls, doms, slots) && 0 < n <= |calls|
    ensures var m, slot := Reached(calls, n - 1), calls[n - 1].slot;
      slot <= m <= slots && slot < slots && Reached(calls, n) == if m < slot + 1 then slot + 1 else m
  {
    assert CallOk(calls, doms, slots, n - 1);
    ReachedSlots(calls, doms, slots, n - 1);
    ReachedBound(calls, calls[n - 1].dom, n - 1);
  }

  /** The bookkeeping after n arguments is that of the slots reached so far: domains that lag
      behind only repeat containers that are already known. */
  lemma {:induction false} OffsetsFollowSlots(args: seq<Arg>, calls: seq<Call>, canon: seq<Arg>, doms: nat, n: nat, p: int)
    requires Interleaves(args, calls, canon, doms) && n <= |calls|
    ensures Reached(calls, n) <= |canon| && SameBooks(args, n, canon, Reached(calls, n), p)
  {
    if n > 0 {
      OffsetsFollowSlots(args, calls, canon, doms, n - 1, p);
      OffsetsFollowSlots(args, calls, canon, doms, n - 1, args[n - 1].container);
      ReachedStep(calls, doms, |canon|, n);
      BooksStep(args, n, canon, Reached(calls, n - 1), calls[n - 1].slot, p);
    }
  }

  /** Every rank computes the same tag offset for a pattern, however it interleaves its
      domains. */
  lemma {:induction false} TagOffsetsAgree(args: seq<Arg>, calls: seq<Call>, canon: seq<Arg>, doms: nat, p: int)
    requires Interleaves(args, calls, canon, doms) && doms > 0
    ensures TagOffset(args, p) == TagOffset(canon, p)
  {
    ReachedBound(calls, 0, |calls|);
    ReachedSlots(calls, doms, |canon|, |calls|);
    OffsetsFollowSlots(args, calls, canon, doms, |calls|, p);
  }

  // ------------------------------------------------------------------ pieces of one buffer

  lemma {:induction false} HaloPiecesNone(a: Arg, halos: HaloMap, offset: nat, receive: bool, key: Key, n: nat)
    requires n <= |halos| && forall l :: 0 <= l < n ==> BufferKey(a, halos[l], receive) != key
    ensures HaloPieces(a, halos, offset, receive, key, n) == []
  {
    if n > 0 {
      HaloPiecesNone(a, halos, offset, receive, key, n - 1);
    }
  }

  lemma {:induction false} HaloPiecesOne(a: Arg, halos: HaloMap, offset: nat, receive: bool, key: Key, n: nat, j: nat)
    requires j < n <= |halos|
    requires forall l :: 0 <= l < n ==> (BufferKey(a, halos[l], receive) == key <==> l == j)
    requires NumElements(halos[j].val.spaces) * a.comps >= 1
    ensures HaloPieces(a, halos, offset, receive, key, n) == [PieceOf(a, halos[j], offset)]
  {
    if j < n - 1 {
      HaloPiecesOne(a, halos, offset, receive, key, n - 1, j);
    } else {
      HaloPiecesNone(a, halos, offset, receive, key, n - 1);
    }
  }

  function Flatten(sp: seq<seq<Piece>>): seq<Piece> {
    if sp == [] then [] else Flatten(sp[..|sp| - 1]) + sp[|sp| - 1]
  }

  ghost predicate Contributes(args: seq<Arg>, calls: seq<Call>, dom: nat, receive: bool, key: Key, sp: seq<seq<Piece>>, n: nat)
    requires n < |args| && n < |calls|
  {
    var a := args[n];
    var ps := HaloPieces(a, Halos(a, receive), TagOffset(args, a.container), receive, key, |Halos(a, receive)|);
    if calls[n].dom == dom then calls[n].slot < |sp| && ps == sp[calls[n].slot] else ps == []
  }

  /** Whatever the interleaving, the pieces of a buffer are those of its domain's slots in
      slot order. */
  lemma {:induction false} PiecesBySlot(args: seq<Arg>, calls: seq<Call>, doms: nat, dom: nat, receive: bool, key: Key,
                                        sp: seq<seq<Piece>>, n: nat)
    requires InSlotOrder(calls, doms, |sp|) && |args| == |calls| && n <= |calls|
    requires forall k :: 0 <= k < |args| ==> Contributes(args, calls, dom, receive, key, sp, k)
    ensures Count(calls, dom, n) <= |sp|
    ensures ArgPieces(args, receive, key, n) == Flatten(sp[..Count(calls, dom, n)])
  {
    if n > 0 {
      PiecesBySlot(args, calls, doms, dom, receive, key, sp, n - 1);
      assert CallOk(calls, doms, |sp|, n - 1);
      assert Contributes(args, calls, dom, receive, key, sp, n - 1);
      var c := Count(calls, dom, n - 1);
      if calls[n - 1].dom == dom {
        assert sp[..c + 1][..c] == sp[..c];
      }
    }
  }

  lemma {:induction false} FlattenShapes(sp: seq<seq<Piece>>, sq: seq<seq<Piece>>)
    requires |sp| == |sq| && forall j :: 0 <= j < |sp| ==> SameShapes(sp[j], sq[j])
    ensures SameShapes(Flatten(sp), Flatten(sq))
  {
    if sp != [] {
      var n := |sp| - 1;
      FlattenShapes(sp[..n], sq[..n]);
      assert SameShapes(sp[n], sq[n]);
      var f, g := Flatten(sp[..n]), Flatten(sq[..n]);
      forall i | 0 <= i < |f + sp[n]|
        ensures SameShape((f + sp[n])[i], (g + sq[n])[i])
      {
        if i >= |f| {
          assert SameShape(sp[n][i - |f|], sq[n][i - |f|]);
        }
      }
    }
  }

  // ------------------------------------------------------------------ one pair of domains

  /** The halos of one pattern between domain (r, i) as receiver and (s, k) as source: either
      both sides have exactly one entry for each other, mirror images, or neither has any. */
  lemma {:induction false} PairHalo(w: World, p: PatternData, dims: nat, r: nat, i: nat, s: nat, k: nat)
    returns (found: bool, j: nat, l: nat)
    requires PatternOk(w, p, dims) && r < |w| && i < |w[r]| && s < |w| && k < |w[s]|
    ensures |p.recv[r]| == |w[r]| && |p.send[s]| == |w[s]| && |p.halos[r]| == |w[r]|
    ensures HalosOf(p.halos[r][i], dims)
    ensures found ==>
      && j < |p.recv[r][i]| && l < |p.send[s][k]|
      && p.recv[r][i][j].key.major == w[s][k].id
      && p.recv[r][i][j].val == Halo(s, Intersections(p.halos[r][i], w[s][k]))
      && p.recv[r][i][j].val.spaces != []
      && PairsOf(p.recv[r][i][j].val.spaces, dims)
      && p.send[s][k][l] == Mirror(w, r, w[r][i].id, p.recv[r][i][j], w[s][k])
    ensures forall j' :: 0 <= j' < |p.recv[r][i]| ==> (p.recv[r][i][j'].key.major == w[s][k].id <==> found && j' == j)
    ensures forall l' :: 0 <= l' < |p.send[s][k]| ==> (p.send[s][k][l'].key.major == w[r][i].id <==> found && l' == l)
    ensures !found ==> Intersections(p.halos[r][i], w[s][k]) == []
  {
    PatternShape(w, p, dims, r, i, s, k);
    j, l := 0, 0;
    found, j := FindMajor(p.recv[r][i], w[s][k].id);
    if found {
      l := PairFound(w, p, dims, r, i, s, k, j);
    } else {
      NoIntersection(w, p, dims, r, i, s, k);
      NoSend(w, p, dims, r, i, s, k);
    }
  }

  lemma {:induction false} FindMajor(m: HaloMap, major: int) returns (found: bool, j: nat)
    requires StrictMajors(m)
    ensures found ==> j < |m|
    ensures forall j' :: 0 <= j' < |m| ==> (m[j'].key.major == major <==> found && j' == j)
  {
    j := 0;
    found := exists j' :: 0 <= j' < |m| && m[j'].key.major == major;
    if found {
      j :| j < |m| && m[j].key.major == major;
    }
  }

  lemma {:induction false} NoSend(w: World, p: PatternData, dims: nat, r: nat, i: nat, s: nat, k: nat)
    requires PatternOk(w, p, dims) && r < |w| && i < |w[r]| && s < |w| && k < |w[s]|
    requires |p.send[s]| == |w[s]| && |p.recv[r]| == |w[r]|
    requires forall j :: 0 <= j < |p.recv[r][i]| ==> p.recv[r][i][j].key.major != w[s][k].id
    ensures forall l :: 0 <= l < |p.send[s][k]| ==> p.send[s][k][l].key.major != w[r][i].id
  {
    forall l | 0 <= l < |p.send[s][k]|
      ensures p.send[s][k][l].key.major != w[r][i].id
    {
      SendNeedsRecv(w, p, dims, r, i, s, k, l);
    }
  }

  lemma {:induction false} PatternShape(w: World, p: PatternData, dims: nat, r: nat, i: nat, s: nat, k: nat)
    requires PatternOk(w, p, dims) && r < |w| && i < |w[r]| && s < |w| && k < |w[s]|
    ensures |p.recv[r]| == |w[r]| && |p.send[s]| == |w[s]| && |p.halos[r]| == |w[r]|
    ensures HalosOf(p.halos[r][i], dims) && StrictMajors(p.recv[r][i]) && Sorted(p.send[s][k])
  {
    assert Connect.Collected(p.send[s], w, s, p.sends, |w|);
    assert IsPatternMap(p.recv[r][i], w, p.halos[r][i], dims);
  }

  lemma {:induction false} SendNeedsRecv(w: World, p: PatternData, dims: nat, r: nat, i: nat, s: nat, k: nat, l: nat)
    requires PatternOk(w, p, dims) && r < |w| && i < |w[r]| && s < |w| && k < |w[s]|
    requires |p.send[s]| == |w[s]| && |p.recv[r]| == |w[r]| && l < |p.send[s][k]|
    ensures p.send[s][k][l].key.major == w[r][i].id ==>
      exists j :: 0 <= j < |p.recv[r][i]| && p.recv[r][i][j].key.major == w[s][k].id
               && PairsOf(p.recv[r][i][j].val.spaces, |w[s][k].first|) && |w[s][k].last| == |w[s][k].first|
               && p.send[s][k][l] == Mirror(w, r, w[r][i].id, p.recv[r][i][j], w[s][k])
  {
    if p.send[s][k][l].key.major == w[r][i].id {
      SendOrigin(w, p, dims, r, i, s, k, l);
      var j: nat :| Mirrors(w, p.recv, r, i, j, s, k, p.send[s][k][l]);
      assert p.recv[r][i][j].key.major == w[s][k].id;
    }
  }

  lemma {:induction false} PairFound(w: World, p: PatternData, dims: nat, r: nat, i: nat, s: nat, k: nat, j: nat)
    returns (l: nat)
    requires PatternOk(w, p, dims) && r < |w| && i < |w[r]| && s < |w| && k < |w[s]|
    requires |p.send[s]| == |w[s]| && |p.recv[r]| == |w[r]|
    requires j < |p.recv[r][i]| && p.recv[r][i][j].key.major == w[s][k].id
    ensures |p.halos[r]| == |w[r]| && HalosOf(p.halos[r][i], dims)
    ensures p.recv[r][i][j].val == Halo(s, Intersections(p.halos[r][i], w[s][k]))
    ensures p.recv[r][i][j].val.spaces != [] && PairsOf(p.recv[r][i][j].val.spaces, dims)
    ensures l < |p.send[s][k]| && p.send[s][k][l] == Mirror(w, r, w[r][i].id, p.recv[r][i][j], w[s][k])
    ensures forall l' :: 0 <= l' < |p.send[s][k]| ==> (p.send[s][k][l'].key.major == w[r][i].id <==> l' == l)
  {
    PatternShape(w, p, dims, r, i, s, k);
    var recv, send := p.recv[r][i], p.send[s][k];
    RecvEntry(w, p, dims, r, i, j, s, k);
    var e := Mirror(w, r, w[r][i].id, recv[j], w[s][k]);
    assert Mirrors(w, p.recv, r, i, j, s, k, e);
    SendsMirrorReceives(w, p.halos, p.recv, p.sends, p.send, dims, s, k, e);
    l :| l < |send| && send[l] == e;
    forall l' | 0 <= l' < |send| && l' != l
      ensures send[l'].key.major != w[r][i].id
    {
      SendNeedsRecv(w, p, dims, r, i, s, k, l');
      assert Less(send[l'].key, send[l].key) || Less(send[l].key, send[l'].key);
    }
  }

  lemma {:induction false} RecvEntry(w: World, p: PatternData, dims: nat, r: nat, i: nat, j: nat, s: nat, k: nat)
    requires PatternOk(w, p, dims) && r < |w| && i < |w[r]| && s < |w| && k < |w[s]|
    requires j < |p.recv[r][i]| && p.recv[r][i][j].key.major == w[s][k].id
    ensures |p.halos[r]| == |w[r]| && HalosOf(p.halos[r][i], dims)
    ensures p.recv[r][i][j].val == Halo(s, Intersections(p.halos[r][i], w[s][k]))
    ensures p.recv[r][i][j].val.spaces != [] && PairsOf(p.recv[r][i][j].val.spaces, dims)
  {
    assert IsPatternMap(p.recv[r][i], w, p.halos[r][i], dims);
    PatternMapReceivable(p.recv[r][i], w, p.halos[r][i], dims, j);
    var s' := p.recv[r][i][j].val.rank;
    var k' := Position(w[s'], p.recv[r][i][j].key.major);
    assert w[s'][k'].id == w[s][k].id;
  }

  lemma {:induction false} NoIntersection(w: World, p: PatternData, dims: nat, r: nat, i: nat, s: nat, k: nat)
    requires PatternOk(w, p, dims) && r < |w| && i < |w[r]| && s < |w| && k < |w[s]|
    requires forall j :: 0 <= j < |p.recv[r][i]| ==> p.recv[r][i][j].key.major != w[s][k].id
    ensures |p.halos[r]| == |w[r]| && HalosOf(p.halos[r][i], dims)
    ensures Intersections(p.halos[r][i], w[s][k]) == []
  {
    assert IsPatternMap(p.recv[r][i], w, p.halos[r][i], dims);
  }

  /** A send entry for the domain with id a stems from a receive entry of that very domain. */
  lemma {:induction false} SendOrigin(w: World, p: PatternData, dims: nat, r: nat, i: nat, s: nat, k: nat, l: nat)
    requires PatternOk(w, p, dims) && r < |w| && i < |w[r]| && s < |w| && k < |w[s]|
    requires |p.send[s]| == |w[s]| && l < |p.send[s][k]| && p.send[s][k][l].key.major == w[r][i].id
    ensures exists j: nat :: Mirrors(w, p.recv, r, i, j, s, k, p.send[s][k][l])
  {
    var e := p.send[s][k][l];
    SendsMirrorReceives(w, p.halos, p.recv, p.sends, p.send, dims, s, k, e);
    assert e in p.send[s][k];
    var r': nat, i': nat, j: nat :| Mirrors(w, p.recv, r', i', j, s, k, e);
    assert w[r'][i'].id == w[r][i].id;
  }

  // ------------------------------------------------------------------ sizes survive re-basing

  lemma {:induction false} SameExtents(a: Box, b: Box)
    requires |a.first| == |a.last| == |b.first| == |b.last|
    requires Sub(a.last, a.first) == Sub(b.last, b.first)
    ensures Extents(a.first, a.last) == Extents(b.first, b.last)
  {
    forall i | 0 <= i < |a.first|
      ensures a.last[i] - a.first[i] == b.last[i] - b.first[i]
    {
      assert Sub(a.last, a.first)[i] == Sub(b.last, b.first)[i];
    }
  }

  /** Each listed intersection has at least one element, as many as its re-based copy. */
  lemma {:induction false} IntersectionSize(halos: seq<SpacePair>, d: Domain, l: nat)
    requires HalosOf(halos, |d.first|) && Ordered(d.first, d.last) && l < |Intersections(halos, d)|
    ensures ValidHalo(Intersections(halos, d)[l], |d.first|)
    ensures BoxSize(Intersections(halos, d)[l]) > 0
    ensures BoxSize(Rebase(Intersections(halos, d)[l], d)) == BoxSize(Intersections(halos, d)[l])
  {
    RebasedInside(halos, d, l);
    var x := Intersections(halos, d)[l];
    SameExtents(Rebase(x, d).local, x.local);
    ProductPositive(Extents(x.local.first, x.local.last));
  }

  lemma {:induction false} RebasedCount(halos: seq<SpacePair>, d: Domain, n: nat)
    requires HalosOf(halos, |d.first|) && Ordered(d.first, d.last) && n <= |Intersections(halos, d)|
    requires PairsOf(Intersections(halos, d), |d.first|)
    ensures var x := Intersections(halos, d);
      && NumElements(RebaseAll(x, d)[..n]) == NumElements(x[..n])
      && (if n == 0 then NumElements(x[..n]) == 0 else NumElements(x[..n]) > 0)
  {
    if n > 0 {
      RebasedCount(halos, d, n - 1);
      IntersectionSize(halos, d, n - 1);
      var x := Intersections(halos, d);
      assert x[..n][..n - 1] == x[..n - 1] && RebaseAll(x, d)[..n][..n - 1] == RebaseAll(x, d)[..n - 1];
    }
  }

  // ------------------------------------------------------------------ one slot of one pair

  ghost function CanonArgs(u: Setup): (args: seq<Arg>)
    requires SetupOk(u)
    ensures |args| == |u.slots|
  {
    seq(|u.slots|, j requires 0 <= j < |u.slots| =>
      Arg(u.slots[j].pattern, u.patterns[u.slots[j].pattern].maxTag, 0, [], [], FieldPtr(0, j),
          u.slots[j].elemSize, u.slots[j].align, u.slots[j].comps))
  }

  lemma {:induction false} OffsetIsCanonical(u: Setup, r: nat, p: int)
    requires SetupOk(u) && r < |u.world|
    ensures TagOffset(ArgsOf(u, r), p) == TagOffset(CanonArgs(u), p)
  {
    var args, calls, canon := ArgsOf(u, r), u.calls[r], CanonArgs(u);
    forall n | 0 <= n < |calls|
      ensures SameContainer(args[n], canon, calls[n].slot)
    {
      assert CallOk(calls, |u.world[r]|, |u.slots|, n);
    }
    TagOffsetsAgree(args, calls, canon, |u.world[r]|, p);
  }

  ghost function PieceKey(u: Setup, r: nat, i: nat, s: nat, k: nat): Key
    requires At(u, r, i) && At(u, s, k)
  {
    Key(DomId(u, r, i), DomId(u, s, k))
  }

  /** What field j of domain (r, i) adds to the buffer with the given key. */
  ghost function SlotPieces(u: Setup, r: nat, i: nat, j: nat, receive: bool, key: Key): seq<Piece>
    requires SetupOk(u) && At(u, r, i) && j < |u.slots|
  {
    var a := ArgOf(u, r, Call(i, j));
    HaloPieces(a, Halos(a, receive), TagOffset(ArgsOf(u, r), a.container), receive, key, |Halos(a, receive)|)
  }

  /** What domain (r, i) receives from domain (s, k) in the pattern of slot j. */
  ghost function SlotSpaces(u: Setup, r: nat, i: nat, s: nat, k: nat, j: nat): seq<SpacePair>
    requires SetupOk(u) && At(u, r, i) && At(u, s, k) && j < |u.slots|
  {
    var p := u.patterns[u.slots[j].pattern];
    UsePattern(u, u.slots[j].pattern);
    PatternShape(u.world, p, u.dims, r, i, s, k);
    Intersections(p.halos[r][i], u.world[s][k])
  }

  /** sp and sq are the two ends of one field's contribution to a channel: `spaces` as the
      receiver sees them, at most one piece on each side. */
  ghost predicate EndsMatch(spaces: seq<SpacePair>, d: Domain, a: Arg, b: Arg, r: nat, s: nat, sp: seq<Piece>, sq: seq<Piece>) {
    && |d.first| == |d.last| && PairsOf(spaces, |d.first|)
    && SameShapes(sp, sq)
    && |sp| == (if spaces == [] then 0 else 1)
    && (spaces != [] ==>
          && sp[0].spaces == spaces && sq[0].spaces == RebaseAll(spaces, d)
          && sp[0].address == s && sq[0].address == r
          && sp[0].field == a.field && sq[0].field == b.field
          && sp[0].elemSize == a.elemSize && sp[0].count == NumElements(spaces) * a.comps)
  }

  lemma {:induction false} PairPieces(w: World, p: PatternData, dims: nat, r: nat, i: nat, s: nat, k: nat,
                                      a: Arg, b: Arg, offset: nat)
    requires PatternOk(w, p, dims) && r < |w| && i < |w[r]| && s < |w| && k < |w[s]|
    requires |p.recv[r]| == |w[r]| && |p.send[s]| == |w[s]| && |p.halos[r]| == |w[r]| && HalosOf(p.halos[r][i], dims)
    requires a.recv == p.recv[r][i] && b.send == p.send[s][k] && a.domain == w[r][i].id && b.domain == w[s][k].id
    requires a.comps == b.comps > 0 && a.elemSize == b.elemSize && a.align == b.align
    ensures var key := Key(w[r][i].id, w[s][k].id);
      EndsMatch(Intersections(p.halos[r][i], w[s][k]), w[s][k], a, b, r, s,
                HaloPieces(a, a.recv, offset, true, key, |a.recv|),
                HaloPieces(b, b.send, offset, false, key, |b.send|))
  {
    var key := Key(w[r][i].id, w[s][k].id);
    var found, j, l := PairHalo(w, p, dims, r, i, s, k);
    if found {
      SlotFound(w, p, dims, a.comps, r, i, s, k, j, l);
      OnePiece(a, b, offset, key, j, l, w[s][k], r, s);
    } else {
      NoPieces(a, b, offset, key);
    }
  }

  /** Entry j of the receiver and entry l of the sender are the only ones of the pair. */
  lemma {:induction false} OnePiece(a: Arg, b: Arg, offset: nat, key: Key, j: nat, l: nat, d: Domain, r: nat, s: nat)
    requires j < |a.recv| && l < |b.send| && a.comps == b.comps > 0 && a.elemSize == b.elemSize && a.align == b.align
    requires forall j' :: 0 <= j' < |a.recv| ==> (BufferKey(a, a.recv[j'], true) == key <==> j' == j)
    requires forall l' :: 0 <= l' < |b.send| ==> (BufferKey(b, b.send[l'], false) == key <==> l' == l)
    requires NumElements(a.recv[j].val.spaces) * a.comps >= 1 && NumElements(b.send[l].val.spaces) == NumElements(a.recv[j].val.spaces)
    requires |d.first| == |d.last| && PairsOf(a.recv[j].val.spaces, |d.first|) && a.recv[j].val.spaces != []
    requires a.recv[j].val.rank == s && b.send[l].val.rank == r && a.recv[j].key.minor == b.send[l].key.minor
    requires b.send[l].val.spaces == RebaseAll(a.recv[j].val.spaces, d)
    ensures EndsMatch(a.recv[j].val.spaces, d, a, b, r, s,
                      HaloPieces(a, a.recv, offset, true, key, |a.recv|), HaloPieces(b, b.send, offset, false, key, |b.send|))
  {
    HaloPiecesOne(a, a.recv, offset, true, key, |a.recv|, j);
    HaloPiecesOne(b, b.send, offset, false, key, |b.send|, l);
  }

  lemma {:induction false} NoPieces(a: Arg, b: Arg, offset: nat, key: Key)
    requires forall j :: 0 <= j < |a.recv| ==> BufferKey(a, a.recv[j], true) != key
    requires forall l :: 0 <= l < |b.send| ==> BufferKey(b, b.send[l], false) != key
    ensures HaloPieces(a, a.recv, offset, true, key, |a.recv|) == []
    ensures HaloPieces(b, b.send, offset, false, key, |b.send|) == []
  {
    HaloPiecesNone(a, a.recv, offset, true, key, |a.recv|);
    HaloPiecesNone(b, b.send, offset, false, key, |b.send|);
  }

  /** Receiver and source of a pair lay out the same bytes for a slot: the receiver's spaces
      on one side, their re-based copies on the other. */
  lemma {:induction false} SlotAgreement(u: Setup, r: nat, i: nat, s: nat, k: nat, j: nat)
    requires SetupOk(u) && At(u, r, i) && At(u, s, k) && j < |u.slots|
    ensures var key := PieceKey(u, r, i, s, k);
      EndsMatch(SlotSpaces(u, r, i, s, k, j), u.world[s][k], ArgOf(u, r, Call(i, j)), ArgOf(u, s, Call(k, j)), r, s,
                SlotPieces(u, r, i, j, true, key), SlotPieces(u, s, k, j, false, key))
  {
    var pat := u.slots[j].pattern;
    var p := u.patterns[pat];
    UsePattern(u, pat);
    PatternShape(u.world, p, u.dims, r, i, s, k);
    OffsetIsCanonical(u, r, pat);
    OffsetIsCanonical(u, s, pat);
    PairPieces(u.world, p, u.dims, r, i, s, k, ArgOf(u, r, Call(i, j)), ArgOf(u, s, Call(k, j)),
               TagOffset(CanonArgs(u), pat));
  }

  lemma {:induction false} SlotFound(w: World, p: PatternData, dims: nat, comps: nat, r: nat, i: nat, s: nat, k: nat, j: nat, l: nat)
    requires ValidWorld(w, dims) && comps > 0
    requires r < |w| && i < |w[r]| && s < |w| && k < |w[s]| && r < |p.recv| && i < |p.recv[r]| && s < |p.send| && k < |p.send[s]|
    requires r < |p.halos| && i < |p.halos[r]| && HalosOf(p.halos[r][i], dims)
    requires j < |p.recv[r][i]| && l < |p.send[s][k]|
    requires p.recv[r][i][j].val == Halo(s, Intersections(p.halos[r][i], w[s][k]))
    requires p.recv[r][i][j].val.spaces != [] && PairsOf(p.recv[r][i][j].val.spaces, dims)
    requires p.send[s][k][l] == Mirror(w, r, w[r][i].id, p.recv[r][i][j], w[s][k])
    ensures var n := NumElements(p.recv[r][i][j].val.spaces);
      n > 0 && n * comps >= 1 && NumElements(p.send[s][k][l].val.spaces) == n
  {
    var d := w[s][k];
    var x := Intersections(p.halos[r][i], d);
    RebasedCount(p.halos[r][i], d, |x|);
    assert x[..|x|] == x && RebaseAll(x, d)[..|x|] == RebaseAll(x, d);
    MulPositive(NumElements(x), comps);
  }

  // ------------------------------------------------------------------ one channel

  /** Slot-wise pieces of the channel from (s, k) to (r, i), at the receiver or the sender. */
  ghost function Side(u: Setup, r: nat, i: nat, s: nat, k: nat, receive: bool): (sp: seq<seq<Piece>>)
    requires SetupOk(u) && At(u, r, i) && At(u, s, k)
    ensures |sp| == |u.slots|
  {
    var key := PieceKey(u, r, i, s, k);
    seq(|u.slots|, j requires 0 <= j < |u.slots| =>
      if receive then SlotPieces(u, r, i, j, true, key) else SlotPieces(u, s, k, j, false, key))
  }

  lemma {:induction false} OtherDomains(u: Setup, r: nat, i: nat, s: nat, k: nat, receive: bool, n: nat)
    requires SetupOk(u) && At(u, r, i) && At(u, s, k)
    requires n < |u.calls[if receive then r else s]|
    ensures var me := if receive then r else s;
      Contributes(ArgsOf(u, me), u.calls[me], if receive then i else k, receive, PieceKey(u, r, i, s, k),
                  Side(u, r, i, s, k, receive), n)
  {
    var me, dom := if receive then r else s, if receive then i else k;
    var args, calls := ArgsOf(u, me), u.calls[me];
    assert CallOk(calls, |u.world[me]|, |u.slots|, n);
    var a := args[n];
    assert a == ArgAt(u, me, n);
    if calls[n].dom != dom {
      assert u.world[me][calls[n].dom].id != u.world[me][dom].id;
      HaloPiecesNone(a, Halos(a, receive), TagOffset(args, a.container), receive, PieceKey(u, r, i, s, k), |Halos(a, receive)|);
    } else {
      assert calls[n] == Call(dom, calls[n].slot);
    }
  }

  /** The pieces of a buffer, whatever the order of arguments: the slots of the pair. */
  lemma {:induction false} ChannelPieces(u: Setup, r: nat, i: nat, s: nat, k: nat, receive: bool)
    requires SetupOk(u) && At(u, r, i) && At(u, s, k)
    ensures var me := if receive then r else s;
      ArgPieces(ArgsOf(u, me), receive, PieceKey(u, r, i, s, k), |u.calls[me]|) == Flatten(Side(u, r, i, s, k, receive))
  {
    var me, dom := if receive then r else s, if receive then i else k;
    var args, calls := ArgsOf(u, me), u.calls[me];
    var sp := Side(u, r, i, s, k, receive);
    forall n | 0 <= n < |args|
      ensures Contributes(args, calls, dom, receive, PieceKey(u, r, i, s, k), sp, n)
    {
      OtherDomains(u, r, i, s, k, receive, n);
    }
    PiecesBySlot(args, calls, |u.world[me]|, dom, receive, PieceKey(u, r, i, s, k), sp, |calls|);
    assert sp[..|sp|] == sp;
  }

  lemma {:induction false} SidesAgree(u: Setup, r: nat, i: nat, s: nat, k: nat)
    requires SetupOk(u) && At(u, r, i) && At(u, s, k)
    ensures SameShapes(Flatten(Side(u, r, i, s, k, true)), Flatten(Side(u, r, i, s, k, false)))
  {
    var sp, sq := Side(u, r, i, s, k, true), Side(u, r, i, s, k, false);
    forall j | 0 <= j < |sp|
      ensures SameShapes(sp[j], sq[j])
    {
      SlotAgreement(u, r, i, s, k, j);
    }
    FlattenShapes(sp, sq);
  }

  lemma {:induction false} ArgsOfOk(u: Setup, r: nat)
    requires SetupOk(u) && r < |u.world|
    ensures ArgsOk(ArgsOf(u, r))
  {
    var args := ArgsOf(u, r);
    forall n | 0 <= n < |args|
      ensures ValidArg(args[n]) && SpacesShaped(args[n].recv) && SpacesShaped(args[n].send)
    {
      assert CallOk(u.calls[r], |u.world[r]|, |u.slots|, n);
      var c := u.calls[r][n];
      UsePattern(u, u.slots[c.slot].pattern);
      ShapedMaps(u.world, u.patterns[u.slots[c.slot].pattern], u.dims, r, c.dom);
    }
  }

  lemma {:induction false} ShapedMaps(w: World, p: PatternData, dims: nat, r: nat, i: nat)
    requires PatternOk(w, p, dims) && r < |w| && i < |w[r]|
    ensures |p.recv[r]| == |w[r]| && |p.send[r]| == |w[r]|
    ensures SpacesShaped(p.recv[r][i]) && SpacesShaped(p.send[r][i])
  {
    PatternShape(w, p, dims, r, i, r, i);
    var recv, send := p.recv[r][i], p.send[r][i];
    forall j, l | 0 <= j < |recv| && 0 <= l < |recv[j].val.spaces|
      ensures |recv[j].val.spaces[l].local.first| == |recv[j].val.spaces[l].local.last| > 0
    {
      assert IsPatternMap(recv, w, p.halos[r][i], dims);
      PatternMapReceivable(recv, w, p.halos[r][i], dims, j);
      assert PairOf(recv[j].val.spaces[l], dims);
    }
    forall j, l | 0 <= j < |send| && 0 <= l < |send[j].val.spaces|
      ensures |send[j].val.spaces[l].local.first| == |send[j].val.spaces[l].local.last| > 0
    {
      SendsMirrorReceives(w, p.halos, p.recv, p.sends, p.send, dims, r, i, send[j]);
      assert send[j] in send;
      var r': nat, i': nat, j': nat :| Mirrors(w, p.recv, r', i', j', r, i, send[j]);
      assert send[j].val.spaces[l] == Rebase(p.recv[r'][i'][j'].val.spaces[l], w[r][i]);
    }
  }
}

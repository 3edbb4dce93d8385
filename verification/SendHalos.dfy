// Translation of a rank's receive halos into send halos of the remote domains
// (structured/pattern.hpp:370-411), held in a nested map
// rank -> remote domain id -> (own domain id, tag) -> iteration spaces.

module SendHalos {
  import opened LoopNest
  import opened OrderedMap
  import opened Pattern
  import opened Tags

  type DomainMap = seq<Entry<HaloMap>>
  type RankMap = seq<Entry<DomainMap>>

  /** The inner map stored under k, empty when there is none. */
  function Inner<V>(m: seq<Entry<seq<V>>>, k: int): seq<V> {
    GetOr(m, Key(k, 0), [])
  }

  ghost predicate NestedSorted(sends: RankMap) {
    && Sorted(sends)
    && (forall s :: Sorted(Inner(sends, s)))
    && (forall s, b :: Sorted(Inner(Inner(sends, s), b)))
  }

  /** No rank and no domain is listed without data. */
  ghost predicate Tidy(sends: RankMap) {
    && (forall x :: x in sends ==> x.key.minor == 0 && x.val != [])
    && (forall x, y :: x in sends && y in x.val ==> y.key.minor == 0 && y.val != [])
  }

  /** Entry e is stored for domain b of rank s. */
  ghost predicate Leaf(sends: RankMap, s: int, b: int, e: Entry<Halo>) {
    e in Inner(Inner(sends, s), b)
  }

  /** send_halos_map[s][b][k] is extended by the given spaces. */
  function AddSend(sends: RankMap, s: int, b: int, k: Key, me: int, spaces: seq<SpacePair>): RankMap {
    var doms := Inner(sends, s);
    var halos := Inner(doms, b);
    var h := GetOr(halos, k, Halo(me, []));
    Put(sends, Key(s, 0), Put(doms, Key(b, 0), Put(halos, k, Halo(h.rank, h.spaces + spaces))))
  }

  lemma {:induction false} AddSendEffect(sends: RankMap, s: int, b: int, k: Key, me: int, spaces: seq<SpacePair>,
                      s': int, b': int, e: Entry<Halo>)
    requires NestedSorted(sends)
    requires !Contains(Inner(Inner(sends, s), b), k)
    ensures var n := AddSend(sends, s, b, k, me, spaces);
      && Sorted(n) && Sorted(Inner(n, s')) && Sorted(Inner(Inner(n, s'), b'))
      && (Leaf(n, s', b', e) <==> Leaf(sends, s', b', e) || (s' == s && b' == b && e == Entry(k, Halo(me, spaces))))
  {
    var doms := Inner(sends, s);
    var halos := Inner(doms, b);
    var added := Halo(me, [] + spaces);
    assert [] + spaces == spaces;
    assert Sorted(doms) && Sorted(halos);
    assert Sorted(Inner(sends, s')) && Sorted(Inner(Inner(sends, s'), b'));
    assert Sorted(Inner(Inner(sends, s), b'));
    var halos' := Put(halos, k, added);
    var doms' := Put(doms, Key(b, 0), halos');
    PutSorted(halos, k, added);
    PutSorted(doms, Key(b, 0), halos');
    PutSorted(sends, Key(s, 0), doms');
    PutGet(sends, Key(s, 0), doms', Key(s', 0), []);
    PutGet(doms, Key(b, 0), halos', Key(b', 0), []);
    PutIn(halos, k, added, e);
    if e in halos && e.key == k {
      GetIn(halos, k, e.val);
      assert false;
    }
  }

  /** Spaces that are there already stay in front. */
  lemma {:induction false} AddSendExtends(sends: RankMap, s: int, b: int, k: Key, me: int, spaces: seq<SpacePair>, s': int, b': int, k': Key)
    requires NestedSorted(sends)
    ensures SpacesAt(Inner(Inner(AddSend(sends, s, b, k, me, spaces), s'), b'), k')
         == SpacesAt(Inner(Inner(sends, s'), b'), k') + (if s' == s && b' == b && k' == k then spaces else [])
  {
    var doms := Inner(sends, s);
    var halos := Inner(doms, b);
    assert Sorted(doms) && Sorted(halos);
    var h := GetOr(halos, k, Halo(me, []));
    var added := Halo(h.rank, h.spaces + spaces);
    var halos' := Put(halos, k, added);
    var doms' := Put(doms, Key(b, 0), halos');
    PutGet(sends, Key(s, 0), doms', Key(s', 0), []);
    PutGet(doms, Key(b, 0), halos', Key(b', 0), []);
    PutGet(halos, k, added, k', Halo(0, []));
  }

  lemma {:induction false} AddSendNested(sends: RankMap, s: int, b: int, k: Key, me: int, spaces: seq<SpacePair>)
    requires NestedSorted(sends)
    requires !Contains(Inner(Inner(sends, s), b), k)
    ensures NestedSorted(AddSend(sends, s, b, k, me, spaces))
  {
    forall s'
      ensures Sorted(Inner(AddSend(sends, s, b, k, me, spaces), s'))
    {
      AddSendEffect(sends, s, b, k, me, spaces, s', b, Entry(k, Halo(me, spaces)));
    }
    forall s', b'
      ensures Sorted(Inner(Inner(AddSend(sends, s, b, k, me, spaces), s'), b'))
    {
      AddSendEffect(sends, s, b, k, me, spaces, s', b', Entry(k, Halo(me, spaces)));
    }
    AddSendEffect(sends, s, b, k, me, spaces, s, b, Entry(k, Halo(me, spaces)));
  }

  lemma {:induction false} AddSendTidy(sends: RankMap, s: int, b: int, k: Key, me: int, spaces: seq<SpacePair>)
    requires NestedSorted(sends) && Tidy(sends)
    ensures Tidy(AddSend(sends, s, b, k, me, spaces))
  {
    var doms := Inner(sends, s);
    var halos := Inner(doms, b);
    var h := GetOr(halos, k, Halo(me, []));
    var added := Halo(h.rank, h.spaces + spaces);
    var halos' := Put(halos, k, added);
    var doms' := Put(doms, Key(b, 0), halos');
    assert Sorted(doms) && Sorted(halos);
    PutIn(halos, k, added, Entry(k, added));
    PutIn(doms, Key(b, 0), halos', Entry(Key(b, 0), halos'));
    if Contains(sends, Key(s, 0)) {
      GetIn(sends, Key(s, 0), doms);
    }
    forall y | y in doms'
      ensures y.key.minor == 0 && y.val != []
    {
      PutIn(doms, Key(b, 0), halos', y);
      assert y in doms ==> Entry(Key(s, 0), doms) in sends;
    }
    forall x | x in AddSend(sends, s, b, k, me, spaces)
      ensures x.key.minor == 0 && x.val != []
      ensures x in sends || x == Entry(Key(s, 0), doms')
    {
      PutIn(sends, Key(s, 0), doms', x);
    }
  }

  // ------------------------------------------------------------------ re-basing

  /** Position of the domain with the given id, or |ds| when there is none. */
  function Position(ds: seq<Domain>, id: int): (p: nat)
    ensures p <= |ds|
    ensures p < |ds| ==> ds[p].id == id
    ensures p == |ds| ==> forall i :: 0 <= i < |ds| ==> ds[i].id != id
  {
    if ds == [] || ds[0].id == id then 0 else 1 + Position(ds[1..], id)
  }

  /** Local extent of a domain: starts at the origin (pattern.hpp:242-246). */
  function LocalExtent(d: Domain): Box
    requires |d.last| == |d.first|
  {
    Box(Sub(d.first, d.first), Sub(d.last, d.first))
  }

  /** The same global box in the local coordinates of domain d. */
  function Rebase(p: SpacePair, d: Domain): SpacePair
    requires BoxOf(p.global, |d.first|) && |d.last| == |d.first|
  {
    var origin := LocalExtent(d).first;
    SpacePair(Box(Add(origin, Sub(p.global.first, d.first)), Add(origin, Sub(p.global.last, d.first))), p.global)
  }

  ghost predicate PairsOf(spaces: seq<SpacePair>, dims: nat) {
    forall l :: 0 <= l < |spaces| ==> PairOf(spaces[l], dims)
  }

  function RebaseAll(spaces: seq<SpacePair>, d: Domain): (r: seq<SpacePair>)
    requires PairsOf(spaces, |d.first|) && |d.last| == |d.first|
    ensures |r| == |spaces|
  {
    seq(|spaces|, l requires 0 <= l < |spaces| => Rebase(spaces[l], d))
  }

  // ------------------------------------------------------------------ tagged patterns

  /** e is the receive entry for domain k of rank r. */
  ghost predicate Receives(e: Entry<Halo>, w: World, halos: seq<SpacePair>, dims: nat, r: nat, k: nat)
    requires ValidWorld(w, dims) && HalosOf(halos, dims)
  {
    && r < |w| && k < |w[r]|
    && e.key.major == w[r][k].id
    && e.val == Halo(r, Intersections(halos, w[r][k]))
    && e.val.spaces != []
  }

  ghost predicate ReceivesSome(e: Entry<Halo>, w: World, halos: seq<SpacePair>, dims: nat)
    requires ValidWorld(w, dims) && HalosOf(halos, dims)
  {
    exists r: nat, k: nat :: Receives(e, w, halos, dims, r, k)
  }

  /** The finished receive map of one domain: exactly the non-empty intersections. */
  ghost predicate IsPatternMap(m: HaloMap, w: World, halos: seq<SpacePair>, dims: nat)
    requires ValidWorld(w, dims) && HalosOf(halos, dims)
  {
    && Sorted(m) && StrictMajors(m)
    && (forall j :: 0 <= j < |m| ==> ReceivesSome(m[j], w, halos, dims))
    && (forall r, k :: 0 <= r < |w| && 0 <= k < |w[r]| && Intersections(halos, w[r][k]) != []
          ==> exists j :: 0 <= j < |m| && Receives(m[j], w, halos, dims, r, k))
  }

  lemma {:induction false} PatternEntry(recv: seq<HaloMap>, t: seq<HaloMap>, i: nat, w: World, halos: seq<SpacePair>, dims: nat, j: nat)
    requires ValidWorld(w, dims) && HalosOf(halos, dims)
    requires IsTagged(recv, t) && i < |t| && IsRecvMap(recv[i], w, halos, dims) && j < |t[i]|
    ensures recv[i][j].key.minor == 0
    ensures exists r: nat, k: nat :: FromDomain(recv[i][j], w, r, k) && Receives(t[i][j], w, halos, dims, r, k)
  {
    var m := recv[i];
    assert m[j] in m;
    var r: nat, k: nat :| FromDomain(m[j], w, r, k);
    ContainsIff(m, m[j].key, j);
    assert SpacesAt(m, Key(w[r][k].id, 0)) == Intersections(halos, w[r][k]);
    assert Receives(t[i][j], w, halos, dims, r, k);
  }

  lemma {:induction false} PatternCovers(recv: seq<HaloMap>, t: seq<HaloMap>, i: nat, w: World, halos: seq<SpacePair>, dims: nat,
                      r: nat, k: nat) returns (j: nat)
    requires ValidWorld(w, dims) && HalosOf(halos, dims)
    requires IsTagged(recv, t) && i < |t| && IsRecvMap(recv[i], w, halos, dims)
    requires r < |w| && k < |w[r]| && Intersections(halos, w[r][k]) != []
    ensures j < |t[i]| && Receives(t[i][j], w, halos, dims, r, k)
  {
    var key := Key(w[r][k].id, 0);
    assert SpacesAt(recv[i], key) == Intersections(halos, w[r][k]);
    j := LowerBound(recv[i], key);
    PatternEntry(recv, t, i, w, halos, dims, j);
    var r': nat, k': nat :| FromDomain(recv[i][j], w, r', k') && Receives(t[i][j], w, halos, dims, r', k');
    assert w[r'][k'].id == w[r][k].id;
  }

  /** Intersection followed by tagging yields a finished receive map. */
  lemma {:induction false} PatternMapFromRecv(recv: seq<HaloMap>, t: seq<HaloMap>, i: nat, w: World, halos: seq<SpacePair>, dims: nat)
    requires ValidWorld(w, dims) && HalosOf(halos, dims)
    requires IsTagged(recv, t) && i < |t| && IsRecvMap(recv[i], w, halos, dims)
    ensures IsPatternMap(t[i], w, halos, dims)
  {
    forall j | 0 <= j < |recv[i]|
      ensures recv[i][j].key.minor == 0
    {
      PatternEntry(recv, t, i, w, halos, dims, j);
    }
    forall j | 0 <= j < |t[i]|
      ensures ReceivesSome(t[i][j], w, halos, dims)
    {
      PatternEntry(recv, t, i, w, halos, dims, j);
    }
    TaggingKeepsOrder(recv, t, i);
    forall r, k | 0 <= r < |w| && 0 <= k < |w[r]| && Intersections(halos, w[r][k]) != []
      ensures exists j :: 0 <= j < |t[i]| && Receives(t[i][j], w, halos, dims, r, k)
    {
      var j := PatternCovers(recv, t, i, w, halos, dims, r, k);
    }
  }

  // ------------------------------------------------------------------ the nested send map

  ghost predicate Receivable(w: World, e: Entry<Halo>, dims: nat) {
    && 0 <= e.val.rank < |w|
    && Position(w[e.val.rank], e.key.major) < |w[e.val.rank]|
    && PairsOf(e.val.spaces, dims)
  }

  /** What the translation needs: every receive names an existing domain of its rank, and no
      local domain has two entries for the same remote domain. */
  ghost predicate SendReady(w: World, me: nat, t: seq<HaloMap>, dims: nat) {
    && ValidWorld(w, dims) && me < |w| && |t| == |w[me]|
    && (forall i :: 0 <= i < |t| ==> StrictMajors(t[i]))
    && (forall i, j :: 0 <= i < |t| && 0 <= j < |t[i]| ==> Receivable(w, t[i][j], dims))
  }

  function SourceDomain(w: World, e: Entry<Halo>): Domain
    requires 0 <= e.val.rank < |w| && Position(w[e.val.rank], e.key.major) < |w[e.val.rank]|
  {
    w[e.val.rank][Position(w[e.val.rank], e.key.major)]
  }

  /** The send entry derived from receive entry e of the domain with id `own` on rank `me`. */
  ghost function SendEntry(w: World, me: nat, own: int, e: Entry<Halo>, dims: nat): Entry<Halo>
    requires ValidWorld(w, dims) && Receivable(w, e, dims)
  {
    Entry(Key(own, e.key.minor), Halo(me, RebaseAll(e.val.spaces, SourceDomain(w, e))))
  }

  /** e, stored for domain b of rank s, comes from receive entry j of local domain i. */
  ghost predicate SentFor(w: World, me: nat, t: seq<HaloMap>, dims: nat, i: nat, j: nat, s: int, b: int, e: Entry<Halo>)
    requires SendReady(w, me, t, dims)
  {
    && i < |t| && j < |t[i]|
    && t[i][j].val.rank == s && t[i][j].key.major == b
    && e == SendEntry(w, me, w[me][i].id, t[i][j], dims)
  }

  ghost predicate SentBefore(w: World, me: nat, t: seq<HaloMap>, dims: nat, i: nat, j: nat, s: int, b: int, e: Entry<Halo>)
    requires SendReady(w, me, t, dims)
  {
    exists a: nat, c: nat :: (a < i || (a == i && c < j)) && SentFor(w, me, t, dims, a, c, s, b, e)
  }

  ghost predicate SendProgress(sends: RankMap, w: World, me: nat, t: seq<HaloMap>, dims: nat, i: nat, j: nat)
    requires SendReady(w, me, t, dims)
  {
    && NestedSorted(sends) && Tidy(sends)
    && forall s, b, e :: Leaf(sends, s, b, e) <==> SentBefore(w, me, t, dims, i, j, s, b, e)
  }

  /** The complete nested map: one entry per receive halo, and nothing else. */
  ghost predicate IsSendMap(sends: RankMap, w: World, me: nat, t: seq<HaloMap>, dims: nat)
    requires SendReady(w, me, t, dims)
  {
    SendProgress(sends, w, me, t, dims, |t|, 0)
  }

  lemma {:induction false} FreshKey(sends: RankMap, w: World, me: nat, t: seq<HaloMap>, dims: nat, i: nat, j: nat)
    requires SendReady(w, me, t, dims) && i < |t| && j < |t[i]|
    requires SendProgress(sends, w, me, t, dims, i, j)
    ensures var e := t[i][j];
      !Contains(Inner(Inner(sends, e.val.rank), e.key.major), Key(w[me][i].id, e.key.minor))
  {
    var s, b, k := t[i][j].val.rank, t[i][j].key.major, Key(w[me][i].id, t[i][j].key.minor);
    var halos := Inner(Inner(sends, s), b);
    if Contains(halos, k) {
      var e := halos[LowerBound(halos, k)];
      assert Leaf(sends, s, b, e);
      var a: nat, c: nat :| (a < i || (a == i && c < j)) && SentFor(w, me, t, dims, a, c, s, b, e);
      assert false;
    }
  }

  lemma {:induction false} SendStep(sends: RankMap, w: World, me: nat, t: seq<HaloMap>, dims: nat, i: nat, j: nat)
    requires SendReady(w, me, t, dims) && i < |t| && j < |t[i]|
    requires SendProgress(sends, w, me, t, dims, i, j)
    ensures var x := SendEntry(w, me, w[me][i].id, t[i][j], dims);
      SendProgress(AddSend(sends, t[i][j].val.rank, t[i][j].key.major, x.key, me, x.val.spaces),
                   w, me, t, dims, i, j + 1)
  {
    var s, b := t[i][j].val.rank, t[i][j].key.major;
    var x := SendEntry(w, me, w[me][i].id, t[i][j], dims);
    FreshKey(sends, w, me, t, dims, i, j);
    AddSendNested(sends, s, b, x.key, me, x.val.spaces);
    AddSendTidy(sends, s, b, x.key, me, x.val.spaces);
    var n := AddSend(sends, s, b, x.key, me, x.val.spaces);
    forall s', b', e
      ensures Leaf(n, s', b', e) <==> SentBefore(w, me, t, dims, i, j + 1, s', b', e)
    {
      AddSendEffect(sends, s, b, x.key, me, x.val.spaces, s', b', e);
      SentBeforeStep(w, me, t, dims, i, j, s', b', e);
    }
  }

  lemma {:induction false} SentBeforeStep(w: World, me: nat, t: seq<HaloMap>, dims: nat, i: nat, j: nat, s: int, b: int, e: Entry<Halo>)
    requires SendReady(w, me, t, dims) && i < |t| && j < |t[i]|
    ensures SentBefore(w, me, t, dims, i, j + 1, s, b, e)
        <==> SentBefore(w, me, t, dims, i, j, s, b, e) || SentFor(w, me, t, dims, i, j, s, b, e)
  {
    if SentBefore(w, me, t, dims, i, j + 1, s, b, e) {
      var a: nat, c: nat :| (a < i || (a == i && c < j + 1)) && SentFor(w, me, t, dims, a, c, s, b, e);
      assert (a < i || (a == i && c < j)) || (a == i && c == j);
    }
    if SentBefore(w, me, t, dims, i, j, s, b, e) {
      var a: nat, c: nat :| (a < i || (a == i && c < j)) && SentFor(w, me, t, dims, a, c, s, b, e);
      assert (a < i || (a == i && c < j + 1)) && SentFor(w, me, t, dims, a, c, s, b, e);
    }
    if SentFor(w, me, t, dims, i, j, s, b, e) {
      assert (i < i || (i == i && j < j + 1)) && SentFor(w, me, t, dims, i, j, s, b, e);
    }
  }

  lemma {:induction false} SendNextDomain(sends: RankMap, w: World, me: nat, t: seq<HaloMap>, dims: nat, i: nat)
    requires SendReady(w, me, t, dims) && i < |t|
    requires SendProgress(sends, w, me, t, dims, i, |t[i]|)
    ensures SendProgress(sends, w, me, t, dims, i + 1, 0)
  {
    forall s, b, e
      ensures SentBefore(w, me, t, dims, i, |t[i]|, s, b, e) <==> SentBefore(w, me, t, dims, i + 1, 0, s, b, e)
    {
      if SentBefore(w, me, t, dims, i, |t[i]|, s, b, e) {
        var a: nat, c: nat :| (a < i || (a == i && c < |t[i]|)) && SentFor(w, me, t, dims, a, c, s, b, e);
        assert (a < i + 1 || (a == i + 1 && c < 0)) && SentFor(w, me, t, dims, a, c, s, b, e);
      }
      if SentBefore(w, me, t, dims, i + 1, 0, s, b, e) {
        var a: nat, c: nat :| (a < i + 1 || (a == i + 1 && c < 0)) && SentFor(w, me, t, dims, a, c, s, b, e);
        assert (a < i || (a == i && c < |t[i]|)) && SentFor(w, me, t, dims, a, c, s, b, e);
      }
    }
  }

  lemma {:induction false} SendInit(w: World, me: nat, t: seq<HaloMap>, dims: nat)
    requires SendReady(w, me, t, dims)
    ensures SendProgress([], w, me, t, dims, 0, 0)
  {
    var none: RankMap := [];
    forall s ensures Inner(none, s) == [] {
    }
    forall s, b ensures Inner(Inner(none, s), b) == [] {
    }
  }

  /** The innermost loop: recasts local coordinates to the remote domain's. */
  method RebaseSpaces(spaces: seq<SpacePair>, ds: seq<Domain>, id: int, ghost dims: nat) returns (r: seq<SpacePair>)
    requires PairsOf(spaces, dims) && Position(ds, id) < |ds|
    requires var d := ds[Position(ds, id)]; |d.first| == |d.last| == dims
    ensures r == RebaseAll(spaces, ds[Position(ds, id)])
    ensures |r| == |spaces| && forall l :: 0 <= l < |r| ==> r[l].global == spaces[l].global && PairOf(r[l], dims)
    ensures forall l, i :: 0 <= l < |r| && 0 <= i < dims ==>
      && r[l].local.first[i] == spaces[l].global.first[i] - ds[Position(ds, id)].first[i]
      && r[l].local.last[i] == spaces[l].global.last[i] - ds[Position(ds, id)].first[i]
  {
    r := spaces;
    for l := 0 to |spaces|
      invariant |r| == |spaces|
      invariant forall a :: 0 <= a < |r| ==> r[a] == if a < l then Rebase(spaces[a], ds[Position(ds, id)]) else spaces[a]
    {
      var ll := Position(ds, id);
      var isG, isL := Box(ds[ll].first, ds[ll].last), LocalExtent(ds[ll]);
      r := r[l := SpacePair(Box(Add(isL.first, Sub(r[l].global.first, isG.first)),
                                Add(isL.first, Sub(r[l].global.last, isG.first))), r[l].global)];
    }
  }

  /** Builds rank -> remote domain -> (own domain, tag) -> spaces from the tagged receive maps. */
  method MakeSendMap(w: World, me: nat, t: seq<HaloMap>, ghost dims: nat) returns (sends: RankMap)
    requires SendReady(w, me, t, dims)
    ensures IsSendMap(sends, w, me, t, dims)
  {
    sends := [];
    SendInit(w, me, t, dims);
    for i := 0 to |t|
      invariant SendProgress(sends, w, me, t, dims, i, 0)
    {
      for j := 0 to |t[i]|
        invariant SendProgress(sends, w, me, t, dims, i, j)
      {
        SendStep(sends, w, me, t, dims, i, j);
        var e := t[i][j];
        assert Receivable(w, e, dims);
        var d := SourceDomain(w, e);
        var spaces := RebaseSpaces(e.val.spaces, w[e.val.rank], e.key.major, dims);
        sends := AddSend(sends, e.val.rank, e.key.major, Key(w[me][i].id, e.key.minor), me, spaces);
      }
      SendNextDomain(sends, w, me, t, dims, i);
    }
  }

  /** A finished pattern map meets what the translation needs. */
  lemma {:induction false} PatternMapReceivable(m: HaloMap, w: World, halos: seq<SpacePair>, dims: nat, j: nat)
    requires ValidWorld(w, dims) && HalosOf(halos, dims) && IsPatternMap(m, w, halos, dims) && j < |m|
    ensures Receivable(w, m[j], dims)
    ensures Receives(m[j], w, halos, dims, m[j].val.rank, Position(w[m[j].val.rank], m[j].key.major))
  {
    assert ReceivesSome(m[j], w, halos, dims);
    var r: nat, k: nat :| Receives(m[j], w, halos, dims, r, k);
    var p := Position(w[r], m[j].key.major);
    assert w[r][k].id == m[j].key.major;
    assert p < |w[r]|;
    assert w[r][p].id == w[r][k].id;
    IntersectionsPairs(halos, w[r][k]);
  }

  lemma {:induction false} IntersectionsPairs(halos: seq<SpacePair>, d: Domain)
    requires |d.last| == |d.first| && forall h :: 0 <= h < |halos| ==> PairOf(halos[h], |d.first|)
    ensures PairsOf(Intersections(halos, d), |d.first|)
  {
    if halos != [] {
      IntersectionsPairs(halos[..|halos| - 1], d);
    }
  }
}

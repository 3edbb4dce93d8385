// Establishing the connections (structured/pattern.hpp:413-574): every rank keeps its own
// share of its send map, ships the rest, and files what arrives under its domains.

module Connect {
  import opened OrderedMap
  import opened Pattern
  import opened SendHalos
  import opened Wire

  // ------------------------------------------------------------------ merging

  lemma {:induction false} AppendFresh(m: HaloMap, k: Key, h: Halo, e: Entry<Halo>)
    requires Sorted(m) && !Contains(m, k)
    ensures Sorted(Append(m, k, h))
    ensures e in Append(m, k, h) <==> e in m || e == Entry(k, h)
  {
    assert [] + h.spaces == h.spaces;
    PutSorted(m, k, h);
    PutIn(m, k, h, e);
    if e in m && e.key == k {
      GetIn(m, k, e.val);
      assert false;
    }
  }

  ghost predicate NoClash(m: HaloMap, halos: HaloMap) {
    forall y :: y in halos ==> !Contains(m, y.key)
  }

  lemma {:induction false} MergePairsFresh(m: HaloMap, halos: HaloMap, e: Entry<Halo>)
    requires Sorted(m) && Sorted(halos) && NoClash(m, halos)
    ensures Sorted(MergePairs(m, halos))
    ensures e in MergePairs(m, halos) <==> e in m || e in halos
    decreases |halos|
  {
    if halos != [] {
      var n := Append(m, halos[0].key, halos[0].val);
      assert halos[0] in halos;
      AppendFresh(m, halos[0].key, halos[0].val, e);
      forall y | y in halos[1..]
        ensures !Contains(n, y.key)
      {
        assert y in halos;
        TailIn(halos, y);
        PutGet(m, halos[0].key, Halo(GetOr(m, halos[0].key, Halo(halos[0].val.rank, [])).rank,
                                     GetOr(m, halos[0].key, Halo(halos[0].val.rank, [])).spaces + halos[0].val.spaces),
               y.key, Halo(0, []));
        var i :| 0 <= i < |halos[1..]| && halos[1..][i] == y;
        assert Less(halos[0].key, halos[i + 1].key);
      }
      MergePairsFresh(n, halos[1..], e);
      TailIn(halos, e);
    }
  }

  ghost predicate DistinctIds(ds: seq<Domain>) {
    forall i, j :: 0 <= i < j < |ds| ==> ds[i].id != ds[j].id
  }

  /** doms can be merged without touching an existing entry. */
  ghost predicate Fresh(pats: seq<HaloMap>, ds: seq<Domain>, doms: DomainMap) {
    && |pats| == |ds| && DistinctIds(ds) && AllLocal(ds, doms)
    && (forall k :: 0 <= k < |pats| ==> Sorted(pats[k]))
    && Sorted(doms) && (forall x :: x in doms ==> x.key.minor == 0 && Sorted(x.val))
    && (forall x :: x in doms ==> NoClash(pats[Position(ds, x.key.major)], x.val))
  }

  lemma {:induction false} FreshStep(pats: seq<HaloMap>, ds: seq<Domain>, doms: DomainMap)
    requires Fresh(pats, ds, doms) && doms != []
    ensures AllLocal(ds, doms[1..])
    ensures var p := Position(ds, doms[0].key.major);
      p < |ds| && Fresh(pats[p := MergePairs(pats[p], doms[0].val)], ds, doms[1..])
  {
    var x0 := doms[0];
    assert x0 in doms;
    var p := Position(ds, x0.key.major);
    MergePairsFresh(pats[p], x0.val, Entry(Key(0, 0), Halo(0, [])));
    forall x | x in doms[1..]
      ensures x in doms && Position(ds, x.key.major) != p
    {
      TailIn(doms, x);
      var i :| 0 <= i < |doms[1..]| && doms[1..][i] == x;
      assert Less(doms[0].key, doms[i + 1].key);
    }
    assert Sorted(doms[1..]);
  }

  /** Merging into fresh keys adds exactly what was sent for each domain. */
  lemma {:induction false} MergeDomainsFresh(pats: seq<HaloMap>, ds: seq<Domain>, doms: DomainMap, k: nat, e: Entry<Halo>)
    requires Fresh(pats, ds, doms) && k < |ds|
    ensures Sorted(MergeDomains(pats, ds, doms)[k])
    ensures e in MergeDomains(pats, ds, doms)[k] <==> e in pats[k] || e in Inner(doms, ds[k].id)
    decreases |doms|
  {
    if doms == [] {
      assert Inner(doms, ds[k].id) == [];
    } else {
      var x0 := doms[0];
      assert x0 in doms;
      var p := Position(ds, x0.key.major);
      FreshStep(pats, ds, doms);
      MergeStep(pats, ds, doms);
      var pats' := pats[p := MergePairs(pats[p], x0.val)];
      MergeDomainsFresh(pats', ds, doms[1..], k, e);
      MergePairsFresh(pats[p], x0.val, e);
      InnerTail(doms, ds[k].id);
      assert ds[p].id == x0.key.major;
      if k == p {
        assert Inner(doms, ds[k].id) == x0.val && Inner(doms[1..], ds[k].id) == [];
      }
    }
  }

  lemma {:induction false} InnerTail(doms: DomainMap, id: int)
    requires Sorted(doms) && doms != [] && doms[0].key.minor == 0
    requires forall x :: x in doms ==> x.key.minor == 0
    ensures Inner(doms, id) == if id == doms[0].key.major then doms[0].val else Inner(doms[1..], id)
    ensures id == doms[0].key.major ==> Inner(doms[1..], id) == []
  {
    var k := Key(id, 0);
    if id == doms[0].key.major {
      ContainsIff(doms, k, 0);
      var p := LowerBound(doms[1..], k);
      assert p < |doms[1..]| ==> doms[1..][p] == doms[p + 1] && Less(doms[0].key, doms[p + 1].key);
    } else if Contains(doms, k) {
      var p := LowerBound(doms, k);
      assert p > 0 && doms[1..][p - 1] == doms[p];
      ContainsIff(doms[1..], k, p - 1);
    } else if Contains(doms[1..], k) {
      var p := LowerBound(doms[1..], k);
      ContainsIff(doms, k, p + 1);
      assert false;
    }
  }

  // ------------------------------------------------------------------ own share

  /** send_halos().insert for every pair: keeps existing entries. */
  method InsertPairs(m: HaloMap, halos: HaloMap) returns (r: HaloMap)
    requires Sorted(m) && Sorted(halos) && NoClash(m, halos)
    ensures r == MergePairs(m, halos)
  {
    r := m;
    assert halos[0..] == halos;
    for i := 0 to |halos|
      invariant Sorted(r) && NoClash(r, halos[i..])
      invariant MergePairs(r, halos[i..]) == MergePairs(m, halos)
    {
      assert halos[i..][1..] == halos[i + 1..] && halos[i] in halos[i..];
      InsertStep(r, halos[i..]);
      if !Contains(r, halos[i].key) {
        r := Put(r, halos[i].key, halos[i].val);
      }
    }
    assert halos[|halos|..] == [];
  }

  lemma {:induction false} InsertStep(m: HaloMap, halos: HaloMap)
    requires Sorted(m) && Sorted(halos) && NoClash(m, halos) && halos != []
    ensures var n := Put(m, halos[0].key, halos[0].val);
      && !Contains(m, halos[0].key)
      && Sorted(n) && NoClash(n, halos[1..]) && MergePairs(m, halos) == MergePairs(n, halos[1..])
  {
    assert halos[0] in halos;
    assert [] + halos[0].val.spaces == halos[0].val.spaces;
    PutSorted(m, halos[0].key, halos[0].val);
    forall y | y in halos[1..]
      ensures !Contains(Put(m, halos[0].key, halos[0].val), y.key)
    {
      assert y in halos;
      var i :| 0 <= i < |halos[1..]| && halos[1..][i] == y;
      assert Less(halos[0].key, halos[i + 1].key);
      PutGet(m, halos[0].key, halos[0].val, y.key, Halo(0, []));
    }
  }

  /** Files this rank's own share directly. */
  method KeepOwn(pats: seq<HaloMap>, ds: seq<Domain>, doms: DomainMap) returns (r: seq<HaloMap>)
    requires Fresh(pats, ds, doms)
    ensures r == MergeDomains(pats, ds, doms)
  {
    r := pats;
    assert doms[0..] == doms;
    for i := 0 to |doms|
      invariant |r| == |ds| && Fresh(r, ds, doms[i..])
      invariant MergeDomains(r, ds, doms[i..]) == MergeDomains(pats, ds, doms)
    {
      assert doms[i..][1..] == doms[i + 1..] && doms[i] in doms[i..];
      FreshStep(r, ds, doms[i..]);
      MergeStep(r, ds, doms[i..]);
      var j := Position(ds, doms[i].key.major);
      var merged := InsertPairs(r[j], doms[i].val);
      r := r[j := merged];
    }
    assert doms[|doms|..] == [];
  }

  function Erase(sends: RankMap, k: Key): RankMap {
    if Contains(sends, k) then sends[..LowerBound(sends, k)] + sends[LowerBound(sends, k) + 1..] else sends
  }

  lemma {:induction false} EraseIn(sends: RankMap, k: Key, x: Entry<DomainMap>)
    requires Sorted(sends)
    ensures Sorted(Erase(sends, k))
    ensures x in Erase(sends, k) <==> x in sends && x.key != k
  {
    if Contains(sends, k) {
      var p := LowerBound(sends, k);
      var n := Erase(sends, k);
      assert forall i :: 0 <= i < |n| ==> n[i] == sends[if i < p then i else i + 1];
      if x in sends && x.key != k {
        var i :| 0 <= i < |sends| && sends[i] == x;
        assert n[if i < p then i else i - 1] == x;
      }
      if x in n {
        var i :| 0 <= i < |n| && n[i] == x;
        assert Less(n[i].key, k) || Less(k, n[i].key);
      }
    } else {
      if x in sends && x.key == k {
        GetIn(sends, k, x.val);
        assert false;
      }
    }
  }

  /** Dropping this rank's own share leaves every other rank's share as it was. */
  lemma {:induction false} EraseInner(sends: RankMap, me: int, s: int)
    requires Sorted(sends) && s != me
    ensures Contains(Erase(sends, Key(me, 0)), Key(s, 0)) <==> Contains(sends, Key(s, 0))
    ensures Inner(Erase(sends, Key(me, 0)), s) == Inner(sends, s)
  {
    var n := Erase(sends, Key(me, 0));
    EraseIn(sends, Key(me, 0), Entry(Key(s, 0), Inner(sends, s)));
    EraseIn(sends, Key(me, 0), Entry(Key(s, 0), Inner(n, s)));
    GetIn(sends, Key(s, 0), Inner(sends, s));
    GetIn(sends, Key(s, 0), Inner(n, s));
    GetIn(n, Key(s, 0), Inner(sends, s));
    GetIn(n, Key(s, 0), Inner(n, s));
  }

  // ------------------------------------------------------------------ all ranks

  /** The tagged receive maps of all ranks and the send maps they translate to. */
  ghost predicate AllSendMaps(w: World, t: seq<seq<HaloMap>>, sends: seq<RankMap>, dims: nat) {
    && |t| == |w| == |sends|
    && forall s :: 0 <= s < |w| ==> SendReady(w, s, t[s], dims) && IsSendMap(sends[s], w, s, t[s], dims)
  }

  /** Where an entry of rank s's send map comes from. */
  lemma {:induction false} LeafOrigin(w: World, t: seq<seq<HaloMap>>, sends: seq<RankMap>, dims: nat,
                                      s: nat, r: int, b: int, e: Entry<Halo>)
    returns (i: nat, j: nat)
    requires AllSendMaps(w, t, sends, dims) && s < |w| && Leaf(sends[s], r, b, e)
    ensures SentFor(w, s, t[s], dims, i, j, r, b, e)
    ensures e.key.major == w[s][i].id
    ensures 0 <= r < |w| && Position(w[r], b) < |w[r]|
  {
    assert SentBefore(w, s, t[s], dims, |t[s]|, 0, r, b, e);
    var a: nat, c: nat :| (a < |t[s]| || (a == |t[s]| && c < 0)) && SentFor(w, s, t[s], dims, a, c, r, b, e);
    i, j := a, c;
    assert Receivable(w, t[s][i][j], dims);
  }

  /** Everything rank s holds for rank me concerns domains of rank me. */
  lemma {:induction false} SharesLocal(w: World, t: seq<seq<HaloMap>>, sends: seq<RankMap>, dims: nat, s: nat, me: nat)
    requires AllSendMaps(w, t, sends, dims) && s < |w| && me < |w|
    ensures var doms := Inner(sends[s], me);
      && AllLocal(w[me], doms)
      && Sorted(doms) && (forall x :: x in doms ==> x.key.minor == 0 && Sorted(x.val) && x.val == Inner(doms, x.key.major))
  {
    var doms := Inner(sends[s], me);
    assert Sorted(doms);
    forall x | x in doms
      ensures Position(w[me], x.key.major) < |w[me]|
      ensures x.key.minor == 0 && Sorted(x.val) && x.val == Inner(doms, x.key.major)
    {
      GetIn(sends[s], Key(me, 0), doms);
      assert Entry(Key(me, 0), doms) in sends[s];
      GetIn(doms, x.key, x.val);
      assert Sorted(Inner(Inner(sends[s], me), x.key.major));
      assert Leaf(sends[s], me, x.key.major, x.val[0]);
      var i, j := LeafOrigin(w, t, sends, dims, s, me, x.key.major, x.val[0]);
    }
  }

  predicate Delivered(s: nat, me: nat, n: nat) {
    s == me || s < n
  }

  /** Domain k of rank me holds exactly what the ranks delivered so far have for it. */
  ghost predicate HoldsFrom(send: seq<HaloMap>, w: World, me: nat, sends: seq<RankMap>, n: nat, k: nat, e: Entry<Halo>)
    requires me < |w| && k < |w[me]|
  {
    exists s: nat :: s < |sends| && Delivered(s, me, n) && Leaf(sends[s], me, w[me][k].id, e)
  }

  ghost predicate Collected(send: seq<HaloMap>, w: World, me: nat, sends: seq<RankMap>, n: nat)
    requires me < |w|
  {
    && |send| == |w[me]|
    && (forall k :: 0 <= k < |send| ==> Sorted(send[k]))
    && (forall k, e :: 0 <= k < |send| ==> (e in send[k] <==> HoldsFrom(send, w, me, sends, n, k, e)))
  }

  lemma {:induction false} ShareFresh(send: seq<HaloMap>, w: World, t: seq<seq<HaloMap>>, sends: seq<RankMap>, dims: nat,
                                      me: nat, s: nat, n: nat)
    requires AllSendMaps(w, t, sends, dims) && s < |w| && me < |w|
    requires if s == me then send == seq(|w[me]|, _ => []) else Collected(send, w, me, sends, n) && n <= s
    ensures Fresh(send, w[me], Inner(sends[s], me))
  {
    var doms := Inner(sends[s], me);
    SharesLocal(w, t, sends, dims, s, me);
    assert ValidWorld(w, dims) by {
      assert SendReady(w, me, t[me], dims);
    }
    forall x, y | x in doms && y in x.val
      ensures !Contains(send[Position(w[me], x.key.major)], y.key)
    {
      var k := Position(w[me], x.key.major);
      if Contains(send[k], y.key) {
        ClashImpossible(send, w, t, sends, dims, me, s, n, k, y);
      }
    }
  }

  lemma {:induction false} ClashImpossible(send: seq<HaloMap>, w: World, t: seq<seq<HaloMap>>, sends: seq<RankMap>, dims: nat,
                                           me: nat, s: nat, n: nat, k: nat, y: Entry<Halo>)
    requires AllSendMaps(w, t, sends, dims) && s < |w| && me < |w| && k < |w[me]|
    requires if s == me then send == seq(|w[me]|, _ => []) else Collected(send, w, me, sends, n) && n <= s
    requires Leaf(sends[s], me, w[me][k].id, y)
    ensures !Contains(send[k], y.key)
  {
    assert SendReady(w, me, t[me], dims);
    var i, j := LeafOrigin(w, t, sends, dims, s, me, w[me][k].id, y);
    forall e | e in send[k]
      ensures e.key.major != w[s][i].id
    {
      if s != me {
        assert HoldsFrom(send, w, me, sends, n, k, e);
        var s': nat :| s' < |sends| && Delivered(s', me, n) && Leaf(sends[s'], me, w[me][k].id, e);
        var i', j' := LeafOrigin(w, t, sends, dims, s', me, w[me][k].id, e);
        assert w[s'][i'].id != w[s][i].id;
      }
    }
    ContainsMember(send[k], y.key);
  }

  lemma {:induction false} CollectStep(send: seq<HaloMap>, w: World, t: seq<seq<HaloMap>>, sends: seq<RankMap>, dims: nat,
                                       me: nat, s: nat)
    requires AllSendMaps(w, t, sends, dims) && s < |w| && me < |w| && s != me
    requires Collected(send, w, me, sends, s)
    ensures Fresh(send, w[me], Inner(sends[s], me))
    ensures Collected(MergeDomains(send, w[me], Inner(sends[s], me)), w, me, sends, s + 1)
  {
    var doms := Inner(sends[s], me);
    ShareFresh(send, w, t, sends, dims, me, s, s);
    var r := MergeDomains(send, w[me], doms);
    forall k | 0 <= k < |r|
      ensures Sorted(r[k])
    {
      MergeDomainsFresh(send, w[me], doms, k, Entry(Key(0, 0), Halo(0, [])));
    }
    forall k, e | 0 <= k < |r|
      ensures e in r[k] <==> HoldsFrom(r, w, me, sends, s + 1, k, e)
    {
      MergeDomainsFresh(send, w[me], doms, k, e);
      assert e in send[k] <==> HoldsFrom(send, w, me, sends, s, k, e);
      HoldsStep(send, r, w, me, sends, s, k, e);
    }
  }

  lemma {:induction false} HoldsStep(send: seq<HaloMap>, r: seq<HaloMap>, w: World, me: nat, sends: seq<RankMap>, s: nat, k: nat, e: Entry<Halo>)
    requires me < |w| && k < |w[me]| && s < |sends|
    ensures HoldsFrom(r, w, me, sends, s + 1, k, e)
        <==> HoldsFrom(send, w, me, sends, s, k, e) || Leaf(sends[s], me, w[me][k].id, e)
  {
    if HoldsFrom(r, w, me, sends, s + 1, k, e) {
      var s': nat :| s' < |sends| && Delivered(s', me, s + 1) && Leaf(sends[s'], me, w[me][k].id, e);
      assert Delivered(s', me, s) || s' == s;
    }
    if HoldsFrom(send, w, me, sends, s, k, e) {
      var s': nat :| s' < |sends| && Delivered(s', me, s) && Leaf(sends[s'], me, w[me][k].id, e);
      assert Delivered(s', me, s + 1);
    }
    if Leaf(sends[s], me, w[me][k].id, e) {
      assert Delivered(s, me, s + 1);
    }
  }

  lemma {:induction false} CollectOwn(w: World, t: seq<seq<HaloMap>>, sends: seq<RankMap>, dims: nat, me: nat)
    requires AllSendMaps(w, t, sends, dims) && me < |w|
    ensures var none := seq(|w[me]|, _ => []);
      && Fresh(none, w[me], Inner(sends[me], me))
      && Collected(MergeDomains(none, w[me], Inner(sends[me], me)), w, me, sends, 0)
  {
    var none: seq<HaloMap> := seq(|w[me]|, _ => []);
    var doms := Inner(sends[me], me);
    ShareFresh(none, w, t, sends, dims, me, me, 0);
    var r := MergeDomains(none, w[me], doms);
    forall k | 0 <= k < |r|
      ensures Sorted(r[k])
    {
      MergeDomainsFresh(none, w[me], doms, k, Entry(Key(0, 0), Halo(0, [])));
    }
    forall k, e | 0 <= k < |r|
      ensures e in r[k] <==> HoldsFrom(r, w, me, sends, 0, k, e)
    {
      MergeDomainsFresh(none, w[me], doms, k, e);
      if e in r[k] {
        assert Delivered(me, me, 0);
      }
    }
  }

  /** What rank s broadcasts and sends: its map without its own share. */
  ghost predicate SentBy(w: World, sends: seq<RankMap>, s: nat, me: nat, bcast: seq<int>, channel: seq<Msg>)
    requires s < |sends|
  {
    var out := Erase(sends[s], Key(s, 0));
    && bcast == Majors(out)
    && (me in bcast ==> channel == Encode(Inner(out, me)))
  }

  /** One rank's view of the whole connection phase: keeps its own share, then takes part in
      every rank's turn. bcast[s] and inbox[s] are what arrives from rank s. */
  method ConnectRank(w: World, me: nat, own: RankMap, bcast: seq<seq<int>>, inbox: seq<seq<Msg>>,
                     ghost t: seq<seq<HaloMap>>, ghost sends: seq<RankMap>, ghost dims: nat)
    returns (send: seq<HaloMap>)
    requires AllSendMaps(w, t, sends, dims) && me < |w| && own == sends[me]
    requires |bcast| == |inbox| == |w|
    requires forall s :: 0 <= s < |w| && s != me ==> SentBy(w, sends, s, me, bcast[s], inbox[s])
    ensures Collected(send, w, me, sends, |w|)
  {
    CollectOwn(w, t, sends, dims, me);
    send := KeepOwn(seq(|w[me]|, _ => []), w[me], Inner(own, me));
    for rank := 0 to |w|
      invariant Collected(send, w, me, sends, rank)
    {
      if rank != me {
        send := ReceiveTurn(send, w, me, rank, bcast[rank], inbox[rank], t, sends, dims);
      } else {
        OwnTurn(send, w, me, sends);
      }
    }
  }

  /** Rank's turn as the sender, seen from this rank. */
  method ReceiveTurn(send: seq<HaloMap>, w: World, me: nat, rank: nat, bcast: seq<int>, channel: seq<Msg>,
                     ghost t: seq<seq<HaloMap>>, ghost sends: seq<RankMap>, ghost dims: nat)
    returns (r: seq<HaloMap>)
    requires AllSendMaps(w, t, sends, dims) && me < |w| && rank < |w| && rank != me
    requires SentBy(w, sends, rank, me, bcast, channel) && Collected(send, w, me, sends, rank)
    ensures Collected(r, w, me, sends, rank + 1)
  {
    CollectStep(send, w, t, sends, dims, me, rank);
    ShareOnChannel(w, sends, rank, me, bcast, channel, t, dims);
    r := send;
    var sending := me in bcast;
    if sending {
      var merged, pos := ReceiveDomains(send, w[me], channel, Inner(sends[rank], me));
      r := merged;
    }
  }

  lemma {:induction false} OwnTurn(send: seq<HaloMap>, w: World, me: nat, sends: seq<RankMap>)
    requires me < |w| && Collected(send, w, me, sends, me)
    ensures Collected(send, w, me, sends, me + 1)
  {
    assert forall s: nat :: Delivered(s, me, me) == Delivered(s, me, me + 1);
  }

  lemma {:induction false} ShareOnChannel(w: World, sends: seq<RankMap>, s: nat, me: nat, bcast: seq<int>, channel: seq<Msg>,
                                          t: seq<seq<HaloMap>>, dims: nat)
    requires AllSendMaps(w, t, sends, dims) && s < |w| && me < |w| && s != me
    requires SentBy(w, sends, s, me, bcast, channel)
    ensures me in bcast ==> channel == Encode(Inner(sends[s], me))
    ensures me !in bcast ==> Inner(sends[s], me) == []
  {
    var out := Erase(sends[s], Key(s, 0));
    EraseInner(sends[s], s, me);
    assert Contains(out, Key(me, 0)) ==> bcast[LowerBound(out, Key(me, 0))] == me;
  }

  /** This rank's turn as sender: drops its own share and ships the rest. */
  method SenderTurn(w: World, me: nat, own: RankMap, ghost t: seq<seq<HaloMap>>, ghost sends: seq<RankMap>, ghost dims: nat)
    returns (ranks: seq<int>, channels: map<int, seq<Msg>>)
    requires AllSendMaps(w, t, sends, dims) && me < |w| && own == sends[me]
    ensures forall r: nat :: r < |w| && r != me ==>
      SentBy(w, sends, me, r, ranks, if r in channels then channels[r] else [])
  {
    var out := Erase(own, Key(me, 0));
    forall x
      ensures x in out <==> x in own && x.key != Key(me, 0)
    {
      EraseIn(own, Key(me, 0), x);
    }
    EraseIn(own, Key(me, 0), Entry(Key(me, 0), []));
    ranks, channels := ConnectAsSender(out);
  }
}

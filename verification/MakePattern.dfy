// Pattern construction as a whole: every rank's phases, run one after the other, with the
// collective results and the messages handed over between them.

module MakePattern {
  import opened OrderedMap
  import opened Pattern
  import opened Tags
  import opened SendHalos
  import opened Wire
  import opened Connect
  import opened Matching

  ghost predicate HalosShaped(w: World, halos: seq<seq<seq<SpacePair>>>, dims: nat) {
    && ValidWorld(w, dims) && |halos| == |w|
    && (forall r :: 0 <= r < |w| ==> |halos[r]| == |w[r]|)
    && (forall r, i :: 0 <= r < |w| && 0 <= i < |w[r]| ==> HalosOf(halos[r][i], dims))
  }

  /** What one rank holds after the phases it runs without talking to others. */
  ghost predicate LocalPhase(w: World, r: nat, halos: seq<seq<SpacePair>>, t: seq<HaloMap>, maxTag: nat, sends: RankMap, dims: nat)
    requires ValidWorld(w, dims) && r < |w| && |halos| == |w[r]|
    requires forall i :: 0 <= i < |halos| ==> HalosOf(halos[i], dims)
  {
    && SendReady(w, r, t, dims) && IsSendMap(sends, w, r, t, dims)
    && (forall i :: 0 <= i < |t| ==> IsPatternMap(t[i], w, halos[i], dims))
    && TagsOk(t, maxTag) && Tags.Numbered(t) && IsMaxTag(t, maxTag)
  }

  ghost predicate AllRecvMaps(recv: seq<HaloMap>, w: World, halos: seq<seq<SpacePair>>, dims: nat)
    requires ValidWorld(w, dims)
    requires forall i :: 0 <= i < |halos| ==> HalosOf(halos[i], dims)
  {
    |recv| == |halos| && forall a :: 0 <= a < |recv| ==> IsRecvMap(recv[a], w, halos[a], dims)
  }

  method RecvHalosOfRank(w: World, halos: seq<seq<SpacePair>>, ghost dims: nat) returns (recv: seq<HaloMap>)
    requires ValidWorld(w, dims)
    requires forall i :: 0 <= i < |halos| ==> HalosOf(halos[i], dims)
    ensures AllRecvMaps(recv, w, halos, dims)
  {
    recv := [];
    for i := 0 to |halos|
      invariant |recv| == i
      invariant forall a :: 0 <= a < i ==> IsRecvMap(recv[a], w, halos[a], dims)
    {
      var m := MakeRecvHalos(w, halos[i], dims);
      recv := recv + [m];
    }
  }

  /** Tagged receive maps are what the derivation of the send halos expects. */
  lemma {:induction false} TaggedReady(w: World, r: nat, halos: seq<seq<SpacePair>>, recv: seq<HaloMap>, t: seq<HaloMap>, dims: nat)
    requires ValidWorld(w, dims) && r < |w| && |halos| == |w[r]|
    requires forall i :: 0 <= i < |halos| ==> HalosOf(halos[i], dims)
    requires AllRecvMaps(recv, w, halos, dims) && IsTagged(recv, t)
    ensures SendReady(w, r, t, dims)
    ensures forall i :: 0 <= i < |t| ==> IsPatternMap(t[i], w, halos[i], dims)
  {
    forall i | 0 <= i < |t|
      ensures IsPatternMap(t[i], w, halos[i], dims)
    {
      PatternMapFromRecv(recv, t, i, w, halos[i], dims);
    }
    forall i, j | 0 <= i < |t| && 0 <= j < |t[i]|
      ensures Receivable(w, t[i][j], dims)
    {
      PatternMapReceivable(t[i], w, halos[i], dims, j);
    }
  }

  method LocalHalos(w: World, r: nat, halos: seq<seq<SpacePair>>, ghost dims: nat)
    returns (t: seq<HaloMap>, maxTag: nat, sends: RankMap)
    requires ValidWorld(w, dims) && r < |w| && |halos| == |w[r]|
    requires forall i :: 0 <= i < |halos| ==> HalosOf(halos[i], dims)
    ensures LocalPhase(w, r, halos, t, maxTag, sends, dims)
  {
    var recv := RecvHalosOfRank(w, halos, dims);
    t, maxTag := AssignTags(recv);
    AssignedTagsOk(recv, t, maxTag, maxTag);
    TaggedNumbered(recv, t);
    TaggedReady(w, r, halos, recv, t, dims);
    sends := MakeSendMap(w, r, t, dims);
  }

  lemma {:induction false} TagsOkUpTo(t: seq<HaloMap>, maxTag: nat, globalMax: nat)
    requires TagsOk(t, maxTag) && maxTag <= globalMax
    ensures TagsOk(t, globalMax)
  {
  }

  ghost predicate HasTag(recv: seq<seq<HaloMap>>, r: nat, i: nat, j: nat, tag: nat) {
    r < |recv| && i < |recv[r]| && j < |recv[r][i]| && recv[r][i][j].key.minor == tag
  }

  lemma {:induction false} AttainedTag(recv: seq<seq<HaloMap>>, maxTags: seq<nat>, tag: nat)
    requires |recv| == |maxTags| && tag in maxTags && tag != 0
    requires forall r :: 0 <= r < |recv| ==> IsMaxTag(recv[r], maxTags[r])
    ensures exists r: nat, i: nat, j: nat :: HasTag(recv, r, i, j, tag)
  {
    var r :| 0 <= r < |maxTags| && maxTags[r] == tag;
    assert IsMaxTag(recv[r], maxTags[r]);
    var i, j :| 0 <= i < |recv[r]| && 0 <= j < |recv[r][i]| && recv[r][i][j].key.minor == tag;
    assert HasTag(recv, r, i, j, tag);
  }

  ghost predicate PhaseAt(w: World, halos: seq<seq<seq<SpacePair>>>, recv: seq<seq<HaloMap>>, maxTags: seq<nat>, sends: seq<RankMap>,
                          dims: nat, r: nat)
    requires HalosShaped(w, halos, dims)
  {
    r < |recv| && r < |maxTags| && r < |sends| && r < |w| && LocalPhase(w, r, halos[r], recv[r], maxTags[r], sends[r], dims)
  }

  // What the ranks hold before they connect.
  ghost predicate LocalPhases(w: World, halos: seq<seq<seq<SpacePair>>>, recv: seq<seq<HaloMap>>, maxTags: seq<nat>, sends: seq<RankMap>,
                              dims: nat, n: nat)
    requires HalosShaped(w, halos, dims) && n <= |w|
  {
    && |recv| == |maxTags| == |sends| == n
    && forall a: nat :: a < n ==> PhaseAt(w, halos, recv, maxTags, sends, dims, a)
  }

  lemma {:induction false} NextPhase(w: World, halos: seq<seq<seq<SpacePair>>>, recv: seq<seq<HaloMap>>, maxTags: seq<nat>, sends: seq<RankMap>,
                                     dims: nat, n: nat, t: seq<HaloMap>, maxTag: nat, s: RankMap)
    requires HalosShaped(w, halos, dims) && n < |w| && LocalPhases(w, halos, recv, maxTags, sends, dims, n)
    requires LocalPhase(w, n, halos[n], t, maxTag, s, dims)
    ensures LocalPhases(w, halos, recv + [t], maxTags + [maxTag], sends + [s], dims, n + 1)
  {
    forall a: nat | a < n + 1
      ensures PhaseAt(w, halos, recv + [t], maxTags + [maxTag], sends + [s], dims, a)
    {
      if a < n {
        assert PhaseAt(w, halos, recv, maxTags, sends, dims, a);
      }
    }
  }

  /** Each rank's tags count its receives from a rank, and the largest tag of all is known to all. */
  ghost predicate TagsKnown(recv: seq<seq<HaloMap>>, maxTag: nat) {
    && (forall r :: 0 <= r < |recv| ==> TagsOk(recv[r], maxTag) && Tags.Numbered(recv[r]))
    && (maxTag == 0 || exists r: nat, i: nat, j: nat :: HasTag(recv, r, i, j, maxTag))
  }

  lemma {:induction false} AllTagsKnown(w: World, halos: seq<seq<seq<SpacePair>>>, recv: seq<seq<HaloMap>>, maxTags: seq<nat>, sends: seq<RankMap>,
                                        dims: nat, maxTag: nat)
    requires HalosShaped(w, halos, dims) && LocalPhases(w, halos, recv, maxTags, sends, dims, |w|)
    requires (forall i :: 0 <= i < |maxTags| ==> maxTags[i] <= maxTag) && (maxTag == 0 || maxTag in maxTags)
    ensures TagsKnown(recv, maxTag)
  {
    forall r | 0 <= r < |recv|
      ensures TagsOk(recv[r], maxTag) && Tags.Numbered(recv[r]) && IsMaxTag(recv[r], maxTags[r])
    {
      assert PhaseAt(w, halos, recv, maxTags, sends, dims, r);
      TagsOkUpTo(recv[r], maxTags[r], maxTag);
    }
    if maxTag != 0 {
      AttainedTag(recv, maxTags, maxTag);
    }
  }

  lemma {:induction false} PhasesConnect(w: World, halos: seq<seq<seq<SpacePair>>>, recv: seq<seq<HaloMap>>, maxTags: seq<nat>, sends: seq<RankMap>,
                                         dims: nat)
    requires HalosShaped(w, halos, dims) && LocalPhases(w, halos, recv, maxTags, sends, dims, |w|)
    ensures AllSendMaps(w, recv, sends, dims)
    ensures forall r, i :: 0 <= r < |w| && 0 <= i < |recv[r]| ==> |recv[r]| == |w[r]| && IsPatternMap(recv[r][i], w, halos[r][i], dims)
  {
    forall r | 0 <= r < |w|
      ensures SendReady(w, r, recv[r], dims) && IsSendMap(sends[r], w, r, recv[r], dims)
      ensures forall i :: 0 <= i < |recv[r]| ==> |recv[r]| == |w[r]| && IsPatternMap(recv[r][i], w, halos[r][i], dims)
    {
      assert PhaseAt(w, halos, recv, maxTags, sends, dims, r);
    }
  }

  /** make_pattern on all ranks: what the halo exchange later relies on holds for the result. */
  method MakePatterns(w: World, halos: seq<seq<seq<SpacePair>>>, ghost dims: nat) returns (p: PatternData)
    requires HalosShaped(w, halos, dims)
    ensures PatternOk(w, p, dims) && p.halos == halos && TagsKnown(p.recv, p.maxTag)
  {
    var recv, maxTags, sends := [], [], [];
    for r := 0 to |w|
      invariant LocalPhases(w, halos, recv, maxTags, sends, dims, r)
    {
      var t, maxTag, s := LocalHalos(w, r, halos[r], dims);
      NextPhase(w, halos, recv, maxTags, sends, dims, r, t, maxTag, s);
      recv, maxTags, sends := recv + [t], maxTags + [maxTag], sends + [s];
    }
    PhasesConnect(w, halos, recv, maxTags, sends, dims);
    var globalMax := GlobalMaxTag(0, maxTags);
    AllTagsKnown(w, halos, recv, maxTags, sends, dims, globalMax);
    var send := ConnectAll(w, recv, sends, dims);
    p := PatternData(halos, recv, sends, send, globalMax);
  }

  function Channel(channels: map<int, seq<Msg>>, r: nat): seq<Msg> {
    if r in channels then channels[r] else []
  }

  ghost predicate AllSent(w: World, sends: seq<RankMap>, bcast: seq<seq<int>>, net: seq<map<int, seq<Msg>>>)
  {
    && |bcast| == |net| <= |sends|
    && forall a, r: nat :: 0 <= a < |net| && r < |w| && r != a ==> SentBy(w, sends, a, r, bcast[a], Channel(net[a], r))
  }

  lemma {:induction false} OneMoreSent(w: World, sends: seq<RankMap>, bcast: seq<seq<int>>, net: seq<map<int, seq<Msg>>>,
                                       ranks: seq<int>, channels: map<int, seq<Msg>>)
    requires AllSent(w, sends, bcast, net) && |net| < |sends|
    requires forall r: nat :: r < |w| && r != |net| ==> SentBy(w, sends, |net|, r, ranks, Channel(channels, r))
    ensures AllSent(w, sends, bcast + [ranks], net + [channels])
  {
    forall a, r: nat | 0 <= a < |net| + 1 && r < |w| && r != a
      ensures SentBy(w, sends, a, r, (bcast + [ranks])[a], Channel((net + [channels])[a], r))
    {
      if a < |net| {
        assert SentBy(w, sends, a, r, bcast[a], Channel(net[a], r));
      }
    }
  }

  /** Every rank's turn as the sender. */
  method SendAll(w: World, ghost t: seq<seq<HaloMap>>, sends: seq<RankMap>, ghost dims: nat)
    returns (bcast: seq<seq<int>>, net: seq<map<int, seq<Msg>>>)
    requires AllSendMaps(w, t, sends, dims)
    ensures |net| == |w| && AllSent(w, sends, bcast, net)
  {
    bcast, net := [], [];
    for s := 0 to |w|
      invariant |net| == s && AllSent(w, sends, bcast, net)
    {
      var ranks, channels := SenderTurn(w, s, sends[s], t, sends, dims);
      OneMoreSent(w, sends, bcast, net, ranks, channels);
      bcast, net := bcast + [ranks], net + [channels];
    }
  }

  /** The connection phase: every rank keeps its own share and collects what the others sent. */
  method ConnectAll(w: World, ghost t: seq<seq<HaloMap>>, sends: seq<RankMap>, ghost dims: nat) returns (send: seq<seq<HaloMap>>)
    requires AllSendMaps(w, t, sends, dims)
    ensures |send| == |w| && forall r :: 0 <= r < |w| ==> Collected(send[r], w, r, sends, |w|)
  {
    var bcast, net := SendAll(w, t, sends, dims);
    send := [];
    for r := 0 to |w|
      invariant |send| == r
      invariant forall a :: 0 <= a < r ==> Collected(send[a], w, a, sends, |w|)
    {
      var inbox := seq(|w|, s requires 0 <= s < |w| => Channel(net[s], r));
      var mine := ConnectRank(w, r, sends[r], bcast, inbox, t, sends, dims);
      send := send + [mine];
    }
  }
}

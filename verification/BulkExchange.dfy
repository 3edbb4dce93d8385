// The bulk exchange as a whole: the ranges that the participants register make up the channels of
// the access protocol, and what the protocol keeps fresh are the cells of the fields' halos.

module BulkExchange {
  import opened OrderedMap
  import opened Pattern
  import opened SendHalos
  import opened Matching
  import opened CommObject
  import opened Cells
  import opened BulkRanges
  import R = RmaProtocol

  // ------------------------------------------------------------------ matching of posts

  /** How many posts on the same channel come before post n. */
  function Ordinal(posts: seq<Post>, n: nat): nat
    requires n < |posts|
  {
    |OnChannel(posts[..n], posts[n].rank, posts[n].tag)|
  }

  predicate OnIt(q: Post, rank: int, tag: int) {
    q.rank == rank && q.tag == tag
  }

  /** The post that is number k on its channel. */
  function Nth(posts: seq<Post>, rank: int, tag: int, k: nat): (n: nat)
    requires k < |OnChannel(posts, rank, tag)|
    ensures n < |posts| && OnIt(posts[n], rank, tag)
    ensures |OnChannel(posts[..n], rank, tag)| == k && posts[n] == OnChannel(posts, rank, tag)[k]
  {
    var last := |posts| - 1;
    if k < |OnChannel(posts[..last], rank, tag)| then
      var n := Nth(posts[..last], rank, tag, k);
      assert posts[..last][..n] == posts[..n];
      n
    else last
  }

  lemma {:induction false} OrdinalInRange(posts: seq<Post>, n: nat)
    requires n < |posts|
    ensures Ordinal(posts, n) < |OnChannel(posts, posts[n].rank, posts[n].tag)|
    ensures OnChannel(posts, posts[n].rank, posts[n].tag)[Ordinal(posts, n)] == posts[n]
  {
    var rank, tag := posts[n].rank, posts[n].tag;
    assert posts == posts[..n] + [posts[n]] + posts[n + 1..];
    OnChannelAppend(posts[..n], [posts[n]], rank, tag);
    OnChannelAppend(posts[..n] + [posts[n]], posts[n + 1..], rank, tag);
    assert [posts[n]][..0] == [];
    assert OnChannel([posts[n]], rank, tag) == OnChannel([], rank, tag) + [posts[n]];
  }

  /** Posts on one channel are told apart by their ordinals. */
  lemma {:induction false} OrdinalUnique(posts: seq<Post>, n: nat, m: nat)
    requires n < m < |posts| && OnIt(posts[m], posts[n].rank, posts[n].tag)
    ensures Ordinal(posts, n) < Ordinal(posts, m)
  {
    var rank, tag := posts[n].rank, posts[n].tag;
    OrdinalInRange(posts[..m], n);
    assert posts[..m][..n] == posts[..n];
  }

  lemma {:induction false} NthOrdinal(posts: seq<Post>, n: nat)
    requires n < |posts|
    ensures Ordinal(posts, n) < |OnChannel(posts, posts[n].rank, posts[n].tag)|
    ensures Nth(posts, posts[n].rank, posts[n].tag, Ordinal(posts, n)) == n
  {
    OrdinalInRange(posts, n);
    var m := Nth(posts, posts[n].rank, posts[n].tag, Ordinal(posts, n));
    if m < n {
      OrdinalUnique(posts, m, n);
    } else if n < m {
      OrdinalUnique(posts, n, m);
    }
  }

  // ------------------------------------------------------------------ the channels

  ghost predicate PostOk(posts: seq<seq<Post>>, r: nat, n: nat) {
    r < |posts| && n < |posts[r]| ==> 0 <= posts[r][n].rank < |posts|
  }

  ghost predicate BothEnds(targets: seq<seq<Post>>, sources: seq<seq<Post>>, r: nat, s: nat, tag: int) {
    r < |targets| && s < |sources| ==> |OnChannel(targets[r], s, tag)| == |OnChannel(sources[s], r, tag)|
  }

  /** Every channel has as many target ranges as source ranges. */
  ghost predicate PostsOk(targets: seq<seq<Post>>, sources: seq<seq<Post>>) {
    && |targets| == |sources|
    && (forall r: nat, n: nat :: PostOk(targets, r, n)) && (forall s: nat, n: nat :: PostOk(sources, s, n))
    && (forall r: nat, s: nat, tag: int :: BothEnds(targets, sources, r, s, tag))
  }

  /** One protocol channel for each target range: its owner receives, the rank it was posted to
      puts. */
  function Row(posts: seq<Post>, r: nat): (row: seq<R.Link>)
    requires forall n :: 0 <= n < |posts| ==> posts[n].rank >= 0
    ensures |row| == |posts| && forall n {:trigger row[n]} :: 0 <= n < |posts| ==> row[n] == R.Link(posts[n].rank, r)
  {
    seq(|posts|, n requires 0 <= n < |posts| => R.Link(posts[n].rank, r))
  }

  ghost function Rows(targets: seq<seq<Post>>): (rows: seq<seq<R.Link>>)
    requires forall r: nat, n: nat :: PostOk(targets, r, n)
    ensures |rows| == |targets|
    ensures forall r {:trigger rows[r]} :: 0 <= r < |rows| ==> |rows[r]| == |targets[r]|
    ensures forall r, n {:trigger rows[r][n]} :: 0 <= r < |rows| && 0 <= n < |targets[r]| ==> rows[r][n].src == targets[r][n].rank && rows[r][n].dst == r
  {
    RanksNatural(targets);
    seq(|targets|, r requires 0 <= r < |targets| => Row(targets[r], r))
  }

  lemma {:induction false} RanksNatural(posts: seq<seq<Post>>)
    requires forall r: nat, n: nat :: PostOk(posts, r, n)
    ensures forall r, n :: 0 <= r < |posts| && 0 <= n < |posts[r]| ==> 0 <= posts[r][n].rank < |posts|
  {
    forall r, n | 0 <= r < |posts| && 0 <= n < |posts[r]|
      ensures 0 <= posts[r][n].rank < |posts|
    {
      assert PostOk(posts, r, n);
    }
  }

  /** The channel of target range n of rank r. */
  ghost function ChannelOf(targets: seq<seq<Post>>, r: nat, n: nat): nat
    requires (forall r: nat, n: nat :: PostOk(targets, r, n)) && r <= |targets|
  {
    |Concat(Rows(targets), r)| + n
  }

  /** The target range that serves source range m of rank s: the one with the same ordinal. */
  ghost function PartnerOf(targets: seq<seq<Post>>, sources: seq<seq<Post>>, s: nat, m: nat): (n: nat)
    requires PostsOk(targets, sources) && s < |sources| && m < |sources[s]|
    ensures 0 <= sources[s][m].rank < |targets|
    ensures var r := sources[s][m].rank;
      && n < |targets[r]| && OnIt(targets[r][n], s, sources[s][m].tag)
      && Ordinal(targets[r], n) == Ordinal(sources[s], m)
  {
    assert PostOk(sources, s, m);
    var r := sources[s][m].rank;
    OrdinalInRange(sources[s], m);
    assert BothEnds(targets, sources, r, s, sources[s][m].tag);
    Nth(targets[r], s, sources[s][m].tag, Ordinal(sources[s], m))
  }

  /** The source range that puts into target range n of rank r. */
  ghost function SourceRange(targets: seq<seq<Post>>, sources: seq<seq<Post>>, r: nat, n: nat): (m: nat)
    requires PostsOk(targets, sources) && r < |targets| && n < |targets[r]|
    ensures 0 <= targets[r][n].rank < |sources|
    ensures var s := targets[r][n].rank;
      && m < |sources[s]| && OnIt(sources[s][m], r, targets[r][n].tag)
      && Ordinal(sources[s], m) == Ordinal(targets[r], n)
  {
    assert PostOk(targets, r, n);
    var s := targets[r][n].rank;
    OrdinalInRange(targets[r], n);
    assert BothEnds(targets, sources, r, s, targets[r][n].tag);
    Nth(sources[s], r, targets[r][n].tag, Ordinal(targets[r], n))
  }

  /** They are each other's partners. */
  lemma {:induction false} Partners(targets: seq<seq<Post>>, sources: seq<seq<Post>>, r: nat, n: nat)
    requires PostsOk(targets, sources) && r < |targets| && n < |targets[r]|
    ensures 0 <= targets[r][n].rank < |sources|
    ensures var s, m := targets[r][n].rank, SourceRange(targets, sources, r, n);
      sources[s][m].rank == r && PartnerOf(targets, sources, s, m) == n
  {
    assert PostOk(targets, r, n);
    NthOrdinal(targets[r], n);
  }

  lemma {:induction false} PartnersBack(targets: seq<seq<Post>>, sources: seq<seq<Post>>, s: nat, m: nat)
    requires PostsOk(targets, sources) && s < |sources| && m < |sources[s]|
    ensures 0 <= sources[s][m].rank < |targets|
    ensures SourceRange(targets, sources, sources[s][m].rank, PartnerOf(targets, sources, s, m)) == m
  {
    var n := PartnerOf(targets, sources, s, m);
    NthOrdinal(sources[s], m);
  }

  // ------------------------------------------------------------------ the protocol's configuration

  /** Channel numbers tell target ranges apart. */
  lemma {:induction false} ChannelUnique(targets: seq<seq<Post>>, r: nat, n: nat, r': nat, n': nat)
    requires forall r: nat, n: nat :: PostOk(targets, r, n)
    requires r < |targets| && n < |targets[r]| && r' < |targets| && n' < |targets[r']|
    requires ChannelOf(targets, r, n) == ChannelOf(targets, r', n')
    ensures r == r' && n == n'
  {
    var rows := Rows(targets);
    ConcatOf(rows, r + 1, r, n);
    ConcatOf(rows, r' + 1, r', n');
    if r < r' {
      ConcatOf(rows, r', r, n);
    } else if r' < r {
      ConcatOf(rows, r, r', n');
    }
  }

  ghost function TargetList(targets: seq<seq<Post>>, r: nat): (list: seq<nat>)
    requires (forall r: nat, n: nat :: PostOk(targets, r, n)) && r < |targets|
    ensures |list| == |targets[r]| && forall n {:trigger list[n]} :: 0 <= n < |list| ==> list[n] == ChannelOf(targets, r, n)
  {
    seq(|targets[r]|, n requires 0 <= n < |targets[r]| => ChannelOf(targets, r, n))
  }

  ghost function SourceChannel(targets: seq<seq<Post>>, sources: seq<seq<Post>>, s: nat, m: nat): (c: nat)
    requires PostsOk(targets, sources) && s < |sources| && m < |sources[s]|
  {
    var n := PartnerOf(targets, sources, s, m);
    ChannelOf(targets, sources[s][m].rank, n)
  }

  ghost function SourceList(targets: seq<seq<Post>>, sources: seq<seq<Post>>, s: nat): (list: seq<nat>)
    requires PostsOk(targets, sources) && s < |sources|
    ensures |list| == |sources[s]| && forall m {:trigger list[m]} :: 0 <= m < |list| ==> list[m] == SourceChannel(targets, sources, s, m)
  {
    seq(|sources[s]|, m requires 0 <= m < |sources[s]| => SourceChannel(targets, sources, s, m))
  }

  /** The participants' registered ranges as channels of the access protocol. */
  ghost function ProtocolOf(targets: seq<seq<Post>>, sources: seq<seq<Post>>, rounds: nat): (g: R.Config)
    requires PostsOk(targets, sources)
    ensures g.links == Concat(Rows(targets), |targets|) && g.rounds == rounds && |g.sources| == |g.targets| == |targets|
    ensures forall r {:trigger g.targets[r]} :: 0 <= r < |targets| ==> g.targets[r] == TargetList(targets, r)
    ensures forall s {:trigger g.sources[s]} :: 0 <= s < |sources| ==> g.sources[s] == SourceList(targets, sources, s)
  {
    R.Config(Concat(Rows(targets), |targets|),
             seq(|sources|, s requires 0 <= s < |sources| => SourceList(targets, sources, s)),
             seq(|targets|, r requires 0 <= r < |targets| => TargetList(targets, r)), rounds)
  }

  /** The channel of a target range: its two ends, and its place in their lists. */
  lemma {:induction false} ChannelEnds(targets: seq<seq<Post>>, sources: seq<seq<Post>>, rounds: nat, r: nat, n: nat)
    requires PostsOk(targets, sources) && r < |targets| && n < |targets[r]|
    ensures var g, c := ProtocolOf(targets, sources, rounds), ChannelOf(targets, r, n);
      && c < |g.links| && g.links[c].dst == r && g.links[c].src == targets[r][n].rank && g.links[c].src < |targets|
      && n < |g.targets[r]| && g.targets[r][n] == c
      && SourceRange(targets, sources, r, n) < |g.sources[g.links[c].src]|
      && g.sources[g.links[c].src][SourceRange(targets, sources, r, n)] == c
  {
    ConcatOf(Rows(targets), |targets|, r, n);
    Partners(targets, sources, r, n);
  }

  /** Every channel is that of a target range. */
  lemma {:induction false} ChannelHasTarget(targets: seq<seq<Post>>, sources: seq<seq<Post>>, rounds: nat, c: nat) returns (r: nat, n: nat)
    requires PostsOk(targets, sources) && c < |ProtocolOf(targets, sources, rounds).links|
    ensures r < |targets| && n < |targets[r]| && c == ChannelOf(targets, r, n)
  {
    r, n := ConcatAt(Rows(targets), |targets|, c);
  }

  lemma {:induction false} SourceEnds(targets: seq<seq<Post>>, sources: seq<seq<Post>>, rounds: nat, s: nat, m: nat)
    requires PostsOk(targets, sources) && s < |sources| && m < |sources[s]|
    ensures var g, c := ProtocolOf(targets, sources, rounds), SourceChannel(targets, sources, s, m);
      c < |g.links| && g.links[c].src == s
  {
    var n := PartnerOf(targets, sources, s, m);
    ChannelEnds(targets, sources, rounds, sources[s][m].rank, n);
  }

  lemma {:induction false} SourcesApart(targets: seq<seq<Post>>, sources: seq<seq<Post>>, s: nat, m: nat, m': nat)
    requires PostsOk(targets, sources) && s < |sources| && m < |sources[s]| && m' < |sources[s]|
    requires SourceChannel(targets, sources, s, m) == SourceChannel(targets, sources, s, m')
    ensures m == m'
  {
    var n, n' := PartnerOf(targets, sources, s, m), PartnerOf(targets, sources, s, m');
    ChannelUnique(targets, sources[s][m].rank, n, sources[s][m'].rank, n');
    PartnersBack(targets, sources, s, m);
    PartnersBack(targets, sources, s, m');
  }

  /** The ranges that meet on the message channels form a proper configuration. */
  lemma {:induction false} ProtocolOk(targets: seq<seq<Post>>, sources: seq<seq<Post>>, rounds: nat)
    requires PostsOk(targets, sources)
    ensures R.ConfigOk(ProtocolOf(targets, sources, rounds))
  {
    var g := ProtocolOf(targets, sources, rounds);
    forall c | 0 <= c < |g.links|
      ensures g.links[c].src < |g.sources| && g.links[c].dst < |g.sources|
      ensures c in g.sources[g.links[c].src] && c in g.targets[g.links[c].dst]
    {
      var r, n := ChannelHasTarget(targets, sources, rounds, c);
      ChannelEnds(targets, sources, rounds, r, n);
    }
    forall s, m | 0 <= s < |g.sources| && 0 <= m < |g.sources[s]|
      ensures g.sources[s][m] < |g.links| && g.links[g.sources[s][m]].src == s
    {
      SourceEnds(targets, sources, rounds, s, m);
    }
    forall r, n | 0 <= r < |g.targets| && 0 <= n < |g.targets[r]|
      ensures g.targets[r][n] < |g.links| && g.links[g.targets[r][n]].dst == r
    {
      ChannelEnds(targets, sources, rounds, r, n);
    }
    forall s, m, m' | 0 <= s < |g.sources| && 0 <= m < m' < |g.sources[s]|
      ensures g.sources[s][m] != g.sources[s][m']
    {
      if g.sources[s][m] == g.sources[s][m'] {
        SourcesApart(targets, sources, s, m, m');
      }
    }
    forall r, n, n' | 0 <= r < |g.targets| && 0 <= n < n' < |g.targets[r]|
      ensures g.targets[r][n] != g.targets[r][n']
    {
      assert ChannelOf(targets, r, n) < ChannelOf(targets, r, n');
    }
  }

  // ------------------------------------------------------------------ from patterns to channels

  ghost predicate MapsOk(w: World, p: PatternData, adds: seq<seq<nat>>) {
    && |p.recv| == |p.send| == |adds| == |w|
    && forall r :: 0 <= r < |w| ==> |p.recv[r]| == |p.send[r]| == |w[r]| && forall n :: 0 <= n < |adds[r]| ==> adds[r][n] < |w[r]|
  }

  lemma {:induction false} PatternMapsOk(w: World, p: PatternData, dims: nat, adds: seq<seq<nat>>, fields: nat)
    requires PatternOk(w, p, dims) && AddsOk(w, adds, fields)
    ensures MapsOk(w, p, adds)
  {
    forall r | 0 <= r < |w|
      ensures |p.recv[r]| == |w[r]| && |p.send[r]| == |w[r]|
    {
      MapsPerDomain(w, p, dims, r);
    }
  }

  /** The target ranges of all ranks, in the order in which they are registered. */
  ghost function TargetPosts(w: World, p: PatternData, t: Topology, adds: seq<seq<nat>>): (posts: seq<seq<Post>>)
    requires MapsOk(w, p, adds)
    ensures |posts| == |w|
    ensures forall r {:trigger posts[r]} :: 0 <= r < |w| ==> posts[r] == RankPosts(LocalCopies(p.recv[r], t, r), adds[r])
  {
    seq(|w|, r requires 0 <= r < |w| => RankPosts(LocalCopies(p.recv[r], t, r), adds[r]))
  }

  ghost function SourcePosts(w: World, p: PatternData, t: Topology, adds: seq<seq<nat>>): (posts: seq<seq<Post>>)
    requires MapsOk(w, p, adds)
    ensures |posts| == |w|
    ensures forall s {:trigger posts[s]} :: 0 <= s < |w| ==> posts[s] == RankPosts(LocalCopies(p.send[s], t, s), adds[s])
  {
    seq(|w|, s requires 0 <= s < |w| => RankPosts(LocalCopies(p.send[s], t, s), adds[s]))
  }

  /** Post q is for iteration space l of halo e of its domain. */
  ghost predicate PostedFor(maps: seq<HaloMap>, q: Post, e: Entry<Halo>, l: nat) {
    && q.dom < |maps| && e in maps[q.dom] && l < |e.val.spaces|
    && q.rank == e.val.rank && q.tag == e.key.minor && q.space == e.val.spaces[l]
  }

  lemma {:induction false} MapPostsIn(m: HaloMap, dom: nat, slot: nat, n: nat) returns (e: Entry<Halo>, l: nat)
    requires n < |MapPosts(m, dom, slot)|
    ensures e in m && l < |e.val.spaces|
    ensures MapPosts(m, dom, slot)[n] == Post(e.val.rank, e.key.minor, e.val.spaces[l], dom, slot)
  {
    var init, last := m[..|m| - 1], m[|m| - 1];
    var before := |MapPosts(init, dom, slot)|;
    if n < before {
      e, l := MapPostsIn(init, dom, slot, n);
    } else {
      e, l := last, |last.val.spaces| - 1 - (n - before);
    }
  }

  /** Where a post comes from. */
  lemma {:induction false} RankPostsIn(maps: seq<HaloMap>, adds: seq<nat>, n: nat) returns (e: Entry<Halo>, l: nat)
    requires (forall a :: 0 <= a < |adds| ==> adds[a] < |maps|) && n < |RankPosts(maps, adds)|
    ensures PostedFor(maps, RankPosts(maps, adds)[n], e, l)
    ensures RankPosts(maps, adds)[n].slot < BulkRanges.Count(adds, RankPosts(maps, adds)[n].dom)
  {
    var init, last := adds[..|adds| - 1], adds[|adds| - 1];
    var before := |RankPosts(maps, init)|;
    if n < before {
      e, l := RankPostsIn(maps, init, n);
    } else {
      e, l := MapPostsIn(maps[last], last, BulkRanges.Count(init, last), n - before);
    }
  }

  lemma {:induction false} RecvRank(w: World, p: PatternData, dims: nat, r: nat, i: nat, j: nat)
    requires PatternOk(w, p, dims) && r < |w| && i < |w[r]| == |p.recv[r]| && j < |p.recv[r][i]|
    ensures 0 <= p.recv[r][i][j].val.rank < |w|
  {
    PatternShape(w, p, dims, r, i, r, i);
    assert IsPatternMap(p.recv[r][i], w, p.halos[r][i], dims);
    PatternMapReceivable(p.recv[r][i], w, p.halos[r][i], dims, j);
  }

  /** A target range of rank r is for a local receive halo. */
  lemma {:induction false} TargetOrigin(w: World, p: PatternData, t: Topology, adds: seq<seq<nat>>, r: nat, n: nat) returns (j: nat, l: nat)
    requires MapsOk(w, p, adds) && r < |w| && n < |TargetPosts(w, p, t, adds)[r]|
    ensures var q := TargetPosts(w, p, t, adds)[r][n];
      && q.dom < |w[r]| && q.slot < BulkRanges.Count(adds[r], q.dom) && j < |p.recv[r][q.dom]|
      && PostedFor(p.recv[r], q, p.recv[r][q.dom][j], l) && Stays(t, r, true, p.recv[r][q.dom][j])
  {
    var e: Entry<Halo>;
    e, l := RankPostsIn(LocalCopies(p.recv[r], t, r), adds[r], n);
    var dom := TargetPosts(w, p, t, adds)[r][n].dom;
    KeptIn(p.recv[r][dom], t, r, true, e);
    j :| 0 <= j < |p.recv[r][dom]| && p.recv[r][dom][j] == e;
  }

  /** The ranges that fields of one pattern register meet channel by channel. */
  lemma {:induction false} PatternPostsOk(w: World, p: PatternData, dims: nat, t: Topology, adds: seq<seq<nat>>, fields: nat)
    requires PatternOk(w, p, dims) && AddsOk(w, adds, fields)
    ensures MapsOk(w, p, adds) && PostsOk(TargetPosts(w, p, t, adds), SourcePosts(w, p, t, adds))
  {
    PatternMapsOk(w, p, dims, adds, fields);
    var targets, sources := TargetPosts(w, p, t, adds), SourcePosts(w, p, t, adds);
    forall r: nat, n: nat
      ensures PostOk(targets, r, n)
    {
      if r < |w| {
        TargetRanks(w, p, dims, t, adds, fields, r);
      }
    }
    forall s: nat, n: nat
      ensures PostOk(sources, s, n)
    {
      if s < |w| {
        SourceRanks(w, p, dims, t, adds, fields, s);
      }
    }
    forall r: nat, s: nat, tag: int
      ensures BothEnds(targets, sources, r, s, tag)
    {
      if r < |w| && s < |w| {
        RangesPair(w, p, dims, t, adds, fields, r, s, tag);
      }
    }
  }

  lemma {:induction false} TargetRanks(w: World, p: PatternData, dims: nat, t: Topology, adds: seq<seq<nat>>, fields: nat, r: nat)
    requires PatternOk(w, p, dims) && AddsOk(w, adds, fields) && MapsOk(w, p, adds) && r < |w|
    ensures forall n :: 0 <= n < |TargetPosts(w, p, t, adds)[r]| ==> 0 <= TargetPosts(w, p, t, adds)[r][n].rank < |w|
  {
    forall n | 0 <= n < |TargetPosts(w, p, t, adds)[r]|
      ensures 0 <= TargetPosts(w, p, t, adds)[r][n].rank < |w|
    {
      var j, l := TargetOrigin(w, p, t, adds, r, n);
      RecvRank(w, p, dims, r, TargetPosts(w, p, t, adds)[r][n].dom, j);
    }
  }

  lemma {:induction false} SourceRanks(w: World, p: PatternData, dims: nat, t: Topology, adds: seq<seq<nat>>, fields: nat, s: nat)
    requires PatternOk(w, p, dims) && AddsOk(w, adds, fields) && MapsOk(w, p, adds) && s < |w|
    ensures forall n :: 0 <= n < |SourcePosts(w, p, t, adds)[s]| ==> 0 <= SourcePosts(w, p, t, adds)[s][n].rank < |w|
  {
    forall n | 0 <= n < |SourcePosts(w, p, t, adds)[s]|
      ensures 0 <= SourcePosts(w, p, t, adds)[s][n].rank < |w|
    {
      var e, l := RankPostsIn(LocalCopies(p.send[s], t, s), adds[s], n);
      var r, i, j := SourceOrigin(w, p, dims, t, s, SourcePosts(w, p, t, adds)[s][n].dom, e);
    }
  }

  /** The source range on the channel of a target range serves it. */
  lemma {:induction false} SourceServes(w: World, p: PatternData, dims: nat, t: Topology, adds: seq<seq<nat>>, fields: nat, r: nat, n: nat)
    requires PatternOk(w, p, dims) && AddsOk(w, adds, fields) && MapsOk(w, p, adds) && r < |w| && n < |TargetPosts(w, p, t, adds)[r]|
    requires PostsOk(TargetPosts(w, p, t, adds), SourcePosts(w, p, t, adds))
    ensures var targets, sources := TargetPosts(w, p, t, adds), SourcePosts(w, p, t, adds);
      && 0 <= targets[r][n].rank < |w|
      && Serves(w[targets[r][n].rank], targets[r][n], sources[targets[r][n].rank][SourceRange(targets, sources, r, n)])
  {
    var targets, sources := TargetPosts(w, p, t, adds), SourcePosts(w, p, t, adds);
    var m := SourceRange(targets, sources, r, n);
    var s, tag := targets[r][n].rank, targets[r][n].tag;
    OrdinalInRange(targets[r], n);
    OrdinalInRange(sources[s], m);
    RangesPair(w, p, dims, t, adds, fields, r, s, tag);
  }
}

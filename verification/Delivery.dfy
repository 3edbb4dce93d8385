// Which messages are on the network during one exchange, and how they match: every posted
// receive has exactly one message with its (source, tag), of the same size and layout.

module Delivery {
  import opened OrderedMap
  import opened Pattern
  import opened SendHalos
  import opened Duality
  import opened CommObject
  import opened ExchangeCycle
  import opened Matching

  /** Buffers of rank r after exchange has set them up (from a cleared state, see
      ExchangeCycle.HistoryIndependent, the active ones do not depend on the past). */
  ghost function BuffersOf(u: Setup, r: nat, receive: bool): Memory
    requires SetupOk(u) && r < |u.world|
  {
    ArgsOfOk(u, r);
    AllocateArgs([], ArgsOf(u, r), receive, |u.calls[r]|)
  }

  /** Data flows from domain (s, k) to domain (r, i). */
  ghost predicate Linked(u: Setup, r: nat, i: nat, s: nat, k: nat)
    requires SetupOk(u)
  {
    At(u, r, i) && At(u, s, k) && Flatten(Side(u, r, i, s, k, true)) != []
  }

  lemma {:induction false} SidePiecesOk(u: Setup, r: nat, i: nat, s: nat, k: nat, receive: bool)
    requires SetupOk(u) && At(u, r, i) && At(u, s, k)
    ensures PiecesOk(Flatten(Side(u, r, i, s, k, receive)))
    ensures Flatten(Side(u, r, i, s, k, receive)) != [] <==> Linked(u, r, i, s, k)
  {
    var me := if receive then r else s;
    ArgsOfOk(u, me);
    ChannelPieces(u, r, i, s, k, receive);
    ArgPiecesOk(ArgsOf(u, me), receive, PieceKey(u, r, i, s, k), |u.calls[me]|);
    SidesAgree(u, r, i, s, k);
  }

  /** The buffer of a channel, as computed by the receiver or by the sender. */
  ghost function ChannelBuffer(u: Setup, r: nat, i: nat, s: nat, k: nat, receive: bool): (b: Buffer)
    requires SetupOk(u) && Linked(u, r, i, s, k)
    ensures PiecesOk(Flatten(Side(u, r, i, s, k, receive)))
    ensures Fill(None, Flatten(Side(u, r, i, s, k, receive))) == Some(b)
    ensures LaidOut(b, Flatten(Side(u, r, i, s, k, receive)))
  {
    SidePiecesOk(u, r, i, s, k, receive);
    FillLaidOut(Flatten(Side(u, r, i, s, k, receive)));
    Fill(None, Flatten(Side(u, r, i, s, k, receive))).value
  }

  lemma {:induction false} PiecesWitness(args: seq<Arg>, receive: bool, key: Key, n: nat) returns (m: nat, l: nat)
    requires n <= |args| && ArgPieces(args, receive, key, n) != []
    ensures m < n && l < |Halos(args[m], receive)|
    ensures BufferKey(args[m], Halos(args[m], receive)[l], receive) == key
  {
    var a := args[n - 1];
    var halos := Halos(a, receive);
    var ps := HaloPieces(a, halos, TagOffset(args, a.container), receive, key, |halos|);
    if ps != [] {
      m := n - 1;
      l := HaloWitness(a, halos, TagOffset(args, a.container), receive, key, |halos|);
    } else {
      m, l := PiecesWitness(args, receive, key, n - 1);
    }
  }

  lemma {:induction false} HaloWitness(a: Arg, halos: HaloMap, offset: nat, receive: bool, key: Key, n: nat) returns (l: nat)
    requires n <= |halos| && HaloPieces(a, halos, offset, receive, key, n) != []
    ensures l < n && BufferKey(a, halos[l], receive) == key
  {
    if HaloPieces(a, halos, offset, receive, key, n - 1) != [] {
      l := HaloWitness(a, halos, offset, receive, key, n - 1);
    } else {
      l := n - 1;
    }
  }

  /** A key with data belongs to a pair of existing domains. */
  lemma {:induction false} KeyOfPair(u: Setup, me: nat, receive: bool, key: Key) returns (dom: nat, o: nat, q: nat)
    requires SetupOk(u) && me < |u.world|
    requires ArgPieces(ArgsOf(u, me), receive, key, |u.calls[me]|) != []
    ensures At(u, me, dom) && At(u, o, q)
    ensures key == if receive then PieceKey(u, me, dom, o, q) else PieceKey(u, o, q, me, dom)
  {
    var args := ArgsOf(u, me);
    var n, l := PiecesWitness(args, receive, key, |args|);
    assert CallOk(u.calls[me], |u.world[me]|, |u.slots|, n);
    dom := u.calls[me][n].dom;
    assert args[n] == ArgAt(u, me, n);
    UsePattern(u, u.slots[u.calls[me][n].slot].pattern);
    o, q := RemoteDomain(u.world, u.patterns[u.slots[u.calls[me][n].slot].pattern], u.dims, me, dom, receive, l);
  }

  lemma {:induction false} RemoteDomain(w: World, p: PatternData, dims: nat, r: nat, i: nat, receive: bool, l: nat)
    returns (s: nat, k: nat)
    requires PatternOk(w, p, dims) && r < |w| && i < |w[r]|
    requires |p.recv[r]| == |w[r]| && |p.send[r]| == |w[r]|
    requires l < |if receive then p.recv[r][i] else p.send[r][i]|
    ensures s < |w| && k < |w[s]|
    ensures (if receive then p.recv[r][i] else p.send[r][i])[l].key.major == w[s][k].id
  {
    if receive {
      PatternShape(w, p, dims, r, i, r, i);
      assert IsPatternMap(p.recv[r][i], w, p.halos[r][i], dims);
      PatternMapReceivable(p.recv[r][i], w, p.halos[r][i], dims, l);
      s := p.recv[r][i][l].val.rank;
      k := Position(w[s], p.recv[r][i][l].key.major);
    } else {
      var e := p.send[r][i][l];
      SendsMirrorReceives(w, p.halos, p.recv, p.sends, p.send, dims, r, i, e);
      assert e in p.send[r][i];
      var r': nat, i': nat, j': nat :| Mirrors(w, p.recv, r', i', j', r, i, e);
      s, k := r', i';
    }
  }

  ghost predicate IsChannelEntry(u: Setup, r: nat, i: nat, s: nat, k: nat, receive: bool, e: Entry<Buffer>)
    requires SetupOk(u)
  {
    Linked(u, r, i, s, k) && e == Entry(PieceKey(u, r, i, s, k), ChannelBuffer(u, r, i, s, k, receive))
  }

  /** Every active buffer of a rank belongs to exactly the channel its key names. */
  lemma {:induction false} ActiveIsChannel(u: Setup, me: nat, receive: bool, e: Entry<Buffer>) returns (dom: nat, o: nat, q: nat)
    requires SetupOk(u) && me < |u.world| && e in Active(BuffersOf(u, me, receive))
    ensures if receive then IsChannelEntry(u, me, dom, o, q, true, e) else IsChannelEntry(u, o, q, me, dom, false, e)
  {
    var args := ArgsOf(u, me);
    var m := BuffersOf(u, me, receive);
    ArgsOfOk(u, me);
    ArgsLookup([], args, receive, |args|, e.key);
    ActiveIn(m, e);
    LookupIn(m, e);
    dom, o, q := KeyOfPair(u, me, receive, e.key);
    if receive {
      ChannelPieces(u, me, dom, o, q, true);
      SidePiecesOk(u, me, dom, o, q, true);
    } else {
      ChannelPieces(u, o, q, me, dom, false);
      SidePiecesOk(u, o, q, me, dom, false);
    }
  }

  /** Every channel with data is active at both ends. */
  lemma {:induction false} ChannelIsActive(u: Setup, r: nat, i: nat, s: nat, k: nat, receive: bool)
    requires SetupOk(u) && Linked(u, r, i, s, k)
    ensures Entry(PieceKey(u, r, i, s, k), ChannelBuffer(u, r, i, s, k, receive))
         in Active(BuffersOf(u, if receive then r else s, receive))
  {
    var me := if receive then r else s;
    var key := PieceKey(u, r, i, s, k);
    var m := BuffersOf(u, me, receive);
    var e := Entry(key, ChannelBuffer(u, r, i, s, k, receive));
    ArgsOfOk(u, me);
    ArgsLookup([], ArgsOf(u, me), receive, |u.calls[me]|, key);
    ChannelPieces(u, r, i, s, k, receive);
    LookupIn(m, e);
    ActiveIn(m, e);
  }

  // ------------------------------------------------------------------ tags

  /** First piece of a channel: an entry of a receive map, tagged with the pattern's offset. */
  lemma {:induction false} FirstPiece(u: Setup, r: nat, i: nat, s: nat, k: nat) returns (j: nat, l: nat)
    requires SetupOk(u) && Linked(u, r, i, s, k)
    ensures j < |u.slots| && l < |RecvMap(u, u.slots[j].pattern, r, i)|
    ensures var e := RecvMap(u, u.slots[j].pattern, r, i)[l];
      && e.key.major == DomId(u, s, k) && e.val.rank == s
      && ChannelBuffer(u, r, i, s, k, true).tag == e.key.minor + TagOffset(CanonArgs(u), u.slots[j].pattern)
      && ChannelBuffer(u, r, i, s, k, true).address == s
  {
    var sp := Side(u, r, i, s, k, true);
    j := FirstNonEmpty(sp);
    SlotAgreement(u, r, i, s, k, j);
    var a := ArgOf(u, r, Call(i, j));
    var p := u.patterns[u.slots[j].pattern];
    var off := TagOffset(ArgsOf(u, r), a.container);
    OffsetIsCanonical(u, r, a.container);
    UsePattern(u, u.slots[j].pattern);
    PatternShape(u.world, p, u.dims, r, i, s, k);
    l := HaloWitness(a, a.recv, off, true, PieceKey(u, r, i, s, k), |a.recv|);
    var found, jj, ll := PairHalo(u.world, p, u.dims, r, i, s, k);
    SlotFound(u.world, p, u.dims, a.comps, r, i, s, k, jj, ll);
    HaloPiecesOne(a, a.recv, off, true, PieceKey(u, r, i, s, k), |a.recv|, l);
  }

  lemma {:induction false} FirstNonEmpty(sp: seq<seq<Piece>>) returns (j: nat)
    requires Flatten(sp) != []
    ensures j < |sp| && sp[j] != [] && Flatten(sp)[0] == sp[j][0]
  {
    var n := |sp| - 1;
    if Flatten(sp[..n]) == [] {
      j := n;
    } else {
      j := FirstNonEmpty(sp[..n]);
    }
  }

  lemma {:induction false} CanonSameMaxTag(u: Setup)
    requires SetupOk(u)
    ensures SameMaxTag(CanonArgs(u))
  {
  }

  lemma {:induction false} EntryTag(w: World, p: PatternData, dims: nat, r: nat, i: nat, l: nat)
    requires PatternOk(w, p, dims) && r < |w| && i < |w[r]| && |p.recv[r]| == |w[r]| && l < |p.recv[r][i]|
    ensures 0 <= p.recv[r][i][l].key.minor <= p.maxTag
  {
    assert TagsOk(p.recv[r], p.maxTag);
  }

  lemma {:induction false} SameTagSameEntry(w: World, p: PatternData, dims: nat, r: nat, i: nat, l: nat, i': nat, l': nat)
    requires PatternOk(w, p, dims) && r < |w| && |p.recv[r]| == |w[r]|
    requires i < |w[r]| && l < |p.recv[r][i]| && i' < |w[r]| && l' < |p.recv[r][i']|
    requires p.recv[r][i][l].val.rank == p.recv[r][i'][l'].val.rank
    requires p.recv[r][i][l].key.minor == p.recv[r][i'][l'].key.minor
    ensures i == i' && l == l'
  {
    assert TagsOk(p.recv[r], p.maxTag);
  }

  lemma {:induction false} SlotTagInRange(u: Setup, r: nat, i: nat, j: nat, l: nat)
    requires SetupOk(u) && At(u, r, i) && j < |u.slots| && l < |RecvMap(u, u.slots[j].pattern, r, i)|
    ensures 0 <= RecvMap(u, u.slots[j].pattern, r, i)[l].key.minor <= CanonArgs(u)[j].maxTag
  {
    var p := u.patterns[u.slots[j].pattern];
    UsePattern(u, u.slots[j].pattern);
    EntryTag(u.world, p, u.dims, r, i, l);
  }

  /** Receive entries of one rank from one remote rank with the same offset tag are the same
      entry of the same pattern. */
  lemma {:induction false} SameOffsetTag(u: Setup, r: nat, i: nat, j: nat, l: nat, i': nat, j': nat, l': nat)
    requires SetupOk(u) && At(u, r, i) && At(u, r, i') && j < |u.slots| && j' < |u.slots|
    requires l < |RecvMap(u, u.slots[j].pattern, r, i)| && l' < |RecvMap(u, u.slots[j'].pattern, r, i')|
    requires var e, f := RecvMap(u, u.slots[j].pattern, r, i)[l], RecvMap(u, u.slots[j'].pattern, r, i')[l'];
      && e.val.rank == f.val.rank
      && e.key.minor + TagOffset(CanonArgs(u), u.slots[j].pattern) == f.key.minor + TagOffset(CanonArgs(u), u.slots[j'].pattern)
    ensures u.slots[j].pattern == u.slots[j'].pattern && i == i' && l == l'
  {
    SlotTagInRange(u, r, i, j, l);
    SlotTagInRange(u, r, i', j', l');
    if u.slots[j].pattern != u.slots[j'].pattern {
      CanonSameMaxTag(u);
      TagRangesDisjoint(CanonArgs(u), j, j');
      assert false;
    } else {
      var p := u.patterns[u.slots[j].pattern];
      UsePattern(u, u.slots[j].pattern);
      SameTagSameEntry(u.world, p, u.dims, r, i, l, i', l');
    }
  }

  /** Two channels into one rank from one remote rank with the same tag are the same channel,
      over any list of patterns. */
  lemma {:induction false} ChannelTagsDistinct(u: Setup, r: nat, s: nat, i: nat, k: nat, i': nat, k': nat)
    requires SetupOk(u) && Linked(u, r, i, s, k) && Linked(u, r, i', s, k')
    requires ChannelBuffer(u, r, i, s, k, true).tag == ChannelBuffer(u, r, i', s, k', true).tag
    ensures i == i' && k == k'
  {
    var j, l := FirstPiece(u, r, i, s, k);
    var j', l' := FirstPiece(u, r, i', s, k');
    SameOffsetTag(u, r, i, j, l, i', j', l');
    assert u.world[s][k].id == u.world[s][k'].id;
  }

  /** Tag soundness: among the receives one exchange posts on a rank, (source, tag) is unique. */
  lemma {:induction false} ReceiveTagsUnique(u: Setup, r: nat, e: Entry<Buffer>, f: Entry<Buffer>)
    requires SetupOk(u) && r < |u.world|
    requires e in Active(BuffersOf(u, r, true)) && f in Active(BuffersOf(u, r, true))
    requires e.val.address == f.val.address && e.val.tag == f.val.tag
    ensures e == f
  {
    var i, s, k := ActiveIsChannel(u, r, true, e);
    var i', s', k' := ActiveIsChannel(u, r, true, f);
    var j, l := FirstPiece(u, r, i, s, k);
    var j', l' := FirstPiece(u, r, i', s', k');
    ChannelTagsDistinct(u, r, s, i, k, i', k');
  }

  /** The two ends of a channel: same tag, same size, same offsets, mutual addresses. */
  lemma {:induction false} EndsAgree(u: Setup, r: nat, i: nat, s: nat, k: nat)
    requires SetupOk(u) && Linked(u, r, i, s, k)
    ensures var b, c := ChannelBuffer(u, r, i, s, k, true), ChannelBuffer(u, r, i, s, k, false);
      && b.address == s && c.address == r && b.tag == c.tag && b.size == c.size
      && |b.infos| == |c.infos|
      && forall n :: 0 <= n < |b.infos| ==> b.infos[n].offset == c.infos[n].offset
  {
    var sp, sq := Side(u, r, i, s, k, true), Side(u, r, i, s, k, false);
    SidePiecesOk(u, r, i, s, k, true);
    SidePiecesOk(u, r, i, s, k, false);
    SidesAgree(u, r, i, s, k);
    LayoutAgrees(Flatten(sp), Flatten(sq));
    var j := FirstNonEmpty(sp);
    var j' := FirstNonEmpty(sq);
    SlotAgreement(u, r, i, s, k, j);
    SlotAgreement(u, r, i, s, k, j');
  }

  /** Every posted receive matches exactly one message sent to this rank with its tag; that
      message belongs to the same pair of domains and has the same size and offsets. */
  lemma {:induction false} ReceiveMatchesOneSend(u: Setup, r: nat, e: Entry<Buffer>) returns (f: Entry<Buffer>)
    requires SetupOk(u) && r < |u.world| && e in Active(BuffersOf(u, r, true))
    ensures 0 <= e.val.address < |u.world|
    ensures f in Active(BuffersOf(u, e.val.address, false)) && f.val.address == r && f.val.tag == e.val.tag
    ensures f.key == e.key && f.val.size == e.val.size && |f.val.infos| == |e.val.infos|
    ensures forall n :: 0 <= n < |e.val.infos| ==> f.val.infos[n].offset == e.val.infos[n].offset
    ensures forall g :: g in Active(BuffersOf(u, e.val.address, false)) && g.val.address == r && g.val.tag == e.val.tag ==> g == f
  {
    var i, s, k := ActiveIsChannel(u, r, true, e);
    EndsAgree(u, r, i, s, k);
    ChannelIsActive(u, r, i, s, k, false);
    f := Entry(e.key, ChannelBuffer(u, r, i, s, k, false));
    forall g | g in Active(BuffersOf(u, s, false)) && g.val.address == r && g.val.tag == e.val.tag
      ensures g == f
    {
      var k', r', i' := ActiveIsChannel(u, s, false, g);
      EndsAgree(u, r', i', s, k');
      ChannelTagsDistinct(u, r, s, i, k, i', k');
    }
  }
}

// Several exchanges in a row, by ranks that may be rounds apart: since messages of one source and
// tag do not overtake each other, every receive gets the message of its own round.

module Rounds {
  import opened OrderedMap
  import opened Pattern
  import opened CommObject
  import opened ExchangeCycle
  import opened Matching
  import opened Delivery
  import opened Cells
  import opened EndToEnd
  import opened HaloExchange

  // ------------------------------------------------------------------ one channel in one round

  ghost predicate OnChannel(e: Entry<Buffer>, peer: int, tag: int) {
    e.val.address == peer && e.val.tag == tag
  }

  /** The entries for one peer and tag, in the order in which they are posted. */
  ghost function On(m: Memory, peer: int, tag: int): Memory {
    if m == [] then []
    else
      var n := |m| - 1;
      On(m[..n], peer, tag) + if OnChannel(m[n], peer, tag) then [m[n]] else []
  }

  lemma {:induction false} OnIn(m: Memory, peer: int, tag: int, e: Entry<Buffer>)
    ensures e in On(m, peer, tag) <==> e in m && OnChannel(e, peer, tag)
  {
    if m != [] {
      var n := |m| - 1;
      OnIn(m[..n], peer, tag, e);
      assert m == m[..n] + [m[n]];
    }
  }

  lemma {:induction false} OnNone(m: Memory, peer: int, tag: int)
    requires forall i :: 0 <= i < |m| ==> !OnChannel(m[i], peer, tag)
    ensures On(m, peer, tag) == []
  {
    if m != [] {
      OnNone(m[..|m| - 1], peer, tag);
    }
  }

  /** A list without repetitions has at most one entry for a peer and tag if all of them are equal. */
  lemma {:induction false} OnOne(m: Memory, peer: int, tag: int)
    requires Sorted(m)
    requires forall e, f :: e in m && f in m && OnChannel(e, peer, tag) && OnChannel(f, peer, tag) ==> e == f
    ensures |On(m, peer, tag)| <= 1
  {
    if m != [] {
      var n := |m| - 1;
      if OnChannel(m[n], peer, tag) {
        forall i | 0 <= i < |m[..n]|
          ensures !OnChannel(m[..n][i], peer, tag)
        {
          assert m[..n][i] == m[i] && Less(m[i].key, m[n].key);
        }
        OnNone(m[..n], peer, tag);
      } else {
        OnOne(m[..n], peer, tag);
      }
    }
  }

  /** What rank s sends to rank r with this tag in one exchange. */
  ghost function Sent(u: Setup, s: nat, r: nat, tag: int): Memory
    requires SetupOk(u) && s < |u.world|
  {
    On(Active(BuffersOf(u, s, false)), r, tag)
  }

  /** The receives that rank r posts for rank s and this tag. */
  ghost function Posted(u: Setup, s: nat, r: nat, tag: int): Memory
    requires SetupOk(u) && r < |u.world|
  {
    On(Active(BuffersOf(u, r, true)), s, tag)
  }

  /** A receive and the message for it. */
  ghost predicate Matched(e: Entry<Buffer>, f: Entry<Buffer>) {
    && f.key == e.key && f.val.size == e.val.size && f.val.tag == e.val.tag && |f.val.infos| == |e.val.infos|
    && forall n :: 0 <= n < |e.val.infos| ==> f.val.infos[n].offset == e.val.infos[n].offset
  }

  /** Every message has a receive. */
  lemma {:induction false} SendHasReceive(u: Setup, s: nat, r: nat, f: Entry<Buffer>) returns (e: Entry<Buffer>)
    requires SetupOk(u) && s < |u.world| && r < |u.world| && f in Active(BuffersOf(u, s, false)) && f.val.address == r
    ensures e in Active(BuffersOf(u, r, true)) && OnChannel(e, s, f.val.tag)
  {
    var k, r', i := ActiveIsChannel(u, s, false, f);
    EndsAgree(u, r', i, s, k);
    ChannelIsActive(u, r', i, s, k, true);
    e := Entry(f.key, ChannelBuffer(u, r', i, s, k, true));
  }

  lemma {:induction false} BuffersSorted(u: Setup, r: nat, receive: bool)
    requires SetupOk(u) && r < |u.world|
    ensures Sorted(Active(BuffersOf(u, r, receive)))
  {
    ArgsOfOk(u, r);
    ArgsLookup([], ArgsOf(u, r), receive, |u.calls[r]|, Key(0, 0));
    ActiveIn(BuffersOf(u, r, receive), Entry(Key(0, 0), Buffer(0, 0, 0, [])));
  }

  lemma {:induction false} PostedOnce(u: Setup, s: nat, r: nat, tag: int)
    requires SetupOk(u) && s < |u.world| && r < |u.world|
    ensures |Posted(u, s, r, tag)| <= 1
  {
    BuffersSorted(u, r, true);
    var m := Active(BuffersOf(u, r, true));
    forall e, f | e in m && f in m && OnChannel(e, s, tag) && OnChannel(f, s, tag)
      ensures e == f
    {
      ReceiveTagsUnique(u, r, e, f);
    }
    OnOne(m, s, tag);
  }

  lemma {:induction false} SentOnce(u: Setup, s: nat, r: nat, tag: int)
    requires SetupOk(u) && s < |u.world| && r < |u.world|
    ensures |Sent(u, s, r, tag)| <= 1
  {
    BuffersSorted(u, s, false);
    var m := Active(BuffersOf(u, s, false));
    forall f, g | f in m && g in m && OnChannel(f, r, tag) && OnChannel(g, r, tag)
      ensures f == g
    {
      var e := SendHasReceive(u, s, r, f);
      var h := ReceiveMatchesOneSend(u, r, e);
    }
    OnOne(m, r, tag);
  }

  lemma {:induction false} PostedIsSent(u: Setup, s: nat, r: nat, tag: int, e: Entry<Buffer>) returns (f: Entry<Buffer>)
    requires SetupOk(u) && s < |u.world| && r < |u.world| && e in Posted(u, s, r, tag)
    ensures f in Sent(u, s, r, tag) && Matched(e, f)
  {
    OnIn(Active(BuffersOf(u, r, true)), s, tag, e);
    f := ReceiveMatchesOneSend(u, r, e);
    OnIn(Active(BuffersOf(u, s, false)), r, tag, f);
  }

  lemma {:induction false} SentIsPosted(u: Setup, s: nat, r: nat, tag: int, f: Entry<Buffer>) returns (e: Entry<Buffer>)
    requires SetupOk(u) && s < |u.world| && r < |u.world| && f in Sent(u, s, r, tag)
    ensures e in Posted(u, s, r, tag)
  {
    OnIn(Active(BuffersOf(u, s, false)), r, tag, f);
    e := SendHasReceive(u, s, r, f);
    OnIn(Active(BuffersOf(u, r, true)), s, tag, e);
  }

  /** The receives and the messages of a channel, one by one. */
  ghost predicate Pairwise(posted: Memory, sent: Memory) {
    |posted| == |sent| && forall n :: 0 <= n < |posted| ==> Matched(posted[n], sent[n])
  }

  lemma {:induction false} OneEach(posted: Memory, sent: Memory, e: Entry<Buffer>, f: Entry<Buffer>)
    requires |posted| <= 1 && |sent| <= 1 && e in posted && f in sent && Matched(e, f)
    ensures Pairwise(posted, sent)
  {
  }

  /** In one exchange a channel carries one message and has one receive, which match, or neither. */
  lemma {:induction false} OneRound(u: Setup, s: nat, r: nat, tag: int)
    requires SetupOk(u) && s < |u.world| && r < |u.world|
    ensures Pairwise(Posted(u, s, r, tag), Sent(u, s, r, tag)) && |Sent(u, s, r, tag)| <= 1
  {
    var sent, posted := Sent(u, s, r, tag), Posted(u, s, r, tag);
    PostedOnce(u, s, r, tag);
    SentOnce(u, s, r, tag);
    if sent != [] {
      var e := SentIsPosted(u, s, r, tag, sent[0]);
      var f := PostedIsSent(u, s, r, tag, e);
      OneEach(posted, sent, e, f);
    } else if posted != [] {
      var f := PostedIsSent(u, s, r, tag, posted[0]);
      assert false;
    }
  }

  // ------------------------------------------------------------------ a channel over all rounds

  /** A message or a receive, and the exchange it belongs to. */
  datatype Item = Item(round: nat, entry: Entry<Buffer>)

  ghost predicate RoundAt(us: seq<Setup>, ranks: nat, t: nat) {
    t < |us| ==> SetupOk(us[t]) && |us[t].world| == ranks
  }

  /** The same ranks exchange in every round, with any fields and patterns. */
  ghost predicate RoundsOk(us: seq<Setup>, ranks: nat) {
    forall t: nat :: RoundAt(us, ranks, t)
  }

  ghost function Labelled(t: nat, m: Memory): (items: seq<Item>)
    ensures |items| == |m| && forall p {:trigger items[p]} :: 0 <= p < |m| ==> items[p] == Item(t, m[p])
  {
    seq(|m|, p requires 0 <= p < |m| => Item(t, m[p]))
  }

  ghost function SentIn(us: seq<Setup>, s: nat, r: nat, tag: int, t: nat): Memory {
    if t < |us| && SetupOk(us[t]) && s < |us[t].world| then Sent(us[t], s, r, tag) else []
  }

  ghost function PostedIn(us: seq<Setup>, s: nat, r: nat, tag: int, t: nat): Memory {
    if t < |us| && SetupOk(us[t]) && r < |us[t].world| then Posted(us[t], s, r, tag) else []
  }

  /** What is posted in one round after the other. */
  ghost function Log(ms: seq<Memory>): seq<Item> {
    if ms == [] then [] else Log(ms[..|ms| - 1]) + Labelled(|ms| - 1, ms[|ms| - 1])
  }

  lemma {:induction false} LogIn(ms: seq<Memory>, p: nat)
    requires p < |Log(ms)|
    ensures Log(ms)[p].round < |ms| && Log(ms)[p].entry in ms[Log(ms)[p].round]
  {
    if p < |Log(ms[..|ms| - 1])| {
      LogIn(ms[..|ms| - 1], p);
    }
  }

  ghost function AllSent(us: seq<Setup>, s: nat, r: nat, tag: int): (ms: seq<Memory>)
    ensures |ms| == |us| && forall t {:trigger ms[t]} :: 0 <= t < |us| ==> ms[t] == SentIn(us, s, r, tag, t)
  {
    seq(|us|, t requires 0 <= t < |us| => SentIn(us, s, r, tag, t))
  }

  ghost function AllPosted(us: seq<Setup>, s: nat, r: nat, tag: int): (ms: seq<Memory>)
    ensures |ms| == |us| && forall t {:trigger ms[t]} :: 0 <= t < |us| ==> ms[t] == PostedIn(us, s, r, tag, t)
  {
    seq(|us|, t requires 0 <= t < |us| => PostedIn(us, s, r, tag, t))
  }

  /** All messages from rank s to rank r with this tag, in the order in which they are sent: the
      exchanges of a rank follow each other. */
  ghost function SentLog(us: seq<Setup>, s: nat, r: nat, tag: int): seq<Item> {
    Log(AllSent(us, s, r, tag))
  }

  /** All receives that rank r posts for them. */
  ghost function PostedLog(us: seq<Setup>, s: nat, r: nat, tag: int): seq<Item> {
    Log(AllPosted(us, s, r, tag))
  }

  ghost predicate SameItem(a: Item, b: Item) {
    a.round == b.round && Matched(a.entry, b.entry)
  }

  ghost predicate Aligned(posted: seq<Item>, sent: seq<Item>) {
    |posted| == |sent| && forall p :: 0 <= p < |posted| ==> SameItem(posted[p], sent[p])
  }

  lemma {:induction false} AlignedMore(posted: seq<Item>, sent: seq<Item>, t: nat, e: Memory, f: Memory)
    requires Aligned(posted, sent) && Pairwise(e, f)
    ensures Aligned(posted + Labelled(t, e), sent + Labelled(t, f))
  {
  }

  lemma {:induction false} LogsAligned(posted: seq<Memory>, sent: seq<Memory>)
    requires |posted| == |sent| && forall t :: 0 <= t < |posted| ==> Pairwise(posted[t], sent[t])
    ensures Aligned(Log(posted), Log(sent))
  {
    if posted != [] {
      var n := |posted| - 1;
      LogsAligned(posted[..n], sent[..n]);
      AlignedMore(Log(posted[..n]), Log(sent[..n]), n, posted[n], sent[n]);
    }
  }

  lemma {:induction false} RoundInOrder(us: seq<Setup>, ranks: nat, s: nat, r: nat, tag: int, t: nat)
    requires RoundsOk(us, ranks) && s < ranks && r < ranks
    ensures Pairwise(PostedIn(us, s, r, tag, t), SentIn(us, s, r, tag, t))
  {
    assert RoundAt(us, ranks, t);
    if t < |us| {
      OneRound(us[t], s, r, tag);
    }
  }

  /** The p-th receive and the p-th message of a channel belong to the same round and match. */
  lemma {:induction false} InOrder(us: seq<Setup>, ranks: nat, s: nat, r: nat, tag: int)
    requires RoundsOk(us, ranks) && s < ranks && r < ranks
    ensures Aligned(PostedLog(us, s, r, tag), SentLog(us, s, r, tag))
  {
    forall t | 0 <= t < |us|
      ensures Pairwise(AllPosted(us, s, r, tag)[t], AllSent(us, s, r, tag)[t])
    {
      RoundInOrder(us, ranks, s, r, tag, t);
    }
    LogsAligned(AllPosted(us, s, r, tag), AllSent(us, s, r, tag));
  }

  // ------------------------------------------------------------------ delivery in order

  /** data is what the network delivers, in order, for receive e of rank r in round t: if e is the
      p-th receive of its channel, the p-th message sent on it, packed from the fields of the
      round in which it was sent. */
  ghost predicate DeliveredInOrder(us: seq<Setup>, ranks: nat, stores: seq<Store>, r: nat, t: nat, e: Entry<Buffer>, data: seq<bv8>)
    requires |stores| == |us|
  {
    && 0 <= e.val.address < ranks
    && exists p: nat, memory: seq<bv8> :: ArrivesAt(us, stores, r, t, e, data, p, memory)
  }

  ghost predicate ArrivesAt(us: seq<Setup>, stores: seq<Store>, r: nat, t: nat, e: Entry<Buffer>, data: seq<bv8>, p: nat, memory: seq<bv8>)
    requires |stores| == |us| && 0 <= e.val.address
  {
    var posted, sent := PostedLog(us, e.val.address, r, e.val.tag), SentLog(us, e.val.address, r, e.val.tag);
    && p < |posted| && posted[p] == Item(t, e) && p < |sent| && sent[p].round < |us|
    && Packable(us[sent[p].round], stores[sent[p].round], sent[p].entry.val) && |memory| == sent[p].entry.val.size
    && data == MessageOf(us[sent[p].round], stores[sent[p].round], sent[p].entry.val, memory)
  }

  /** A receive gets the message of its own round. */
  lemma {:induction false} OwnRound(us: seq<Setup>, ranks: nat, stores: seq<Store>, r: nat, t: nat, e: Entry<Buffer>, data: seq<bv8>)
    requires RoundsOk(us, ranks) && r < ranks && |stores| == |us| && t < |us| && RoundAt(us, ranks, t)
    requires DeliveredInOrder(us, ranks, stores, r, t, e, data)
    ensures MayArrive(us[t], stores[t], r, e, data)
  {
    var s: nat, tag := e.val.address, e.val.tag;
    var p: nat, memory: seq<bv8> :| ArrivesAt(us, stores, r, t, e, data, p, memory);
    var posted, sent := PostedLog(us, s, r, tag), SentLog(us, s, r, tag);
    InOrder(us, ranks, s, r, tag);
    LogIn(AllSent(us, s, r, tag), p);
    assert SameItem(posted[p], sent[p]);
    OnIn(Active(BuffersOf(us[t], s, false)), r, tag, sent[p].entry);
  }

  /** Every exchange of a series fills the halos: whatever rounds the other ranks are in, after its
      t-th wait a rank's halo cells hold what their owners held at their t-th exchange. */
  lemma {:induction false} EveryRoundFillsHalos(us: seq<Setup>, ranks: nat, stores: seq<Store>, t: nat, r: nat,
                                                order: seq<Entry<Buffer>>, data: seq<seq<bv8>>, i: nat, j: nat, x: seq<int>)
    requires RoundsOk(us, ranks) && r < ranks && |stores| == |us| && t < |us| && RoundAt(us, ranks, t)
    requires GridOk(us[t]) && StoreOk(us[t], stores[t]) && |data| == |order|
    requires forall e :: e in order <==> e in Active(BuffersOf(us[t], r, true))
    requires forall a :: 0 <= a < |order| ==> DeliveredInOrder(us, ranks, stores, r, t, order[a], data[a])
    requires At(us[t], r, i) && j < |us[t].slots|
    ensures ValueAt(Received(us[t], stores[t], order, data, |order|), FieldPtr(DomId(us[t], r, i), j), x)
         == Expected(us[t], stores[t], r, i, j, x)
  {
    forall a | 0 <= a < |order|
      ensures order[a] in Active(BuffersOf(us[t], r, true)) && MayArrive(us[t], stores[t], r, order[a], data[a])
    {
      assert order[a] in order;
      OwnRound(us, ranks, stores, r, t, order[a], data[a]);
    }
    ExchangeFillsHalos(us[t], stores[t], r, order, data, i, j, x);
  }
}

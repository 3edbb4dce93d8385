// Life cycle of a reused communication object (communication_object_2.hpp:244-306, 389-601):
// exchange, wait and clear, over any number of cycles with varying fields.

module ExchangeCycle {
  import opened OrderedMap
  import opened Pattern
  import opened CommObject

  /** What one exchange puts on the network: the buffers with data, in map order. Address,
      tag and size of an entry are those of the posted receive or send. */
  datatype Posts = Posts(recvs: Memory, sends: Memory)

  datatype Outcome = Accepted(posts: Posts) | Rejected

  /** Entries with data: those that post_recvs and pack act on. */
  function Active(m: Memory): Memory {
    if m == [] then []
    else
      var n := |m| - 1;
      if m[n].val.size > 0 then Active(m[..n]) + [m[n]] else Active(m[..n])
  }

  ghost predicate Cleared(m: Memory) {
    Sorted(m) && forall i :: 0 <= i < |m| ==> m[i].val.size == 0 && m[i].val.infos == []
  }

  lemma {:induction false} ActiveIn(m: Memory, e: Entry<Buffer>)
    requires Sorted(m)
    ensures Sorted(Active(m))
    ensures e in Active(m) <==> e in m && e.val.size > 0
    ensures forall i :: 0 <= i < |Active(m)| ==> Active(m)[i] in m
  {
    if m != [] {
      var n := |m| - 1;
      ActiveIn(m[..n], e);
      assert m == m[..n] + [m[n]];
      var t := Active(m[..n]);
      forall i | 0 <= i < |t|
        ensures Less(t[i].key, m[n].key)
      {
        assert t[i] in m[..n];
        var j :| 0 <= j < |m[..n]| && m[..n][j] == t[i];
        assert Less(m[j].key, m[n].key);
      }
    }
  }

  /** The posts of a freshly constructed object. */
  function FreshPosts(args: seq<Arg>): Posts
    requires forall k :: 0 <= k < |args| ==> args[k].align > 0
  {
    Posts(Active(AllocateArgs([], args, true, |args|)), Active(AllocateArgs([], args, false, |args|)))
  }

  // ------------------------------------------------------------------ where slices come from

  /** One halo of one argument. */
  datatype Source = Source(arg: nat, halo: nat)

  predicate Before(s: Source, t: Source) {
    s.arg < t.arg || (s.arg == t.arg && s.halo < t.halo)
  }

  predicate IsHalo(args: seq<Arg>, receive: bool, s: Source) {
    s.arg < |args| && s.halo < |if receive then args[s.arg].recv else args[s.arg].send|
  }

  function HaloAt(args: seq<Arg>, receive: bool, s: Source): Entry<Halo>
    requires IsHalo(args, receive, s)
  {
    (if receive then args[s.arg].recv else args[s.arg].send)[s.halo]
  }

  /** The halo has elements, and its buffer has this key: (receiving domain, sending domain). */
  predicate GoesTo(args: seq<Arg>, receive: bool, s: Source, key: Key) {
    && IsHalo(args, receive, s) && NumElements(HaloAt(args, receive, s).val.spaces) * args[s.arg].comps >= 1
    && var own, other := args[s.arg].domain, HaloAt(args, receive, s).key.major;
       key == if receive then Key(own, other) else Key(other, own)
  }

  function Bytes(args: seq<Arg>, receive: bool, s: Source): int
    requires IsHalo(args, receive, s)
  {
    NumElements(HaloAt(args, receive, s).val.spaces) * args[s.arg].comps * args[s.arg].elemSize
  }

  ghost predicate PieceFrom(args: seq<Arg>, receive: bool, s: Source, p: Piece) {
    && IsHalo(args, receive, s)
    && var h, a := HaloAt(args, receive, s), args[s.arg];
       && p.address == h.val.rank && p.tag == h.key.minor + TagOffset(args, a.container) && p.spaces == h.val.spaces
       && p.field == a.field && p.align == a.align && p.count * p.elemSize == Bytes(args, receive, s)
  }

  /** src lists, in order, the halos below argument n that go into the buffer, and ps their pieces. */
  ghost predicate Lists(args: seq<Arg>, receive: bool, key: Key, n: nat, src: seq<Source>, ps: seq<Piece>) {
    && |src| == |ps|
    && (forall i :: 0 <= i < |src| ==> src[i].arg < n && GoesTo(args, receive, src[i], key) && PieceFrom(args, receive, src[i], ps[i]))
    && (forall i, j :: 0 <= i < j < |src| ==> Before(src[i], src[j]))
    && (forall s: Source :: s.arg < n && GoesTo(args, receive, s, key) ==> s in src)
  }

  // The same for the first m halos of argument k.
  ghost predicate ListsHalos(args: seq<Arg>, receive: bool, key: Key, k: nat, m: nat, src: seq<Source>, ps: seq<Piece>) {
    && |src| == |ps|
    && (forall i :: 0 <= i < |src| ==>
          src[i].arg == k && src[i].halo < m && GoesTo(args, receive, src[i], key) && PieceFrom(args, receive, src[i], ps[i]))
    && (forall i, j :: 0 <= i < j < |src| ==> Before(src[i], src[j]))
    && (forall s: Source :: s.arg == k && s.halo < m && GoesTo(args, receive, s, key) ==> s in src)
  }

  lemma {:induction false} NextHalo(args: seq<Arg>, receive: bool, key: Key, k: nat, m: nat, src: seq<Source>, ps: seq<Piece>, p: Piece)
    requires ListsHalos(args, receive, key, k, m, src, ps)
    requires GoesTo(args, receive, Source(k, m), key) ==> PieceFrom(args, receive, Source(k, m), p)
    ensures if GoesTo(args, receive, Source(k, m), key) then ListsHalos(args, receive, key, k, m + 1, src + [Source(k, m)], ps + [p])
            else ListsHalos(args, receive, key, k, m + 1, src, ps)
  {
    var next := if GoesTo(args, receive, Source(k, m), key) then src + [Source(k, m)] else src;
    forall t: Source | t.arg == k && t.halo < m + 1 && GoesTo(args, receive, t, key)
      ensures t in next
    {
      assert t == Source(k, m) || t in src;
    }
  }

  lemma {:induction false} HaloSources(args: seq<Arg>, receive: bool, key: Key, k: nat, m: nat) returns (src: seq<Source>)
    requires k < |args| && m <= |Halos(args[k], receive)|
    ensures ListsHalos(args, receive, key, k, m, src,
                       HaloPieces(args[k], Halos(args[k], receive), TagOffset(args, args[k].container), receive, key, m))
  {
    src := [];
    if m > 0 {
      var a, s, h := args[k], Source(k, m - 1), Halos(args[k], receive)[m - 1];
      var offset := TagOffset(args, a.container);
      src := HaloSources(args, receive, key, k, m - 1);
      assert GoesTo(args, receive, s, key) <==> NumElements(h.val.spaces) * a.comps >= 1 && BufferKey(a, h, receive) == key;
      if GoesTo(args, receive, s, key) {
        NextHalo(args, receive, key, k, m - 1, src, HaloPieces(a, Halos(a, receive), offset, receive, key, m - 1), PieceOf(a, h, offset));
        src := src + [s];
      } else {
        NextHalo(args, receive, key, k, m - 1, src, HaloPieces(a, Halos(a, receive), offset, receive, key, m - 1), Piece(0, 0, [], a.field, 0, 0, 0));
      }
    }
  }

  lemma {:induction false} ListsMore(args: seq<Arg>, receive: bool, key: Key, k: nat, a: seq<Source>, ps: seq<Piece>, b: seq<Source>, qs: seq<Piece>)
    requires k < |args| && Lists(args, receive, key, k, a, ps)
    requires ListsHalos(args, receive, key, k, |Halos(args[k], receive)|, b, qs)
    ensures Lists(args, receive, key, k + 1, a + b, ps + qs)
  {
    forall s: Source | s.arg < k + 1 && GoesTo(args, receive, s, key)
      ensures s in a + b
    {
      assert s in a || s in b;
    }
  }

  lemma {:induction false} ArgSources(args: seq<Arg>, receive: bool, key: Key, n: nat) returns (src: seq<Source>)
    requires n <= |args|
    ensures Lists(args, receive, key, n, src, ArgPieces(args, receive, key, n))
  {
    src := [];
    if n > 0 {
      var before := ArgSources(args, receive, key, n - 1);
      var own := HaloSources(args, receive, key, n - 1, |Halos(args[n - 1], receive)|);
      var a := args[n - 1];
      ListsMore(args, receive, key, n - 1, before, ArgPieces(args, receive, key, n - 1), own,
                HaloPieces(a, Halos(a, receive), TagOffset(args, a.container), receive, key, |Halos(a, receive)|));
      src := before + own;
    }
  }

  /** Slice f of a buffer holds halo s, and ends at `end`. */
  ghost predicate HoldsHalo(args: seq<Arg>, receive: bool, s: Source, f: FieldInfo, end: int) {
    && IsHalo(args, receive, s) && f.field == args[s.arg].field && f.spaces == HaloAt(args, receive, s).val.spaces
    && args[s.arg].align > 0 && f.offset % args[s.arg].align == 0 && f.offset + Bytes(args, receive, s) == end
  }

  /** The slices of a posted buffer are the halos src: each begins at the first multiple of its
      alignment behind the one before, the first one at 0, and the last one ends the buffer. Address
      and tag are those of the first. */
  ghost predicate HoldsHalos(args: seq<Arg>, receive: bool, b: Buffer, src: seq<Source>, ends: seq<int>) {
    && |b.infos| == |src| == |ends| > 0
    && (forall i :: 0 <= i < |src| ==> HoldsHalo(args, receive, src[i], b.infos[i], ends[i]))
    && (forall i :: 0 < i < |src| ==> ends[i - 1] <= b.infos[i].offset < ends[i - 1] + args[src[i].arg].align)
    && b.infos[0].offset == 0 && ends[|src| - 1] == b.size
    && var h := HaloAt(args, receive, src[0]);
       b.address == h.val.rank && b.tag == h.key.minor + TagOffset(args, args[src[0].arg].container)
  }

  lemma {:induction false} LaidOutSlices(args: seq<Arg>, receive: bool, key: Key, b: Buffer, src: seq<Source>, ps: seq<Piece>) returns (ends: seq<int>)
    requires ArgsOk(args) && PiecesOk(ps) && LaidOut(b, ps) && Lists(args, receive, key, |args|, src, ps)
    ensures HoldsHalos(args, receive, b, src, ends)
  {
    ends := seq(|ps|, i requires 0 <= i < |ps| => End(ps[i], b.infos[i]));
    forall i | 0 <= i < |src|
      ensures HoldsHalo(args, receive, src[i], b.infos[i], ends[i])
    {
      assert PieceFrom(args, receive, src[i], ps[i]);
    }
  }

  /** What a posted buffer consists of: its slices are, in argument and map order, exactly the halos
      with elements between the two domains of its key. */
  lemma {:induction false} PostedSlices(args: seq<Arg>, receive: bool, e: Entry<Buffer>) returns (src: seq<Source>, ends: seq<int>)
    requires ArgsOk(args) && e in (if receive then FreshPosts(args).recvs else FreshPosts(args).sends)
    ensures HoldsHalos(args, receive, e.val, src, ends)
    ensures forall i, j :: 0 <= i < j < |src| ==> Before(src[i], src[j])
    ensures forall s: Source :: s in src <==> GoesTo(args, receive, s, e.key)
  {
    var m, ps := AllocateArgs([], args, receive, |args|), ArgPieces(args, receive, e.key, |args|);
    ArgsLookup([], args, receive, |args|, e.key);
    ActiveIn(m, e);
    LookupIn(m, e);
    FillLaidOut(ps);
    src := ArgSources(args, receive, e.key, |args|);
    ends := LaidOutSlices(args, receive, e.key, e.val, src, ps);
  }

  /** Every halo with elements is posted. */
  lemma {:induction false} HaloPosted(args: seq<Arg>, receive: bool, s: Source, key: Key) returns (e: Entry<Buffer>)
    requires ArgsOk(args) && GoesTo(args, receive, s, key)
    ensures e in (if receive then FreshPosts(args).recvs else FreshPosts(args).sends) && e.key == key
  {
    var m, ps := AllocateArgs([], args, receive, |args|), ArgPieces(args, receive, key, |args|);
    ArgsLookup([], args, receive, |args|, key);
    var src := ArgSources(args, receive, key, |args|);
    assert s in src;
    FillLaidOut(ps);
    e := Entry(key, Fill(None, ps).value);
    LookupIn(m, e);
    ActiveIn(m, e);
  }

  /** A recycled buffer fills up exactly like a new one. */
  lemma {:induction false} FillRecycled(b: Option<Buffer>, ps: seq<Piece>)
    requires PiecesOk(ps)
    requires b.Some? ==> b.value.size == 0
    ensures ps != [] ==> Fill(b, ps) == Fill(None, ps)
    decreases |ps|
  {
    if |ps| > 1 {
      FillRecycled(b, ps[..|ps| - 1]);
    } else if |ps| == 1 {
      assert ps[..0] == [];
    }
  }

  lemma {:induction false} LookupIn(m: Memory, e: Entry<Buffer>)
    requires Sorted(m)
    ensures e in m <==> Lookup(m, e.key) == Some(e.val)
  {
    GetIn(m, e.key, e.val);
  }

  lemma {:induction false} ClearedLookup(m: Memory, key: Key)
    requires Cleared(m)
    ensures Lookup(m, key).Some? ==> Lookup(m, key).value.size == 0
  {
  }

  /** Leftover map entries are inert: from any cleared memory the same buffers get posted. */
  lemma {:induction false} LeftoversInert(m: Memory, args: seq<Arg>, receive: bool)
    requires Cleared(m) && ArgsOk(args)
    ensures Active(AllocateArgs(m, args, receive, |args|)) == Active(AllocateArgs([], args, receive, |args|))
  {
    var used, anew := AllocateArgs(m, args, receive, |args|), AllocateArgs([], args, receive, |args|);
    ArgsLookup(m, args, receive, |args|, Key(0, 0));
    ArgsLookup([], args, receive, |args|, Key(0, 0));
    forall e
      ensures e in Active(used) <==> e in Active(anew)
    {
      ActiveIn(used, e);
      ActiveIn(anew, e);
      LookupIn(used, e);
      LookupIn(anew, e);
      ArgsLookup(m, args, receive, |args|, e.key);
      ArgsLookup([], args, receive, |args|, e.key);
      ClearedLookup(m, e.key);
      FillRecycled(Lookup(m, e.key), ArgPieces(args, receive, e.key, |args|));
    }
    ActiveIn(used, Entry(Key(0, 0), Buffer(0, 0, 0, [])));
    ActiveIn(anew, Entry(Key(0, 0), Buffer(0, 0, 0, [])));
    SortedUnique(Active(used), Active(anew));
  }

  function ClearBuffers(m: Memory): (r: Memory)
    ensures |r| == |m|
  {
    seq(|m|, i requires 0 <= i < |m| => Entry(m[i].key, m[i].val.(size := 0, infos := [])))
  }

  // ------------------------------------------------------------------ the object

  class CommunicationObject {
    var valid: bool
    var recvMemory: Memory
    var sendMemory: Memory

    /** Between exchanges every buffer is empty. */
    ghost predicate Consistent()
      reads this
    {
      && Sorted(recvMemory) && Sorted(sendMemory)
      && (!valid ==> Cleared(recvMemory) && Cleared(sendMemory))
    }

    ghost function AsState(): State
      reads this
    {
      State(valid, recvMemory, sendMemory)
    }

    constructor ()
      ensures Consistent() && !valid && recvMemory == [] && sendMemory == [] && AsState() == Run([])
    {
      valid := false;
      recvMemory := [];
      sendMemory := [];
    }

    /** exchange: rejected while an earlier exchange is pending; otherwise posts exactly what
        a fresh object would post for these arguments. */
    method Exchange(args: seq<Arg>) returns (r: Outcome)
      requires Consistent() && ArgsOk(args)
      modifies this
      ensures Consistent() && valid
      ensures old(valid) ==> r == Rejected && recvMemory == old(recvMemory) && sendMemory == old(sendMemory)
      ensures !old(valid) ==> r == Accepted(FreshPosts(args))
      ensures !old(valid) ==> recvMemory == AllocateArgs(old(recvMemory), args, true, |args|)
      ensures !old(valid) ==> sendMemory == AllocateArgs(old(sendMemory), args, false, |args|)
      ensures AsState() == Next(old(AsState()), DoExchange(args)) && r == PostsIn(old(AsState()), args)
    {
      if valid {
        return Rejected;
      }
      LeftoversInert(recvMemory, args, true);
      LeftoversInert(sendMemory, args, false);
      ArgsLookup(recvMemory, args, true, |args|, Key(0, 0));
      ArgsLookup(sendMemory, args, false, |args|, Key(0, 0));
      valid := true;
      recvMemory, sendMemory := SetUpBuffers(recvMemory, sendMemory, args);
      var postedRecvs := PostAll(recvMemory);
      var postedSends := PostAll(sendMemory);
      return Accepted(Posts(postedRecvs, postedSends));
    }

    /** wait: finishes a pending exchange; without one it does nothing. Buffers are emptied,
        never removed. */
    method Wait()
      requires Consistent()
      modifies this
      ensures Consistent() && !valid
      ensures !old(valid) ==> recvMemory == old(recvMemory) && sendMemory == old(sendMemory)
      ensures old(valid) ==> recvMemory == ClearBuffers(old(recvMemory)) && sendMemory == ClearBuffers(old(sendMemory))
      ensures AsState() == Next(old(AsState()), DoWait)
    {
      if !valid {
        return;
      }
      valid := false;
      recvMemory := ClearAll(recvMemory);
      sendMemory := ClearAll(sendMemory);
    }
  }

  /** The allocation part of exchange_impl. */
  method SetUpBuffers(recv: Memory, send: Memory, args: seq<Arg>) returns (recvs: Memory, sends: Memory)
    requires ArgsOk(args)
    ensures recvs == AllocateArgs(recv, args, true, |args|)
    ensures sends == AllocateArgs(send, args, false, |args|)
  {
    var offsets := TagOffsets(args);
    recvs, sends := recv, send;
    for k := 0 to |args|
      invariant recvs == AllocateArgs(recv, args, true, k)
      invariant sends == AllocateArgs(send, args, false, k)
    {
      recvs := Allocate(recvs, args[k], args[k].recv, offsets[k], true);
      sends := Allocate(sends, args[k], args[k].send, offsets[k], false);
    }
  }

  /** The loops of post_recvs and pack: one post per buffer with data. */
  method PostAll(m: Memory) returns (posts: Memory)
    ensures posts == Active(m)
    ensures Sorted(m) ==> forall e: Entry<Buffer> :: e in posts <==> e in m && e.val.size > 0
    ensures Sorted(m) ==> forall i, j :: 0 <= i < j < |posts| ==>
      posts[i].key.major < posts[j].key.major || (posts[i].key.major == posts[j].key.major && posts[i].key.minor < posts[j].key.minor)
  {
    posts := [];
    for i := 0 to |m|
      invariant posts == Active(m[..i])
    {
      assert m[..i + 1][..i] == m[..i];
      if m[i].val.size > 0 {
        posts := posts + [m[i]];
      }
    }
    assert m[..|m|] == m;
    if Sorted(m) {
      ActiveIn(m, Entry(Key(0, 0), Buffer(0, 0, 0, [])));
      forall e: Entry<Buffer>
        ensures e in posts <==> e in m && e.val.size > 0
      {
        ActiveIn(m, e);
      }
    }
  }

  /** The loop of clear. */
  method ClearAll(m: Memory) returns (r: Memory)
    requires Sorted(m)
    ensures r == ClearBuffers(m) && Cleared(r)
    ensures |r| == |m| && forall i :: 0 <= i < |m| ==>
      r[i].key == m[i].key && r[i].val == Buffer(m[i].val.address, m[i].val.tag, 0, [])
  {
    r := m;
    for i := 0 to |m|
      invariant |r| == |m|
      invariant forall a :: 0 <= a < |m| ==>
        r[a] == if a < i then Entry(m[a].key, m[a].val.(size := 0, infos := [])) else m[a]
    {
      r := r[i := Entry(r[i].key, r[i].val.(size := 0, infos := []))];
    }
  }

  // ------------------------------------------------------------------ runs

  datatype State = State(valid: bool, recvMemory: Memory, sendMemory: Memory)

  datatype Op = DoExchange(args: seq<Arg>) | DoWait

  ghost predicate ConsistentState(s: State) {
    && Sorted(s.recvMemory) && Sorted(s.sendMemory)
    && (!s.valid ==> Cleared(s.recvMemory) && Cleared(s.sendMemory))
  }

  ghost predicate OpOk(op: Op) {
    op.DoExchange? ==> ArgsOk(op.args)
  }

  /** State after one call, as the methods above leave it. */
  ghost function Next(s: State, op: Op): State
    requires OpOk(op)
  {
    match op
    case DoExchange(args) =>
      if s.valid then s
      else State(true, AllocateArgs(s.recvMemory, args, true, |args|), AllocateArgs(s.sendMemory, args, false, |args|))
    case DoWait =>
      if s.valid then State(false, ClearBuffers(s.recvMemory), ClearBuffers(s.sendMemory)) else s
  }

  /** What an exchange in state s puts on the network. */
  ghost function PostsIn(s: State, args: seq<Arg>): Outcome
    requires ArgsOk(args)
  {
    if s.valid then Rejected
    else Accepted(Posts(Active(AllocateArgs(s.recvMemory, args, true, |args|)),
                        Active(AllocateArgs(s.sendMemory, args, false, |args|))))
  }

  ghost function Run(ops: seq<Op>): State
    requires forall i :: 0 <= i < |ops| ==> OpOk(ops[i])
  {
    if ops == [] then State(false, [], []) else Next(Run(ops[..|ops| - 1]), ops[|ops| - 1])
  }

  /** The last call before this point was an exchange, or a rejected one after it. */
  ghost predicate Pending(ops: seq<Op>) {
    ops != [] && ops[|ops| - 1].DoExchange?
  }

  lemma {:induction false} RunConsistent(ops: seq<Op>)
    requires forall i :: 0 <= i < |ops| ==> OpOk(ops[i])
    ensures ConsistentState(Run(ops))
    ensures Run(ops).valid <==> Pending(ops)
  {
    if ops != [] {
      var before := ops[..|ops| - 1];
      RunConsistent(before);
      var s := Run(before);
      match ops[|ops| - 1]
      case DoExchange(args) =>
        ArgsLookup(s.recvMemory, args, true, |args|, Key(0, 0));
        ArgsLookup(s.sendMemory, args, false, |args|, Key(0, 0));
      case DoWait =>
    }
  }

  /** History independence: whatever exchanges, waits and rejected calls came before, a call
      of exchange is accepted exactly when the previous call was not an exchange, and then
      posts the same messages, tags, sizes and offsets as a fresh object. */
  lemma {:induction false} HistoryIndependent(ops: seq<Op>, args: seq<Arg>)
    requires forall i :: 0 <= i < |ops| ==> OpOk(ops[i])
    requires ArgsOk(args)
    ensures PostsIn(Run(ops), args) == if Pending(ops) then Rejected else Accepted(FreshPosts(args))
  {
    RunConsistent(ops);
    var s := Run(ops);
    if !s.valid {
      LeftoversInert(s.recvMemory, args, true);
      LeftoversInert(s.sendMemory, args, false);
    }
  }
}

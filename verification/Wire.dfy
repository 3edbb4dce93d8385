// The wire protocol that ships the nested send-halo map to the ranks that own the source
// domains (structured/pattern.hpp:413-574). Messages of one (source, tag) pair arrive in the
// order they were sent (MPI 3.1, section 3.5), so a channel is a sequence of messages.

module Wire {
  import opened OrderedMap
  import opened Pattern
  import opened SendHalos

  datatype Msg =
    | Count(n: nat)
    | Ids(ids: seq<int>)
    | Counts(ns: seq<nat>)
    | ExtIds(exts: seq<(Key, int)>)
    | Spaces(spaces: seq<SpacePair>)

  // ------------------------------------------------------------------ what is on the wire

  function Majors<V>(m: seq<Entry<V>>): (r: seq<int>)
    ensures |r| == |m|
  {
    seq(|m|, i requires 0 <= i < |m| => m[i].key.major)
  }

  function Sizes(doms: DomainMap): (r: seq<nat>)
    ensures |r| == |doms|
  {
    seq(|doms|, i requires 0 <= i < |doms| => |doms[i].val|)
  }

  function Keys(halos: HaloMap): (r: seq<(Key, int)>)
    ensures |r| == |halos|
  {
    seq(|halos|, i requires 0 <= i < |halos| => (halos[i].key, halos[i].val.rank))
  }

  function EncodePairs(halos: HaloMap): seq<Msg> {
    if halos == [] then []
    else [Count(|halos[0].val.spaces|), Spaces(halos[0].val.spaces)] + EncodePairs(halos[1..])
  }

  function EncodeDomains(doms: DomainMap): seq<Msg> {
    if doms == [] then []
    else [ExtIds(Keys(doms[0].val))] + EncodePairs(doms[0].val) + EncodeDomains(doms[1..])
  }

  function Encode(doms: DomainMap): seq<Msg> {
    [Count(|doms|), Ids(Majors(doms)), Counts(Sizes(doms))] + EncodeDomains(doms)
  }

  // ------------------------------------------------------------------ sender

  /** From position at of the messages on: for every pair the number of boxes, then the boxes. */
  ghost predicate PairsFrom(msgs: seq<Msg>, at: nat, halos: HaloMap, n: nat) {
    && n <= |halos| && at + 2 * n <= |msgs|
    && forall i :: 0 <= i < n ==>
         msgs[at + 2 * i] == Count(|halos[i].val.spaces|) && msgs[at + 2 * i + 1] == Spaces(halos[i].val.spaces)
  }

  method SendPairs(halos: HaloMap) returns (msgs: seq<Msg>)
    ensures msgs == EncodePairs(halos)
    ensures |msgs| == 2 * |halos| && PairsFrom(msgs, 0, halos, |halos|)
  {
    msgs := [];
    assert halos[0..] == halos;
    for i := 0 to |halos|
      invariant msgs + EncodePairs(halos[i..]) == EncodePairs(halos)
      invariant |msgs| == 2 * i && PairsFrom(msgs, 0, halos, i)
    {
      assert halos[i..][1..] == halos[i + 1..];
      msgs := msgs + [Count(|halos[i].val.spaces|), Spaces(halos[i].val.spaces)];
    }
  }

  /** Where the messages about the j-th domain begin. */
  function Begins(doms: DomainMap, j: nat): nat
    requires j <= |doms|
  {
    if j == 0 then 3 else Begins(doms, j - 1) + 1 + 2 * |doms[j - 1].val|
  }

  /** The messages about the j-th domain: the keys and ranks of its pairs, then the pairs. */
  ghost predicate DomainSent(msgs: seq<Msg>, doms: DomainMap, j: nat) {
    && j < |doms| && Begins(doms, j) < |msgs| && msgs[Begins(doms, j)].ExtIds?
    && |msgs[Begins(doms, j)].exts| == |doms[j].val|
    && (forall i :: 0 <= i < |doms[j].val| ==> msgs[Begins(doms, j)].exts[i] == (doms[j].val[i].key, doms[j].val[i].val.rank))
    && PairsFrom(msgs, Begins(doms, j) + 1, doms[j].val, |doms[j].val|)
  }

  /** Three messages about all domains: how many there are, their ids, and their numbers of pairs. */
  ghost predicate HeadSent(msgs: seq<Msg>, doms: DomainMap) {
    && |msgs| >= 3 && msgs[0] == Count(|doms|) && msgs[1].Ids? && msgs[2].Counts?
    && |msgs[1].ids| == |msgs[2].ns| == |doms|
    && forall i :: 0 <= i < |doms| ==> msgs[1].ids[i] == doms[i].key.major && msgs[2].ns[i] == |doms[i].val|
  }

  /** The messages about the first i domains. */
  ghost predicate SentUpTo(msgs: seq<Msg>, doms: DomainMap, i: nat) {
    i <= |doms| && |msgs| == Begins(doms, i) && HeadSent(msgs, doms) && forall j: nat :: j < i ==> DomainSent(msgs, doms, j)
  }

  lemma {:induction false} HeadFirst(doms: DomainMap)
    ensures SentUpTo([Count(|doms|), Ids(Majors(doms)), Counts(Sizes(doms))], doms, 0)
  {
  }

  lemma {:induction false} PairsBehind(before: seq<Msg>, pairs: seq<Msg>, halos: HaloMap)
    requires PairsFrom(pairs, 0, halos, |halos|)
    ensures PairsFrom(before + pairs, |before|, halos, |halos|)
  {
    forall i | 0 <= i < |halos|
      ensures (before + pairs)[|before| + 2 * i] == pairs[2 * i]
      ensures (before + pairs)[|before| + 2 * i + 1] == pairs[2 * i + 1]
    {
    }
  }

  lemma {:induction false} DomainStays(msgs: seq<Msg>, more: seq<Msg>, doms: DomainMap, j: nat)
    requires DomainSent(msgs, doms, j)
    ensures DomainSent(msgs + more, doms, j)
  {
  }

  lemma {:induction false} DomainAdded(msgs: seq<Msg>, doms: DomainMap, i: nat, pairs: seq<Msg>)
    requires i < |doms| && |msgs| == Begins(doms, i) && PairsFrom(pairs, 0, doms[i].val, |doms[i].val|)
    ensures DomainSent(msgs + ([ExtIds(Keys(doms[i].val))] + pairs), doms, i)
  {
    var before := msgs + [ExtIds(Keys(doms[i].val))];
    PairsBehind(before, pairs, doms[i].val);
    assert before + pairs == msgs + ([ExtIds(Keys(doms[i].val))] + pairs);
    assert (before + pairs)[|msgs|] == ExtIds(Keys(doms[i].val));
  }

  lemma {:induction false} SentMore(msgs: seq<Msg>, doms: DomainMap, i: nat, pairs: seq<Msg>)
    requires i < |doms| && SentUpTo(msgs, doms, i)
    requires |pairs| == 2 * |doms[i].val| && PairsFrom(pairs, 0, doms[i].val, |doms[i].val|)
    ensures SentUpTo(msgs + ([ExtIds(Keys(doms[i].val))] + pairs), doms, i + 1)
  {
    var more := [ExtIds(Keys(doms[i].val))] + pairs;
    DomainAdded(msgs, doms, i, pairs);
    forall j: nat | j < i
      ensures DomainSent(msgs + more, doms, j)
    {
      DomainStays(msgs, more, doms, j);
    }
  }

  lemma {:induction false} EncodedMore(msgs: seq<Msg>, doms: DomainMap, i: nat, pairs: seq<Msg>)
    requires i < |doms| && msgs + EncodeDomains(doms[i..]) == Encode(doms) && pairs == EncodePairs(doms[i].val)
    ensures msgs + ([ExtIds(Keys(doms[i].val))] + pairs) + EncodeDomains(doms[i + 1..]) == Encode(doms)
  {
    assert doms[i..][1..] == doms[i + 1..];
  }

  method SendDomains(doms: DomainMap) returns (msgs: seq<Msg>)
    ensures msgs == Encode(doms)
    ensures SentUpTo(msgs, doms, |doms|)
  {
    msgs := [Count(|doms|), Ids(Majors(doms)), Counts(Sizes(doms))];
    HeadFirst(doms);
    assert doms[0..] == doms;
    for i := 0 to |doms|
      invariant msgs + EncodeDomains(doms[i..]) == Encode(doms)
      invariant SentUpTo(msgs, doms, i)
    {
      var pairs := SendPairs(doms[i].val);
      EncodedMore(msgs, doms, i, pairs);
      SentMore(msgs, doms, i, pairs);
      msgs := msgs + ([ExtIds(Keys(doms[i].val))] + pairs);
    }
  }

  /** One rank's turn as sender: the ranks it broadcasts, and a channel for each of them. */
  method ConnectAsSender(sends: RankMap) returns (ranks: seq<int>, channels: map<int, seq<Msg>>)
    requires Sorted(sends) && Tidy(sends)
    ensures ranks == Majors(sends)
    ensures channels.Keys == set r | r in ranks
    ensures forall s :: s in channels ==> channels[s] == Encode(Inner(sends, s))
  {
    ranks := Majors(sends);
    channels := map[];
    for p := 0 to |sends|
      invariant channels.Keys == set r | r in ranks[..p]
      invariant forall s :: s in channels ==> channels[s] == Encode(Inner(sends, s))
    {
      var msgs := SendDomains(sends[p].val);
      assert sends[p] in sends;
      ContainsIff(sends, Key(ranks[p], 0), p);
      channels := channels[ranks[p] := msgs];
      assert ranks[..p + 1] == ranks[..p] + [ranks[p]];
    }
    assert ranks[..|sends|] == ranks;
  }

  // ------------------------------------------------------------------ receiver

  /** pat.send_halos()[k] is extended by the spaces of h. */
  function Append(m: HaloMap, k: Key, h: Halo): HaloMap {
    var old_ := GetOr(m, k, Halo(h.rank, []));
    Put(m, k, Halo(old_.rank, old_.spaces + h.spaces))
  }

  /** What is there already stays in front, with its rank. */
  lemma {:induction false} AppendExtends(m: HaloMap, k: Key, h: Halo, k': Key)
    requires Sorted(m)
    ensures Sorted(Append(m, k, h)) && (Contains(Append(m, k, h), k') <==> k' == k || Contains(m, k'))
    ensures SpacesAt(Append(m, k, h), k') == SpacesAt(m, k') + (if k' == k then h.spaces else [])
    ensures Contains(Append(m, k, h), k) && Get(Append(m, k, h), k).rank == if Contains(m, k) then Get(m, k).rank else h.rank
  {
    var old_ := GetOr(m, k, Halo(h.rank, []));
    var next := Halo(old_.rank, old_.spaces + h.spaces);
    PutSorted(m, k, next);
    PutGet(m, k, next, k', Halo(0, []));
    PutGet(m, k, next, k, Halo(0, []));
  }

  function MergePairs(m: HaloMap, halos: HaloMap): HaloMap
    decreases |halos|
  {
    if halos == [] then m else MergePairs(Append(m, halos[0].key, halos[0].val), halos[1..])
  }

  ghost predicate AllLocal(ds: seq<Domain>, doms: DomainMap) {
    forall x :: x in doms ==> Position(ds, x.key.major) < |ds|
  }

  function MergeDomains(pats: seq<HaloMap>, ds: seq<Domain>, doms: DomainMap): (r: seq<HaloMap>)
    requires |pats| == |ds| && AllLocal(ds, doms)
    ensures |r| == |ds|
    decreases |doms|
  {
    if doms == [] then pats
    else
      assert doms[0] in doms;
      assert forall x :: x in doms[1..] ==> x in doms;
      var k := Position(ds, doms[0].key.major);
      MergeDomains(pats[k := MergePairs(pats[k], doms[0].val)], ds, doms[1..])
  }

  /** Receives the iteration spaces of all pairs of one domain. */
  method ReceivePairs(m: HaloMap, exts: seq<(Key, int)>, channel: seq<Msg>, start: nat, ghost sent: HaloMap)
    returns (r: HaloMap, pos: nat)
    requires start <= |channel| && exts == Keys(sent)
    requires EncodePairs(sent) <= channel[start..]
    ensures r == MergePairs(m, sent)
    ensures pos == start + |EncodePairs(sent)| <= |channel|
  {
    r, pos := m, start;
    assert sent[0..] == sent;
    for i := 0 to |exts|
      invariant pos <= |channel| && EncodePairs(sent[i..]) <= channel[pos..]
      invariant pos + |EncodePairs(sent[i..])| == start + |EncodePairs(sent)|
      invariant MergePairs(r, sent[i..]) == MergePairs(m, sent)
    {
      assert sent[i..][1..] == sent[i + 1..];
      assert channel[pos..][0] == Count(|sent[i].val.spaces|) && channel[pos..][1] == Spaces(sent[i].val.spaces);
      var n := channel[pos].n;
      var spaces := channel[pos + 1].spaces;
      assert |spaces| == n;
      r := Append(r, exts[i].0, Halo(exts[i].1, spaces));
      assert channel[pos + 2..] == channel[pos..][2..];
      assert EncodePairs(sent[i + 1..]) == EncodePairs(sent[i..])[2..];
      pos := pos + 2;
    }
    assert sent[|exts|..] == [];
  }

  lemma {:induction false} MergeStep(pats: seq<HaloMap>, ds: seq<Domain>, doms: DomainMap)
    requires |pats| == |ds| && AllLocal(ds, doms) && doms != []
    ensures AllLocal(ds, doms[1..])
    ensures var k := Position(ds, doms[0].key.major);
      k < |ds|
      && MergeDomains(pats, ds, doms) == MergeDomains(pats[k := MergePairs(pats[k], doms[0].val)], ds, doms[1..])
  {
    assert doms[0] in doms;
    assert forall x :: x in doms[1..] ==> x in doms;
  }

  lemma {:induction false} ChannelStep(channel: seq<Msg>, pos: nat, doms: DomainMap)
    requires doms != [] && pos <= |channel|
    requires channel[pos..] == EncodeDomains(doms)
    ensures pos < |channel| && channel[pos] == ExtIds(Keys(doms[0].val))
    ensures EncodePairs(doms[0].val) <= channel[pos + 1..]
    ensures var next := pos + 1 + |EncodePairs(doms[0].val)|;
      next <= |channel| && channel[next..] == EncodeDomains(doms[1..])
  {
    var head, pairs, tail := ExtIds(Keys(doms[0].val)), EncodePairs(doms[0].val), EncodeDomains(doms[1..]);
    assert EncodeDomains(doms) == [head] + pairs + tail;
    SuffixSplit(channel, pos, head, pairs, tail);
  }

  lemma {:induction false} SuffixSplit<T>(c: seq<T>, pos: nat, head: T, b: seq<T>, d: seq<T>)
    requires pos <= |c| && c[pos..] == [head] + b + d
    ensures pos < |c| && c[pos] == head && b <= c[pos + 1..]
    ensures pos + 1 + |b| <= |c| && c[pos + 1 + |b|..] == d
  {
    assert |c[pos..]| == 1 + |b| + |d|;
    assert c[pos] == c[pos..][0];
    assert c[pos + 1..] == c[pos..][1..] == b + d;
    assert c[pos + 1 + |b|..] == c[pos + 1..][|b|..];
  }

  /** Receives everything one rank sends and files it under the right local domains: for any
      map sent, exactly that map is merged, and every message is consumed. */
  method ReceiveDomains(pats: seq<HaloMap>, ds: seq<Domain>, channel: seq<Msg>, ghost sent: DomainMap)
    returns (r: seq<HaloMap>, pos: nat)
    requires |pats| == |ds| && AllLocal(ds, sent)
    requires channel == Encode(sent)
    ensures r == MergeDomains(pats, ds, sent)
    ensures pos == |channel|
  {
    var numDomains := channel[0].n;
    var domIds := channel[1].ids;
    var numPairs := channel[2].ns;
    r, pos := pats, 3;
    assert sent[0..] == sent;
    for j := 0 to |numPairs|
      invariant |r| == |ds|
      invariant pos <= |channel| && channel[pos..] == EncodeDomains(sent[j..])
      invariant AllLocal(ds, sent[j..])
      invariant MergeDomains(r, ds, sent[j..]) == MergeDomains(pats, ds, sent)
    {
      assert sent[j..][1..] == sent[j + 1..];
      ChannelStep(channel, pos, sent[j..]);
      MergeStep(r, ds, sent[j..]);
      var exts := channel[pos].exts;
      assert |exts| == numPairs[j];
      var k := Position(ds, domIds[j]);
      var merged, next := ReceivePairs(r[k], exts, channel, pos + 1, sent[j].val);
      r := r[k := merged];
      pos := next;
    }
    assert sent[|numPairs|..] == [];
  }
}

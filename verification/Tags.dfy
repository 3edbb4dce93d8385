// Numbering of the receive halos (structured/pattern.hpp:331-368): the keys of the halo maps
// are rewritten in place, per remote rank and across all local domains.

module Tags {
  import opened OrderedMap
  import opened Pattern

  /** Entries of m before position j that receive from the given rank. */
  function Hits(m: HaloMap, rank: int, j: nat): nat
    requires j <= |m|
  {
    if j == 0 then 0 else Hits(m, rank, j - 1) + if m[j - 1].val.rank == rank then 1 else 0
  }

  /** Entries of the first i patterns that receive from the given rank. */
  function HitsBefore(recv: seq<HaloMap>, rank: int, i: nat): nat
    requires i <= |recv|
  {
    if i == 0 then 0 else HitsBefore(recv, rank, i - 1) + Hits(recv[i - 1], rank, |recv[i - 1]|)
  }

  /** Earlier receives from the same rank, counted across all local domains. */
  function Tag(recv: seq<HaloMap>, i: nat, j: nat): nat
    requires i < |recv| && j < |recv[i]|
  {
    var rank := recv[i][j].val.rank;
    HitsBefore(recv, rank, i) + Hits(recv[i], rank, j)
  }

  /** t is recv with every tag replaced by the number of earlier receives from that rank. */
  ghost predicate IsTagged(recv: seq<HaloMap>, t: seq<HaloMap>) {
    && |t| == |recv|
    && (forall i :: 0 <= i < |t| ==> |t[i]| == |recv[i]|)
    && (forall i, j :: 0 <= i < |t| && 0 <= j < |t[i]| ==>
          t[i][j] == Entry(Key(recv[i][j].key.major, Tag(recv, i, j)), recv[i][j].val))
  }

  ghost predicate IsMaxTag(t: seq<HaloMap>, maxTag: nat) {
    && (forall i, j :: 0 <= i < |t| && 0 <= j < |t[i]| ==> 0 <= t[i][j].key.minor <= maxTag)
    && (maxTag == 0 || exists i, j :: 0 <= i < |t| && 0 <= j < |t[i]| && t[i][j].key.minor == maxTag)
  }

  // Loop state: t agrees with the final tags before position (i, j) and with recv from there on.
  ghost predicate TagProgress(recv: seq<HaloMap>, t: seq<HaloMap>, i: nat, j: nat) {
    && |t| == |recv|
    && (forall a :: 0 <= a < |t| ==> |t[a]| == |recv[a]|)
    && (forall a, b :: 0 <= a < |t| && 0 <= b < |t[a]| ==>
          t[a][b] == if a < i || (a == i && b < j)
                     then Entry(Key(recv[a][b].key.major, Tag(recv, a, b)), recv[a][b].val)
                     else recv[a][b])
  }

  ghost predicate CountsRanks(tagMap: map<int, nat>, recv: seq<HaloMap>, i: nat, j: nat)
    requires i < |recv| && j <= |recv[i]|
  {
    forall rank :: var n := HitsBefore(recv, rank, i) + Hits(recv[i], rank, j);
      (rank in tagMap <==> n > 0) && (rank in tagMap ==> tagMap[rank] == n - 1)
  }

  // maxTag bounds, and is attained among, the tags assigned before position (i, j).
  ghost predicate MaxSoFar(recv: seq<HaloMap>, maxTag: nat, i: nat, j: nat) {
    && (forall a, b :: 0 <= a < |recv| && 0 <= b < |recv[a]| && (a < i || (a == i && b < j)) ==> Tag(recv, a, b) <= maxTag)
    && (maxTag == 0 || exists a, b :: 0 <= a < |recv| && 0 <= b < |recv[a]| && Tag(recv, a, b) == maxTag)
  }

  function SetTag(t: seq<HaloMap>, i: nat, j: nat, tag: nat): seq<HaloMap>
    requires i < |t| && j < |t[i]|
  {
    t[i := t[i][j := Entry(Key(t[i][j].key.major, tag), t[i][j].val)]]
  }

  lemma {:induction false} TagStep(recv: seq<HaloMap>, t: seq<HaloMap>, i: nat, j: nat)
    requires i < |recv| && j < |recv[i]| && TagProgress(recv, t, i, j)
    ensures t[i][j] == recv[i][j]
    ensures TagProgress(recv, SetTag(t, i, j, Tag(recv, i, j)), i, j + 1)
  {
    assert t[i][j] == recv[i][j];
    var n := SetTag(t, i, j, Tag(recv, i, j));
    forall a, b | 0 <= a < |n| && 0 <= b < |n[a]| && !(a == i && b == j)
      ensures n[a][b] == t[a][b]
    {
    }
  }

  function Bump(tagMap: map<int, nat>, rank: int): map<int, nat> {
    tagMap[rank := if rank in tagMap then tagMap[rank] + 1 else 0]
  }

  lemma {:induction false} CountStep(tagMap: map<int, nat>, recv: seq<HaloMap>, i: nat, j: nat)
    requires i < |recv| && j < |recv[i]| && CountsRanks(tagMap, recv, i, j)
    ensures Bump(tagMap, recv[i][j].val.rank)[recv[i][j].val.rank] == Tag(recv, i, j)
    ensures CountsRanks(Bump(tagMap, recv[i][j].val.rank), recv, i, j + 1)
  {
  }

  lemma {:induction false} CountNextRow(tagMap: map<int, nat>, recv: seq<HaloMap>, i: nat)
    requires i + 1 < |recv| && CountsRanks(tagMap, recv, i, |recv[i]|)
    ensures CountsRanks(tagMap, recv, i + 1, 0)
  {
    assert forall rank :: HitsBefore(recv, rank, i + 1) == HitsBefore(recv, rank, i) + Hits(recv[i], rank, |recv[i]|);
  }

  lemma {:induction false} MaxStep(recv: seq<HaloMap>, maxTag: nat, i: nat, j: nat)
    requires i < |recv| && j < |recv[i]| && MaxSoFar(recv, maxTag, i, j)
    ensures var tag := Tag(recv, i, j);
      MaxSoFar(recv, if maxTag < tag then tag else maxTag, i, j + 1)
  {
  }

  lemma {:induction false} RowDone(recv: seq<HaloMap>, t: seq<HaloMap>, maxTag: nat, i: nat)
    requires i < |recv|
    requires TagProgress(recv, t, i, |recv[i]|) && MaxSoFar(recv, maxTag, i, |recv[i]|)
    ensures TagProgress(recv, t, i + 1, 0) && MaxSoFar(recv, maxTag, i + 1, 0)
  {
  }

  lemma {:induction false} TagsDone(recv: seq<HaloMap>, t: seq<HaloMap>, maxTag: nat)
    requires TagProgress(recv, t, |recv|, 0) && MaxSoFar(recv, maxTag, |recv|, 0)
    ensures IsTagged(recv, t) && IsMaxTag(t, maxTag)
  {
    if maxTag != 0 {
      var a, b :| 0 <= a < |recv| && 0 <= b < |recv[a]| && Tag(recv, a, b) == maxTag;
      assert t[a][b].key.minor == maxTag;
    }
  }

  /** Assigns the tags; returns the rewritten maps and the largest tag in use. */
  method AssignTags(recv: seq<HaloMap>) returns (t: seq<HaloMap>, maxTag: nat)
    ensures IsTagged(recv, t)
    ensures IsMaxTag(t, maxTag)
  {
    t := recv;
    maxTag := 0;
    var tagMap: map<int, nat> := map[];
    for i := 0 to |recv|
      invariant TagProgress(recv, t, i, 0)
      invariant MaxSoFar(recv, maxTag, i, 0)
      invariant i < |recv| ==> CountsRanks(tagMap, recv, i, 0)
    {
      for j := 0 to |recv[i]|
        invariant TagProgress(recv, t, i, j)
        invariant MaxSoFar(recv, maxTag, i, j)
        invariant CountsRanks(tagMap, recv, i, j)
      {
        TagStep(recv, t, i, j);
        CountStep(tagMap, recv, i, j);
        MaxStep(recv, maxTag, i, j);
        var rank := t[i][j].val.rank;
        var first := rank !in tagMap;
        tagMap := Bump(tagMap, rank);
        if !first {
          maxTag := if maxTag < tagMap[rank] then tagMap[rank] else maxTag;
        }
        t := SetTag(t, i, j, tagMap[rank]);
      }
      RowDone(recv, t, maxTag, i);
      if i + 1 < |recv| {
        CountNextRow(tagMap, recv, i);
      }
    }
    TagsDone(recv, t, maxTag);
  }

  /** The largest tag over all ranks, from the gathered per-rank maxima. */
  method GlobalMaxTag(own: nat, maxTags: seq<nat>) returns (m: nat)
    ensures m >= own && forall i :: 0 <= i < |maxTags| ==> maxTags[i] <= m
    ensures m == own || m in maxTags
  {
    m := own;
    for i := 0 to |maxTags|
      invariant m >= own && forall a :: 0 <= a < i ==> maxTags[a] <= m
      invariant m == own || m in maxTags
    {
      m := if m < maxTags[i] then maxTags[i] else m;
    }
  }

  // ------------------------------------------------------------------ properties

  lemma {:induction false} HitsMonotone(m: HaloMap, rank: int, j: nat, k: nat)
    requires j <= k <= |m|
    ensures Hits(m, rank, j) <= Hits(m, rank, k)
    decreases k - j
  {
    if j < k {
      HitsMonotone(m, rank, j, k - 1);
    }
  }

  lemma {:induction false} HitsBeforeMonotone(recv: seq<HaloMap>, rank: int, i: nat, k: nat)
    requires i <= k <= |recv|
    ensures HitsBefore(recv, rank, i) <= HitsBefore(recv, rank, k)
    decreases k - i
  {
    if i < k {
      HitsBeforeMonotone(recv, rank, i, k - 1);
    }
  }

  /** Two different receives from the same rank never share a tag, whichever local domains
      they belong to; the later one (in domain, then map order) has the larger tag. */
  lemma {:induction false} TagsDistinct(recv: seq<HaloMap>, t: seq<HaloMap>, i: nat, j: nat, k: nat, l: nat)
    requires IsTagged(recv, t)
    requires i < |t| && j < |t[i]| && k < |t| && l < |t[k]|
    requires i < k || (i == k && j < l)
    requires t[i][j].val.rank == t[k][l].val.rank
    ensures t[i][j].key.minor < t[k][l].key.minor
  {
    var rank := t[i][j].val.rank;
    if i == k {
      HitsMonotone(recv[i], rank, j + 1, l);
    } else {
      HitsMonotone(recv[i], rank, j + 1, |recv[i]|);
      HitsBeforeMonotone(recv, rank, i + 1, k);
    }
  }

  lemma {:induction false} EarlierHit(recv: seq<HaloMap>, rank: int, i: nat, j: nat) returns (k: nat, l: nat)
    requires i < |recv| && j <= |recv[i]| && HitsBefore(recv, rank, i) + Hits(recv[i], rank, j) > 0
    ensures k < |recv| && l < |recv[k]| && recv[k][l].val.rank == rank && (k < i || (k == i && l < j))
    ensures Tag(recv, k, l) + 1 == HitsBefore(recv, rank, i) + Hits(recv[i], rank, j)
    decreases i, j
  {
    if j == 0 {
      k, l := EarlierHit(recv, rank, i - 1, |recv[i - 1]|);
    } else if recv[i][j - 1].val.rank == rank {
      k, l := i, j - 1;
    } else {
      k, l := EarlierHit(recv, rank, i, j - 1);
    }
  }

  /** No tag is skipped: a receive with a positive tag comes after one from the same rank with the
      tag before. So the n receives from a rank have the tags 0 to n - 1. */
  lemma {:induction false} NoTagSkipped(recv: seq<HaloMap>, t: seq<HaloMap>, i: nat, j: nat) returns (k: nat, l: nat)
    requires IsTagged(recv, t) && i < |t| && j < |t[i]| && t[i][j].key.minor != 0
    ensures t[i][j].key.minor > 0
    ensures k < |t| && l < |t[k]| && (k < i || (k == i && l < j))
    ensures t[k][l].val.rank == t[i][j].val.rank && t[k][l].key.minor == t[i][j].key.minor - 1
  {
    k, l := EarlierHit(recv, recv[i][j].val.rank, i, j);
  }

  lemma {:induction false} SameHits(m: HaloMap, n: HaloMap, rank: int, j: nat)
    requires |m| == |n| && j <= |m| && forall a :: 0 <= a < |m| ==> m[a].val == n[a].val
    ensures Hits(m, rank, j) == Hits(n, rank, j)
  {
    if j > 0 {
      SameHits(m, n, rank, j - 1);
    }
  }

  lemma {:induction false} SameHitsBefore(recv: seq<HaloMap>, t: seq<HaloMap>, rank: int, i: nat)
    requires IsTagged(recv, t) && i <= |recv|
    ensures HitsBefore(recv, rank, i) == HitsBefore(t, rank, i)
  {
    if i > 0 {
      SameHitsBefore(recv, t, rank, i - 1);
      SameHits(recv[i - 1], t[i - 1], rank, |recv[i - 1]|);
    }
  }

  /** Every receive has as its tag the number of receives from the same rank before it. */
  ghost predicate Numbered(t: seq<HaloMap>) {
    forall i, j :: 0 <= i < |t| && 0 <= j < |t[i]| ==> t[i][j].key.minor == Tag(t, i, j)
  }

  lemma {:induction false} TaggedNumbered(recv: seq<HaloMap>, t: seq<HaloMap>)
    requires IsTagged(recv, t)
    ensures Numbered(t)
  {
    forall i, j | 0 <= i < |t| && 0 <= j < |t[i]|
      ensures t[i][j].key.minor == Tag(t, i, j)
    {
      SameHitsBefore(recv, t, recv[i][j].val.rank, i);
      SameHits(recv[i], t[i], recv[i][j].val.rank, j);
    }
  }

  ghost predicate StrictMajors(m: HaloMap) {
    forall i, j :: 0 <= i < j < |m| ==> m[i].key.major < m[j].key.major
  }

  /** Rewriting keys in place keeps every map strictly ordered, because the maps were keyed
      by domain id alone. */
  lemma {:induction false} TaggingKeepsOrder(recv: seq<HaloMap>, t: seq<HaloMap>, i: nat)
    requires IsTagged(recv, t) && i < |t|
    requires Sorted(recv[i]) && forall j :: 0 <= j < |recv[i]| ==> recv[i][j].key.minor == 0
    ensures Sorted(t[i]) && StrictMajors(t[i])
  {
    forall a, b | 0 <= a < b < |t[i]|
      ensures t[i][a].key.major < t[i][b].key.major
    {
      assert Less(recv[i][a].key, recv[i][b].key);
    }
  }
}

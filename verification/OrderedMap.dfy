// An ordered associative container as the library uses it (std::map): a strictly sorted
// sequence of entries, so that iteration order is part of the model.

module OrderedMap {

  /** Keys are compared by `major`, then `minor`: (id, tag) for halo maps
      (structured/pattern.hpp:132-135) and (first_id, second_id) for buffer maps
      (communication_object_2.hpp:142-146). */
  datatype Key = Key(major: int, minor: int)

  predicate Less(a: Key, b: Key) {
    a.major < b.major || (a.major == b.major && a.minor < b.minor)
  }

  datatype Entry<V> = Entry(key: Key, val: V)

  ghost predicate Sorted<V>(m: seq<Entry<V>>) {
    forall i, j :: 0 <= i < j < |m| ==> Less(m[i].key, m[j].key)
  }

  /** Position of the first entry whose key is not less than k. */
  function LowerBound<V>(m: seq<Entry<V>>, k: Key): (p: nat)
    ensures p <= |m|
    ensures forall i :: 0 <= i < p ==> Less(m[i].key, k)
    ensures p < |m| ==> !Less(m[p].key, k)
  {
    if m == [] || !Less(m[0].key, k) then 0 else 1 + LowerBound(m[1..], k)
  }

  predicate Contains<V>(m: seq<Entry<V>>, k: Key) {
    var p := LowerBound(m, k);
    p < |m| && m[p].key == k
  }

  function Get<V>(m: seq<Entry<V>>, k: Key): V
    requires Contains(m, k)
  {
    m[LowerBound(m, k)].val
  }

  function Put<V>(m: seq<Entry<V>>, k: Key, v: V): seq<Entry<V>> {
    var p := LowerBound(m, k);
    if p < |m| && m[p].key == k then m[p := Entry(k, v)] else m[..p] + [Entry(k, v)] + m[p..]
  }

  function GetOr<V>(m: seq<Entry<V>>, k: Key, default: V): V {
    if Contains(m, k) then Get(m, k) else default
  }

  lemma {:induction false} ContainsIff<V>(m: seq<Entry<V>>, k: Key, i: nat)
    requires Sorted(m) && i < |m|
    ensures m[i].key == k ==> Contains(m, k) && LowerBound(m, k) == i && Get(m, k) == m[i].val
  {
  }

  lemma {:induction false} GetIn<V>(m: seq<Entry<V>>, k: Key, v: V)
    requires Sorted(m)
    ensures Entry(k, v) in m <==> Contains(m, k) && Get(m, k) == v
  {
    if Entry(k, v) in m {
      var i :| 0 <= i < |m| && m[i] == Entry(k, v);
      ContainsIff(m, k, i);
    }
    if Contains(m, k) && Get(m, k) == v {
      assert m[LowerBound(m, k)] == Entry(k, v);
    }
  }

  lemma {:induction false} ContainsMember<V>(m: seq<Entry<V>>, k: Key)
    ensures Contains(m, k) ==> exists e :: e in m && e.key == k
  {
    if Contains(m, k) {
      assert m[LowerBound(m, k)] in m;
    }
  }

  lemma {:induction false} PutSorted<V>(m: seq<Entry<V>>, k: Key, v: V)
    requires Sorted(m)
    ensures Sorted(Put(m, k, v))
  {
    var p := LowerBound(m, k);
    var n := Put(m, k, v);
    if p < |m| && m[p].key == k {
      assert forall i :: 0 <= i < |n| ==> n[i].key == m[i].key;
    } else {
      assert p < |m| ==> Less(k, m[p].key);
      forall i, j | 0 <= i < j < |n|
        ensures Less(n[i].key, n[j].key)
      {
        assert i != p ==> n[i] == m[if i < p then i else i - 1];
        assert j != p ==> n[j] == m[if j < p then j else j - 1];
        if i == p && p + 1 < j {
          assert Less(m[p].key, m[j - 1].key);
        }
      }
    }
  }

  lemma {:induction false} PutIn<V>(m: seq<Entry<V>>, k: Key, v: V, e: Entry<V>)
    requires Sorted(m)
    ensures e in Put(m, k, v) <==> e == Entry(k, v) || (e in m && e.key != k)
  {
    var p := LowerBound(m, k);
    var n := Put(m, k, v);
    if p < |m| && m[p].key == k {
      if e in m && e.key != k {
        var i :| 0 <= i < |m| && m[i] == e;
        assert n[i] == e;
      }
      if e in n {
        var i :| 0 <= i < |n| && n[i] == e;
        assert i != p ==> m[i] == e && (Less(m[i].key, k) || Less(k, m[i].key));
      }
      assert n[p] == Entry(k, v);
    } else {
      assert m == m[..p] + m[p..];
      if e in m {
        var i :| 0 <= i < |m| && m[i] == e;
        assert i < p || i == p || Less(m[p].key, m[i].key);
      }
      if e in n && e != Entry(k, v) {
        assert e in m[..p] || e in m[p..];
      }
    }
  }

  /** Lookup after an update: the updated key changes, every other key is untouched. */
  lemma {:induction false} PutGet<V>(m: seq<Entry<V>>, k: Key, v: V, k': Key, default: V)
    requires Sorted(m)
    ensures GetOr(Put(m, k, v), k', default) == if k' == k then v else GetOr(m, k', default)
    ensures Contains(Put(m, k, v), k') <==> k' == k || Contains(m, k')
  {
    PutSorted(m, k, v);
    var n := Put(m, k, v);
    if k' == k {
      PutIn(m, k, v, Entry(k, v));
      GetIn(n, k, v);
    } else {
      if Contains(m, k') {
        PutIn(m, k, v, Entry(k', Get(m, k')));
        GetIn(m, k', Get(m, k'));
        GetIn(n, k', Get(m, k'));
      }
      if Contains(n, k') {
        PutIn(m, k, v, Entry(k', Get(n, k')));
        GetIn(n, k', Get(n, k'));
        GetIn(m, k', Get(n, k'));
      }
    }
  }

  /** A strictly sorted sequence is determined by its set of entries. */
  lemma {:induction false} SortedUnique<V>(m: seq<Entry<V>>, n: seq<Entry<V>>)
    requires Sorted(m) && Sorted(n)
    requires forall e :: e in m <==> e in n
    ensures m == n
  {
    assert m == [] || m[0] in m;
    assert n == [] || n[0] in n;
    if m != [] {
      assert m[0] in n && n[0] in m;
      var i :| 0 <= i < |n| && n[i] == m[0];
      var j :| 0 <= j < |m| && m[j] == n[0];
      HeadLeast(n, i);
      HeadLeast(m, j);
      assert m[0] == n[0];
      forall e
        ensures e in m[1..] <==> e in n[1..]
      {
        TailIn(m, e);
        TailIn(n, e);
      }
      SortedUnique(m[1..], n[1..]);
      assert m == [m[0]] + m[1..] && n == [n[0]] + n[1..];
    }
  }

  lemma {:induction false} HeadLeast<V>(m: seq<Entry<V>>, i: nat)
    requires Sorted(m) && i < |m|
    ensures m[i] == m[0] || Less(m[0].key, m[i].key)
  {
  }

  lemma {:induction false} TailIn<V>(m: seq<Entry<V>>, e: Entry<V>)
    requires Sorted(m) && m != []
    ensures e in m[1..] <==> e in m && e != m[0]
  {
    if e in m && e != m[0] {
      var i :| 0 <= i < |m| && m[i] == e;
      assert m[1..][i - 1] == e;
    }
    if e in m[1..] {
      var i :| 0 <= i < |m[1..]| && m[1..][i] == e;
      assert m[i + 1] == e && Less(m[0].key, m[i + 1].key);
    }
  }
}

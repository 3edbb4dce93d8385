// Waiting for a list of futures: sweeps over an in-place list of the indices still open, which
// call a continuation for every future found ready.

module AwaitFutures {

  /** The indices of 0, 1, ..., n-1. */
  function Iota(n: nat): (s: seq<int>)
    ensures |s| == n && forall i {:trigger s[i]} :: 0 <= i < n ==> s[i] == i
  {
    seq(n, i requires 0 <= i < n => i)
  }

  /** The part of a list whose futures are ready (or not). */
  function Select(list: seq<int>, ready: set<int>, want: bool): seq<int> {
    if list == [] then []
    else
      var last := list[|list| - 1];
      Select(list[..|list| - 1], ready, want) + (if (last in ready) == want then [last] else [])
  }

  function Occurs(s: seq<int>, i: int): nat {
    if s == [] then 0 else Occurs(s[..|s| - 1], i) + (if s[|s| - 1] == i then 1 else 0)
  }

  lemma {:induction false} OccursAppend(a: seq<int>, b: seq<int>, i: int)
    ensures Occurs(a + b, i) == Occurs(a, i) + Occurs(b, i)
  {
    if b == [] {
      assert a + b == a;
    } else {
      OccursAppend(a, b[..|b| - 1], i);
      assert (a + b)[..|a + b| - 1] == a + b[..|b| - 1];
    }
  }

  lemma {:induction false} OccursIn(s: seq<int>, i: int)
    ensures Occurs(s, i) > 0 <==> i in s
  {
    if s != [] {
      OccursIn(s[..|s| - 1], i);
      assert s == s[..|s| - 1] + [s[|s| - 1]];
    }
  }

  lemma {:induction false} SelectSplits(list: seq<int>, ready: set<int>, i: int)
    ensures Occurs(list, i) == Occurs(Select(list, ready, true), i) + Occurs(Select(list, ready, false), i)
    ensures |list| == |Select(list, ready, true)| + |Select(list, ready, false)|
  {
    if list != [] {
      var init, last := list[..|list| - 1], [list[|list| - 1]];
      SelectSplits(init, ready, i);
      OccursAppend(Select(init, ready, true), if list[|list| - 1] in ready then last else [], i);
      OccursAppend(Select(init, ready, false), if list[|list| - 1] in ready then [] else last, i);
      assert last[..0] == [];
    }
  }

  lemma {:induction false} SelectIn(list: seq<int>, ready: set<int>, want: bool, i: int)
    ensures i in Select(list, ready, want) <==> i in list && (i in ready) == want
  {
    if list != [] {
      SelectIn(list[..|list| - 1], ready, want, i);
      assert list == list[..|list| - 1] + [list[|list| - 1]];
    }
  }

  /** One sweep: std::remove_if over the open part of the list, with the test and the
      continuation in its predicate. `ready` are the futures whose test succeeds in this sweep. */
  method Sweep(list: array<int>, end: nat, ready: set<int>) returns (newEnd: nat, calls: seq<int>)
    requires end <= list.Length
    modifies list
    ensures newEnd <= end && list[..newEnd] == Select(old(list[..end]), ready, false)
    ensures calls == Select(old(list[..end]), ready, true)
  {
    ghost var before := list[..end];
    newEnd, calls := 0, [];
    for i := 0 to end
      invariant newEnd <= i
      invariant list[..newEnd] == Select(before[..i], ready, false) && calls == Select(before[..i], ready, true)
      invariant forall k :: i <= k < end ==> list[k] == before[k]
    {
      assert before[..i + 1][..i] == before[..i];
      var idx := list[i];
      if idx in ready {
        calls := calls + [idx];
      } else {
        list[newEnd] := idx;
        newEnd := newEnd + 1;
      }
    }
    assert before[..end] == before;
  }

  /** Open indices after the first p sweeps. */
  function Left(n: nat, tests: seq<set<int>>, p: nat): seq<int>
    requires p <= |tests|
  {
    if p == 0 then Iota(n) else Select(Left(n, tests, p - 1), tests[p - 1], false)
  }

  /** Continuations called by the first p sweeps, in call order. */
  function Calls(n: nat, tests: seq<set<int>>, p: nat): seq<int>
    requires p <= |tests|
  {
    if p == 0 then [] else Calls(n, tests, p - 1) + Select(Left(n, tests, p - 1), tests[p - 1], true)
  }

  lemma {:induction false} NothingLeft(n: nat, tests: seq<set<int>>, p: nat, q: nat)
    requires p <= q <= |tests| && Left(n, tests, p) == []
    ensures Left(n, tests, q) == [] && Calls(n, tests, q) == Calls(n, tests, p)
  {
    if p < q {
      NothingLeft(n, tests, p, q - 1);
    }
  }

  lemma {:induction false} IotaOnce(n: nat, i: int)
    ensures Occurs(Iota(n), i) == if 0 <= i < n then 1 else 0
  {
    if n > 0 {
      IotaOnce(n - 1, i);
      assert Iota(n)[..n - 1] == Iota(n - 1);
    }
  }

  lemma {:induction false} SweepCount(calls: seq<int>, left: seq<int>, ready: set<int>, i: int)
    ensures Occurs(calls + Select(left, ready, true), i) + Occurs(Select(left, ready, false), i) == Occurs(calls, i) + Occurs(left, i)
    ensures |calls + Select(left, ready, true)| + |Select(left, ready, false)| == |calls| + |left|
  {
    SelectSplits(left, ready, i);
    OccursAppend(calls, Select(left, ready, true), i);
  }

  /** Each index is open or has been continued, once. */
  lemma {:induction false} CallsAndLeft(n: nat, tests: seq<set<int>>, p: nat, i: int)
    requires p <= |tests|
    ensures Occurs(Calls(n, tests, p), i) + Occurs(Left(n, tests, p), i) == if 0 <= i < n then 1 else 0
    ensures |Calls(n, tests, p)| + |Left(n, tests, p)| == n
  {
    if p == 0 {
      IotaOnce(n, i);
    } else {
      CallsAndLeft(n, tests, p - 1, i);
      var calls, left, ready := Calls(n, tests, p - 1), Left(n, tests, p - 1), tests[p - 1];
      SweepCount(calls, left, ready, i);
      var calls', left' := calls + Select(left, ready, true), Select(left, ready, false);
      assert Calls(n, tests, p) == calls' && Left(n, tests, p) == left';
    }
  }

  ghost predicate EverReady(tests: seq<set<int>>, p: nat, i: int) {
    exists q :: 0 <= q < p && q < |tests| && i in tests[q]
  }

  lemma {:induction false} LeftIff(n: nat, tests: seq<set<int>>, p: nat, i: int)
    requires p <= |tests|
    ensures i in Left(n, tests, p) <==> 0 <= i < n && !EverReady(tests, p, i)
  {
    if p == 0 {
      assert 0 <= i < n ==> Iota(n)[i] == i;
    } else {
      LeftIff(n, tests, p - 1, i);
      SelectIn(Left(n, tests, p - 1), tests[p - 1], false, i);
      assert EverReady(tests, p, i) <==> EverReady(tests, p - 1, i) || i in tests[p - 1];
    }
  }

  /** Each continuation runs exactly once if its future ever tests ready, and not otherwise;
      what has not run is what is left open. */
  lemma {:induction false} EachContinuationOnce(n: nat, tests: seq<set<int>>, i: nat)
    requires i < n
    ensures Occurs(Calls(n, tests, |tests|), i) == if EverReady(tests, |tests|, i) then 1 else 0
    ensures i in Left(n, tests, |tests|) <==> !EverReady(tests, |tests|, i)
    ensures |Calls(n, tests, |tests|)| + |Left(n, tests, |tests|)| == n
  {
    CallsAndLeft(n, tests, |tests|, i);
    LeftIff(n, tests, |tests|, i);
    OccursIn(Left(n, tests, |tests|), i);
  }

  ghost predicate Increasing(s: seq<int>) {
    forall a, b :: 0 <= a < b < |s| ==> s[a] < s[b]
  }

  lemma {:induction false} SelectIncreasing(list: seq<int>, ready: set<int>, want: bool)
    requires Increasing(list)
    ensures Increasing(Select(list, ready, want))
    ensures forall x :: x in Select(list, ready, want) ==> x in list
  {
    if list != [] {
      SelectIncreasing(list[..|list| - 1], ready, want);
      var init := list[..|list| - 1];
      var s := Select(init, ready, want);
      forall k | 0 <= k < |s|
        ensures s[k] < list[|list| - 1]
      {
        assert s[k] in s;
        var a :| 0 <= a < |init| && init[a] == s[k];
      }
    }
  }

  /** Every sweep tests, and so continues, in the order of the range: the in-place compaction is
      stable. */
  lemma {:induction false} SweepsInOrder(n: nat, tests: seq<set<int>>, p: nat)
    requires p <= |tests|
    ensures Increasing(Left(n, tests, p))
    ensures p > 0 ==> Increasing(Select(Left(n, tests, p - 1), tests[p - 1], true))
  {
    if p > 0 {
      SweepsInOrder(n, tests, p - 1);
      SelectIncreasing(Left(n, tests, p - 1), tests[p - 1], false);
      SelectIncreasing(Left(n, tests, p - 1), tests[p - 1], true);
    }
  }

  /** Sweep p is the first one that finds future i ready. */
  ghost predicate FirstReady(tests: seq<set<int>>, i: int, p: nat) {
    p < |tests| && i in tests[p] && forall q :: 0 <= q < p ==> i !in tests[q]
  }

  /** i is found ready before j: in an earlier sweep, or in the same one as a later index. */
  ghost predicate ReadyBefore(tests: seq<set<int>>, i: int, j: int) {
    exists p: nat, q: nat :: FirstReady(tests, i, p) && FirstReady(tests, j, q) && (p < q || (p == q && i < j))
  }

  ghost predicate CalledInOrder(tests: seq<set<int>>, calls: seq<int>) {
    forall a, b :: 0 <= a < b < |calls| ==> ReadyBefore(tests, calls[a], calls[b])
  }

  lemma {:induction false} FirstOfReady(tests: seq<set<int>>, p: nat, i: int) returns (q: nat)
    requires p <= |tests| && EverReady(tests, p, i)
    ensures q < p && FirstReady(tests, i, q)
  {
    if EverReady(tests, p - 1, i) {
      q := FirstOfReady(tests, p - 1, i);
    } else {
      q := p - 1;
    }
  }

  /** A sweep continues the futures that it is the first to find ready. */
  lemma {:induction false} SweptIff(n: nat, tests: seq<set<int>>, p: nat, i: int)
    requires p < |tests|
    ensures i in Select(Left(n, tests, p), tests[p], true) <==> 0 <= i < n && FirstReady(tests, i, p)
  {
    SelectIn(Left(n, tests, p), tests[p], true, i);
    LeftIff(n, tests, p, i);
  }

  lemma {:induction false} MoreInOrder(tests: seq<set<int>>, before: seq<int>, more: seq<int>, p: nat)
    requires p < |tests| && CalledInOrder(tests, before) && Increasing(more)
    requires forall i :: i in before ==> EverReady(tests, p, i)
    requires forall i :: i in more ==> FirstReady(tests, i, p)
    ensures CalledInOrder(tests, before + more)
  {
    var calls := before + more;
    forall a, b | 0 <= a < b < |calls|
      ensures ReadyBefore(tests, calls[a], calls[b])
    {
      if b < |before| {
        assert ReadyBefore(tests, before[a], before[b]);
      } else {
        assert calls[b] == more[b - |before|] && more[b - |before|] in more;
        if a < |before| {
          assert before[a] in before;
          var q := FirstOfReady(tests, p, before[a]);
        } else {
          assert calls[a] == more[a - |before|] && more[a - |before|] in more;
        }
      }
    }
  }

  /** The first p sweeps have continued the futures that one of them found ready. */
  lemma {:induction false} CallsIff(n: nat, tests: seq<set<int>>, p: nat, i: int)
    requires p <= |tests|
    ensures i in Calls(n, tests, p) <==> 0 <= i < n && EverReady(tests, p, i)
  {
    CallsAndLeft(n, tests, p, i);
    LeftIff(n, tests, p, i);
    OccursIn(Calls(n, tests, p), i);
    OccursIn(Left(n, tests, p), i);
  }

  /** They have done so in the order in which the futures were found ready. */
  lemma {:induction false} CallsInOrder(n: nat, tests: seq<set<int>>, p: nat)
    requires p <= |tests|
    ensures CalledInOrder(tests, Calls(n, tests, p))
  {
    if p > 0 {
      var q := p - 1;
      CallsInOrder(n, tests, q);
      forall i
        ensures i in Calls(n, tests, q) ==> EverReady(tests, q, i)
        ensures i in Select(Left(n, tests, q), tests[q], true) ==> FirstReady(tests, i, q)
      {
        CallsIff(n, tests, q, i);
        SweptIff(n, tests, q, i);
      }
      SweepsInOrder(n, tests, p);
      MoreInOrder(tests, Calls(n, tests, q), Select(Left(n, tests, q), tests[q], true), q);
    }
  }

  lemma {:induction false} CalledReady(n: nat, tests: seq<set<int>>)
    ensures var calls := Calls(n, tests, |tests|);
      && (forall i :: i in calls <==> 0 <= i < n && exists p :: 0 <= p < |tests| && i in tests[p])
      && CalledInOrder(tests, calls) && (Left(n, tests, |tests|) == [] <==> |calls| == n)
  {
    forall i
      ensures i in Calls(n, tests, |tests|) <==> 0 <= i < n && exists q :: 0 <= q < |tests| && i in tests[q]
    {
      CallsIff(n, tests, |tests|, i);
    }
    CallsInOrder(n, tests, |tests|);
    CallsAndLeft(n, tests, |tests|, 0);
  }

  /** await_futures (and await_requests) on n futures. tests[p] are the futures that are ready
      when sweep p tests them; the list ends when all futures are done or the sweeps that the
      tests describe are over. */
  method Await(n: nat, tests: seq<set<int>>) returns (calls: seq<int>, finished: bool)
    ensures calls == Calls(n, tests, |tests|)
    ensures finished <==> Left(n, tests, |tests|) == []
    ensures forall i :: i in calls <==> 0 <= i < n && exists p :: 0 <= p < |tests| && i in tests[p]
    ensures CalledInOrder(tests, calls) && (finished <==> |calls| == n)
  {
    var list := new int[n];
    for i := 0 to n
      invariant forall k :: 0 <= k < i ==> list[k] == k
    {
      list[i] := i;
    }
    var end: nat, p: nat := n, 0;
    calls := [];
    assert list[..] == Iota(n);
    while end != 0 && p < |tests|
      invariant 0 <= p <= |tests| && 0 <= end <= list.Length
      invariant list[..end] == Left(n, tests, p) && calls == Calls(n, tests, p)
      decreases |tests| - p
    {
      var more: seq<int>;
      end, more := Sweep(list, end, tests[p]);
      calls := calls + more;
      p := p + 1;
    }
    if end == 0 {
      NothingLeft(n, tests, p, |tests|);
    }
    finished := end == 0;
    CalledReady(n, tests);
  }
}

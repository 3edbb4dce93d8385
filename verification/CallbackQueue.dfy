// The queue of pending callbacks of a communicator: futures complete in any order, finished
// entries are replaced by the last one, and the caller's requests keep track of where their
// entries are.

module CallbackQueue {

  /** Shared between a request handed to the caller and its entry in the queue. */
  datatype RequestState = RequestState(ready: bool, index: nat)

  /** The counter shared by the parts of a send to several destinations: the user's callback
      runs when it drops to zero. */
  datatype Countdown = Countdown(total: nat, count: int, fired: nat)

  /** The callback of one part. */
  function Part(c: Countdown): Countdown {
    Countdown(c.total, c.count - 1, if c.count - 1 == 0 then c.fired + 1 else c.fired)
  }

  const NO_COUNTER: int := -1

  /** request names the shared state: the states are numbered as they are created. */
  datatype Element = Element(rank: int, tag: int, counter: int, request: nat)

  // ------------------------------------------------------------------ counting

  /** How many of the elements share a counter. */
  ghost function Hits(s: seq<Element>, c: int): nat {
    if s == [] then 0 else Hits(s[..|s| - 1], c) + (if s[|s| - 1].counter == c then 1 else 0)
  }

  lemma {:induction false} HitsAppend(a: seq<Element>, b: seq<Element>, c: int)
    ensures Hits(a + b, c) == Hits(a, c) + Hits(b, c)
  {
    if b == [] {
      assert a + b == a;
    } else {
      HitsAppend(a, b[..|b| - 1], c);
      assert (a + b)[..|a + b| - 1] == a + b[..|b| - 1];
    }
  }

  lemma {:induction false} HitsMember(s: seq<Element>, c: int, e: Element)
    requires e in s && e.counter == c
    ensures Hits(s, c) > 0
  {
    var i :| 0 <= i < |s| && s[i] == e;
    if i < |s| - 1 {
      assert s[..|s| - 1][i] == e;
      HitsMember(s[..|s| - 1], c, e);
    }
  }

  lemma {:induction false} HitsNone(s: seq<Element>, c: int)
    requires forall e :: e in s ==> e.counter != c
    ensures Hits(s, c) == 0
  {
    if s != [] {
      assert s[|s| - 1] in s;
      HitsNone(s[..|s| - 1], c);
    }
  }

  /** Counting does not depend on the order. */
  lemma {:induction false} HitsOrder(a: seq<Element>, b: seq<Element>, c: int)
    requires multiset(a) == multiset(b)
    ensures Hits(a, c) == Hits(b, c)
  {
    if a == [] {
      assert |multiset(b)| == 0;
    } else {
      var e := a[|a| - 1];
      assert a == a[..|a| - 1] + [e];
      assert e in multiset(b);
      var i :| 0 <= i < |b| && b[i] == e;
      assert b == b[..i] + [e] + b[i + 1..];
      var rest := b[..i] + b[i + 1..];
      assert multiset(rest) == multiset(b) - multiset{e};
      HitsOrder(a[..|a| - 1], rest, c);
      HitsAppend(b[..i], [e], c);
      HitsAppend(b[..i] + [e], b[i + 1..], c);
      HitsAppend(b[..i], b[i + 1..], c);
    }
  }

  // ------------------------------------------------------------------ swap and pop

  /** The queue without element i, its place taken by the last one. */
  function SwapPop(q: seq<Element>, i: nat): (r: seq<Element>)
    requires i < |q|
    ensures |r| == |q| - 1
  {
    if i + 1 < |q| then q[i := q[|q| - 1]][..|q| - 1] else q[..|q| - 1]
  }

  ghost function Rest(q: seq<Element>, busy: int): seq<Element>
    requires busy < |q|
  {
    if busy < 0 then q else q[..busy] + q[busy + 1..]
  }

  lemma {:induction false} SwapPopKeeps(q: seq<Element>, i: nat)
    requires i < |q|
    ensures multiset(SwapPop(q, i)) == multiset(Rest(q, i))
    ensures multiset(q) == multiset(Rest(q, i)) + multiset{q[i]}
  {
    var last := q[|q| - 1];
    assert q == q[..i] + [q[i]] + q[i + 1..];
    if i + 1 < |q| {
      assert q[i + 1..] == q[i + 1..|q| - 1] + [last];
      assert SwapPop(q, i) == q[..i] + [last] + q[i + 1..|q| - 1];
    } else {
      assert SwapPop(q, i) == q[..i] && q[i + 1..] == [];
    }
  }

  // ------------------------------------------------------------------ books

  /** What is queued, accepted, called and cancelled; the shared states; the counters. */
  datatype History = History(queue: seq<Element>, states: seq<RequestState>, counters: map<int, Countdown>,
                             accepted: seq<Element>, called: seq<Element>, cancelled: seq<Element>)

  ghost predicate Numbered(accepted: seq<Element>) {
    forall k :: 0 <= k < |accepted| ==> accepted[k].request == k
  }

  /** Every accepted element is queued, called or cancelled, and in one place only. While the
      callback of queue[busy] runs its entry is still in the queue but counts as called. */
  ghost predicate Books(h: History, busy: int) {
    && -1 <= busy < |h.queue| && |h.states| == |h.accepted| && Numbered(h.accepted)
    && multiset(h.accepted) == multiset(Rest(h.queue, busy)) + multiset(h.called) + multiset(h.cancelled)
  }

  /** Every queued request points at its own entry. */
  ghost predicate Indexed(queue: seq<Element>, states: seq<RequestState>) {
    forall i :: 0 <= i < |queue| ==> queue[i].request < |states| && states[queue[i].request] == RequestState(false, i)
  }

  ghost predicate CalledReady(h: History, busy: int)
    requires busy < |h.queue|
  {
    forall i :: 0 <= i < |h.called| ==>
      h.called[i].request < |h.states| && (h.states[h.called[i].request].ready || (busy >= 0 && h.called[i] == h.queue[busy]))
  }

  ghost predicate Consistent(h: History, busy: int) {
    Books(h, busy) && Indexed(h.queue, h.states) && CalledReady(h, busy) && CountersOk(h.counters, h.accepted, h.called)
  }

  lemma {:induction false} SwapPopFrom(q: seq<Element>, i: nat)
    requires i < |q|
    ensures forall k :: 0 <= k < |q| - 1 ==> SwapPop(q, i)[k] == q[if k == i then |q| - 1 else k]
  {
  }

  lemma {:induction false} AcceptedOnce(accepted: seq<Element>, e: Element)
    requires Numbered(accepted)
    ensures multiset(accepted)[e] == if e in accepted then 1 else 0
  {
    if accepted != [] {
      var init, last := accepted[..|accepted| - 1], accepted[|accepted| - 1];
      AcceptedOnce(init, e);
      assert accepted == init + [last];
      assert last !in init;
    }
  }

  /** Exactly one of queued, called and cancelled, and once. */
  lemma {:induction false} OnePlace(h: History, e: Element)
    requires Books(h, -1) && e in h.accepted
    ensures multiset(h.queue)[e] + multiset(h.called)[e] + multiset(h.cancelled)[e] == 1
    ensures |h.accepted| == |h.queue| + |h.called| + |h.cancelled|
  {
    AcceptedOnce(h.accepted, e);
    assert |multiset(h.accepted)| == |multiset(h.queue)| + |multiset(h.called)| + |multiset(h.cancelled)|;
  }

  /** Whatever is queued, called or cancelled was accepted. */
  lemma {:induction false} BooksMember(h: History, busy: int, e: Element)
    requires Books(h, busy) && (e in Rest(h.queue, busy) || e in h.called || e in h.cancelled)
    ensures e in h.accepted && e.request < |h.accepted| && h.accepted[e.request] == e
  {
    assert e in multiset(h.accepted);
  }

  /** Accepted sends of a counter: those called, queued and cancelled. */
  lemma {:induction false} HitsBooks(h: History, busy: int, c: int)
    requires Books(h, busy)
    ensures Hits(h.accepted, c) == Hits(Rest(h.queue, busy), c) + Hits(h.called, c) + Hits(h.cancelled, c)
  {
    HitsOrder(h.accepted, Rest(h.queue, busy) + h.called + h.cancelled, c);
    HitsAppend(Rest(h.queue, busy), h.called, c);
    HitsAppend(Rest(h.queue, busy) + h.called, h.cancelled, c);
  }

  // ------------------------------------------------------------------ counters

  /** A counter agrees with the history: each completed part has been counted down, and the
      user's callback has run once if that was all of them and not before. */
  ghost predicate Agrees(d: Countdown, accepted: seq<Element>, called: seq<Element>, c: int) {
    && d.count == d.total - Hits(called, c)
    && Hits(called, c) <= Hits(accepted, c) <= d.total
    && d.fired == (if Hits(called, c) == d.total > 0 then 1 else 0)
  }

  ghost predicate CountersOk(counters: map<int, Countdown>, accepted: seq<Element>, called: seq<Element>) {
    && NO_COUNTER !in counters
    && (forall c {:trigger c in counters} :: c in counters ==> Agrees(counters[c], accepted, called, c))
    && (forall i :: 0 <= i < |accepted| ==> accepted[i].counter == NO_COUNTER || accepted[i].counter in counters)
  }

  lemma {:induction false} HitsMore(s: seq<Element>, e: Element, c: int)
    ensures Hits(s + [e], c) == Hits(s, c) + (if e.counter == c then 1 else 0)
  {
    assert (s + [e])[..|s|] == s;
  }

  lemma {:induction false} CountersAccept(counters: map<int, Countdown>, accepted: seq<Element>, called: seq<Element>, e: Element)
    requires CountersOk(counters, accepted, called)
    requires e.counter == NO_COUNTER || (e.counter in counters && Hits(accepted, e.counter) < counters[e.counter].total)
    ensures CountersOk(counters, accepted + [e], called)
  {
    forall c | c in counters
      ensures Agrees(counters[c], accepted + [e], called, c)
    {
      HitsMore(accepted, e, c);
    }
  }

  function Ran(counters: map<int, Countdown>, e: Element): map<int, Countdown> {
    if e.counter in counters then counters[e.counter := Part(counters[e.counter])] else counters
  }

  lemma {:induction false} CountersCall(counters: map<int, Countdown>, accepted: seq<Element>, called: seq<Element>, e: Element)
    requires CountersOk(counters, accepted, called)
    requires Hits(called, e.counter) < Hits(accepted, e.counter)
    ensures CountersOk(Ran(counters, e), accepted, called + [e])
  {
    var now := Ran(counters, e);
    forall c | c in now
      ensures Agrees(now[c], accepted, called + [e], c)
    {
      HitsMore(called, e, c);
    }
  }

  lemma {:induction false} CountersNew(counters: map<int, Countdown>, accepted: seq<Element>, called: seq<Element>, c: int, n: nat)
    requires CountersOk(counters, accepted, called) && c !in counters && c != NO_COUNTER
    requires forall e :: e in called ==> e in accepted
    ensures CountersOk(counters[c := Countdown(n, n, 0)], accepted, called)
    ensures Hits(accepted, c) == 0
  {
    HitsNone(accepted, c);
    HitsNone(called, c);
  }

  // ------------------------------------------------------------------ what the operations do

  /** test_any finds the element at index, and `more` is posted while its callback runs. */
  datatype Pick = Pick(index: nat, more: seq<Post>)

  /** enqueue */
  function Enqueued(h: History, e: Element): History {
    h.(queue := h.queue + [e], states := h.states + [RequestState(false, |h.queue|)], accepted := h.accepted + [e])
  }

  ghost predicate MayAccept(h: History, c: int) {
    c == NO_COUNTER || (c in h.counters && Hits(h.accepted, c) < h.counters[c].total)
  }

  lemma {:induction false} EnqueueKeeps(h: History, busy: int, e: Element)
    requires Consistent(h, busy) && e.request == |h.states| && MayAccept(h, e.counter)
    ensures Consistent(Enqueued(h, e), busy)
  {
    assert Rest(h.queue + [e], busy) == Rest(h.queue, busy) + [e];
    CountersAccept(h.counters, h.accepted, h.called, e);
  }

  /** The callback of an element: the user's own, or a countdown shared by several sends. */
  function Called(h: History, e: Element): History {
    h.(called := h.called + [e], counters := Ran(h.counters, e))
  }

  lemma {:induction false} CallBooks(h: History, i: nat)
    requires Books(h, -1) && i < |h.queue|
    ensures Books(Called(h, h.queue[i]), i)
  {
    SwapPopKeeps(h.queue, i);
  }

  lemma {:induction false} CallDue(h: History, i: nat)
    requires Books(h, -1) && i < |h.queue|
    ensures Hits(h.called, h.queue[i].counter) < Hits(h.accepted, h.queue[i].counter)
  {
    HitsBooks(h, -1, h.queue[i].counter);
    HitsMember(h.queue, h.queue[i].counter, h.queue[i]);
  }

  lemma {:induction false} CallKeeps(h: History, i: nat)
    requires Consistent(h, -1) && i < |h.queue|
    ensures Consistent(Called(h, h.queue[i]), i)
  {
    CallDue(h, i);
    CountersCall(h.counters, h.accepted, h.called, h.queue[i]);
    CallBooks(h, i);
  }

  /** The states once the last element of the queue has moved to position i. */
  function Moved(queue: seq<Element>, states: seq<RequestState>, i: nat): (r: seq<RequestState>)
    requires i < |queue| && forall k :: 0 <= k < |queue| ==> queue[k].request < |states|
    ensures |r| == |states|
  {
    var last := queue[|queue| - 1].request;
    if i + 1 < |queue| then states[last := RequestState(states[last].ready, i)] else states
  }

  lemma {:induction false} MovedIndexed(queue: seq<Element>, states: seq<RequestState>, i: nat)
    requires i < |queue| && forall k :: 0 <= k < |queue| ==> queue[k].request < |states| && states[queue[k].request].index == k
    requires forall k :: 0 <= k < |queue| && k != i ==> !states[queue[k].request].ready
    ensures Indexed(SwapPop(queue, i), Moved(queue, states, i))
    ensures forall r :: 0 <= r < |states| ==> Moved(queue, states, i)[r].ready == states[r].ready
    ensures Moved(queue, states, i)[queue[i].request].index == i
  {
    SwapPopFrom(queue, i);
  }

  /** progress, after the callback: mark the request ready, then swap and pop. */
  function Finished(h: History, i: nat): History
    requires i < |h.queue| && Indexed(h.queue, h.states)
  {
    var states := h.states[h.queue[i].request := RequestState(true, i)];
    h.(queue := SwapPop(h.queue, i), states := Moved(h.queue, states, i))
  }

  lemma {:induction false} FinishKeeps(h: History, i: nat)
    requires i < |h.queue| && Consistent(h, i)
    ensures Consistent(Finished(h, i), -1)
    ensures Finished(h, i).states[h.queue[i].request] == RequestState(true, i)
  {
    SwapPopKeeps(h.queue, i);
    MovedIndexed(h.queue, h.states[h.queue[i].request := RequestState(true, i)], i);
  }

  /** A send that has completed when it is issued. */
  function CalledAtOnce(h: History, e: Element): History {
    Called(h.(accepted := h.accepted + [e], states := h.states + [RequestState(true, 0)]), e)
  }

  lemma {:induction false} CallAtOnceKeeps(h: History, busy: int, e: Element)
    requires Consistent(h, busy) && e.request == |h.states| && MayAccept(h, e.counter)
    ensures Consistent(CalledAtOnce(h, e), busy)
  {
    BooksAtOnce(h, busy, e);
    CountersAtOnce(h, busy, e);
  }

  lemma {:induction false} BooksAtOnce(h: History, busy: int, e: Element)
    requires Books(h, busy) && Indexed(h.queue, h.states) && CalledReady(h, busy) && e.request == |h.states|
    ensures var n := CalledAtOnce(h, e);
      Books(n, busy) && Indexed(n.queue, n.states) && CalledReady(n, busy)
  {
  }

  lemma {:induction false} CountersAtOnce(h: History, busy: int, e: Element)
    requires Books(h, busy) && CountersOk(h.counters, h.accepted, h.called) && MayAccept(h, e.counter)
    ensures CountersOk(Ran(h.counters, e), h.accepted + [e], h.called + [e])
  {
    HitsBooks(h, busy, e.counter);
    CountersAccept(h.counters, h.accepted, h.called, e);
    HitsMore(h.accepted, e, e.counter);
    CountersCall(h.counters, h.accepted + [e], h.called, e);
  }

  /** A send or receive posted by a callback: its peer and tag, and whether it is done at once. If
      it is, its own callback runs right away, so what that one posts comes next. */
  datatype Post = Post(rank: int, tag: int, done: bool)

  /** What is posted while a callback runs, one after the other. */
  function PostedAll(h: History, more: seq<Post>): (r: History)
    requires Indexed(h.queue, h.states)
    ensures Indexed(r.queue, r.states) && h.queue <= r.queue
    decreases |more|
  {
    if more == [] then h
    else
      var before, last := PostedAll(h, more[..|more| - 1]), more[|more| - 1];
      Posted(before, Element(last.rank, last.tag, NO_COUNTER, |before.states|), last.done)
  }

  lemma {:induction false} PostedOneMore(h: History, more: seq<Post>, k: nat)
    requires Indexed(h.queue, h.states) && k < |more|
    ensures var before := PostedAll(h, more[..k]);
      PostedAll(h, more[..k + 1]) == Posted(before, Element(more[k].rank, more[k].tag, NO_COUNTER, |before.states|), more[k].done)
  {
    assert more[..k + 1][..k] == more[..k];
  }

  /** The first k posts have been accepted, one behind the other, after the first `base` elements. */
  ghost predicate Joined(accepted: seq<Element>, base: nat, more: seq<Post>, k: nat) {
    && k <= |more| && |accepted| == base + k
    && forall a :: 0 <= a < k ==> accepted[base + a] == Element(more[a].rank, more[a].tag, NO_COUNTER, base + a)
  }

  /** Those done at once have been called, the others are queued. */
  ghost predicate Placed(h: History, base: nat, more: seq<Post>, k: nat) {
    Joined(h.accepted, base, more, k)
    && forall a :: 0 <= a < k ==> if more[a].done then h.accepted[base + a] in h.called else h.accepted[base + a] in h.queue
  }

  lemma {:induction false} PlacedStep(h: History, base: nat, more: seq<Post>, k: nat)
    requires k < |more| && Placed(h, base, more, k)
    ensures Placed(Posted(h, Element(more[k].rank, more[k].tag, NO_COUNTER, base + k), more[k].done), base, more, k + 1)
  {
    var g := Posted(h, Element(more[k].rank, more[k].tag, NO_COUNTER, base + k), more[k].done);
    forall a | 0 <= a < k + 1
      ensures g.accepted[base + a] == Element(more[a].rank, more[a].tag, NO_COUNTER, base + a)
      ensures if more[a].done then g.accepted[base + a] in g.called else g.accepted[base + a] in g.queue
    {
      if a < k {
        assert g.accepted[base + a] == h.accepted[base + a];
      }
    }
  }

  lemma {:induction false} PlacedAlso(h: History, base: nat, more: seq<Post>, n: nat)
    requires n <= |more| && Placed(h, base, more[..n], n)
    ensures Placed(h, base, more, n)
  {
    forall a | 0 <= a < n
      ensures more[..n][a] == more[a]
    {
    }
  }

  lemma {:induction false} PostedPlaced(h: History, more: seq<Post>)
    requires Indexed(h.queue, h.states) && |h.states| == |h.accepted|
    ensures var g := PostedAll(h, more);
      h.called <= g.called && |g.states| == |g.accepted| && Placed(g, |h.accepted|, more, |more|)
    decreases |more|
  {
    if more != [] {
      var n := |more| - 1;
      PostedPlaced(h, more[..n]);
      var before := PostedAll(h, more[..n]);
      PlacedAlso(before, |h.accepted|, more, n);
      PlacedStep(before, |h.accepted|, more, n);
    }
  }

  function Posted(h: History, e: Element, done: bool): History {
    if done then CalledAtOnce(h, e) else Enqueued(h, e)
  }

  /** One round of progress leads from h to g: the callback of the element found runs, and what
      it posts stays in the queue, if it is not done at once, when the element leaves it. */
  ghost predicate Round(h: History, g: History, pick: Pick) {
    && Consistent(h, -1) && pick.index < |h.queue|
    && g == Finished(PostedAll(Called(h, h.queue[pick.index]), pick.more), pick.index)
  }

  /** The states before, between and after n rounds. */
  ghost predicate Rounds(trace: seq<History>, picks: seq<Pick>, n: nat, before: History, now: History) {
    && |trace| == n + 1 && n <= |picks| && trace[0] == before && trace[n] == now
    && forall k :: 0 <= k < n ==> Round(trace[k], trace[k + 1], picks[k])
  }

  lemma {:induction false} RoundsStep(trace: seq<History>, picks: seq<Pick>, n: nat, before: History, now: History, next: History)
    requires Rounds(trace, picks, n, before, now) && n < |picks| && Round(now, next, picks[n])
    ensures Rounds(trace + [next], picks, n + 1, before, next)
  {
  }

  /** A part of a send to several destinations has gone out; it is queued unless done at once. */
  ghost predicate PartSent(h: History, e: Element, rank: int, tag: int, c: int, done: bool) {
    e.rank == rank && e.tag == tag && e.counter == c && if done then e in h.called else e in h.queue
  }

  /** The first k parts are what was accepted since `base`. */
  ghost predicate PartsSent(h: History, base: nat, neighs: seq<int>, tag: int, c: int, done: seq<bool>, k: nat)
    requires k <= |neighs| == |done|
  {
    && |h.accepted| == base + k
    && forall a :: 0 <= a < k ==> PartSent(h, h.accepted[base + a], neighs[a], tag, c, done[a])
  }

  lemma {:induction false} PartsStep(h: History, g: History, base: nat, neighs: seq<int>, tag: int, c: int, done: seq<bool>, k: nat,
                                     e: Element)
    requires k < |neighs| == |done| && PartsSent(h, base, neighs, tag, c, done, k)
    requires g.accepted == h.accepted + [e] && PartSent(g, e, neighs[k], tag, c, done[k])
    requires h.called <= g.called && h.queue <= g.queue
    ensures PartsSent(g, base, neighs, tag, c, done, k + 1)
  {
    forall a | 0 <= a < k
      ensures PartSent(g, h.accepted[base + a], neighs[a], tag, c, done[a])
    {
      assert PartSent(h, h.accepted[base + a], neighs[a], tag, c, done[a]);
    }
  }

  /** cancel, when the future lets itself be cancelled */
  function Cancelled(h: History, i: nat): History
    requires i < |h.queue| && Indexed(h.queue, h.states)
  {
    h.(queue := SwapPop(h.queue, i), states := Moved(h.queue, h.states, i), cancelled := h.cancelled + [h.queue[i]])
  }

  lemma {:induction false} CancelKeeps(h: History, i: nat)
    requires i < |h.queue| && Consistent(h, -1)
    ensures Consistent(Cancelled(h, i), -1)
  {
    SwapPopKeeps(h.queue, i);
    MovedIndexed(h.queue, h.states, i);
  }

  lemma {:induction false} NewCounterKeeps(h: History, c: int, n: nat)
    requires Consistent(h, -1) && c !in h.counters && c != NO_COUNTER
    ensures Consistent(h.(counters := h.counters[c := Countdown(n, n, 0)]), -1)
    ensures Hits(h.accepted, c) == 0
  {
    forall e | e in h.called
      ensures e in h.accepted
    {
      BooksMember(h, -1, e);
    }
    CountersNew(h.counters, h.accepted, h.called, c, n);
  }

  // ------------------------------------------------------------------ the queue

  /** The queue of a communicator's pending sends, or that of its receives. `lost` lists the
      requests of receives whose futures have been waited for by a cancel that came too late. */
  class Queue {
    const receiving: bool
    var queue: seq<Element>
    var states: seq<RequestState>
    var counters: map<int, Countdown>
    var nextCounter: nat
    var progressedCancels: int
    var lost: set<nat>
    ghost var accepted: seq<Element>
    ghost var called: seq<Element>
    ghost var cancelled: seq<Element>

    ghost function State(): History
      reads this
    {
      History(queue, states, counters, accepted, called, cancelled)
    }

    ghost predicate Valid()
      reads this
    {
      Consistent(State(), -1) && forall c :: c in counters ==> c < nextCounter
    }

    ghost predicate Calling(i: nat)
      reads this
    {
      i < |queue| && Consistent(State(), i) && forall c :: c in counters ==> c < nextCounter
    }

    constructor (receiving: bool)
      ensures Valid() && State() == History([], [], map[], [], [], []) && progressedCancels == 0
      ensures this.receiving == receiving && lost == {}
    {
      this.receiving := receiving;
      queue, states, accepted, called, cancelled := [], [], [], [], [];
      counters, nextCounter, progressedCancels, lost := map[], 0, 0, {};
    }

    /** enqueue: the new request points at the end of the queue. */
    method Enqueue(rank: int, tag: int, counter: int, ghost busy: int) returns (r: nat)
      requires Consistent(State(), busy) && MayAccept(State(), counter)
      modifies this`queue, this`states, this`accepted
      ensures r == |old(states)| && State() == Enqueued(old(State()), Element(rank, tag, counter, r))
      ensures Consistent(State(), busy)
    {
      r := |states|;
      EnqueueKeeps(State(), busy, Element(rank, tag, counter, r));
      states := states + [RequestState(false, |queue|)];
      queue := queue + [Element(rank, tag, counter, r)];
      accepted := accepted + [Element(rank, tag, counter, r)];
    }

    /** A send or receive that has completed when it is issued: its callback runs at once and it
        never enters the queue. */
    method CallAtOnce(rank: int, tag: int, c: int, ghost busy: int) returns (r: nat)
      requires Consistent(State(), busy) && MayAccept(State(), c)
      modifies this`states, this`accepted, this`called, this`counters
      ensures r == |old(states)| && State() == CalledAtOnce(old(State()), Element(rank, tag, c, r))
      ensures Consistent(State(), busy)
    {
      r := |states|;
      var e := Element(rank, tag, c, r);
      CallAtOnceKeeps(State(), busy, e);
      states := states + [RequestState(true, 0)];
      accepted, called := accepted + [e], called + [e];
      counters := Ran(counters, e);
    }

    /** send or recv with a callback: done tells whether the future is ready at once. */
    method Issue(rank: int, tag: int, c: int, done: bool, ghost busy: int) returns (r: nat)
      requires Consistent(State(), busy) && MayAccept(State(), c)
      modifies this`queue, this`states, this`accepted, this`called, this`counters
      ensures r == |old(states)| && State() == Posted(old(State()), Element(rank, tag, c, r), done)
      ensures Consistent(State(), busy) && counters.Keys == old(counters).Keys
    {
      if done {
        r := CallAtOnce(rank, tag, c, busy);
      } else {
        r := Enqueue(rank, tag, c, busy);
      }
    }

    method RunCallback(i: nat)
      requires Valid() && i < |queue|
      modifies this`called, this`counters
      ensures Calling(i) && State() == Called(old(State()), queue[i])
    {
      CallKeeps(State(), i);
      called := called + [queue[i]];
      counters := Ran(counters, queue[i]);
    }

    /** Moves the last element to position i and drops the last position. */
    method SwapOut(i: nat)
      requires i < |queue| && forall k :: 0 <= k < |queue| ==> queue[k].request < |states|
      modifies this`queue, this`states
      ensures queue == SwapPop(old(queue), i) && states == Moved(old(queue), old(states), i)
      ensures |queue| == |old(queue)| - 1 && forall k :: 0 <= k < |queue| ==> queue[k] == old(queue)[if k == i then |queue| else k]
      ensures |states| == |old(states)| && forall r :: 0 <= r < |states| ==>
        states[r] == if i < |queue| && r == queue[i].request then RequestState(old(states)[r].ready, i) else old(states)[r]
    {
      if i + 1 < |queue| {
        queue := queue[i := queue[|queue| - 1]];
        states := states[queue[i].request := states[queue[i].request].(index := i)];
      }
      queue := queue[..|queue| - 1];
    }

    /** progress, after the callback. */
    method Finish(i: nat)
      requires Calling(i)
      modifies this`queue, this`states
      ensures Valid() && State() == Finished(old(State()), i)
      ensures states[old(queue)[i].request] == RequestState(true, i)
    {
      FinishKeeps(State(), i);
      states := states[queue[i].request := states[queue[i].request].(ready := true)];
      SwapOut(i);
    }

    /** cancel, once the future has been cancelled. */
    method Remove(index: nat)
      requires Valid() && index < |queue|
      modifies this`queue, this`states, this`cancelled
      ensures Valid() && State() == Cancelled(old(State()), index)
    {
      CancelKeeps(State(), index);
      cancelled := cancelled + [queue[index]];
      SwapOut(index);
    }

    /** cancel: the future of a send refuses. That of a receive is cancelled and waited for; the
        answer is whether it was still in time. If not, the receive has completed in the wait, and
        no later test finds its future again. */
    method Cancel(index: nat, answer: bool) returns (res: bool)
      requires Valid() && index < |queue|
      modifies this`queue, this`states, this`cancelled, this`progressedCancels, this`lost
      ensures Valid() && res == (receiving && answer)
      ensures State() == if res then Cancelled(old(State()), index) else old(State())
      ensures progressedCancels == old(progressedCancels) + (if res then 1 else 0)
      ensures lost == old(lost) + (if receiving && !answer then {old(queue)[index].request} else {})
    {
      res := receiving && answer;
      if res {
        Remove(index);
        progressedCancels := progressedCancels + 1;
      } else if receiving {
        lost := lost + {queue[index].request};
      }
    }

    /** What is posted while a callback runs. */
    method PostAll(more: seq<Post>, i: nat)
      requires Calling(i)
      modifies this`queue, this`states, this`accepted, this`called, this`counters
      ensures Calling(i) && State() == PostedAll(old(State()), more)
      ensures old(called) <= called && Placed(State(), |old(accepted)|, more, |more|)
    {
      for k := 0 to |more|
        invariant Calling(i) && State() == PostedAll(old(State()), more[..k])
      {
        PostedOneMore(old(State()), more, k);
        var r := Issue(more[k].rank, more[k].tag, NO_COUNTER, more[k].done, i);
      }
      assert more[..|more|] == more;
      PostedPlaced(old(State()), more);
    }

    /** One round of progress. */
    method Complete(pick: Pick)
      requires Valid() && pick.index < |queue| && queue[pick.index].request !in lost
      modifies this`queue, this`states, this`accepted, this`called, this`counters
      ensures Valid() && Round(old(State()), State(), pick)
      ensures old(called) + [old(queue)[pick.index]] <= called && Joined(accepted, |old(accepted)|, pick.more, |pick.more|)
    {
      RunCallback(pick.index);
      PostAll(pick.more, pick.index);
      Finish(pick.index);
    }

    /** progress, for any order in which futures complete: picks lists what test_any finds, and
        what the callbacks enqueue while they run; trace lists the states between the rounds. */
    method Progress(picks: seq<Pick>) returns (completed: nat, ghost trace: seq<History>)
      requires Valid()
      modifies this`queue, this`states, this`accepted, this`called, this`counters
      ensures Valid() && completed <= |picks|
      ensures completed < |picks| ==> picks[completed].index >= |queue| || queue[picks[completed].index].request in lost
      ensures Rounds(trace, picks, completed, old(State()), State())
    {
      completed, trace := 0, [State()];
      while completed < |picks| && picks[completed].index < |queue| && queue[picks[completed].index].request !in lost
        invariant Valid() && completed <= |picks|
        invariant Rounds(trace, picks, completed, old(State()), State())
        decreases |picks| - completed
      {
        ghost var before := State();
        Complete(picks[completed]);
        RoundsStep(trace, picks, completed, old(State()), before, State());
        completed, trace := completed + 1, trace + [State()];
      }
    }

    method AddCounter(n: nat) returns (c: int)
      requires Valid()
      modifies this`counters, this`nextCounter
      ensures Valid() && c !in old(counters) && counters == old(counters)[c := Countdown(n, n, 0)] && Hits(accepted, c) == 0
    {
      c := nextCounter;
      NewCounterKeeps(State(), c, n);
      counters := counters[c := Countdown(n, n, 0)];
      nextCounter := nextCounter + 1;
    }

    /** One part of a send to several destinations. */
    method SendPart(rank: int, tag: int, c: int, done: bool) returns (r: nat)
      requires Valid() && c in counters && MayAccept(State(), c)
      modifies this`queue, this`states, this`accepted, this`called, this`counters
      ensures Valid() && c in counters && counters[c].total == old(counters)[c].total
      ensures accepted == old(accepted) + [Element(rank, tag, c, r)] && Hits(accepted, c) == Hits(old(accepted), c) + 1
      ensures old(queue) <= queue && old(called) <= called && PartSent(State(), Element(rank, tag, c, r), rank, tag, c, done)
    {
      HitsMore(accepted, Element(rank, tag, c, |states|), c);
      r := Issue(rank, tag, c, done, -1);
    }

    /** send_multi with a callback: done[k] tells whether the k-th send completes at once. */
    method SendMulti(neighs: seq<int>, tag: int, done: seq<bool>) returns (c: int)
      requires Valid() && !receiving && |done| == |neighs|
      modifies this`queue, this`states, this`accepted, this`called, this`counters, this`nextCounter
      ensures Valid() && c !in old(counters) && c in counters && counters[c].total == Hits(accepted, c) == |neighs|
      ensures old(accepted) <= accepted && PartsSent(State(), |old(accepted)|, neighs, tag, c, done, |neighs|)
    {
      c := AddCounter(|neighs|);
      for k := 0 to |neighs|
        invariant Valid() && c in counters && counters[c].total == |neighs| && Hits(accepted, c) == k
        invariant old(accepted) <= accepted && PartsSent(State(), |old(accepted)|, neighs, tag, c, done, k)
      {
        ghost var before := State();
        var r := SendPart(neighs[k], tag, c, done[k]);
        PartsStep(before, State(), |old(accepted)|, neighs, tag, c, done, k, Element(neighs[k], tag, c, r));
      }
    }
  }

  // ------------------------------------------------------------------ what the books say

  /** Every accepted element is queued, called or cancelled, once; while it is queued its
      request leads to it, and once it has been called its request is ready. */
  lemma {:induction false} RequestFindsEntry(h: History, e: Element)
    requires Consistent(h, -1) && e in h.accepted
    ensures e.request < |h.states|
    ensures e in h.queue ==> h.states[e.request].index < |h.queue| && h.queue[h.states[e.request].index] == e
    ensures multiset(h.queue)[e] + multiset(h.called)[e] + multiset(h.cancelled)[e] == 1
    ensures |h.accepted| == |h.queue| + |h.called| + |h.cancelled|
    ensures e in h.called ==> h.states[e.request].ready
  {
    OnePlace(h, e);
  }

  /** The index in the shared state leads to the request's own entry. */
  ghost predicate LeadsToOwn(h: History, e: Element)
    requires e.request < |h.states|
  {
    var i := h.states[e.request].index;
    i < |h.queue| && h.queue[i] == e
  }

  /** The index in the shared state leads to the request's own entry exactly when that entry is
      still queued. If nobody has cancelled the entry, which happens to entries of other owners
      too, that is when the request is not ready; CancelRule says what an owner can rely on. */
  lemma {:induction false} CancelHitsOwn(h: History, e: Element)
    requires Consistent(h, -1) && e in h.accepted
    ensures e.request < |h.states|
    ensures LeadsToOwn(h, e) <==> e !in h.called && e !in h.cancelled
    ensures e !in h.cancelled ==> (LeadsToOwn(h, e) <==> !h.states[e.request].ready)
  {
    OnePlace(h, e);
    if e in h.queue {
      var i :| 0 <= i < |h.queue| && h.queue[i] == e;
    }
  }

  /** The user's callback of a send to several destinations has run exactly once if there are
      some and every part has completed, and not at all if there are none, while some part is
      pending or once one was cancelled. */
  lemma {:induction false} FiresOnce(h: History, c: int)
    requires Consistent(h, -1) && c in h.counters && Hits(h.accepted, c) == h.counters[c].total
    ensures h.counters[c].fired == if h.counters[c].total > 0 && Hits(h.queue, c) == 0 && Hits(h.cancelled, c) == 0 then 1 else 0
    ensures Hits(h.called, c) + Hits(h.queue, c) + Hits(h.cancelled, c) == h.counters[c].total
  {
    HitsBooks(h, -1, c);
  }

  /** Two receives, the first completes, then its request is cancelled without having been
      tested: the second receive is cancelled instead. */
  method StaleCancel() returns (q: Queue, a: nat, b: nat)
    ensures q.Valid() && q.receiving && a != b
    ensures |q.called| == 1 && q.called[0].request == a && |q.cancelled| == 1 && q.cancelled[0].request == b
  {
    q := new Queue(true);
    a := q.Enqueue(1, 0, NO_COUNTER, -1);
    b := q.Enqueue(2, 0, NO_COUNTER, -1);
    q.RunCallback(0);
    q.Finish(0);
    var res := q.Cancel(q.states[a].index, true);
  }

  /** One receive, which completes: nothing is queued, and the index that cancel would use for
      its request lies past the end. */
  method StaleIndex() returns (q: Queue, a: nat)
    ensures q.Valid() && q.receiving && q.queue == []
    ensures |q.called| == 1 && q.called[0].request == a < |q.states| && q.states[a].index >= |q.queue|
  {
    q := new Queue(true);
    a := q.Enqueue(1, 0, NO_COUNTER, -1);
    q.RunCallback(0);
    q.Finish(0);
  }

  /** One receive, which completes before anybody tests it and is then cancelled: the cancel is
      refused, and the receive stays in the queue without a test that could find it. */
  method LateCancel() returns (q: Queue, a: nat)
    ensures q.Valid() && q.receiving && q.called == [] && q.cancelled == []
    ensures |q.queue| == 1 && q.queue[0].request == a && q.lost == {a}
  {
    q := new Queue(true);
    a := q.Enqueue(1, 0, NO_COUNTER, -1);
    var res := q.Cancel(q.states[a].index, false);
  }

  // ------------------------------------------------------------------ the caller's requests

  /** request_cb: what the caller of a send or receive with a callback holds. It lets go of the
      queue once it has seen the request ready or has cancelled it. */
  class Request {
    var owner: Queue?
    const id: nat

    constructor (owner: Queue?, id: nat)
      ensures this.owner == owner && this.id == id
    {
      this.owner, this.id := owner, id;
    }

    /** The request of an entry that nobody has cancelled, as long as it holds on to its queue. */
    ghost predicate Own()
      reads this, owner
    {
      owner != null ==>
        && owner.Valid() && id < |owner.states| && id < |owner.accepted| && owner.accepted[id].request == id
        && owner.accepted[id] !in owner.cancelled
    }

    method Test() returns (done: bool)
      requires owner != null ==> id < |owner.states|
      modifies this`owner
      ensures done == (old(owner) == null || old(owner).states[id].ready)
      ensures owner == if done then null else old(owner)
    {
      if owner == null {
        return true;
      }
      done := owner.states[id].ready;
      if done {
        owner := null;
      }
    }

    method Cancel(answer: bool) returns (res: bool)
      requires owner != null ==> owner.Valid() && id < |owner.states| && owner.states[id].index < |owner.queue|
      modifies this`owner, owner
      ensures old(owner) == null ==> !res && owner == null
      ensures old(owner) != null ==>
        && res == (old(owner).receiving && answer) && owner == (if res then null else old(owner))
        && old(owner).Valid() && old(owner).State() == if res then Cancelled(old(owner.State()), old(owner.states[id].index)) else old(owner.State())
    {
      if owner == null {
        return false;
      }
      res := owner.Cancel(owner.states[id].index, answer);
      if res {
        owner := null;
      }
    }

    /** What the request is meant for: whoever tests first cancels the entry of the request itself
        or nothing, whatever the state of the queue. */
    method CancelIfPending(answer: bool) returns (res: bool)
      requires Own()
      modifies this`owner, owner
      ensures old(owner) == null ==> !res
      ensures old(owner) != null ==>
        && res == (!old(owner.states[id].ready) && old(owner).receiving && answer)
        && old(owner).cancelled == old(owner.cancelled) + (if res then [old(owner.accepted[id])] else [])
      ensures Own()
    {
      var done := Test();
      if done {
        return false;
      }
      CancelHitsOwn(owner.State(), owner.accepted[id]);
      res := Cancel(answer);
    }
  }

  // ------------------------------------------------------------------ all requests together

  /** The queue, the requests that hold on to it, and the receives that no test finds again. */
  datatype Tracked = Tracked(h: History, live: set<nat>, lost: set<nat>)

  datatype Action =
    | Count(c: int, total: nat)                        // a counter for a send to several destinations
    | Issue(rank: int, tag: int, c: int, done: bool)   // a send or receive with a callback
    | Complete(pick: Pick)                             // one round of progress
    | Test(r: nat)                                     // test of request r
    | Cancel(r: nat, answer: bool)                     // cancel of request r

  ghost predicate Allowed(t: Tracked, a: Action) {
    match a
    case Count(c, _) => c !in t.h.counters && c != NO_COUNTER
    case Issue(_, _, c, _) => MayAccept(t.h, c)
    case Complete(pick) => pick.index < |t.h.queue| && t.h.queue[pick.index].request !in t.lost
    case Test(_) => true
    case Cancel(r, _) => r in t.live ==> r < |t.h.states| && t.h.states[r].index < |t.h.queue|
  }

  /** The requests of those sends or receives that are not done at once; `base` is the first. */
  function Pending(base: nat, more: seq<Post>): (p: set<nat>)
    ensures forall r :: r in p ==> base <= r < base + |more|
  {
    if more == [] then {}
    else Pending(base, more[..|more| - 1]) + (if more[|more| - 1].done then {} else {base + |more| - 1})
  }

  /** The state after one round of progress. */
  ghost function Completed(h: History, pick: Pick): (g: History)
    requires Consistent(h, -1) && pick.index < |h.queue|
    ensures Round(h, g, pick)
  {
    CallKeeps(h, pick.index);
    PostAllKeeps(Called(h, h.queue[pick.index]), pick.more, pick.index);
    Finished(PostedAll(Called(h, h.queue[pick.index]), pick.more), pick.index)
  }

  ghost function Next(receiving: bool, t: Tracked, a: Action): Tracked
    requires Consistent(t.h, -1) && Allowed(t, a)
  {
    match a
    case Count(c, n) => t.(h := t.h.(counters := t.h.counters[c := Countdown(n, n, 0)]))
    case Issue(rank, tag, c, done) =>
      t.(h := Posted(t.h, Element(rank, tag, c, |t.h.states|), done), live := if done then t.live else t.live + {|t.h.states|})
    case Complete(pick) => t.(h := Completed(t.h, pick), live := t.live + Pending(|t.h.states|, pick.more))
    case Test(r) => if r in t.live && r < |t.h.states| && t.h.states[r].ready then t.(live := t.live - {r}) else t
    case Cancel(r, answer) =>
      if r !in t.live || !receiving then t
      else if answer then t.(h := Cancelled(t.h, t.h.states[r].index), live := t.live - {r})
      else t.(lost := t.lost + {t.h.queue[t.h.states[r].index].request})
  }

  lemma {:induction false} PostAllKeeps(h: History, more: seq<Post>, busy: int)
    requires Consistent(h, busy)
    ensures var g := PostedAll(h, more);
      && Consistent(g, busy) && g.cancelled == h.cancelled && |g.states| == |h.states| + |more|
      && forall x :: x in g.called ==> x in h.called || x.request >= |h.states|
    decreases |more|
  {
    if more != [] {
      var last := more[|more| - 1];
      PostAllKeeps(h, more[..|more| - 1], busy);
      var before := PostedAll(h, more[..|more| - 1]);
      var e := Element(last.rank, last.tag, NO_COUNTER, |before.states|);
      if last.done {
        CallAtOnceKeeps(before, busy, e);
      } else {
        EnqueueKeeps(before, busy, e);
      }
    }
  }

  lemma {:induction false} PendingAre(base: nat, more: seq<Post>, r: nat)
    ensures r in Pending(base, more) <==> base <= r < base + |more| && !more[r - base].done
  {
    if more != [] {
      PendingAre(base, more[..|more| - 1], r);
    }
  }

  /** Which requests hold on to the queue after an action: those that did, without one that was tested
      ready or cancelled in time, and with the new ones that are not done at once. A cancel that comes
      too late loses the entry whose future it waits for. */
  lemma {:induction false} HoldsOn(receiving: bool, t: Tracked, a: Action, r: nat)
    requires Consistent(t.h, -1) && Allowed(t, a)
    ensures a.Count? ==> (r in Next(receiving, t, a).live <==> r in t.live)
    ensures a.Issue? ==> (r in Next(receiving, t, a).live <==> r in t.live || (r == |t.h.states| && !a.done))
    ensures a.Complete? ==>
      (r in Next(receiving, t, a).live <==>
        r in t.live || (|t.h.states| <= r < |t.h.states| + |a.pick.more| && !a.pick.more[r - |t.h.states|].done))
    ensures a.Test? ==> (r in Next(receiving, t, a).live <==> r in t.live && !(r == a.r && r < |t.h.states| && t.h.states[r].ready))
    ensures a.Cancel? ==> (r in Next(receiving, t, a).live <==> r in t.live && !(r == a.r && receiving && a.answer))
    ensures Next(receiving, t, a).lost == t.lost +
      (if a.Cancel? && a.r in t.live && receiving && !a.answer then {t.h.queue[t.h.states[a.r].index].request} else {})
  {
    if a.Complete? {
      PendingAre(|t.h.states|, a.pick.more, r);
    }
  }

  /** What holds in every run. */
  ghost predicate Sound(t: Tracked) {
    && Consistent(t.h, -1)
    && (forall r :: r in t.live ==> r < |t.h.states|) && (forall r :: r in t.lost ==> r < |t.h.states|)
    && (forall x :: x in t.h.called ==> x.request !in t.lost)
  }

  /** Nobody's entry has been cancelled behind his back. */
  ghost predicate Respected(t: Tracked) {
    forall x :: x in t.h.cancelled ==> x.request !in t.live
  }

  /** A cancel by a caller who has tested first: a request that still holds on to its queue is not
      ready. */
  ghost predicate Careful(t: Tracked, a: Action) {
    a.Cancel? && a.r in t.live ==> a.r < |t.h.states| && !t.h.states[a.r].ready
  }

  lemma {:induction false} CompletedKeeps(h: History, pick: Pick)
    requires Consistent(h, -1) && pick.index < |h.queue|
    ensures var g := Completed(h, pick);
      && Consistent(g, -1) && g.cancelled == h.cancelled && |g.states| == |h.states| + |pick.more|
      && forall x :: x in g.called ==> x in h.called || x == h.queue[pick.index] || x.request >= |h.states|
  {
    var i, called := pick.index, Called(h, h.queue[pick.index]);
    CallKeeps(h, i);
    PostAllKeeps(called, pick.more, i);
    FinishKeeps(PostedAll(called, pick.more), i);
  }

  /** Cancelled entries were accepted before. */
  lemma {:induction false} CancelledBelow(h: History)
    requires Consistent(h, -1)
    ensures forall x :: x in h.cancelled ==> x.request < |h.states|
  {
    forall x | x in h.cancelled
      ensures x.request < |h.states|
    {
      BooksMember(h, -1, x);
    }
  }

  lemma {:induction false} CompleteSound(receiving: bool, t: Tracked, a: Action)
    requires Sound(t) && Allowed(t, a) && a.Complete?
    ensures Sound(Next(receiving, t, a)) && (Respected(t) ==> Respected(Next(receiving, t, a)))
  {
    CompletedKeeps(t.h, a.pick);
    CancelledBelow(t.h);
  }

  lemma {:induction false} IssueSound(receiving: bool, t: Tracked, a: Action)
    requires Sound(t) && Allowed(t, a) && a.Issue?
    ensures Sound(Next(receiving, t, a)) && (Respected(t) ==> Respected(Next(receiving, t, a)))
  {
    var e := Element(a.rank, a.tag, a.c, |t.h.states|);
    if a.done {
      CallAtOnceKeeps(t.h, -1, e);
    } else {
      EnqueueKeeps(t.h, -1, e);
    }
    CancelledBelow(t.h);
  }

  /** No element of the queue has been called. */
  lemma {:induction false} QueuedUncalled(h: History, i: nat)
    requires Consistent(h, -1) && i < |h.queue|
    ensures h.queue[i].request < |h.states| && forall x :: x in h.called ==> x.request != h.queue[i].request
  {
    var e := h.queue[i];
    BooksMember(h, -1, e);
    OnePlace(h, e);
    forall x | x in h.called
      ensures x.request != e.request
    {
      BooksMember(h, -1, x);
      OnePlace(h, x);
      assert e in h.queue;
    }
  }

  lemma {:induction false} CancelSound(receiving: bool, t: Tracked, a: Action)
    requires Sound(t) && Allowed(t, a) && a.Cancel?
    ensures Sound(Next(receiving, t, a))
  {
    if a.r in t.live && receiving {
      var i := t.h.states[a.r].index;
      if a.answer {
        CancelKeeps(t.h, i);
      } else {
        QueuedUncalled(t.h, i);
      }
    }
  }

  lemma {:induction false} StepSound(receiving: bool, t: Tracked, a: Action)
    requires Sound(t) && Allowed(t, a)
    ensures Sound(Next(receiving, t, a))
  {
    match a
    case Count(c, n) => NewCounterKeeps(t.h, c, n);
    case Issue(_, _, _, _) => IssueSound(receiving, t, a);
    case Complete(_) => CompleteSound(receiving, t, a);
    case Test(_) =>
    case Cancel(_, _) => CancelSound(receiving, t, a);
  }

  /** The entry of a request that holds on to its queue, when nobody's entry has been cancelled
      behind his back: the index leads to it exactly when the request is not ready. */
  lemma {:induction false} LiveEntry(t: Tracked, r: nat)
    requires Sound(t) && Respected(t) && r in t.live
    ensures r < |t.h.states| == |t.h.accepted| && t.h.accepted[r].request == r
    ensures LeadsToOwn(t.h, t.h.accepted[r]) <==> !t.h.states[r].ready
  {
    CancelHitsOwn(t.h, t.h.accepted[r]);
  }

  lemma {:induction false} StepRespected(receiving: bool, t: Tracked, a: Action)
    requires Sound(t) && Respected(t) && Allowed(t, a) && Careful(t, a)
    ensures Respected(Next(receiving, t, a))
  {
    match a
    case Count(_, _) =>
    case Issue(_, _, _, _) => IssueSound(receiving, t, a);
    case Complete(_) => CompleteSound(receiving, t, a);
    case Test(_) =>
    case Cancel(r, _) =>
      if r in t.live {
        LiveEntry(t, r);
      }
  }

  // Runs.

  ghost predicate ActionAt(receiving: bool, ts: seq<Tracked>, acts: seq<Action>, n: nat)
    requires |ts| == |acts| + 1
  {
    n < |acts| ==> Consistent(ts[n].h, -1) && Allowed(ts[n], acts[n]) && ts[n + 1] == Next(receiving, ts[n], acts[n])
  }

  /** Any sequence of sends or receives, completions, tests and cancels. */
  ghost predicate CallerRun(receiving: bool, ts: seq<Tracked>, acts: seq<Action>) {
    && |ts| == |acts| + 1 && ts[0] == Tracked(History([], [], map[], [], [], []), {}, {})
    && forall n: nat :: ActionAt(receiving, ts, acts, n)
  }

  ghost predicate CarefulAt(ts: seq<Tracked>, acts: seq<Action>, n: nat) {
    n < |acts| && n < |ts| ==> Careful(ts[n], acts[n])
  }

  lemma {:induction false} RunSound(receiving: bool, ts: seq<Tracked>, acts: seq<Action>, n: nat)
    requires CallerRun(receiving, ts, acts) && n <= |acts|
    ensures Sound(ts[n])
    ensures (forall m: nat :: m < n ==> CarefulAt(ts, acts, m)) ==> Respected(ts[n])
  {
    if n > 0 {
      var m := n - 1;
      RunSound(receiving, ts, acts, m);
      assert ActionAt(receiving, ts, acts, m);
      StepSound(receiving, ts[m], acts[m]);
      if forall k: nat :: k < n ==> CarefulAt(ts, acts, k) {
        assert CarefulAt(ts, acts, m);
        StepRespected(receiving, ts[m], acts[m]);
      }
    }
  }

  /** What an owner can rely on. As long as every cancel was made by a caller who had tested
      first, the index of a request that still holds on to its queue leads to the request's own
      entry exactly when the request is not ready: the next cancel that is made without such a
      test, and of a request that is ready, is the first to miss. */
  lemma {:induction false} CancelRule(receiving: bool, ts: seq<Tracked>, acts: seq<Action>, n: nat, r: nat)
    requires CallerRun(receiving, ts, acts) && n <= |acts| && r in ts[n].live
    requires forall m: nat :: m < n ==> CarefulAt(ts, acts, m)
    ensures r < |ts[n].h.states| == |ts[n].h.accepted| && ts[n].h.accepted[r].request == r
    ensures LeadsToOwn(ts[n].h, ts[n].h.accepted[r]) <==> !ts[n].h.states[r].ready
  {
    RunSound(receiving, ts, acts, n);
    LiveEntry(ts[n], r);
  }

  /** In a run in which every cancel is made after such a test, each cancels the request's own
      entry or nothing. */
  lemma {:induction false} CarefulCancels(receiving: bool, ts: seq<Tracked>, acts: seq<Action>, n: nat)
    requires CallerRun(receiving, ts, acts) && n < |acts| && acts[n].Cancel?
    requires forall m: nat :: CarefulAt(ts, acts, m)
    ensures acts[n].r in ts[n].live ==> acts[n].r < |ts[n].h.accepted|
    ensures ts[n + 1].h.cancelled == ts[n].h.cancelled +
      (if acts[n].r in ts[n].live && receiving && acts[n].answer then [ts[n].h.accepted[acts[n].r]] else [])
  {
    assert ActionAt(receiving, ts, acts, n) && CarefulAt(ts, acts, n);
    if acts[n].r in ts[n].live {
      CancelRule(receiving, ts, acts, n, acts[n].r);
    }
  }

  lemma {:induction false} LostGrows(receiving: bool, ts: seq<Tracked>, acts: seq<Action>, n: nat, m: nat)
    requires CallerRun(receiving, ts, acts) && n <= m <= |acts|
    ensures ts[n].lost <= ts[m].lost
  {
    if n < m {
      LostGrows(receiving, ts, acts, n, m - 1);
      assert ActionAt(receiving, ts, acts, m - 1);
    }
  }

  /** A receive that was cancelled too late is never called, neither then nor later. */
  lemma {:induction false} LostUncalled(receiving: bool, ts: seq<Tracked>, acts: seq<Action>, n: nat, m: nat, e: Element)
    requires CallerRun(receiving, ts, acts) && n <= m <= |acts| && e.request in ts[n].lost
    ensures e !in ts[m].h.called
  {
    LostGrows(receiving, ts, acts, n, m);
    RunSound(receiving, ts, acts, m);
  }
}

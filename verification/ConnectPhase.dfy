// The connection phase of make_pattern as a concurrent step system: turn after turn one rank
// broadcasts and sends while the others receive, each at its own speed. A blocking send may
// return as soon as MPI has buffered the message, or only when the receiver takes it; a rank may
// leave a broadcast once the root has entered it, or only when every rank has.

module ConnectPhase {
  import opened OrderedMap
  import opened Pattern
  import opened SendHalos
  import opened Wire
  import opened Connect

  // ------------------------------------------------------------------ what each rank does

  datatype Mail = Mail(dest: int, msg: Msg)

  /** What goes to rank d. */
  function ToRank(mails: seq<Mail>, d: int): seq<Msg> {
    if mails == [] then []
    else ToRank(mails[..|mails| - 1], d) + (if mails[|mails| - 1].dest == d then [mails[|mails| - 1].msg] else [])
  }

  /** scripts[k] is what rank k sends in its turn, after casts[k] broadcasts. */
  datatype Config = Config(scripts: seq<seq<Mail>>, casts: seq<nat>)

  ghost predicate ConfigOk(g: Config) {
    && |g.scripts| == |g.casts|
    && forall k, i :: 0 <= k < |g.scripts| && 0 <= i < |g.scripts[k]| ==>
         0 <= g.scripts[k][i].dest < |g.scripts| && g.scripts[k][i].dest != k
  }

  /** Where a rank is: in its pos-th action of a turn. */
  datatype Place = Place(turn: nat, pos: nat)

  /** What rank d has received from rank k, and what is buffered on the way. */
  datatype Pipe = Pipe(got: seq<Msg>, flight: seq<Msg>)

  datatype Link = Link(k: nat, d: nat)

  datatype State = State(at: seq<Place>, pipes: map<Link, Pipe>)

  function PipeAt(st: State, k: nat, d: nat): Pipe {
    if Link(k, d) in st.pipes then st.pipes[Link(k, d)] else Pipe([], [])
  }

  /** How many actions rank r has in turn k: the broadcasts, and its sends or receives. */
  function Acts(g: Config, r: nat, k: nat): nat
    requires k < |g.scripts| == |g.casts|
  {
    g.casts[k] + (if r == k then |g.scripts[k]| else |ToRank(g.scripts[k], r)|)
  }

  // ------------------------------------------------------------------ steps

  datatype Step =
    | Cast(r: nat)     // the rank's next broadcast
    | Send(r: nat)     // a send that MPI buffers
    | Hand(r: nat)     // a send that its receiver takes
    | Recv(r: nat)     // a receive of a buffered message
    | EndTurn(r: nat)

  ghost predicate Shaped(g: Config, st: State) {
    ConfigOk(g) && |st.at| == |g.scripts|
  }

  /** Rank r has come to broadcast b of turn k, or past it. */
  predicate Reached(st: State, r: nat, k: nat, b: nat)
    requires r < |st.at|
  {
    st.at[r].turn > k || (st.at[r].turn == k && st.at[r].pos >= b)
  }

  ghost predicate AllReached(st: State, k: nat, b: nat) {
    forall r: nat :: r < |st.at| ==> Reached(st, r, k, b)
  }

  /** The rank is among the sends or receives of turn k. */
  predicate Mailing(g: Config, p: Place, k: nat)
    requires k < |g.casts|
  {
    p.turn == k && p.pos >= g.casts[k]
  }

  ghost predicate Sending(g: Config, st: State, r: nat)
    requires Shaped(g, st)
  {
    r < |st.at| && Mailing(g, st.at[r], r) && st.at[r].pos - g.casts[r] < |g.scripts[r]|
  }

  /** The next message of the rank whose turn it is. */
  ghost function NextMail(g: Config, st: State, r: nat): (m: Mail)
    requires Shaped(g, st) && Sending(g, st, r)
    ensures 0 <= m.dest < |g.scripts| && m.dest != r
  {
    g.scripts[r][st.at[r].pos - g.casts[r]]
  }

  ghost predicate Enabled(g: Config, st: State, a: Step)
    requires Shaped(g, st)
  {
    && a.r < |st.at|
    && var p := st.at[a.r];
       match a
       case Cast(r) =>
         && p.turn < |g.scripts| && p.pos < g.casts[p.turn]
         && (r == p.turn || Reached(st, p.turn, p.turn, p.pos + 1) || AllReached(st, p.turn, p.pos))
       case Send(r) => Sending(g, st, r)
       case Hand(r) =>
         && Sending(g, st, r)
         && var d := NextMail(g, st, r).dest; Mailing(g, st.at[d], r) && PipeAt(st, r, d).flight == []
       case Recv(r) => p.turn < |g.scripts| && p.turn != r && Mailing(g, p, p.turn) && PipeAt(st, p.turn, r).flight != []
       case EndTurn(r) => p.turn < |g.scripts| && p.pos == Acts(g, r, p.turn)
  }

  function Moved(at: seq<Place>, r: nat): seq<Place>
    requires r < |at|
  {
    at[r := Place(at[r].turn, at[r].pos + 1)]
  }

  ghost function Apply(g: Config, st: State, a: Step): (nx: State)
    requires Shaped(g, st) && Enabled(g, st, a)
    ensures Shaped(g, nx)
  {
    var p := st.at[a.r];
    match a
    case Cast(r) => State(Moved(st.at, r), st.pipes)
    case Send(r) =>
      var m := NextMail(g, st, r);
      var x := PipeAt(st, r, m.dest);
      State(Moved(st.at, r), st.pipes[Link(r, m.dest) := Pipe(x.got, x.flight + [m.msg])])
    case Hand(r) =>
      var m := NextMail(g, st, r);
      var x := PipeAt(st, r, m.dest);
      State(Moved(Moved(st.at, r), m.dest), st.pipes[Link(r, m.dest) := Pipe(x.got + [m.msg], x.flight)])
    case Recv(r) =>
      var x := PipeAt(st, p.turn, r);
      State(Moved(st.at, r), st.pipes[Link(p.turn, r) := Pipe(x.got + [x.flight[0]], x.flight[1..])])
    case EndTurn(r) => State(st.at[r := Place(p.turn + 1, 0)], st.pipes)
  }

  ghost predicate Initial(g: Config, st: State) {
    Shaped(g, st) && st.pipes == map[] && forall r :: 0 <= r < |st.at| ==> st.at[r] == Place(0, 0)
  }

  // ------------------------------------------------------------------ invariant

  /** How many messages rank k has sent in its turn. */
  function SentCount(g: Config, p: Place, k: nat): int
    requires k < |g.scripts| == |g.casts|
  {
    if p.turn > k then |g.scripts[k]| else if Mailing(g, p, k) then p.pos - g.casts[k] else 0
  }

  /** How many messages rank d has taken in turn k. */
  function TakenCount(g: Config, p: Place, k: nat, d: nat): int
    requires k < |g.scripts| == |g.casts|
  {
    if p.turn > k then |ToRank(g.scripts[k], d)| else if Mailing(g, p, k) then p.pos - g.casts[k] else 0
  }

  ghost predicate PlaceOk(g: Config, st: State, r: nat)
    requires Shaped(g, st)
  {
    r < |st.at| ==>
      var p := st.at[r];
      p.turn <= |g.scripts| && (if p.turn < |g.scripts| then p.pos <= Acts(g, r, p.turn) else p.pos == 0)
  }

  /** What was taken and what is under way is what was sent, in the order of sending. */
  ghost predicate PipeOk(g: Config, st: State, k: nat, d: nat)
    requires Shaped(g, st)
  {
    k < |st.at| && d < |st.at| && k != d ==>
      var x, sent := PipeAt(st, k, d), SentCount(g, st.at[k], k);
      && 0 <= sent <= |g.scripts[k]| && x.got + x.flight == ToRank(g.scripts[k][..sent], d)
      && |x.got| == TakenCount(g, st.at[d], k, d)
  }

  ghost predicate Inv(g: Config, st: State) {
    && Shaped(g, st)
    && (forall r: nat :: PlaceOk(g, st, r))
    && (forall k: nat, d: nat :: PipeOk(g, st, k, d))
  }

  lemma {:induction false} InitialInv(g: Config, st: State)
    requires Initial(g, st)
    ensures Inv(g, st)
  {
    assert forall k :: 0 <= k < |g.scripts| ==> g.scripts[k][..0] == [];
  }

  lemma {:induction false} ToRankPrefix(mails: seq<Mail>, n: nat, d: int)
    requires n <= |mails|
    ensures ToRank(mails[..n], d) <= ToRank(mails, d)
    ensures n < |mails| ==> ToRank(mails[..n + 1], d) == ToRank(mails[..n], d) + (if mails[n].dest == d then [mails[n].msg] else [])
  {
    if n < |mails| {
      assert mails[..n + 1][..n] == mails[..n];
      var init := mails[..|mails| - 1];
      ToRankPrefix(init, n, d);
      assert init[..n] == mails[..n];
    } else {
      assert mails[..n] == mails;
    }
  }

  // ------------------------------------------------------------------ one step

  lemma {:induction false} PipeBound(g: Config, st: State, k: nat, d: nat)
    requires Inv(g, st) && k < |st.at| && d < |st.at| && k != d
    ensures |PipeAt(st, k, d).got| + |PipeAt(st, k, d).flight| <= |ToRank(g.scripts[k], d)|
  {
    assert PipeOk(g, st, k, d);
    ToRankPrefix(g.scripts[k], SentCount(g, st.at[k], k), d);
  }

  /** A rank moves on within its turn. */
  ghost predicate Advances(p: Place, q: Place) {
    q == Place(p.turn, p.pos + 1)
  }

  lemma {:induction false} Counted(g: Config, p: Place, q: Place, k: nat, d: nat)
    requires k < |g.scripts| == |g.casts| && Advances(p, q)
    ensures SentCount(g, q, k) == SentCount(g, p, k) + (if Mailing(g, p, k) then 1 else 0)
    ensures TakenCount(g, q, k, d) == TakenCount(g, p, k, d) + (if Mailing(g, p, k) then 1 else 0)
  {
  }

  /** The end of a turn changes no count: all is sent, and all is taken. */
  lemma {:induction false} TurnCounted(g: Config, p: Place, r: nat, k: nat)
    requires k < |g.scripts| == |g.casts| && p.turn < |g.scripts| && p.pos == Acts(g, r, p.turn)
    ensures r == k ==> SentCount(g, Place(p.turn + 1, 0), k) == SentCount(g, p, k)
    ensures r != k ==> TakenCount(g, Place(p.turn + 1, 0), k, r) == TakenCount(g, p, k, r)
  {
  }

  /** What one more message of rank r is for rank d. */
  lemma {:induction false} OneMoreMail(g: Config, st: State, r: nat, d: nat)
    requires Shaped(g, st) && Sending(g, st, r)
    ensures var m, n, script := NextMail(g, st, r), SentCount(g, st.at[r], r), g.scripts[r];
      0 <= n < |script| && ToRank(script[..n + 1], d) == ToRank(script[..n], d) + (if m.dest == d then [m.msg] else [])
  {
    ToRankPrefix(g.scripts[r], SentCount(g, st.at[r], r), d);
  }

  /** Who a step moves on within its turn. */
  ghost predicate Moves(g: Config, st: State, a: Step, r: nat)
    requires Shaped(g, st) && Enabled(g, st, a)
  {
    !a.EndTurn? && (r == a.r || (a.Hand? && r == NextMail(g, st, a.r).dest))
  }

  lemma {:induction false} StepPlaces(g: Config, st: State, a: Step, r: nat)
    requires Shaped(g, st) && Enabled(g, st, a) && r < |st.at|
    ensures Moves(g, st, a, r) ==> Advances(st.at[r], Apply(g, st, a).at[r])
    ensures !Moves(g, st, a, r) && !(a.EndTurn? && r == a.r) ==> Apply(g, st, a).at[r] == st.at[r]
    ensures a.EndTurn? ==> Apply(g, st, a).at[a.r] == Place(st.at[a.r].turn + 1, 0)
  {
  }

  /** Only these steps change a pipe. */
  lemma {:induction false} StepPipes(g: Config, st: State, a: Step, k: nat, d: nat)
    requires Shaped(g, st) && Enabled(g, st, a)
    ensures var x, y := PipeAt(st, k, d), PipeAt(Apply(g, st, a), k, d);
      if a == Send(k) && NextMail(g, st, k).dest == d then y == Pipe(x.got, x.flight + [NextMail(g, st, k).msg])
      else if a == Hand(k) && NextMail(g, st, k).dest == d then y == Pipe(x.got + [NextMail(g, st, k).msg], x.flight)
      else if a == Recv(d) && st.at[d].turn == k then x.flight != [] && y == Pipe(x.got + [x.flight[0]], x.flight[1..])
      else y == x
  {
  }

  lemma {:induction false} StepPlaceOk(g: Config, st: State, a: Step, r: nat)
    requires Inv(g, st) && Enabled(g, st, a)
    ensures PlaceOk(g, Apply(g, st, a), r)
  {
    if r < |st.at| {
      assert PlaceOk(g, st, r);
      StepPlaces(g, st, a, r);
      if a == Recv(r) {
        PipeBound(g, st, st.at[r].turn, r);
        assert PipeOk(g, st, st.at[r].turn, r);
      } else if a.Hand? && r == NextMail(g, st, a.r).dest {
        HandFits(g, st, a.r);
      }
    }
  }

  /** A message that is handed over was still to be received. */
  lemma {:induction false} HandFits(g: Config, st: State, r: nat)
    requires Inv(g, st) && Enabled(g, st, Hand(r))
    ensures var d := NextMail(g, st, r).dest; st.at[d].pos < Acts(g, d, r)
  {
    var d, n := NextMail(g, st, r).dest, SentCount(g, st.at[r], r);
    assert PipeOk(g, st, r, d);
    ToRankPrefix(g.scripts[r], n, d);
    ToRankPrefix(g.scripts[r], n + 1, d);
  }

  lemma {:induction false} TurnPipeOk(g: Config, st: State, a: Step, k: nat, d: nat)
    requires Inv(g, st) && Enabled(g, st, a) && k < |st.at| && d < |st.at| && k != d
    requires a.EndTurn?
    ensures PipeOk(g, Apply(g, st, a), k, d)
  {
    assert PipeOk(g, st, k, d);
    StepPipes(g, st, a, k, d);
    StepPlaces(g, st, a, k);
    StepPlaces(g, st, a, d);
    TurnCounted(g, st.at[a.r], a.r, k);
  }

  lemma {:induction false} StepPipeOk(g: Config, st: State, a: Step, k: nat, d: nat)
    requires Inv(g, st) && Enabled(g, st, a)
    ensures PipeOk(g, Apply(g, st, a), k, d)
  {
    if k < |st.at| && d < |st.at| && k != d {
      if a.EndTurn? {
        TurnPipeOk(g, st, a, k, d);
      } else if a == Send(k) || a == Hand(k) {
        MailPipeOk(g, st, a, k, d);
      } else {
        MovePipeOk(g, st, a, k, d);
      }
    }
  }

  /** What a move does to the counts of a pipe. */
  lemma {:induction false} MovedCounts(g: Config, st: State, a: Step, k: nat, d: nat)
    requires Inv(g, st) && Enabled(g, st, a) && k < |st.at| && d < |st.at| && k != d
    requires !a.EndTurn?
    ensures var nx := Apply(g, st, a);
      && SentCount(g, nx.at[k], k) == SentCount(g, st.at[k], k) + (if a == Send(k) || a == Hand(k) then 1 else 0)
      && TakenCount(g, nx.at[d], k, d) == TakenCount(g, st.at[d], k, d)
           + (if (a == Recv(d) && st.at[d].turn == k) || (a == Hand(k) && NextMail(g, st, k).dest == d) then 1 else 0)
  {
    var nx := Apply(g, st, a);
    StepPlaces(g, st, a, k);
    StepPlaces(g, st, a, d);
    if Moves(g, st, a, k) {
      Counted(g, st.at[k], nx.at[k], k, d);
    }
    if Moves(g, st, a, d) {
      Counted(g, st.at[d], nx.at[d], k, d);
    }
  }

  lemma {:induction false} MailPipeOk(g: Config, st: State, a: Step, k: nat, d: nat)
    requires Inv(g, st) && Enabled(g, st, a) && k < |st.at| && d < |st.at| && k != d
    requires a == Send(k) || a == Hand(k)
    ensures PipeOk(g, Apply(g, st, a), k, d)
  {
    var nx := Apply(g, st, a);
    assert PipeOk(g, st, k, d);
    StepPipes(g, st, a, k, d);
    MovedCounts(g, st, a, k, d);
    OneMoreMail(g, st, k, d);
  }

  lemma {:induction false} MovePipeOk(g: Config, st: State, a: Step, k: nat, d: nat)
    requires Inv(g, st) && Enabled(g, st, a) && k < |st.at| && d < |st.at| && k != d
    requires !a.EndTurn? && a != Send(k) && a != Hand(k)
    ensures PipeOk(g, Apply(g, st, a), k, d)
  {
    var nx := Apply(g, st, a);
    assert PipeOk(g, st, k, d);
    StepPipes(g, st, a, k, d);
    MovedCounts(g, st, a, k, d);
  }

  lemma {:induction false} StepInv(g: Config, st: State, a: Step)
    requires Inv(g, st) && Enabled(g, st, a)
    ensures Inv(g, Apply(g, st, a))
  {
    forall r: nat
      ensures PlaceOk(g, Apply(g, st, a), r)
    {
      StepPlaceOk(g, st, a, r);
    }
    forall k: nat, d: nat
      ensures PipeOk(g, Apply(g, st, a), k, d)
    {
      StepPipeOk(g, st, a, k, d);
    }
  }

  // ------------------------------------------------------------------ runs

  ghost predicate StepAt(g: Config, states: seq<State>, steps: seq<Step>, n: nat)
    requires |states| == |steps| + 1
  {
    n < |steps| ==> Shaped(g, states[n]) && Enabled(g, states[n], steps[n]) && states[n + 1] == Apply(g, states[n], steps[n])
  }

  /** Any interleaving of the ranks. */
  ghost predicate Run(g: Config, states: seq<State>, steps: seq<Step>) {
    |states| == |steps| + 1 && Initial(g, states[0]) && forall n: nat :: StepAt(g, states, steps, n)
  }

  lemma {:induction false} RunInv(g: Config, states: seq<State>, steps: seq<Step>, n: nat)
    requires Run(g, states, steps) && n <= |steps|
    ensures Inv(g, states[n])
  {
    if n == 0 {
      InitialInv(g, states[0]);
    } else {
      RunInv(g, states, steps, n - 1);
      assert StepAt(g, states, steps, n - 1);
      StepInv(g, states[n - 1], steps[n - 1]);
    }
  }

  ghost predicate Final(g: Config, st: State) {
    forall r :: 0 <= r < |st.at| ==> st.at[r].turn == |g.scripts|
  }

  /** When all ranks are through, each has received what the others sent to it, in order, and
      nothing is left under way. */
  lemma {:induction false} AllDelivered(g: Config, states: seq<State>, steps: seq<Step>, n: nat, k: nat, d: nat)
    requires Run(g, states, steps) && n <= |steps| && Final(g, states[n]) && k < |g.scripts| && d < |g.scripts| && k != d
    ensures PipeAt(states[n], k, d) == Pipe(ToRank(g.scripts[k], d), [])
  {
    RunInv(g, states, steps, n);
    assert PipeOk(g, states[n], k, d);
    assert g.scripts[k][..|g.scripts[k]|] == g.scripts[k];
  }

  // ------------------------------------------------------------------ progress

  /** A step that needs no buffering, and no early return from a broadcast. */
  ghost predicate Plain(st: State, a: Step) {
    !a.Send? && (a.Cast? ==> a.r < |st.at| && AllReached(st, st.at[a.r].turn, st.at[a.r].pos))
  }

  predicate NotAfter(p: Place, q: Place) {
    p.turn < q.turn || (p.turn == q.turn && p.pos <= q.pos)
  }

  /** A rank that none of the others is behind. */
  lemma {:induction false} Hindmost(at: seq<Place>) returns (r: nat)
    requires |at| > 0
    ensures r < |at| && forall q :: 0 <= q < |at| ==> NotAfter(at[r], at[q])
  {
    var last := |at| - 1;
    if last == 0 {
      r := 0;
    } else {
      r := Hindmost(at[..last]);
      assert forall q :: 0 <= q < last ==> at[..last][q] == at[q];
      if !NotAfter(at[r], at[last]) {
        r := last;
      }
    }
  }

  /** In the turn of the hindmost rank, past the broadcasts: its sender, or one of its receivers,
      can go on. */
  lemma {:induction false} MailGoesOn(g: Config, st: State, q: nat) returns (a: Step)
    requires Inv(g, st) && q < |st.at| && st.at[q].turn < |g.scripts| && st.at[q].pos >= g.casts[st.at[q].turn]
    requires forall r :: 0 <= r < |st.at| ==> NotAfter(st.at[q], st.at[r])
    ensures Enabled(g, st, a) && Plain(st, a)
  {
    var k := st.at[q].turn;
    if st.at[k].turn == k {
      a := SenderGoesOn(g, st, k);
    } else {
      a := ReceiverGoesOn(g, st, k, q);
    }
  }

  lemma {:induction false} SenderGoesOn(g: Config, st: State, k: nat) returns (a: Step)
    requires Inv(g, st) && k < |st.at| && Mailing(g, st.at[k], k)
    requires forall r :: 0 <= r < |st.at| ==> Reached(st, r, k, g.casts[k])
    ensures Enabled(g, st, a) && Plain(st, a)
  {
    assert PlaceOk(g, st, k);
    if !Sending(g, st, k) {
      a := EndTurn(k);
    } else {
      var d := NextMail(g, st, k).dest;
      StillReceives(g, st, k);
      assert Reached(st, d, k, g.casts[k]);
      a := if PipeAt(st, k, d).flight == [] then Hand(k) else Recv(d);
    }
  }

  /** The receiver of the next message has not left the turn. */
  lemma {:induction false} StillReceives(g: Config, st: State, k: nat)
    requires Inv(g, st) && Sending(g, st, k)
    ensures st.at[NextMail(g, st, k).dest].turn <= k
  {
    var d, n := NextMail(g, st, k).dest, SentCount(g, st.at[k], k);
    assert PipeOk(g, st, k, d);
    ToRankPrefix(g.scripts[k], n, d);
    ToRankPrefix(g.scripts[k], n + 1, d);
  }

  lemma {:induction false} ReceiverGoesOn(g: Config, st: State, k: nat, q: nat) returns (a: Step)
    requires Inv(g, st) && k < |st.at| && st.at[k].turn > k && q < |st.at| && Mailing(g, st.at[q], k)
    ensures Enabled(g, st, a) && Plain(st, a)
  {
    assert PlaceOk(g, st, q) && PipeOk(g, st, k, q);
    assert g.scripts[k][..|g.scripts[k]|] == g.scripts[k];
    a := if st.at[q].pos == Acts(g, q, k) then EndTurn(q) else Recv(q);
  }

  /** The connection phase never deadlocks: in every reachable state in which a rank is not
      through, some rank can go on, even if MPI buffers no message and no rank leaves a broadcast
      before all have entered it. */
  lemma {:induction false} Progress(g: Config, states: seq<State>, steps: seq<Step>) returns (a: Step)
    requires Run(g, states, steps) && !Final(g, states[|steps|])
    ensures Shaped(g, states[|steps|]) && Enabled(g, states[|steps|], a) && Plain(states[|steps|], a)
  {
    var st := states[|steps|];
    RunInv(g, states, steps, |steps|);
    var q := Hindmost(st.at);
    assert PlaceOk(g, st, q);
    assert st.at[q].turn < |g.scripts| by {
      var r :| 0 <= r < |st.at| && st.at[r].turn != |g.scripts|;
      assert PlaceOk(g, st, r) && NotAfter(st.at[q], st.at[r]);
    }
    if st.at[q].pos < g.casts[st.at[q].turn] {
      a := Cast(q);
      assert forall r: nat :: r < |st.at| ==> NotAfter(st.at[q], st.at[r]);
    } else {
      a := MailGoesOn(g, st, q);
    }
  }

  // ------------------------------------------------------------------ every run ends

  /** Actions of rank r in the first k turns, and the ends of these turns. */
  ghost function Before(g: Config, r: nat, k: nat): nat
    requires k <= |g.scripts| == |g.casts|
  {
    if k == 0 then 0 else Before(g, r, k - 1) + Acts(g, r, k - 1) + 1
  }

  ghost function Done(g: Config, p: Place, r: nat): nat
    requires p.turn <= |g.scripts| == |g.casts|
  {
    Before(g, r, p.turn) + p.pos
  }

  ghost predicate PlacesOk(g: Config, st: State) {
    Shaped(g, st) && forall r :: 0 <= r < |st.at| ==> st.at[r].turn <= |g.scripts|
  }

  /** What the first n ranks have done. */
  ghost function DoneBy(g: Config, st: State, n: nat): nat
    requires PlacesOk(g, st) && n <= |st.at|
  {
    if n == 0 then 0 else DoneBy(g, st, n - 1) + Done(g, st.at[n - 1], n - 1)
  }

  lemma {:induction false} DoneGrows(g: Config, st: State, nx: State, n: nat)
    requires PlacesOk(g, st) && PlacesOk(g, nx) && n <= |st.at|
    requires forall r: nat :: r < |st.at| ==> Done(g, st.at[r], r) <= Done(g, nx.at[r], r)
    ensures DoneBy(g, st, n) <= DoneBy(g, nx, n)
    ensures (exists r: nat :: r < n && Done(g, st.at[r], r) < Done(g, nx.at[r], r)) ==> DoneBy(g, st, n) < DoneBy(g, nx, n)
  {
    if n > 0 {
      DoneGrows(g, st, nx, n - 1);
    }
  }

  lemma {:induction false} InvPlaces(g: Config, st: State)
    requires Inv(g, st)
    ensures PlacesOk(g, st)
  {
    forall r | 0 <= r < |st.at|
      ensures st.at[r].turn <= |g.scripts|
    {
      assert PlaceOk(g, st, r);
    }
  }

  lemma {:induction false} StepDone(g: Config, st: State, a: Step, r: nat)
    requires Inv(g, st) && Enabled(g, st, a) && r < |st.at|
    ensures PlacesOk(g, st) && PlacesOk(g, Apply(g, st, a))
    ensures Done(g, st.at[r], r) <= Done(g, Apply(g, st, a).at[r], r)
    ensures r == a.r ==> Done(g, st.at[r], r) < Done(g, Apply(g, st, a).at[r], r)
  {
    StepInv(g, st, a);
    InvPlaces(g, st);
    InvPlaces(g, Apply(g, st, a));
    StepPlaces(g, st, a, r);
  }

  /** Every step is one more action done. */
  lemma {:induction false} OneMoreDone(g: Config, st: State, a: Step)
    requires Inv(g, st) && Enabled(g, st, a)
    ensures PlacesOk(g, st) && PlacesOk(g, Apply(g, st, a))
    ensures DoneBy(g, st, |g.scripts|) < DoneBy(g, Apply(g, st, a), |g.scripts|)
  {
    var nx := Apply(g, st, a);
    StepDone(g, st, a, a.r);
    forall r: nat | r < |st.at|
      ensures Done(g, st.at[r], r) <= Done(g, nx.at[r], r)
    {
      StepDone(g, st, a, r);
    }
    DoneGrows(g, st, nx, |g.scripts|);
  }

  lemma {:induction false} StepsDone(g: Config, states: seq<State>, steps: seq<Step>, n: nat)
    requires Run(g, states, steps) && n <= |steps|
    ensures PlacesOk(g, states[n]) && n <= DoneBy(g, states[n], |g.scripts|)
  {
    RunInv(g, states, steps, n);
    InvPlaces(g, states[n]);
    if n > 0 {
      StepsDone(g, states, steps, n - 1);
      RunInv(g, states, steps, n - 1);
      assert StepAt(g, states, steps, n - 1);
      OneMoreDone(g, states[n - 1], steps[n - 1]);
    }
  }

  lemma {:induction false} BeforeGrows(g: Config, r: nat, k: nat)
    requires k < |g.scripts| == |g.casts|
    ensures Before(g, r, k) + Acts(g, r, k) < Before(g, r, |g.scripts|)
    decreases |g.scripts| - k
  {
    if k + 1 < |g.scripts| {
      BeforeGrows(g, r, k + 1);
    }
  }

  ghost function Total(g: Config, n: nat): nat
    requires |g.scripts| == |g.casts|
  {
    if n == 0 then 0 else Total(g, n - 1) + Before(g, n - 1, |g.scripts|)
  }

  lemma {:induction false} DoneBounded(g: Config, st: State, n: nat)
    requires Inv(g, st) && PlacesOk(g, st) && n <= |st.at|
    ensures DoneBy(g, st, n) <= Total(g, n)
  {
    if n > 0 {
      DoneBounded(g, st, n - 1);
      assert PlaceOk(g, st, n - 1);
      if st.at[n - 1].turn < |g.scripts| {
        BeforeGrows(g, n - 1, st.at[n - 1].turn);
      }
    }
  }

  /** No run takes more steps than the ranks have actions. */
  lemma {:induction false} RunsEnd(g: Config, states: seq<State>, steps: seq<Step>)
    requires Run(g, states, steps)
    ensures ConfigOk(g) && |steps| <= Total(g, |g.scripts|)
  {
    StepsDone(g, states, steps, |steps|);
    RunInv(g, states, steps, |steps|);
    DoneBounded(g, states[|steps|], |g.scripts|);
  }

  lemma {:induction false} RunOneMore(g: Config, states: seq<State>, steps: seq<Step>, a: Step)
    requires Run(g, states, steps) && Shaped(g, states[|steps|]) && Enabled(g, states[|steps|], a)
    ensures Run(g, states + [Apply(g, states[|steps|], a)], steps + [a])
  {
    var all, acts := states + [Apply(g, states[|steps|], a)], steps + [a];
    forall n: nat
      ensures StepAt(g, all, acts, n)
    {
      assert StepAt(g, states, steps, n);
    }
  }

  /** Every run can be continued until all ranks are through. */
  lemma {:induction false} RunCompletes(g: Config, states: seq<State>, steps: seq<Step>) returns (all: seq<State>, acts: seq<Step>)
    requires Run(g, states, steps)
    ensures Run(g, all, acts) && states <= all && steps <= acts && Final(g, all[|acts|])
    decreases Total(g, |g.scripts|) - |steps|
  {
    if Final(g, states[|steps|]) {
      all, acts := states, steps;
    } else {
      var a := Progress(g, states, steps);
      RunOneMore(g, states, steps, a);
      RunsEnd(g, states + [Apply(g, states[|steps|], a)], steps + [a]);
      all, acts := RunCompletes(g, states + [Apply(g, states[|steps|], a)], steps + [a]);
    }
  }

  // ------------------------------------------------------------------ what make_pattern sends

  function ToOne(d: int, msgs: seq<Msg>): (mails: seq<Mail>)
    ensures |mails| == |msgs| && forall i {:trigger mails[i]} :: 0 <= i < |mails| ==> mails[i] == Mail(d, msgs[i])
  {
    seq(|msgs|, i requires 0 <= i < |msgs| => Mail(d, msgs[i]))
  }

  /** Messages to one rank after the other. */
  datatype Parcel = Parcel(dest: int, msgs: seq<Msg>)

  function Flat(parcels: seq<Parcel>): seq<Mail> {
    if parcels == [] then []
    else Flat(parcels[..|parcels| - 1]) + ToOne(parcels[|parcels| - 1].dest, parcels[|parcels| - 1].msgs)
  }

  /** The first loop sends every rank its number of domains. */
  function Heads(out: RankMap): (h: seq<Parcel>)
    ensures |h| == |out| && forall p {:trigger h[p]} :: 0 <= p < |h| ==> h[p] == Parcel(out[p].key.major, [Msg.Count(|out[p].val|)])
  {
    seq(|out|, p requires 0 <= p < |out| => Parcel(out[p].key.major, [Msg.Count(|out[p].val|)]))
  }

  /** The second loop sends the rest, rank after rank. */
  function Bodies(out: RankMap): (b: seq<Parcel>)
    ensures |b| == |out| && forall p {:trigger b[p]} :: 0 <= p < |b| ==> b[p] == Parcel(out[p].key.major, Encode(out[p].val)[1..])
  {
    seq(|out|, p requires 0 <= p < |out| => Parcel(out[p].key.major, Encode(out[p].val)[1..]))
  }

  function Script(out: RankMap): seq<Mail> {
    Flat(Heads(out)) + Flat(Bodies(out))
  }

  predicate Addressed(parcels: seq<Parcel>, d: int) {
    exists p :: 0 <= p < |parcels| && parcels[p].dest == d
  }

  lemma {:induction false} FlatAddressed(parcels: seq<Parcel>)
    ensures forall i :: 0 <= i < |Flat(parcels)| ==> Addressed(parcels, Flat(parcels)[i].dest)
  {
    if parcels != [] {
      var init, last := parcels[..|parcels| - 1], parcels[|parcels| - 1];
      FlatAddressed(init);
      assert Addressed(parcels, last.dest);
      forall i | 0 <= i < |Flat(init)|
        ensures Addressed(parcels, Flat(init)[i].dest)
      {
        var p :| 0 <= p < |init| && init[p].dest == Flat(init)[i].dest;
        assert parcels[p] == init[p];
      }
    }
  }

  lemma {:induction false} ToRankAppend(a: seq<Mail>, b: seq<Mail>, d: int)
    ensures ToRank(a + b, d) == ToRank(a, d) + ToRank(b, d)
  {
    if b == [] {
      assert a + b == a;
    } else {
      var last := |b| - 1;
      assert (a + b)[..|a + b| - 1] == a + b[..last];
      ToRankAppend(a, b[..last], d);
    }
  }

  lemma {:induction false} ToRankOne(r: int, msgs: seq<Msg>, d: int)
    ensures ToRank(ToOne(r, msgs), d) == if r == d then msgs else []
  {
    if msgs != [] {
      var last := |msgs| - 1;
      assert ToOne(r, msgs)[..last] == ToOne(r, msgs[..last]);
      ToRankOne(r, msgs[..last], d);
    }
  }

  lemma {:induction false} ToRankMore(a: seq<Mail>, r: int, msgs: seq<Msg>, d: int)
    ensures r == d ==> ToRank(a + ToOne(r, msgs), d) == ToRank(a, d) + msgs
    ensures r != d ==> ToRank(a + ToOne(r, msgs), d) == ToRank(a, d)
  {
    ToRankAppend(a, ToOne(r, msgs), d);
    ToRankOne(r, msgs, d);
    assert ToRank(a, d) + [] == ToRank(a, d);
  }

  lemma {:induction false} FlatElsewhere(parcels: seq<Parcel>, d: int)
    requires !Addressed(parcels, d)
    ensures ToRank(Flat(parcels), d) == []
  {
    if parcels != [] {
      var init, last := parcels[..|parcels| - 1], parcels[|parcels| - 1];
      FlatElsewhere(init, d);
      ToRankMore(Flat(init), last.dest, last.msgs, d);
    }
  }

  /** A rank gets the messages of its own parcel. */
  lemma {:induction false} FlatToRank(parcels: seq<Parcel>, d: int, p: nat)
    requires p < |parcels| && forall q :: 0 <= q < |parcels| ==> (parcels[q].dest == d <==> q == p)
    ensures ToRank(Flat(parcels), d) == parcels[p].msgs
  {
    var init, last := parcels[..|parcels| - 1], parcels[|parcels| - 1];
    ToRankMore(Flat(init), last.dest, last.msgs, d);
    if p < |init| {
      FlatToRank(init, d, p);
    } else {
      FlatElsewhere(init, d);
    }
  }

  /** Though the messages to different ranks are interleaved, each rank gets the encoding of its
      own share. */
  lemma {:induction false} ScriptToRank(out: RankMap, d: int)
    requires Sorted(out) && Tidy(out) && d in Majors(out)
    ensures ToRank(Script(out), d) == Encode(Inner(out, d))
  {
    var p := OnlyEntry(out, d);
    FlatToRank(Heads(out), d, p);
    FlatToRank(Bodies(out), d, p);
    ToRankAppend(Flat(Heads(out)), Flat(Bodies(out)), d);
    var code := Encode(out[p].val);
    assert code == [Msg.Count(|out[p].val|)] + code[1..];
  }

  lemma {:induction false} FlatSingles(parcels: seq<Parcel>)
    requires forall p :: 0 <= p < |parcels| ==> |parcels[p].msgs| == 1
    ensures |Flat(parcels)| == |parcels|
    ensures forall p :: 0 <= p < |parcels| ==> Flat(parcels)[p] == Mail(parcels[p].dest, parcels[p].msgs[0])
  {
    if parcels != [] {
      FlatSingles(parcels[..|parcels| - 1]);
    }
  }

  lemma {:induction false} FlatAscending(parcels: seq<Parcel>)
    requires forall p, q :: 0 <= p < q < |parcels| ==> parcels[p].dest < parcels[q].dest
    ensures forall i, j :: 0 <= i < j < |Flat(parcels)| ==> Flat(parcels)[i].dest <= Flat(parcels)[j].dest
  {
    if parcels != [] {
      var init, last := parcels[..|parcels| - 1], parcels[|parcels| - 1];
      FlatAscending(init);
      FlatAddressed(init);
      forall i | 0 <= i < |Flat(init)|
        ensures Flat(init)[i].dest < last.dest
      {
        assert Addressed(init, Flat(init)[i].dest);
      }
    }
  }

  /** In its turn a rank first sends every other rank the number of domains, in rank order, and then
      all the rest, one rank after the other. */
  lemma {:induction false} CountsFirst(out: RankMap)
    requires Sorted(out) && Tidy(out)
    ensures |Script(out)| >= |out|
    ensures forall p :: 0 <= p < |out| ==> Script(out)[p] == Mail(out[p].key.major, Msg.Count(|out[p].val|))
    ensures forall i, j :: |out| <= i < j < |Script(out)| ==> Script(out)[i].dest <= Script(out)[j].dest
  {
    forall p, q | 0 <= p < q < |out|
      ensures out[p].key.major < out[q].key.major
    {
      assert out[p] in out && out[q] in out && Less(out[p].key, out[q].key);
    }
    FlatSingles(Heads(out));
    FlatAscending(Bodies(out));
    forall i | |out| <= i < |Script(out)|
      ensures Script(out)[i] == Flat(Bodies(out))[i - |out|]
    {
    }
  }

  /** A rank is listed once. */
  lemma {:induction false} OnlyEntry(out: RankMap, d: int) returns (p: nat)
    requires Sorted(out) && Tidy(out) && d in Majors(out)
    ensures p < |out| && Inner(out, d) == out[p].val
    ensures forall q :: 0 <= q < |out| ==> (out[q].key.major == d <==> q == p)
  {
    p :| 0 <= p < |out| && Majors(out)[p] == d;
    forall q | 0 <= q < |out| && out[q].key.major == d
      ensures q == p
    {
      assert out[q] in out && out[p] in out;
      assert Less(out[q].key, out[p].key) || Less(out[p].key, out[q].key) || q == p;
    }
    assert out[p] in out;
    ContainsIff(out, Key(d, 0), p);
  }

  /** What rank k has to send: everything but its own share. */
  function Outgoing(sends: seq<RankMap>, k: nat): RankMap
    requires k < |sends|
  {
    Erase(sends[k], Key(k, 0))
  }

  /** The connection phase: the number of ranks is always broadcast, the ranks only if there are
      any. */
  function ConnectConfig(sends: seq<RankMap>): (g: Config)
    ensures |g.scripts| == |g.casts| == |sends|
    ensures forall k {:trigger g.scripts[k]} :: 0 <= k < |sends| ==> g.scripts[k] == Script(Outgoing(sends, k))
  {
    Config(seq(|sends|, k requires 0 <= k < |sends| => Script(Outgoing(sends, k))),
           seq(|sends|, k requires 0 <= k < |sends| => if Outgoing(sends, k) == [] then 1 else 2))
  }

  lemma {:induction false} OutgoingTidy(sends: RankMap, k: int)
    requires Sorted(sends) && Tidy(sends)
    ensures Sorted(Erase(sends, Key(k, 0))) && Tidy(Erase(sends, Key(k, 0)))
    ensures forall x :: x in Erase(sends, Key(k, 0)) ==> x in sends && x.key.major != k
  {
    var out := Erase(sends, Key(k, 0));
    EraseIn(sends, Key(k, 0), Entry(Key(k, 0), []));
    forall x | x in out
      ensures x in sends && x.key != Key(k, 0)
    {
      EraseIn(sends, Key(k, 0), x);
    }
  }

  /** Every listed rank has at least one halo, so it is one of the ranks. */
  lemma {:induction false} ListedRank(w: World, t: seq<seq<HaloMap>>, sends: seq<RankMap>, dims: nat, k: nat, x: Entry<DomainMap>)
    requires AllSendMaps(w, t, sends, dims) && k < |w| && x in sends[k]
    ensures 0 <= x.key.major < |w|
  {
    assert IsSendMap(sends[k], w, k, t[k], dims);
    var y := x.val[0];
    assert y in x.val && y.val != [];
    var e := y.val[0];
    LeafListed(sends[k], x, y, e);
    var i, j := LeafOrigin(w, t, sends, dims, k, x.key.major, y.key.major, e);
  }

  lemma {:induction false} LeafListed(sends: RankMap, x: Entry<DomainMap>, y: Entry<HaloMap>, e: Entry<Halo>)
    requires NestedSorted(sends) && Tidy(sends) && x in sends && y in x.val && e in y.val
    ensures Leaf(sends, x.key.major, y.key.major, e)
  {
    var p :| 0 <= p < |sends| && sends[p] == x;
    ContainsIff(sends, Key(x.key.major, 0), p);
    assert Inner(sends, x.key.major) == x.val && Sorted(Inner(sends, x.key.major));
    var q :| 0 <= q < |x.val| && x.val[q] == y;
    ContainsIff(x.val, Key(y.key.major, 0), q);
  }

  lemma {:induction false} ConnectConfigOk(w: World, t: seq<seq<HaloMap>>, sends: seq<RankMap>, dims: nat)
    requires AllSendMaps(w, t, sends, dims)
    ensures ConfigOk(ConnectConfig(sends))
  {
    var g := ConnectConfig(sends);
    forall k, i | 0 <= k < |g.scripts| && 0 <= i < |g.scripts[k]|
      ensures 0 <= g.scripts[k][i].dest < |g.scripts| && g.scripts[k][i].dest != k
    {
      var out := Outgoing(sends, k);
      assert IsSendMap(sends[k], w, k, t[k], dims);
      OutgoingTidy(sends[k], k);
      FlatAddressed(Heads(out));
      FlatAddressed(Bodies(out));
      assert Addressed(Heads(out), Script(out)[i].dest) || Addressed(Bodies(out), Script(out)[i].dest);
      var p :| 0 <= p < |out| && out[p].key.major == Script(out)[i].dest;
      assert out[p] in out;
      ListedRank(w, t, sends, dims, k, out[p]);
    }
  }

  /** However the ranks' actions interleave: when all are through, what rank me has received from
      rank s is the encoding of its share of what rank s had to send. */
  lemma {:induction false} EveryRunConnects(w: World, t: seq<seq<HaloMap>>, sends: seq<RankMap>, dims: nat,
                                            states: seq<State>, steps: seq<Step>, s: nat, me: nat)
    requires AllSendMaps(w, t, sends, dims) && Run(ConnectConfig(sends), states, steps)
    requires Final(ConnectConfig(sends), states[|steps|]) && s < |w| && me < |w| && s != me
    ensures SentBy(w, sends, s, me, Majors(Outgoing(sends, s)), PipeAt(states[|steps|], s, me).got)
  {
    AllDelivered(ConnectConfig(sends), states, steps, |steps|, s, me);
    assert IsSendMap(sends[s], w, s, t[s], dims);
    OutgoingTidy(sends[s], s);
    if me in Majors(Outgoing(sends, s)) {
      ScriptToRank(Outgoing(sends, s), me);
    }
  }

  /** The connection phase of all ranks, run concurrently in any way, gives every rank the send
      halos that it has when the ranks take turns one after the other. */
  method ConnectConcurrently(w: World, ghost t: seq<seq<HaloMap>>, sends: seq<RankMap>, ghost dims: nat,
                             final: State, ghost states: seq<State>, ghost steps: seq<Step>) returns (send: seq<seq<HaloMap>>)
    requires AllSendMaps(w, t, sends, dims) && Run(ConnectConfig(sends), states, steps)
    requires final == states[|steps|] && Final(ConnectConfig(sends), final)
    ensures |send| == |w| && forall r :: 0 <= r < |w| ==> Collected(send[r], w, r, sends, |w|)
  {
    var bcast := seq(|sends|, s requires 0 <= s < |sends| => Majors(Outgoing(sends, s)));
    send := [];
    for r := 0 to |w|
      invariant |send| == r
      invariant forall a :: 0 <= a < r ==> Collected(send[a], w, a, sends, |w|)
    {
      var inbox := seq(|w|, s requires 0 <= s < |w| => PipeAt(final, s, r).got);
      forall s | 0 <= s < |w| && s != r
        ensures SentBy(w, sends, s, r, bcast[s], inbox[s])
      {
        EveryRunConnects(w, t, sends, dims, states, steps, s, r);
      }
      var mine := ConnectRank(w, r, sends[r], bcast, inbox, t, sends, dims);
      send := send + [mine];
    }
  }

  lemma {:induction false} OthersListed(w: World, t: seq<seq<HaloMap>>, sends: seq<RankMap>, dims: nat, k: nat)
    requires AllSendMaps(w, t, sends, dims) && k < |w|
    ensures Outgoing(sends, k) == [] <==> forall x :: x in sends[k] ==> x.key.major == k
  {
    assert IsSendMap(sends[k], w, k, t[k], dims);
    OutgoingTidy(sends[k], k);
    var out := Outgoing(sends, k);
    if out != [] {
      assert out[0] in out;
    }
    forall x | x in sends[k] && x.key.major != k
      ensures x in out
    {
      EraseIn(sends[k], Key(k, 0), x);
    }
  }

  /** The phase can start: nothing is sent to a rank itself, and the root of a turn broadcasts twice
      unless it has nothing for others. */
  lemma {:induction false} ConnectStarts(w: World, t: seq<seq<HaloMap>>, sends: seq<RankMap>, dims: nat) returns (start: State)
    requires AllSendMaps(w, t, sends, dims)
    ensures Run(ConnectConfig(sends), [start], [])
    ensures forall k :: 0 <= k < |w| ==>
      ConnectConfig(sends).casts[k] == if forall x :: x in sends[k] ==> x.key.major == k then 1 else 2
  {
    ConnectConfigOk(w, t, sends, dims);
    forall k | 0 <= k < |w|
      ensures Outgoing(sends, k) == [] <==> forall x :: x in sends[k] ==> x.key.major == k
    {
      OthersListed(w, t, sends, dims, k);
    }
    start := State(seq(|sends|, r requires 0 <= r < |sends| => Place(0, 0)), map[]);
  }

  /** What pattern construction sends never gets stuck: whatever the ranks have done so far, they
      can go on until all are through, and every rank then has its send halos. */
  lemma {:induction false} ConnectCompletes(w: World, t: seq<seq<HaloMap>>, sends: seq<RankMap>, dims: nat, states: seq<State>, steps: seq<Step>)
    returns (all: seq<State>, acts: seq<Step>)
    requires AllSendMaps(w, t, sends, dims) && Run(ConnectConfig(sends), states, steps)
    ensures Run(ConnectConfig(sends), all, acts) && steps <= acts && states <= all
    ensures forall s: nat, me: nat :: s < |w| && me < |w| && s != me ==>
      SentBy(w, sends, s, me, Majors(Outgoing(sends, s)), PipeAt(all[|acts|], s, me).got)
  {
    all, acts := RunCompletes(ConnectConfig(sends), states, steps);
    forall s: nat, me: nat | s < |w| && me < |w| && s != me
      ensures SentBy(w, sends, s, me, Majors(Outgoing(sends, s)), PipeAt(all[|acts|], s, me).got)
    {
      EveryRunConnects(w, t, sends, dims, all, acts, s, me);
    }
  }
}

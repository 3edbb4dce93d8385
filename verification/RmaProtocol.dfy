// The bulk exchange over RMA as a concurrent step system. Every participant adds its fields,
// completes the handshake and then runs (exchange, wait) for a number of rounds; between two
// participants there are only the guards' modes and the memory of the target halos.

module RmaProtocol {
  import opened AccessGuard

  type Data = seq<bv8>

  datatype Option<T> = None | Some(value: T)

  // ------------------------------------------------------------------ participants and channels

  /** A channel is one range: src puts into a halo that dst owns. */
  datatype Link = Link(src: nat, dst: nat)

  /** sources[p] and targets[p] list p's channels in the order the registered functions run. */
  datatype Config = Config(links: seq<Link>, sources: seq<seq<nat>>, targets: seq<seq<nat>>, rounds: nat)

  ghost predicate ConfigOk(g: Config) {
    && |g.sources| == |g.targets|
    && (forall c :: 0 <= c < |g.links| ==> g.links[c].src < |g.sources| && g.links[c].dst < |g.sources|)
    && (forall c :: 0 <= c < |g.links| ==> c in g.sources[g.links[c].src] && c in g.targets[g.links[c].dst])
    && (forall p, i :: 0 <= p < |g.sources| && 0 <= i < |g.sources[p]| ==>
          g.sources[p][i] < |g.links| && g.links[g.sources[p][i]].src == p)
    && (forall p, i :: 0 <= p < |g.targets| && 0 <= i < |g.targets[p]| ==>
          g.targets[p][i] < |g.links| && g.links[g.targets[p][i]].dst == p)
    && (forall p, i, j :: 0 <= p < |g.sources| && 0 <= i < j < |g.sources[p]| ==> g.sources[p][i] != g.sources[p][j])
    && (forall p, i, j :: 0 <= p < |g.targets| && 0 <= i < j < |g.targets[p]| ==> g.targets[p][i] != g.targets[p][j])
  }

  datatype Stage = Adding | Receiving | Sending | Ready | Opening | Putting | Waiting

  /** history[k][c] is what the memory behind source c held when the k-th exchange began. */
  datatype Part = Part(stage: Stage, pos: nat, history: seq<seq<Data>>)

  datatype Chan = Chan(published: bool, received: bool, mode: Mode, putting: bool, halo: Option<Data>,
                       opens: nat, puts: nat, waits: nat)

  datatype State = State(parts: seq<Part>, chans: seq<Chan>, fields: seq<Data>)

  function Round(p: Part): nat {
    |p.history|
  }

  // ------------------------------------------------------------------ steps

  datatype Step =
    | Publish(p: nat)              // add_field: create a target range, guard in remote mode, send its archive
    | EndAdd(p: nat)
    | Recv(p: nat)                 // init: source_range::recv, ends with a source epoch end
    | EndRecv(p: nat)
    | Send(p: nat)                 // init: target_range::send, blocks until the mode is local
    | EndSend(p: nat)
    | Begin(p: nat)                // exchange is called
    | Open(p: nat)                 // an open function: end_target_epoch
    | EndOpen(p: nat)
    | StartPut(p: nat, c: nat)     // a put function whose try_start_source_epoch succeeded
    | FinishPut(p: nat, c: nat)    // the data is written, end_source_epoch
    | EndPut(p: nat)               // exchange returns
    | WaitOne(p: nat, c: nat)      // a wait function whose try_start_target_epoch succeeded
    | EndWait(p: nat)              // wait returns
    | Write(p: nat, v: seq<Data>)  // the application writes its fields outside exchange

  ghost predicate Shaped(g: Config, st: State) {
    |st.parts| == |g.sources| == |g.targets| && |st.chans| == |g.links| == |st.fields|
  }

  ghost predicate Enabled(g: Config, st: State, a: Step)
    requires ConfigOk(g) && Shaped(g, st)
  {
    && a.p < |st.parts|
    && var q := st.parts[a.p];
       var sources, targets := g.sources[a.p], g.targets[a.p];
       match a
       case Publish(_) => q.stage == Adding && q.pos < |targets|
       case EndAdd(_) => q.stage == Adding && q.pos >= |targets|
       case Recv(_) => q.stage == Receiving && q.pos < |sources| && st.chans[sources[q.pos]].published
       case EndRecv(_) => q.stage == Receiving && q.pos >= |sources|
       case Send(_) => q.stage == Sending && q.pos < |targets| && TargetMayStart(st.chans[targets[q.pos]].mode)
       case EndSend(_) => q.stage == Sending && q.pos >= |targets|
       case Begin(_) => q.stage == Ready && Round(q) < g.rounds
       case Open(_) => q.stage == Opening && q.pos < |targets|
       case EndOpen(_) => q.stage == Opening && q.pos >= |targets|
       case StartPut(_, c) =>
         && q.stage == Putting && c in sources && SourceMayStart(st.chans[c].mode)
         && st.chans[c].puts < Round(q) && forall d :: d in sources ==> !st.chans[d].putting
       case FinishPut(_, c) => q.stage == Putting && c in sources && st.chans[c].putting
       case EndPut(_) => q.stage == Putting && forall d :: d in sources ==> st.chans[d].puts == Round(q)
       case WaitOne(_, c) => q.stage == Waiting && c in targets && st.chans[c].waits < Round(q) && TargetMayStart(st.chans[c].mode)
       case EndWait(_) => q.stage == Waiting && forall d :: d in targets ==> st.chans[d].waits == Round(q)
       case Write(_, v) =>
         && (q.stage == Adding || q.stage == Ready || q.stage == Waiting) && |v| == |st.fields|
         && forall c: nat :: c < |v| && c !in sources ==> v[c] == st.fields[c]
  }

  /** The participant after a step of its own. */
  ghost function Moved(g: Config, st: State, a: Step): Part
    requires ConfigOk(g) && Shaped(g, st) && Enabled(g, st, a)
  {
    var q := st.parts[a.p];
    match a
    case Publish(_) => q.(pos := q.pos + 1)
    case EndAdd(_) => q.(stage := Receiving, pos := 0)
    case Recv(_) => q.(pos := q.pos + 1)
    case EndRecv(_) => q.(stage := Sending, pos := 0)
    case Send(_) => q.(pos := q.pos + 1)
    case EndSend(_) => q.(stage := Ready, pos := 0)
    case Begin(_) => Part(Opening, 0, q.history + [st.fields])
    case Open(_) => q.(pos := q.pos + 1)
    case EndOpen(_) => q.(stage := Putting, pos := 0)
    case EndPut(_) => q.(stage := Waiting)
    case EndWait(_) => q.(stage := Ready)
    case _ => q
  }

  /** The channel a step touches. */
  ghost function Touched(g: Config, st: State, a: Step): Option<nat>
    requires ConfigOk(g) && Shaped(g, st) && Enabled(g, st, a)
    ensures Touched(g, st, a).Some? ==> Touched(g, st, a).value < |g.links|
  {
    match a
    case Publish(p) => Some(g.targets[p][st.parts[p].pos])
    case Recv(p) => Some(g.sources[p][st.parts[p].pos])
    case Open(p) => Some(g.targets[p][st.parts[p].pos])
    case StartPut(_, c) => Some(c)
    case FinishPut(_, c) => Some(c)
    case WaitOne(_, c) => Some(c)
    case _ => None
  }

  /** A channel after a step that touches it. */
  ghost function Changed(x: Chan, a: Step, field: Data): Chan {
    match a
    case Publish(_) => x.(published := true, mode := RemoteAccess)
    case Recv(_) => x.(received := true, mode := AFTER_SOURCE)
    case Open(_) => x.(mode := AFTER_TARGET, opens := x.opens + 1)
    case StartPut(_, _) => x.(putting := true, halo := None)
    case FinishPut(_, _) => x.(putting := false, halo := Some(field), mode := AFTER_SOURCE, puts := x.puts + 1)
    case WaitOne(_, _) => x.(waits := x.waits + 1)
    case _ => x
  }

  ghost function Apply(g: Config, st: State, a: Step): State
    requires ConfigOk(g) && Shaped(g, st) && Enabled(g, st, a)
    ensures Shaped(g, Apply(g, st, a))
  {
    var parts := st.parts[a.p := Moved(g, st, a)];
    match Touched(g, st, a)
    case Some(c) => State(parts, st.chans[c := Changed(st.chans[c], a, st.fields[c])], st.fields)
    case None => State(parts, st.chans, if a.Write? then a.v else st.fields)
  }

  ghost predicate Initial(g: Config, st: State) {
    && Shaped(g, st)
    && (forall p :: 0 <= p < |st.parts| ==> st.parts[p] == Part(Adding, 0, []))
    && (forall c :: 0 <= c < |st.chans| ==> st.chans[c] == Chan(false, false, RemoteAccess, false, None, 0, 0, 0))
  }

  // ------------------------------------------------------------------ invariant

  predicate InExchange(s: Stage) {
    s == Opening || s == Putting || s == Waiting
  }

  ghost predicate PartOk(g: Config, q: Part, nTargets: nat, nSources: nat, nChans: nat) {
    && Round(q) <= g.rounds
    && (InExchange(q.stage) ==> Round(q) > 0)
    && (q.stage == Adding || q.stage == Receiving || q.stage == Sending ==> Round(q) == 0)
    && q.pos <= (if q.stage == Receiving then nSources else nTargets)
    && (forall k :: 0 <= k < |q.history| ==> |q.history[k]| == nChans)
  }

  /** What the owner's progress says about its i-th target channel. */
  ghost predicate TargetSide(q: Part, x: Chan, i: nat) {
    && (x.published <==> !(q.stage == Adding && i >= q.pos))
    && x.opens == (if q.stage == Opening && i >= q.pos then Round(q) - 1 else Round(q))
    && (if q.stage == Opening || q.stage == Putting then x.waits == Round(q) - 1
        else if q.stage == Waiting then Round(q) - 1 <= x.waits <= Round(q)
        else x.waits == Round(q))
    && (q.stage == Ready || InExchange(q.stage) || (q.stage == Sending && i < q.pos) ==> x.received)
  }

  /** What the putting participant's progress says about its i-th source channel. */
  ghost predicate SourceSide(q: Part, x: Chan, c: nat, field: Data, i: nat) {
    && (x.received <==> !(q.stage == Adding || (q.stage == Receiving && i >= q.pos)))
    && (if q.stage == Opening then x.puts == Round(q) - 1
        else if q.stage == Putting then Round(q) - 1 <= x.puts <= Round(q)
        else x.puts == Round(q))
    && (x.putting ==> q.stage == Putting && x.puts < Round(q))
    && (q.stage == Opening || q.stage == Putting ==>
          Round(q) > 0 && c < |q.history[Round(q) - 1]| && field == q.history[Round(q) - 1][c])
    && (x.puts > 0 && !x.putting ==>
          x.puts <= Round(q) && c < |q.history[x.puts - 1]| && x.halo == Some(q.history[x.puts - 1][c]))
  }

  /** Pairing: the p-th put always answers the p-th open. */
  ghost predicate Paired(x: Chan) {
    && (x.received ==> x.published && x.opens == x.puts + (if x.mode == RemoteAccess then 1 else 0))
    && (!x.received ==> x.mode == RemoteAccess && x.opens == 0 && x.puts == 0 && !x.putting)
    && (x.putting ==> x.mode == RemoteAccess)
    && x.waits <= x.puts
  }

  ghost predicate PartAt(g: Config, st: State, p: nat)
    requires Shaped(g, st)
  {
    p < |st.parts| ==> PartOk(g, st.parts[p], |g.targets[p]|, |g.sources[p]|, |g.links|)
  }

  ghost predicate TargetAt(g: Config, st: State, p: nat, i: nat)
    requires ConfigOk(g) && Shaped(g, st)
  {
    p < |st.parts| && i < |g.targets[p]| ==> TargetSide(st.parts[p], st.chans[g.targets[p][i]], i)
  }

  ghost predicate SourceAt(g: Config, st: State, p: nat, i: nat)
    requires ConfigOk(g) && Shaped(g, st)
  {
    p < |st.parts| && i < |g.sources[p]| ==>
      SourceSide(st.parts[p], st.chans[g.sources[p][i]], g.sources[p][i], st.fields[g.sources[p][i]], i)
  }

  ghost predicate ChanAt(st: State, c: nat) {
    c < |st.chans| ==> Paired(st.chans[c])
  }

  ghost predicate Inv(g: Config, st: State)
    requires ConfigOk(g)
  {
    && Shaped(g, st)
    && (forall p: nat :: PartAt(g, st, p))
    && (forall p: nat, i: nat :: TargetAt(g, st, p, i))
    && (forall p: nat, i: nat :: SourceAt(g, st, p, i))
    && (forall c: nat :: ChanAt(st, c))
  }

  lemma {:induction false} InitialInv(g: Config, st: State)
    requires ConfigOk(g) && Initial(g, st)
    ensures Inv(g, st)
  {
  }

  // One step, one kind of fact at a time.

  lemma {:induction false} StepPart(g: Config, st: State, a: Step, p: nat)
    requires ConfigOk(g) && Inv(g, st) && Enabled(g, st, a)
    ensures PartAt(g, Apply(g, st, a), p)
  {
    assert PartAt(g, st, p);
    assert PartAt(g, st, a.p);
  }

  /** Where channel c stands in the lists of its two ends, and what is known of it there. */
  lemma {:induction false} BothSides(g: Config, st: State, c: nat) returns (i: nat, j: nat)
    requires ConfigOk(g) && Inv(g, st) && c < |g.links|
    ensures i < |g.targets[g.links[c].dst]| && g.targets[g.links[c].dst][i] == c
    ensures j < |g.sources[g.links[c].src]| && g.sources[g.links[c].src][j] == c
    ensures TargetSide(st.parts[g.links[c].dst], st.chans[c], i)
    ensures SourceSide(st.parts[g.links[c].src], st.chans[c], c, st.fields[c], j)
    ensures Paired(st.chans[c])
  {
    i :| i < |g.targets[g.links[c].dst]| && g.targets[g.links[c].dst][i] == c;
    j :| j < |g.sources[g.links[c].src]| && g.sources[g.links[c].src][j] == c;
    assert TargetAt(g, st, g.links[c].dst, i) && SourceAt(g, st, g.links[c].src, j) && ChanAt(st, c);
  }

  /** The participants and channels that a step leaves alone. */
  lemma {:induction false} StepFrame(g: Config, st: State, a: Step)
    requires ConfigOk(g) && Shaped(g, st) && Enabled(g, st, a)
    ensures forall p :: 0 <= p < |st.parts| && p != a.p ==> Apply(g, st, a).parts[p] == st.parts[p]
    ensures forall c: nat :: c < |st.chans| && Touched(g, st, a) != Some(c) ==> Apply(g, st, a).chans[c] == st.chans[c]
    ensures forall c: nat :: c < |st.fields| && !(a.Write? && c in g.sources[a.p]) ==> Apply(g, st, a).fields[c] == st.fields[c]
  {
  }

  lemma {:induction false} OwnTarget(g: Config, st: State, a: Step, p: nat, i: nat)
    requires ConfigOk(g) && Shaped(g, st) && Enabled(g, st, a) && p == a.p && i < |g.targets[p]|
    requires TargetAt(g, st, p, i) && PartAt(g, st, p) && ChanAt(st, g.targets[p][i])
    ensures TargetAt(g, Apply(g, st, a), p, i)
  {
  }

  lemma {:induction false} OtherTarget(g: Config, st: State, a: Step, p: nat, i: nat)
    requires ConfigOk(g) && Shaped(g, st) && Enabled(g, st, a) && p != a.p && p < |st.parts| && i < |g.targets[p]|
    requires TargetAt(g, st, p, i) && PartAt(g, st, p) && ChanAt(st, g.targets[p][i])
    ensures TargetAt(g, Apply(g, st, a), p, i)
  {
    StepFrame(g, st, a);
  }

  lemma {:induction false} StepTarget(g: Config, st: State, a: Step, p: nat, i: nat)
    requires ConfigOk(g) && Inv(g, st) && Enabled(g, st, a)
    ensures TargetAt(g, Apply(g, st, a), p, i)
  {
    if p < |st.parts| && i < |g.targets[p]| {
      assert TargetAt(g, st, p, i) && PartAt(g, st, p) && ChanAt(st, g.targets[p][i]);
      if p == a.p {
        OwnTarget(g, st, a, p, i);
      } else {
        OtherTarget(g, st, a, p, i);
      }
    }
  }

  lemma {:induction false} OwnSourcePut(g: Config, st: State, a: Step, p: nat, i: nat)
    requires ConfigOk(g) && Shaped(g, st) && Enabled(g, st, a) && p == a.p && i < |g.sources[p]|
    requires SourceAt(g, st, p, i) && PartAt(g, st, p) && ChanAt(st, g.sources[p][i])
    requires a.StartPut? || a.FinishPut?
    ensures SourceAt(g, Apply(g, st, a), p, i)
  {
  }

  lemma {:induction false} OwnSourceRound(g: Config, st: State, a: Step, p: nat, i: nat)
    requires ConfigOk(g) && Shaped(g, st) && Enabled(g, st, a) && p == a.p && i < |g.sources[p]|
    requires SourceAt(g, st, p, i) && PartAt(g, st, p) && ChanAt(st, g.sources[p][i])
    requires a.Begin? || a.Open? || a.EndOpen? || a.EndPut? || a.WaitOne? || a.EndWait? || a.Write?
    ensures SourceAt(g, Apply(g, st, a), p, i)
  {
  }

  lemma {:induction false} OwnSource(g: Config, st: State, a: Step, p: nat, i: nat)
    requires ConfigOk(g) && Shaped(g, st) && Enabled(g, st, a) && p == a.p && i < |g.sources[p]|
    requires SourceAt(g, st, p, i) && PartAt(g, st, p) && ChanAt(st, g.sources[p][i])
    ensures SourceAt(g, Apply(g, st, a), p, i)
  {
    if a.StartPut? || a.FinishPut? {
      OwnSourcePut(g, st, a, p, i);
    } else if a.Begin? || a.Open? || a.EndOpen? || a.EndPut? || a.WaitOne? || a.EndWait? || a.Write? {
      OwnSourceRound(g, st, a, p, i);
    }
  }

  lemma {:induction false} OtherSource(g: Config, st: State, a: Step, p: nat, i: nat)
    requires ConfigOk(g) && Shaped(g, st) && Enabled(g, st, a) && p != a.p && p < |st.parts| && i < |g.sources[p]|
    requires SourceAt(g, st, p, i) && PartAt(g, st, p) && ChanAt(st, g.sources[p][i])
    ensures SourceAt(g, Apply(g, st, a), p, i)
  {
    StepFrame(g, st, a);
  }

  lemma {:induction false} StepSource(g: Config, st: State, a: Step, p: nat, i: nat)
    requires ConfigOk(g) && Inv(g, st) && Enabled(g, st, a)
    ensures SourceAt(g, Apply(g, st, a), p, i)
  {
    if p < |st.parts| && i < |g.sources[p]| {
      assert SourceAt(g, st, p, i) && PartAt(g, st, p) && ChanAt(st, g.sources[p][i]);
      if p == a.p {
        OwnSource(g, st, a, p, i);
      } else {
        OtherSource(g, st, a, p, i);
      }
    }
  }

  lemma {:induction false} StepChan(g: Config, st: State, a: Step, c: nat)
    requires ConfigOk(g) && Inv(g, st) && Enabled(g, st, a)
    ensures ChanAt(Apply(g, st, a), c)
  {
    if c < |st.chans| {
      var i, j := BothSides(g, st, c);
      StepFrame(g, st, a);
      if Touched(g, st, a) == Some(c) {
        assert PartAt(g, st, a.p);
      }
    }
  }

  lemma {:induction false} StepInv(g: Config, st: State, a: Step)
    requires ConfigOk(g) && Inv(g, st) && Enabled(g, st, a)
    ensures Inv(g, Apply(g, st, a))
  {
    var nx := Apply(g, st, a);
    forall p: nat ensures PartAt(g, nx, p) { StepPart(g, st, a, p); }
    forall p: nat, i: nat ensures TargetAt(g, nx, p, i) { StepTarget(g, st, a, p, i); }
    forall p: nat, i: nat ensures SourceAt(g, nx, p, i) { StepSource(g, st, a, p, i); }
    forall c: nat ensures ChanAt(nx, c) { StepChan(g, st, a, c); }
  }

  // ------------------------------------------------------------------ runs

  ghost predicate StepAt(g: Config, states: seq<State>, steps: seq<Step>, n: nat)
    requires ConfigOk(g) && |states| == |steps| + 1
  {
    n < |steps| ==> Shaped(g, states[n]) && Enabled(g, states[n], steps[n]) && states[n + 1] == Apply(g, states[n], steps[n])
  }

  /** Any interleaving of any number of participants. */
  ghost predicate Run(g: Config, states: seq<State>, steps: seq<Step>) {
    && ConfigOk(g) && |states| == |steps| + 1 && Initial(g, states[0])
    && forall n: nat :: StepAt(g, states, steps, n)
  }

  lemma {:induction false} RunInv(g: Config, states: seq<State>, steps: seq<Step>, n: nat)
    requires Run(g, states, steps) && n <= |steps|
    ensures Inv(g, states[n])
  {
    if n == 0 {
      InitialInv(g, states[0]);
    } else {
      RunInv(g, states, steps, n - 1);
      assert StepAt(g, states, steps, n - 1);
      StepInv(g, states[n - 1], steps[n - 1]);
    }
  }

  lemma {:induction false} StepGrows(g: Config, st: State, a: Step, p: nat)
    requires ConfigOk(g) && Shaped(g, st) && Enabled(g, st, a) && p < |st.parts|
    ensures st.parts[p].history <= Apply(g, st, a).parts[p].history
  {
  }

  lemma {:induction false} RunShaped(g: Config, states: seq<State>, steps: seq<Step>, n: nat)
    requires Run(g, states, steps) && n <= |steps|
    ensures Shaped(g, states[n])
  {
    if n > 0 {
      assert StepAt(g, states, steps, n - 1);
    }
  }

  /** Exchanges are only ever added to a participant's history. */
  lemma {:induction false} HistoryGrows(g: Config, states: seq<State>, steps: seq<Step>, m: nat, n: nat, p: nat)
    requires Run(g, states, steps) && m <= n <= |steps| && p < |g.sources|
    ensures Shaped(g, states[m]) && Shaped(g, states[n])
    ensures states[m].parts[p].history <= states[n].parts[p].history
  {
    RunShaped(g, states, steps, m);
    RunShaped(g, states, steps, n);
    if m < n {
      HistoryGrows(g, states, steps, m, n - 1, p);
      assert StepAt(g, states, steps, n - 1);
      StepGrows(g, states[n - 1], steps[n - 1], p);
    }
  }

  // ------------------------------------------------------------------ mutual exclusion

  /** In every reachable state a put is under way only while the guard is remote and its target
      is between opening the halo and successfully waiting for it; so no put precedes the
      target's first open, and none overlaps the time in which the target owns its halo. */
  lemma {:induction false} MutualExclusion(g: Config, states: seq<State>, steps: seq<Step>, n: nat, c: nat)
    requires Run(g, states, steps) && n <= |steps| && c < |g.links|
    ensures Shaped(g, states[n])
    ensures var x, owner, putter := states[n].chans[c], states[n].parts[g.links[c].dst], states[n].parts[g.links[c].src];
      && (x.putting ==>
            && x.mode == RemoteAccess && putter.stage == Putting && InExchange(owner.stage)
            && x.opens == Round(owner) == x.waits + 1 == x.puts + 1)
      && (x.puts > 0 ==> x.opens > 0)
      && (x.opens > 0 ==> x.received)
      && (x.waits == x.opens > 0 ==> !x.putting && x.mode == LocalAccess)
  {
    RunInv(g, states, steps, n);
    var i, j := BothSides(g, states[n], c);
  }

  // ------------------------------------------------------------------ freshness

  /** If the source's exchange that began with step b was its k-th, then the halo that the target
      has waited for k times holds what the source held at step b. */
  lemma {:induction false} HaloOfExchange(g: Config, states: seq<State>, steps: seq<Step>, b: nat, m: nat, c: nat)
    requires Run(g, states, steps) && b < |steps| && m <= |steps| && c < |g.links|
    requires steps[b] == Begin(g.links[c].src)
    ensures Shaped(g, states[b]) && Shaped(g, states[m])
    ensures var x, k := states[m].chans[c], Round(states[b].parts[g.links[c].src]) + 1;
      x.waits == x.opens == k ==> x.halo == Some(states[b].fields[c])
  {
    var s := g.links[c].src;
    RunInv(g, states, steps, b);
    RunInv(g, states, steps, b + 1);
    RunInv(g, states, steps, m);
    var i, j := BothSides(g, states[m], c);
    assert StepAt(g, states, steps, b);
    var k := Round(states[b].parts[s]);
    assert states[b + 1].parts[s].history[k] == states[b].fields;
    if states[m].chans[c].waits == states[m].chans[c].opens == k + 1 {
      if m <= b {
        HistoryGrows(g, states, steps, m, b, s);
        assert false;
      }
      HistoryGrows(g, states, steps, b + 1, m, s);
    }
  }

  lemma {:induction false} RoundBegins(g: Config, st: State, a: Step, p: nat)
    requires ConfigOk(g) && Shaped(g, st) && Enabled(g, st, a) && p < |st.parts|
    ensures Round(Apply(g, st, a).parts[p]) == Round(st.parts[p]) + (if a == Begin(p) then 1 else 0)
  {
  }

  /** A participant that has begun more than k exchanges has begun the one of round k. */
  lemma {:induction false} BeganRound(g: Config, states: seq<State>, steps: seq<Step>, m: nat, p: nat, k: nat) returns (b: nat)
    requires Run(g, states, steps) && m <= |steps| && p < |g.sources|
    requires Shaped(g, states[m]) && k < Round(states[m].parts[p])
    ensures b < m && steps[b] == Begin(p) && Shaped(g, states[b]) && Round(states[b].parts[p]) == k
  {
    assert m > 0;
    RunInv(g, states, steps, m - 1);
    assert StepAt(g, states, steps, m - 1);
    RoundBegins(g, states[m - 1], steps[m - 1], p);
    if k < Round(states[m - 1].parts[p]) {
      b := BeganRound(g, states, steps, m - 1, p, k);
    } else {
      b := m - 1;
    }
  }

  /** Freshness: a halo that the target has waited for k times and not opened again holds exactly
      what the source held when its participant began its k-th exchange; and it did begin it. */
  lemma {:induction false} Freshness(g: Config, states: seq<State>, steps: seq<Step>, m: nat, c: nat) returns (b: nat)
    requires Run(g, states, steps) && m <= |steps| && c < |g.links| && Shaped(g, states[m])
    requires 0 < states[m].chans[c].waits == states[m].chans[c].opens
    ensures b < m && steps[b] == Begin(g.links[c].src) && Shaped(g, states[b])
    ensures Round(states[b].parts[g.links[c].src]) + 1 == states[m].chans[c].waits
    ensures states[m].chans[c].halo == Some(states[b].fields[c])
  {
    RunInv(g, states, steps, m);
    var i, j := BothSides(g, states[m], c);
    b := BeganRound(g, states, steps, m, g.links[c].src, states[m].chans[c].waits - 1);
    HaloOfExchange(g, states, steps, b, m, c);
  }

  /** A participant that has completed k rounds has waited on all its halos k times and opened
      none of them again. */
  lemma {:induction false} ReadyOwnsHalos(g: Config, states: seq<State>, steps: seq<Step>, m: nat, c: nat)
    requires Run(g, states, steps) && m <= |steps| && c < |g.links|
    ensures Shaped(g, states[m])
    ensures var owner := states[m].parts[g.links[c].dst];
      owner.stage == Ready ==> states[m].chans[c].waits == states[m].chans[c].opens == Round(owner)
  {
    RunInv(g, states, steps, m);
    var i, j := BothSides(g, states[m], c);
  }

  // ------------------------------------------------------------------ progress

  ghost predicate Final(g: Config, st: State) {
    forall p :: 0 <= p < |st.parts| ==> st.parts[p].stage == Ready && Round(st.parts[p]) == g.rounds
  }

  /** A participant none of the others is behind. */
  lemma {:induction false} LeastAdvanced(parts: seq<Part>) returns (p: nat)
    requires |parts| > 0
    ensures p < |parts| && forall q :: 0 <= q < |parts| ==> Round(parts[p]) <= Round(parts[q])
  {
    if |parts| == 1 {
      p := 0;
    } else {
      var last := |parts| - 1;
      p := LeastAdvanced(parts[..last]);
      assert forall q :: 0 <= q < last ==> parts[..last][q] == parts[q];
      if Round(parts[last]) < Round(parts[p]) {
        p := last;
      }
    }
  }

  /** An unfinished handshake can go on. */
  lemma {:induction false} HandshakeGoesOn(g: Config, st: State, p: nat) returns (a: Step)
    requires ConfigOk(g) && Inv(g, st) && p < |st.parts|
    requires st.parts[p].stage == Adding || st.parts[p].stage == Receiving || st.parts[p].stage == Sending
    ensures Enabled(g, st, a) && !a.Write?
  {
    var q := st.parts[p];
    assert PartAt(g, st, p);
    match q.stage
    case Adding => a := if q.pos < |g.targets[p]| then Publish(p) else EndAdd(p);
    case Receiving => a := RecvGoesOn(g, st, p);
    case Sending =>
      if q.pos >= |g.targets[p]| {
        a := EndSend(p);
      } else {
        var c := g.targets[p][q.pos];
        var i, j := BothSides(g, st, c);
        assert TargetAt(g, st, p, q.pos);
        if TargetMayStart(st.chans[c].mode) {
          a := Send(p);
        } else {
          var s := g.links[c].src;
          assert !st.chans[c].received;
          assert PartAt(g, st, s);
          if st.parts[s].stage == Adding {
            a := if st.parts[s].pos < |g.targets[s]| then Publish(s) else EndAdd(s);
          } else {
            a := RecvGoesOn(g, st, s);
          }
        }
      }
  }

  lemma {:induction false} RecvGoesOn(g: Config, st: State, p: nat) returns (a: Step)
    requires ConfigOk(g) && Inv(g, st) && p < |st.parts| && st.parts[p].stage == Receiving
    ensures Enabled(g, st, a) && !a.Write?
  {
    if st.parts[p].pos >= |g.sources[p]| {
      a := EndRecv(p);
    } else {
      var c := g.sources[p][st.parts[p].pos];
      if st.chans[c].published {
        a := Recv(p);
      } else {
        var i, j := BothSides(g, st, c);
        var t := g.links[c].dst;
        a := if st.parts[t].pos < |g.targets[t]| then Publish(t) else EndAdd(t);
      }
    }
  }

  predicate Exchanging(s: Stage) {
    s == Ready || InExchange(s)
  }

  /** A least advanced participant that is putting finds an open halo to put into, or one of
      those it waits for can open it. */
  lemma {:induction false} PutGoesOn(g: Config, st: State, p: nat) returns (a: Step)
    requires ConfigOk(g) && Inv(g, st) && p < |st.parts| && st.parts[p].stage == Putting
    requires forall q :: 0 <= q < |st.parts| ==> Exchanging(st.parts[q].stage) && Round(st.parts[p]) <= Round(st.parts[q])
    ensures Enabled(g, st, a) && !a.Write?
  {
    if d :| d in g.sources[p] && st.chans[d].putting {
      a := FinishPut(p, d);
    } else if c :| c in g.sources[p] && st.chans[c].puts != Round(st.parts[p]) {
      var i, j := BothSides(g, st, c);
      var t := g.links[c].dst;
      if SourceMayStart(st.chans[c].mode) {
        a := StartPut(p, c);
      } else {
        a := if st.parts[t].pos < |g.targets[t]| then Open(t) else EndOpen(t);
      }
    } else {
      a := EndPut(p);
    }
  }

  /** A least advanced participant that is waiting gets its halo, or the one putting into it can
      go on. */
  lemma {:induction false} WaitGoesOn(g: Config, st: State, p: nat) returns (a: Step)
    requires ConfigOk(g) && Inv(g, st) && p < |st.parts| && st.parts[p].stage == Waiting
    requires forall q :: 0 <= q < |st.parts| ==> Exchanging(st.parts[q].stage) && Round(st.parts[p]) <= Round(st.parts[q])
    ensures Enabled(g, st, a) && !a.Write?
  {
    if c :| c in g.targets[p] && st.chans[c].waits != Round(st.parts[p]) {
      var i, j := BothSides(g, st, c);
      var s := g.links[c].src;
      if TargetMayStart(st.chans[c].mode) {
        a := WaitOne(p, c);
      } else if st.parts[s].stage == Opening {
        a := if st.parts[s].pos < |g.targets[s]| then Open(s) else EndOpen(s);
      } else {
        assert st.parts[s].stage == Putting && Round(st.parts[s]) == Round(st.parts[p]);
        a := PutGoesOn(g, st, s);
      }
    } else {
      a := EndWait(p);
    }
  }

  /** Progress: as long as some participant has rounds to run, some participant can take a
      step. */
  lemma {:induction false} Progress(g: Config, states: seq<State>, steps: seq<Step>) returns (a: Step)
    requires Run(g, states, steps)
    ensures Shaped(g, states[|steps|])
    ensures !Final(g, states[|steps|]) ==> Enabled(g, states[|steps|], a) && !a.Write?
  {
    var st := states[|steps|];
    RunInv(g, states, steps, |steps|);
    a := EndAdd(0);
    if !Final(g, st) {
      if h :| 0 <= h < |st.parts| && !Exchanging(st.parts[h].stage) {
        a := HandshakeGoesOn(g, st, h);
      } else {
        var p := LeastAdvanced(st.parts);
        assert PartAt(g, st, p);
        if st.parts[p].stage == Opening {
          a := if st.parts[p].pos < |g.targets[p]| then Open(p) else EndOpen(p);
        } else if st.parts[p].stage == Putting {
          a := PutGoesOn(g, st, p);
        } else if st.parts[p].stage == Waiting {
          a := WaitGoesOn(g, st, p);
        } else if Round(st.parts[p]) < g.rounds {
          a := Begin(p);
        } else {
          a := LastRoundGoesOn(g, st);
        }
      }
    }
  }

  /** In the last round, with everybody there, whoever is not done can go on or waits for one
      who can. */
  lemma {:induction false} LastRoundGoesOn(g: Config, st: State) returns (a: Step)
    requires ConfigOk(g) && Inv(g, st) && !Final(g, st)
    requires forall q :: 0 <= q < |st.parts| ==> Exchanging(st.parts[q].stage) && Round(st.parts[q]) >= g.rounds
    ensures Enabled(g, st, a) && !a.Write?
  {
    forall q | 0 <= q < |st.parts|
      ensures Round(st.parts[q]) == g.rounds
    {
      assert PartAt(g, st, q);
    }
    var p :| 0 <= p < |st.parts| && st.parts[p].stage != Ready;
    match st.parts[p].stage
    case Opening => a := if st.parts[p].pos < |g.targets[p]| then Open(p) else EndOpen(p);
    case Putting => a := PutGoesOn(g, st, p);
    case Waiting => a := WaitGoesOn(g, st, p);
  }

  // ------------------------------------------------------------------ every run ends

  /** n rounds of m units each. */
  function RoundsWork(n: int, m: int): int {
    if n <= 0 then 0 else m + RoundsWork(n - 1, m)
  }

  lemma {:induction false} RoundsWorkNotNegative(n: int, m: nat)
    ensures RoundsWork(n, m) >= 0
  {
    if n > 0 {
      RoundsWorkNotNegative(n - 1, m);
    }
  }

  function PartWork(q: Part, nTargets: int, nSources: int, rounds: int): int {
    var perRound := nTargets + 4;
    var left := RoundsWork(rounds - Round(q), perRound);
    match q.stage
    case Adding => left + (nTargets - q.pos) + nSources + nTargets + 3
    case Receiving => left + (nSources - q.pos) + nTargets + 2
    case Sending => left + (nTargets - q.pos) + 1
    case Ready => left
    case Opening => left + (nTargets - q.pos) + 3
    case Putting => left + 2
    case Waiting => left + 1
  }

  function ChanWork(x: Chan, rounds: int): int {
    2 * (rounds - x.puts) - (if x.putting then 1 else 0) + rounds - x.waits
  }

  function Sum(s: seq<int>): int {
    if s == [] then 0 else Sum(s[..|s| - 1]) + s[|s| - 1]
  }

  lemma {:induction false} SumUpdate(s: seq<int>, i: nat, v: int)
    requires i < |s|
    ensures Sum(s[i := v]) == Sum(s) - s[i] + v
  {
    var last := |s| - 1;
    if i < last {
      assert s[i := v][..last] == s[..last][i := v];
      SumUpdate(s[..last], i, v);
    } else {
      assert s[i := v][..last] == s[..last];
    }
  }

  ghost function PartWorks(g: Config, st: State): seq<int>
    requires Shaped(g, st)
  {
    seq(|st.parts|, p requires 0 <= p < |st.parts| => PartWork(st.parts[p], |g.targets[p]|, |g.sources[p]|, g.rounds))
  }

  ghost function ChanWorks(g: Config, st: State): seq<int> {
    seq(|st.chans|, c requires 0 <= c < |st.chans| => ChanWork(st.chans[c], g.rounds))
  }

  /** Steps left for all participants together. */
  ghost function Work(g: Config, st: State): int
    requires Shaped(g, st)
  {
    Sum(PartWorks(g, st)) + Sum(ChanWorks(g, st))
  }

  function WorkOf(g: Config, st: State, p: nat): int
    requires Shaped(g, st) && p < |st.parts|
  {
    PartWork(st.parts[p], |g.targets[p]|, |g.sources[p]|, g.rounds)
  }

  /** Steps that a participant takes on its own account; the others are steps of a channel. */
  predicate OfPart(a: Step) {
    !a.StartPut? && !a.FinishPut? && !a.WaitOne? && !a.Write?
  }

  predicate OfChan(a: Step) {
    a.StartPut? || a.FinishPut? || a.WaitOne?
  }

  /** The stages of the handshake. */
  lemma {:induction false} EarlyWorkStep(g: Config, st: State, a: Step)
    requires ConfigOk(g) && Shaped(g, st) && Enabled(g, st, a) && PartAt(g, st, a.p)
    requires a.Publish? || a.EndAdd? || a.Recv? || a.EndRecv? || a.Send? || a.EndSend?
    ensures WorkOf(g, Apply(g, st, a), a.p) == WorkOf(g, st, a.p) - 1
  {
  }

  /** The stages of a round. */
  lemma {:induction false} RoundWorkStep(g: Config, st: State, a: Step)
    requires ConfigOk(g) && Shaped(g, st) && Enabled(g, st, a) && PartAt(g, st, a.p)
    requires a.Begin? || a.Open? || a.EndOpen? || a.EndPut? || a.EndWait?
    ensures WorkOf(g, Apply(g, st, a), a.p) == WorkOf(g, st, a.p) - 1
  {
  }

  lemma {:induction false} PartWorkStep(g: Config, st: State, a: Step)
    requires ConfigOk(g) && Shaped(g, st) && Enabled(g, st, a) && PartAt(g, st, a.p)
    ensures WorkOf(g, Apply(g, st, a), a.p) == WorkOf(g, st, a.p) - (if OfPart(a) then 1 else 0)
  {
    if a.Begin? || a.Open? || a.EndOpen? || a.EndPut? || a.EndWait? {
      RoundWorkStep(g, st, a);
    } else if OfPart(a) {
      EarlyWorkStep(g, st, a);
    }
  }

  lemma {:induction false} ChanWorkStep(x: Chan, a: Step, field: Data, rounds: int)
    requires a.StartPut? ==> !x.putting
    requires a.FinishPut? ==> x.putting
    ensures ChanWork(Changed(x, a, field), rounds) == ChanWork(x, rounds) - (if OfChan(a) then 1 else 0)
  {
  }

  /** What a step does to the work of the participant that takes it and of the channel it
      touches. */
  lemma {:induction false} StepWorkLocal(g: Config, st: State, a: Step)
    requires ConfigOk(g) && Shaped(g, st) && Enabled(g, st, a) && PartAt(g, st, a.p)
    ensures var nx, t := Apply(g, st, a), Touched(g, st, a);
      WorkOf(g, nx, a.p) - WorkOf(g, st, a.p)
      + (if t.Some? then ChanWork(nx.chans[t.value], g.rounds) - ChanWork(st.chans[t.value], g.rounds) else 0)
      == if a.Write? then 0 else -1
  {
    PartWorkStep(g, st, a);
    var t := Touched(g, st, a);
    if t.Some? {
      ChanWorkStep(st.chans[t.value], a, st.fields[t.value], g.rounds);
    }
  }

  lemma {:induction false} OnePartMoved(g: Config, st: State, nx: State, p: nat)
    requires Shaped(g, st) && Shaped(g, nx) && p < |st.parts|
    requires forall q :: 0 <= q < |st.parts| && q != p ==> nx.parts[q] == st.parts[q]
    ensures Sum(PartWorks(g, nx)) == Sum(PartWorks(g, st)) - WorkOf(g, st, p) + WorkOf(g, nx, p)
  {
    var pw := PartWorks(g, st);
    assert PartWorks(g, nx) == pw[p := WorkOf(g, nx, p)];
    SumUpdate(pw, p, WorkOf(g, nx, p));
  }

  lemma {:induction false} PartWorksStep(g: Config, st: State, a: Step)
    requires ConfigOk(g) && Shaped(g, st) && Enabled(g, st, a)
    ensures Sum(PartWorks(g, Apply(g, st, a))) == Sum(PartWorks(g, st)) - WorkOf(g, st, a.p) + WorkOf(g, Apply(g, st, a), a.p)
  {
    StepFrame(g, st, a);
    OnePartMoved(g, st, Apply(g, st, a), a.p);
  }

  lemma {:induction false} ChanWorksStep(g: Config, st: State, a: Step)
    requires ConfigOk(g) && Shaped(g, st) && Enabled(g, st, a)
    ensures var nx, t := Apply(g, st, a), Touched(g, st, a);
      Sum(ChanWorks(g, nx)) == Sum(ChanWorks(g, st))
        + (if t.Some? then ChanWork(nx.chans[t.value], g.rounds) - ChanWork(st.chans[t.value], g.rounds) else 0)
  {
    var nx, cw, t := Apply(g, st, a), ChanWorks(g, st), Touched(g, st, a);
    StepFrame(g, st, a);
    if t.Some? {
      assert ChanWorks(g, nx) == cw[t.value := ChanWork(nx.chans[t.value], g.rounds)];
      SumUpdate(cw, t.value, ChanWork(nx.chans[t.value], g.rounds));
    } else {
      assert ChanWorks(g, nx) == cw;
    }
  }

  /** Every step other than a write of the application uses up exactly one unit of work. */
  lemma {:induction false} StepWorks(g: Config, st: State, a: Step)
    requires ConfigOk(g) && Shaped(g, st) && Enabled(g, st, a) && PartAt(g, st, a.p)
    ensures Work(g, Apply(g, st, a)) == Work(g, st) - (if a.Write? then 0 else 1)
  {
    StepWorkLocal(g, st, a);
    PartWorksStep(g, st, a);
    ChanWorksStep(g, st, a);
  }

  function ProtocolSteps(steps: seq<Step>, n: nat): nat
    requires n <= |steps|
  {
    if n == 0 then 0 else ProtocolSteps(steps, n - 1) + (if steps[n - 1].Write? then 0 else 1)
  }

  lemma {:induction false} RunWork(g: Config, states: seq<State>, steps: seq<Step>, n: nat)
    requires Run(g, states, steps) && n <= |steps|
    ensures Shaped(g, states[0]) && Shaped(g, states[n])
    ensures Work(g, states[n]) == Work(g, states[0]) - ProtocolSteps(steps, n)
  {
    RunInv(g, states, steps, n);
    if n > 0 {
      RunWork(g, states, steps, n - 1);
      RunInv(g, states, steps, n - 1);
      assert StepAt(g, states, steps, n - 1);
      assert PartAt(g, states[n - 1], steps[n - 1].p);
      StepWorks(g, states[n - 1], steps[n - 1]);
    }
  }

  lemma {:induction false} SumBounds(s: seq<int>)
    ensures (forall i :: 0 <= i < |s| ==> s[i] >= 0) ==> Sum(s) >= 0
    ensures (forall i :: 0 <= i < |s| ==> s[i] == 0) ==> Sum(s) == 0
  {
    if s != [] {
      SumBounds(s[..|s| - 1]);
    }
  }

  lemma {:induction false} PartWorkLeft(g: Config, st: State, p: nat)
    requires ConfigOk(g) && Shaped(g, st) && PartAt(g, st, p) && p < |st.parts|
    ensures WorkOf(g, st, p) >= 0
    ensures st.parts[p].stage == Ready && Round(st.parts[p]) == g.rounds ==> WorkOf(g, st, p) == 0
  {
    RoundsWorkNotNegative(g.rounds - Round(st.parts[p]), |g.targets[p]| + 4);
  }

  lemma {:induction false} ChanWorkLeft(g: Config, st: State, c: nat)
    requires ConfigOk(g) && Inv(g, st) && c < |st.chans|
    ensures ChanWork(st.chans[c], g.rounds) >= 0
    ensures Final(g, st) ==> ChanWork(st.chans[c], g.rounds) == 0
  {
    var i, j := BothSides(g, st, c);
    assert PartAt(g, st, g.links[c].dst) && PartAt(g, st, g.links[c].src);
  }

  /** No participant and no channel ever has less than no work left, and none has any left once
      all rounds are done. */
  lemma {:induction false} WorkLeft(g: Config, st: State)
    requires ConfigOk(g) && Inv(g, st)
    ensures Work(g, st) >= 0
    ensures Final(g, st) ==> Work(g, st) == 0
  {
    var pw, cw := PartWorks(g, st), ChanWorks(g, st);
    forall p | 0 <= p < |st.parts|
      ensures pw[p] >= 0 && (Final(g, st) ==> pw[p] == 0)
    {
      assert PartAt(g, st, p);
      PartWorkLeft(g, st, p);
    }
    forall c | 0 <= c < |st.chans|
      ensures cw[c] >= 0 && (Final(g, st) ==> cw[c] == 0)
    {
      ChanWorkLeft(g, st, c);
    }
    SumBounds(pw);
    SumBounds(cw);
  }

  /** Every run ends: no schedule takes more protocol steps than the work of its initial state,
      and a run in which nobody can go on has taken exactly that many and is complete. */
  lemma {:induction false} RunsComplete(g: Config, states: seq<State>, steps: seq<Step>)
    requires Run(g, states, steps)
    ensures Shaped(g, states[0]) && Shaped(g, states[|steps|])
    ensures ProtocolSteps(steps, |steps|) <= Work(g, states[0])
    ensures (forall a: Step :: Enabled(g, states[|steps|], a) ==> a.Write?) ==>
      Final(g, states[|steps|]) && ProtocolSteps(steps, |steps|) == Work(g, states[0])
  {
    RunWork(g, states, steps, |steps|);
    RunInv(g, states, steps, |steps|);
    WorkLeft(g, states[|steps|]);
    var a := Progress(g, states, steps);
  }
}

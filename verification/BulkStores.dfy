// The memory side of the bulk exchange: what puts and the application's writes do to the fields
// while the access protocol runs. Each channel moves the cells of one source range to one target
// range.

module BulkStores {
  import opened LoopNest
  import opened Pattern
  import opened SendHalos
  import opened CommObject
  import opened Cells
  import opened EndToEnd
  import R = RmaProtocol

  // ------------------------------------------------------------------ one channel

  /** The cells of the pair `space` of field `to` come from domain d's field `from`. */
  datatype Transfer = Transfer(to: FieldPtr, from: FieldPtr, kind: FieldKind, size: nat, space: SpacePair, d: Domain)

  ghost predicate TransferOk(x: Transfer) {
    var dims := |x.d.first|;
    && |x.d.last| == dims && PairOf(x.space, dims)
    && BoxOk(x.kind, x.space.local, dims) && BoxOk(x.kind, Rebase(x.space, x.d).local, dims)
    && Sub(x.space.local.last, x.space.local.first) == Sub(Rebase(x.space, x.d).local.last, Rebase(x.space, x.d).local.first)
  }

  /** The cells that are written. */
  ghost function Here(x: Transfer): seq<seq<int>>
    requires TransferOk(x)
  {
    BoxCells(x.kind, x.space.local, |x.d.first|)
  }

  /** The cells that are read. */
  ghost function There(x: Transfer): seq<seq<int>>
    requires TransferOk(x)
  {
    BoxCells(x.kind, Rebase(x.space, x.d).local, |x.d.first|)
  }

  /** The cell that y comes from. */
  ghost function OriginCell(x: Transfer, y: seq<int>): (z: seq<int>)
    requires TransferOk(x) && y in Here(x)
    ensures z in There(x) && |y| >= |x.d.first| && z == SourceCell(x.space, x.d, y)
  {
    BoxMapped(x.kind, x.space, x.d);
    SourceCell(x.space, x.d, y)
  }

  lemma {:induction false} CellByCell(x: Transfer, n: nat)
    requires TransferOk(x)
    ensures |Here(x)| == |There(x)|
    ensures n < |Here(x)| ==> There(x)[n] == OriginCell(x, Here(x)[n])
  {
    BoxMapped(x.kind, x.space, x.d);
  }

  ghost predicate HeldAt(x: Transfer, held: Store) {
    && TransferOk(x) && x.to in held && x.from in held
    && Holds(held[x.to], Here(x), x.size) && Holds(held[x.from], There(x), x.size)
  }

  ghost function SourceData(x: Transfer, held: Store): R.Data
    requires HeldAt(x, held)
  {
    Packed(held[x.from], There(x))
  }

  ghost function TargetData(x: Transfer, held: Store): R.Data
    requires HeldAt(x, held)
  {
    Packed(held[x.to], Here(x))
  }

  lemma {:induction false} PackedSame(a: Content, cells: seq<seq<int>>, b: Content, others: seq<seq<int>>)
    requires |cells| == |others|
    requires forall n :: 0 <= n < |cells| ==> cells[n] in a && others[n] in b && a[cells[n]] == b[others[n]]
    ensures Packed(a, cells) == Packed(b, others)
  {
    if cells != [] {
      var last := |cells| - 1;
      PackedSame(a, cells[..last], b, others[..last]);
    }
  }

  ghost predicate CameFrom(x: Transfer, now: Store, past: Store, y: seq<int>)
    requires HeldAt(x, now) && HeldAt(x, past)
  {
    y in Here(x) ==> y in now[x.to] && OriginCell(x, y) in past[x.from] && now[x.to][y] == past[x.from][OriginCell(x, y)]
  }

  /** Two lists of elements pack to the same bytes only if they are the same. */
  lemma {:induction false} PackedAgree(a: Content, cells: seq<seq<int>>, b: Content, others: seq<seq<int>>, size: nat, n: nat)
    requires Holds(a, cells, size) && Holds(b, others, size) && Packed(a, cells) == Packed(b, others) && n < |cells| == |others|
    ensures a[cells[n]] == b[others[n]]
  {
    PackedAt(a, cells, size, n);
    PackedAt(b, others, size, n);
  }

  lemma {:induction false} DataSame(x: Transfer, now: Store, past: Store, y: seq<int>)
    requires HeldAt(x, now) && HeldAt(x, past) && TargetData(x, now) == SourceData(x, past)
    ensures CameFrom(x, now, past, y)
  {
    if y in Here(x) {
      var n :| 0 <= n < |Here(x)| && Here(x)[n] == y;
      CellByCell(x, n);
      PackedAgree(now[x.to], Here(x), past[x.from], There(x), x.size, n);
    }
  }

  lemma {:induction false} SameCell(x: Transfer, now: Store, past: Store, n: nat)
    requires HeldAt(x, now) && HeldAt(x, past) && n < |Here(x)| && CameFrom(x, now, past, Here(x)[n])
    ensures |There(x)| == |Here(x)| && now[x.to][Here(x)[n]] == past[x.from][There(x)[n]]
  {
    CellByCell(x, n);
  }

  /** The target range shows the data of the source range exactly when it agrees with it cell by
      cell. */
  lemma {:induction false} SameData(x: Transfer, now: Store, past: Store)
    requires HeldAt(x, now) && HeldAt(x, past)
    ensures TargetData(x, now) == SourceData(x, past) <==> forall y :: CameFrom(x, now, past, y)
  {
    if TargetData(x, now) == SourceData(x, past) {
      forall y
        ensures CameFrom(x, now, past, y)
      {
        DataSame(x, now, past, y);
      }
    }
    if forall y :: CameFrom(x, now, past, y) {
      CellByCell(x, 0);
      forall n | 0 <= n < |Here(x)|
        ensures now[x.to][Here(x)[n]] == past[x.from][There(x)[n]]
      {
        SameCell(x, now, past, n);
      }
      PackedSame(now[x.to], Here(x), past[x.from], There(x));
    }
  }

  // ------------------------------------------------------------------ a put

  /** The store after a put: the cells of the target range are those of the source range. */
  ghost function AfterPut(x: Transfer, held: Store): Store
    requires HeldAt(x, held)
  {
    held[x.to := map y | y in held[x.to] :: if y in Here(x) then held[x.from][OriginCell(x, y)] else held[x.to][y]]
  }

  ghost predicate NoneIn(a: seq<seq<int>>, b: seq<seq<int>>) {
    forall y :: y in a ==> y !in b
  }

  /** A put on x changes neither end of z. */
  ghost predicate Spares(x: Transfer, z: Transfer) {
    && TransferOk(x) && TransferOk(z)
    && (x.to == z.to ==> NoneIn(Here(x), Here(z)))
    && (x.to == z.from ==> NoneIn(Here(x), There(z)))
  }

  /** Cells that two stores agree on. */
  ghost predicate Agree(f: FieldPtr, cells: seq<seq<int>>, before: Store, after: Store) {
    && f in before && f in after
    && forall y :: y in cells ==> y in before[f] && y in after[f] && after[f][y] == before[f][y]
  }

  lemma {:induction false} SameCells(f: FieldPtr, cells: seq<seq<int>>, size: nat, before: Store, after: Store)
    requires Agree(f, cells, before, after) && Holds(before[f], cells, size)
    ensures Holds(after[f], cells, size) && Packed(after[f], cells) == Packed(before[f], cells)
  {
    forall n | 0 <= n < |cells|
      ensures cells[n] in before[f] && cells[n] in after[f] && after[f][cells[n]] == before[f][cells[n]]
    {
      assert cells[n] in cells;
    }
    PackedSame(after[f], cells, before[f], cells);
  }

  lemma {:induction false} PutCell(x: Transfer, held: Store, y: seq<int>)
    requires HeldAt(x, held) && y in Here(x)
    ensures y in held[x.to] && OriginCell(x, y) in held[x.from] && |held[x.from][OriginCell(x, y)]| == x.size
    ensures AfterPut(x, held)[x.to][y] == held[x.from][OriginCell(x, y)]
  {
    var n :| 0 <= n < |Here(x)| && Here(x)[n] == y;
    CellByCell(x, n);
  }

  lemma {:induction false} PutShows(x: Transfer, held: Store)
    requires HeldAt(x, held) && (x.to == x.from ==> NoneIn(Here(x), There(x)))
    ensures HeldAt(x, AfterPut(x, held))
    ensures TargetData(x, AfterPut(x, held)) == SourceData(x, held)
    ensures SourceData(x, AfterPut(x, held)) == SourceData(x, held)
  {
    SameCells(x.from, There(x), x.size, held, AfterPut(x, held));
    PutFills(x, held);
  }

  lemma {:induction false} PutFills(x: Transfer, held: Store)
    requires HeldAt(x, held)
    ensures Holds(AfterPut(x, held)[x.to], Here(x), x.size) && Packed(AfterPut(x, held)[x.to], Here(x)) == SourceData(x, held)
  {
    var after := AfterPut(x, held)[x.to];
    CellByCell(x, 0);
    forall n | 0 <= n < |Here(x)|
      ensures Here(x)[n] in after && after[Here(x)[n]] == held[x.from][There(x)[n]] && |after[Here(x)[n]]| == x.size
    {
      PutCell(x, held, Here(x)[n]);
      CellByCell(x, n);
    }
    PackedSame(after, Here(x), held[x.from], There(x));
  }

  lemma {:induction false} PutSpares(x: Transfer, z: Transfer, held: Store)
    requires HeldAt(x, held) && HeldAt(z, held) && Spares(x, z)
    ensures HeldAt(z, AfterPut(x, held))
    ensures TargetData(z, AfterPut(x, held)) == TargetData(z, held) && SourceData(z, AfterPut(x, held)) == SourceData(z, held)
  {
    var after := AfterPut(x, held);
    SameCells(z.to, Here(z), z.size, held, after);
    SameCells(z.from, There(z), z.size, held, after);
  }

  // ------------------------------------------------------------------ steps

  /** What a write by the application means for a channel: no cell of the target range changes,
      and the source range changes only if it is the writer's own. */
  ghost predicate WriteAt(x: Transfer, own: bool, data: R.Data, before: Store, after: Store) {
    && HeldAt(x, before) && HeldAt(x, after) && Agree(x.to, Here(x), before, after)
    && if own then data == SourceData(x, after) else Agree(x.from, There(x), before, after)
  }

  ghost predicate Written(g: R.Config, ts: seq<Transfer>, a: R.Step, before: Store, after: Store, c: nat) {
    a.Write? && c < |ts| && c < |g.links| && c < |a.v| ==> WriteAt(ts[c], g.links[c].src == a.p, a.v[c], before, after)
  }

  /** What a step of the protocol does to the fields. */
  ghost predicate StoreStep(g: R.Config, ts: seq<Transfer>, a: R.Step, before: Store, after: Store) {
    match a
    case FinishPut(_, c) => c < |ts| && (HeldAt(ts[c], before) ==> after == AfterPut(ts[c], before))
    case Write(_, _) => forall c: nat :: Written(g, ts, a, before, after, c)
    case _ => after == before
  }

  ghost predicate SparesAt(ts: seq<Transfer>, c: nat, e: nat) {
    c < |ts| && e < |ts| ==>
      && TransferOk(ts[c]) && TransferOk(ts[e])
      && (c != e ==> Spares(ts[c], ts[e])) && (ts[c].to == ts[e].from ==> NoneIn(Here(ts[c]), There(ts[e])))
  }

  /** Target ranges overlap neither each other nor any source range. */
  ghost predicate Apart(ts: seq<Transfer>) {
    forall c: nat, e: nat :: SparesAt(ts, c, e)
  }

  /** The protocol's data is that of the fields: a source range shows its field's cells, and a
      halo that holds something shows it. */
  ghost predicate ShownAt(ts: seq<Transfer>, st: R.State, held: Store, c: nat) {
    c < |ts| && c < |st.fields| && c < |st.chans| ==>
      && HeldAt(ts[c], held) && st.fields[c] == SourceData(ts[c], held)
      && (st.chans[c].halo.Some? ==> st.chans[c].halo.value == TargetData(ts[c], held))
  }

  lemma {:induction false} PutShown(ts: seq<Transfer>, c: nat, before: Store, e: nat)
    requires Apart(ts) && c < |ts| && e < |ts| && HeldAt(ts[c], before) && HeldAt(ts[e], before)
    ensures HeldAt(ts[e], AfterPut(ts[c], before)) && SourceData(ts[e], AfterPut(ts[c], before)) == SourceData(ts[e], before)
    ensures TargetData(ts[e], AfterPut(ts[c], before)) == if e == c then SourceData(ts[e], before) else TargetData(ts[e], before)
  {
    assert SparesAt(ts, c, e);
    if c == e {
      PutShows(ts[c], before);
    } else {
      PutSpares(ts[c], ts[e], before);
    }
  }

  lemma {:induction false} WriteShown(x: Transfer, own: bool, data: R.Data, before: Store, after: Store)
    requires WriteAt(x, own, data, before, after)
    ensures HeldAt(x, after) && TargetData(x, after) == TargetData(x, before)
    ensures SourceData(x, after) == if own then data else SourceData(x, before)
  {
    SameCells(x.to, Here(x), x.size, before, after);
    if !own {
      SameCells(x.from, There(x), x.size, before, after);
    }
  }

  /** What a step does to the data of channel e. */
  ghost predicate Effect(g: R.Config, a: R.Step, st: R.State, next: R.State, e: nat) {
    && |next.fields| == |st.fields| && |next.chans| == |st.chans| && e < |st.fields| && e < |st.chans| && e < |g.links|
    && match a
       case FinishPut(_, c) =>
         c < |g.links| && next.fields[e] == st.fields[e] && next.chans[e].halo == if e == c then R.Some(st.fields[e]) else st.chans[e].halo
       case Write(p, v) =>
         |v| == |st.fields| && next.fields == v && next.chans == st.chans && (g.links[e].src != p ==> v[e] == st.fields[e])
       case _ =>
         next.fields[e] == st.fields[e] && (next.chans[e].halo.Some? ==> next.chans[e].halo == st.chans[e].halo)
  }

  lemma {:induction false} StepEffect(g: R.Config, st: R.State, a: R.Step, e: nat)
    requires R.ConfigOk(g) && R.Shaped(g, st) && R.Enabled(g, st, a) && e < |g.links|
    ensures Effect(g, a, st, R.Apply(g, st, a), e)
  {
  }

  lemma {:induction false} EffectShown(g: R.Config, ts: seq<Transfer>, st: R.State, a: R.Step, next: R.State, before: Store, after: Store, e: nat)
    requires Effect(g, a, st, next, e) && |ts| == |g.links| == |st.fields| == |st.chans| && Apart(ts)
    requires StoreStep(g, ts, a, before, after) && forall c: nat :: ShownAt(ts, st, before, c)
    ensures ShownAt(ts, next, after, e)
  {
    assert ShownAt(ts, st, before, e);
    if a.FinishPut? {
      assert ShownAt(ts, st, before, a.c);
      PutShown(ts, a.c, before, e);
    } else if a.Write? {
      assert Written(g, ts, a, before, after, e);
      WriteShown(ts[e], g.links[e].src == a.p, a.v[e], before, after);
    }
  }

  lemma {:induction false} StepShown(g: R.Config, ts: seq<Transfer>, st: R.State, a: R.Step, before: Store, after: Store, e: nat)
    requires R.ConfigOk(g) && R.Shaped(g, st) && R.Enabled(g, st, a) && |ts| == |g.links| && Apart(ts)
    requires StoreStep(g, ts, a, before, after) && forall c: nat :: ShownAt(ts, st, before, c)
    ensures ShownAt(ts, R.Apply(g, st, a), after, e)
  {
    if e < |ts| {
      StepEffect(g, st, a, e);
      EffectShown(g, ts, st, a, R.Apply(g, st, a), before, after, e);
    }
  }

  // ------------------------------------------------------------------ runs

  ghost predicate StoreStepAt(g: R.Config, ts: seq<Transfer>, steps: seq<R.Step>, held: seq<Store>, n: nat) {
    n < |steps| && n + 1 < |held| ==> StoreStep(g, ts, steps[n], held[n], held[n + 1])
  }

  /** A run of the protocol, and what the fields hold in each of its states. */
  ghost predicate StoreRun(g: R.Config, ts: seq<Transfer>, states: seq<R.State>, steps: seq<R.Step>, held: seq<Store>) {
    && R.Run(g, states, steps) && |held| == |states| && |ts| == |g.links| && Apart(ts)
    && (forall c: nat :: ShownAt(ts, states[0], held[0], c))
    && forall n: nat :: StoreStepAt(g, ts, steps, held, n)
  }

  lemma {:induction false} RunShows(g: R.Config, ts: seq<Transfer>, states: seq<R.State>, steps: seq<R.Step>, held: seq<Store>, n: nat)
    requires StoreRun(g, ts, states, steps, held) && n <= |steps|
    ensures forall c: nat :: ShownAt(ts, states[n], held[n], c)
  {
    if n > 0 {
      RunShows(g, ts, states, steps, held, n - 1);
      assert R.StepAt(g, states, steps, n - 1) && StoreStepAt(g, ts, steps, held, n - 1);
      forall c: nat
        ensures ShownAt(ts, states[n], held[n], c)
      {
        StepShown(g, ts, states[n - 1], steps[n - 1], held[n - 1], held[n], c);
      }
    }
  }

  /** Freshness of the fields: a halo that its owner has waited for as often as it opened it holds,
      cell by cell, what the source's field held when its participant began that exchange. */
  lemma {:induction false} FieldsFresh(g: R.Config, ts: seq<Transfer>, states: seq<R.State>, steps: seq<R.Step>, held: seq<Store>, m: nat, c: nat)
    returns (b: nat)
    requires StoreRun(g, ts, states, steps, held) && m <= |steps| && c < |ts| && R.Shaped(g, states[m])
    requires 0 < states[m].chans[c].waits == states[m].chans[c].opens
    ensures b < m && steps[b] == R.Begin(g.links[c].src) && R.Shaped(g, states[b])
    ensures g.links[c].src < |states[b].parts| && R.Round(states[b].parts[g.links[c].src]) + 1 == states[m].chans[c].waits
    ensures HeldAt(ts[c], held[m]) && HeldAt(ts[c], held[b]) && forall y :: CameFrom(ts[c], held[m], held[b], y)
  {
    b := R.Freshness(g, states, steps, m, c);
    RunShows(g, ts, states, steps, held, m);
    RunShows(g, ts, states, steps, held, b);
    assert ShownAt(ts, states[m], held[m], c) && ShownAt(ts, states[b], held[b], c);
    SameData(ts[c], held[m], held[b]);
  }
}

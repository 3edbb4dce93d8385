// The access guard of one RMA range: one mode, shared by the owner of the memory (the target)
// and the participant that puts into it (the source).

module AccessGuard {

  datatype Mode = LocalAccess | RemoteAccess

  datatype Locality = SameThread | SameNode | RemoteNode

  // The documented state machine: who may start an epoch, and what ending one leaves behind.

  predicate TargetMayStart(m: Mode) {
    m == LocalAccess
  }

  predicate SourceMayStart(m: Mode) {
    m == RemoteAccess
  }

  const AFTER_TARGET: Mode := RemoteAccess
  const AFTER_SOURCE: Mode := LocalAccess

  class SharedMode {
    var mode: Mode

    constructor (m: Mode)
      ensures mode == m
    {
      mode := m;
    }
  }

  /** Both ends of a guard. With remote locality there is no shared mode to consult: every
      start succeeds and every end does nothing. */
  class Guard {
    const locality: Locality
    const state: SharedMode

    constructor (loc: Locality, m: Mode)
      ensures locality == loc && fresh(state) && state.mode == m
    {
      locality := loc;
      state := new SharedMode(m);
    }

    method TryStartTargetEpoch() returns (ok: bool)
      ensures locality == RemoteNode ==> ok
      ensures locality == SameThread || locality == SameNode ==> (ok <==> state.mode == LocalAccess)
    {
      ok := true;
      if locality == SameThread || locality == SameNode {
        ok := state.mode == LocalAccess;
      }
    }

    method EndTargetEpoch()
      modifies state
      ensures locality == RemoteNode ==> state.mode == old(state.mode)
      ensures locality == SameThread || locality == SameNode ==> state.mode == RemoteAccess
    {
      if locality == SameThread || locality == SameNode {
        state.mode := RemoteAccess;
      }
    }

    method TryStartSourceEpoch() returns (ok: bool)
      ensures locality == RemoteNode ==> ok
      ensures locality == SameThread || locality == SameNode ==> (ok <==> state.mode == RemoteAccess)
    {
      ok := true;
      if locality == SameThread || locality == SameNode {
        ok := state.mode == RemoteAccess;
      }
    }

    method EndSourceEpoch()
      modifies state
      ensures locality == RemoteNode ==> state.mode == old(state.mode)
      ensures locality == SameThread || locality == SameNode ==> state.mode == LocalAccess
    {
      if locality == SameThread || locality == SameNode {
        state.mode := LocalAccess;
      }
    }
  }

  /** The steps of the access protocol are those of a guard within a rank or a node. */
  method GuardIsProtocol(loc: Locality, m: Mode) returns (target: bool, source: bool, afterTarget: Mode, afterSource: Mode)
    requires loc != RemoteNode
    ensures (target <==> TargetMayStart(m)) && (source <==> SourceMayStart(m))
    ensures afterTarget == AFTER_TARGET && afterSource == AFTER_SOURCE
  {
    var g := new Guard(loc, m);
    target := g.TryStartTargetEpoch();
    source := g.TryStartSourceEpoch();
    g.EndTargetEpoch();
    afterTarget := g.state.mode;
    g.EndSourceEpoch();
    afterSource := g.state.mode;
  }

  /** At no time may both ends start. */
  lemma {:induction false} NeverBoth(m: Mode)
    ensures TargetMayStart(m) <==> !SourceMayStart(m)
    ensures TargetMayStart(m) <==> m == LocalAccess
    ensures SourceMayStart(AFTER_TARGET) && TargetMayStart(AFTER_SOURCE)
  {
  }
}

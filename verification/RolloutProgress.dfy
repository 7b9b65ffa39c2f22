/**
 What a process reaches when nothing disturbs it: a revocation ends with the event recorded and the rollout closed,
 and a recovery over a rolled back rollout ends with the event recorded and the primary candidate restored.
 */
module RolloutProgress {
  import opened Wrappers
  import opened RevocationModel
  import opened RevocationLedger
  import opened RolloutProtocol

  /** Process `pid` alone takes `w` to `t` in `n` steps, without raising or dying. */
  ghost predicate Alone(c: Crypto, policy: Policy, w: World, pid: Pid, n: nat, t: World)
    decreases n
  {
    if n == 0 then w == t
    else exists eff, m :: Next(c, policy, w, pid, Advance(eff), m) && Alone(c, policy, m, pid, n - 1, t)
  }

  lemma Goes(c: Crypto, policy: Policy, w: World, pid: Pid, eff: Effect, m: World, n: nat, t: World)
    requires Next(c, policy, w, pid, Advance(eff), m) && Alone(c, policy, m, pid, n, t)
    ensures Alone(c, policy, w, pid, n + 1, t)
  {
    hide Next;
  }

  lemma {:induction false} AloneJoin(c: Crypto, policy: Policy, w: World, pid: Pid, k: nat, m: World, n: nat, t: World)
    requires Alone(c, policy, w, pid, k, m) && Alone(c, policy, m, pid, n, t)
    ensures Alone(c, policy, w, pid, k + n, t)
    decreases k
  {
    hide Next;
    if k > 0 {
      var eff, x :| Next(c, policy, w, pid, Advance(eff), x) && Alone(c, policy, x, pid, k - 1, m);
      AloneJoin(c, policy, x, pid, k - 1, m, n, t);
      Goes(c, policy, w, pid, eff, x, k - 1 + n, t);
    }
  }

  lemma Moves(c: Crypto, policy: Policy, w: World, pid: Pid, eff: Effect)
    requires pid in w.procs && Allows(c, policy, w, w.procs[pid], eff) && LockFree(w, eff.lock)
    ensures Next(c, policy, w, pid, Advance(eff), Do(w, pid, eff))
  {
    hide Allows, LockFree, Do;
  }

  /** Three steps in a row. */
  lemma Thrice(c: Crypto, policy: Policy, w: World, pid: Pid, e: Effect, x: World, f: Effect, y: World, g: Effect,
               t: World)
    requires Next(c, policy, w, pid, Advance(e), x) && Next(c, policy, x, pid, Advance(f), y)
    requires Next(c, policy, y, pid, Advance(g), t)
    ensures Alone(c, policy, w, pid, 3, t)
  {
    hide Next;
    assert Alone(c, policy, t, pid, 0, t);
    Goes(c, policy, y, pid, g, t, 0, t);
    Goes(c, policy, x, pid, f, y, 1, t);
    Goes(c, policy, w, pid, e, x, 2, t);
  }

  /** The candidate may have the rollout, and its cohorts are those of the stage. */
  predicate Consistent(policy: Policy, r: Rollout) {
    && (r.active == policy.primary || policy.rollback == Some(r.active))
    && (r.stage == Disabled || r.cohorts == policy.cohorts(r.stage))
  }

  function Recorded(w: World, e: EventPayload): map<Binding, Ledger>
    requires e.binding in w.ledgers
  {
    w.ledgers[e.binding := w.ledgers[e.binding].(events := w.ledgers[e.binding].events + [e])]
  }

  // ---------- revoking ----------

  lemma RecordRevocation(c: Crypto, policy: Policy, w: World, pid: Pid, e: EventPayload, now: int) returns (t: World)
    requires pid in w.procs && w.procs[pid] == Apply(e) && e.action.Revoke?
    requires e.binding in w.ledgers && e.binding !in w.ledgerLock && Admissible(c, w.ledgers[e.binding], e, now)
    ensures Alone(c, policy, w, pid, 3, t)
    ensures t == w.(procs := w.procs[pid := RevokeReleased(e)], ledgers := Recorded(w, e))
  {
    hide Admits, Alone, Next;
    var take := Effect(RevokeLocked(e), TakeLedger(e.binding), NoWrite);
    var record := Effect(RevokeRecorded(e, true), Keep, AppendEvent(e));
    var free := Effect(RevokeReleased(e), FreeLedger(e.binding), NoWrite);
    var x := Do(w, pid, take);
    var y := Do(x, pid, record);
    t := Do(y, pid, free);
    Moves(c, policy, w, pid, take);
    Moves(c, policy, x, pid, record);
    Moves(c, policy, y, pid, free);
    Thrice(c, policy, w, pid, take, x, record, y, free, t);
    assert y.ledgerLock - {e.binding} == w.ledgerLock;
    assert t.procs == w.procs[pid := RevokeReleased(e)];
  }

  /** What the revocation of the active candidate asks of the rollout. */
  predicate Answers(c: Crypto, policy: Policy, w: World, change: Change) {
    if policy.rollback.None? then change == Disable
    else
      && policy.rollback.value in w.ledgers && !w.ledgers[policy.rollback.value].broken
      && change == if IsRevoked(c, w.ledgers[policy.rollback.value]) then Disable else Rollback(policy.rollback.value)
  }

  lemma AskTransition(c: Crypto, policy: Policy, w: World, pid: Pid, e: EventPayload, change: Change)
    returns (t: World)
    requires pid in w.procs && w.procs[pid] == RevokeReleased(e) && w.rollout.active == e.binding
    requires !w.torn && w.rolloutLock.None? && Answers(c, policy, w, change)
    ensures Alone(c, policy, w, pid, 3, t)
    ensures t == w.(procs := w.procs[pid := TransHold(ByRevoke(e), Command(w.rollout.revision, change))],
                    rolloutLock := Some(pid))
  {
    hide Alone, IsRevoked, Next;
    var cmd := Command(w.rollout.revision, change);
    var snap := Effect(RevokeSnap(e, w.rollout), Keep, NoWrite);
    var ask := Effect(TransWant(ByRevoke(e), cmd), Keep, NoWrite);
    var take := Effect(TransHold(ByRevoke(e), cmd), TakeRollout, NoWrite);
    var x := Do(w, pid, snap);
    var y := Do(x, pid, ask);
    t := Do(y, pid, take);
    Moves(c, policy, w, pid, snap);
    Moves(c, policy, x, pid, ask);
    Moves(c, policy, y, pid, take);
    Thrice(c, policy, w, pid, snap, x, ask, y, take, t);
  }

  lemma WriteTransition(c: Crypto, policy: Policy, w: World, pid: Pid, o: Origin, cmd: Command) returns (t: World)
    requires pid in w.procs && w.procs[pid] == TransHold(o, cmd) && !o.ByRestore? && !w.torn
    requires w.rolloutLock == Some(pid) && forall b | b in w.ledgerLock :: w.ledgerLock[b] != pid
    requires forall b | b in Protected(w.rollout, cmd.change) :: ReadsUnrevoked(c, w, b)
    requires Transition(policy, w.rollout, cmd).Some?
    ensures Alone(c, policy, w, pid, 3, t)
    ensures t == w.(procs := w.procs[pid := Done], rolloutLock := None,
                    rollout := Transition(policy, w.rollout, cmd).value)
  {
    hide Alone, Transition, ReadsUnrevoked, Protected, Next;
    var clear := Effect(TransCleared(o, cmd), Keep, NoWrite);
    var write := Effect(TransWritten(o), Keep, WriteRollout(Transition(policy, w.rollout, cmd).value));
    var free := Effect(Done, FreeAll, NoWrite);
    var x := Do(w, pid, clear);
    var y := Do(x, pid, write);
    t := Do(y, pid, free);
    Moves(c, policy, w, pid, clear);
    Moves(c, policy, x, pid, write);
    Moves(c, policy, y, pid, free);
    Thrice(c, policy, w, pid, clear, x, write, y, free, t);
    assert t.ledgerLock == w.ledgerLock;
  }

  /** The rollout follows a recorded revocation of its candidate. */
  lemma RolloutFollows(c: Crypto, policy: Policy, w: World, pid: Pid, e: EventPayload) returns (t: World)
    requires pid in w.procs && w.procs[pid] == RevokeReleased(e) && w.rollout.active == e.binding
    requires e.binding in w.ledgers && IsRevoked(c, w.ledgers[e.binding])
    requires policy.rollback.Some? ==> policy.rollback.value in w.ledgers && !w.ledgers[policy.rollback.value].broken
    requires !w.torn && w.rolloutLock.None? && w.ledgerLock == map[] && Consistent(policy, w.rollout)
    ensures Alone(c, policy, w, pid, 6, t)
    ensures t == w.(procs := w.procs[pid := Done],
                    rollout := Rollout(w.rollout.revision + 1, Successor(c, policy, w), Disabled, false, []))
  {
    hide Alone, IsRevoked, Transition, Protected, Successor;
    var change := if policy.rollback.None? || IsRevoked(c, w.ledgers[policy.rollback.value]) then Disable
                  else Rollback(policy.rollback.value);
    var x := AskTransition(c, policy, w, pid, e, change);
    var cmd := Command(w.rollout.revision, change);
    ClosingTransition(c, policy, x, change);
    t := WriteTransition(c, policy, x, pid, ByRevoke(e), cmd);
    AloneJoin(c, policy, w, pid, 3, x, 3, t);
    assert Successor(c, policy, x) == Successor(c, policy, w) by { SameSuccessor(c, policy, w, x); }
  }

  function Successor(c: Crypto, policy: Policy, w: World): Binding {
    if policy.rollback.Some? && ReadsUnrevoked(c, w, policy.rollback.value) then policy.rollback.value
    else w.rollout.active
  }

  lemma SameSuccessor(c: Crypto, policy: Policy, w: World, x: World)
    requires w.ledgers == x.ledgers && w.rollout == x.rollout
    ensures Successor(c, policy, x) == Successor(c, policy, w)
  {
    hide IsRevoked;
  }

  /**
   An admissible revocation of the active candidate that nothing disturbs takes nine steps: its event is recorded, and
   the rollout is closed, on the rollback target if there is one that is not revoked.
   */
  lemma RevocationCompletes(c: Crypto, policy: Policy, w: World, pid: Pid, e: EventPayload, now: int)
    returns (t: World)
    requires pid in w.procs && w.procs[pid] == Apply(e) && e.action.Revoke? && w.rollout.active == e.binding
    requires e.binding in w.ledgers && Admissible(c, w.ledgers[e.binding], e, now)
    requires policy.rollback.Some? ==> policy.rollback.value in w.ledgers && !w.ledgers[policy.rollback.value].broken
    requires !w.torn && w.rolloutLock.None? && w.ledgerLock == map[] && Consistent(policy, w.rollout)
    ensures Alone(c, policy, w, pid, 9, t) && t.procs == w.procs[pid := Done]
    ensures t.ledgers == Recorded(w, e) && IsRevoked(c, t.ledgers[e.binding])
    ensures t.rolloutLock.None? && t.ledgerLock == map[] && t.rollout.revision == w.rollout.revision + 1
    ensures t.rollout.stage == Disabled && !t.rollout.enabled && t.rollout.cohorts == []
    ensures t.rollout.active ==
            if policy.rollback.Some? && ReadsUnrevoked(c, t, policy.rollback.value) then policy.rollback.value
            else e.binding
  {
    hide Alone, Admissible, IsRevoked;
    var x := RecordRevocation(c, policy, w, pid, e, now);
    RevokeRevokes(c, w.ledgers[e.binding], e, now);
    assert !w.ledgers[e.binding].broken by { NotBroken(c, w.ledgers[e.binding], e, now); }
    t := RolloutFollows(c, policy, x, pid, e);
    AloneJoin(c, policy, w, pid, 3, x, 6, t);
  }

  lemma NotBroken(c: Crypto, l: Ledger, e: EventPayload, now: int)
    requires Admissible(c, l, e, now)
    ensures !l.broken
  {
    hide Admits;
  }

  lemma ClosingTransition(c: Crypto, policy: Policy, w: World, change: Change)
    requires Consistent(policy, w.rollout) && Answers(c, policy, w, change)
    requires w.rollout.active in w.ledgers && IsRevoked(c, w.ledgers[w.rollout.active])
    ensures forall b | b in Protected(w.rollout, change) :: ReadsUnrevoked(c, w, b)
    ensures Transition(policy, w.rollout, Command(w.rollout.revision, change))
         == Some(Rollout(w.rollout.revision + 1, Successor(c, policy, w), Disabled, false, []))
  {
    hide IsRevoked;
  }

  // ---------- recovering ----------

  /** A recovery event that fits the ledger of the primary candidate, while the rollout stands on the target. */
  ghost predicate MayRecover(c: Crypto, policy: Policy, w: World, e: EventPayload, now: int) {
    && e.action.Recover? && e.binding == policy.primary && policy.rollback == Some(w.rollout.active)
    && w.rollout.active != policy.primary && Consistent(policy, w.rollout) && ReadsUnrevoked(c, w, w.rollout.active)
    && e.binding in w.ledgers && IsRevoked(c, w.ledgers[e.binding]) && Admissible(c, w.ledgers[e.binding], e, now)
    && e !in w.ledgers[e.binding].events && !w.torn
  }

  lemma AskRestore(c: Crypto, policy: Policy, w: World, pid: Pid, e: EventPayload, now: int) returns (t: World)
    requires pid in w.procs && w.procs[pid] == Apply(e) && MayRecover(c, policy, w, e, now)
    requires e.binding !in w.ledgerLock
    ensures Alone(c, policy, w, pid, 3, t)
    ensures t == w.(procs := w.procs[pid := TransWant(ByRestore(e),
                                                      Command(w.rollout.revision, RestoreCandidate(e.binding)))])
  {
    hide Alone, Admits, LatestState, Next, Transition;
    var take := Effect(RecoverLocked(e), TakeLedger(e.binding), NoWrite);
    var free := Effect(RecoverReleased(e), FreeLedger(e.binding), NoWrite);
    var ask := Effect(TransWant(ByRestore(e), Command(w.rollout.revision, RestoreCandidate(e.binding))), Keep, NoWrite);
    var x := Do(w, pid, take);
    var y := Do(x, pid, free);
    t := Do(y, pid, ask);
    assert y.ledgerLock == w.ledgerLock;
    Moves(c, policy, w, pid, take);
    Moves(c, policy, x, pid, free);
    Moves(c, policy, y, pid, ask);
    Thrice(c, policy, w, pid, take, x, free, y, ask, t);
  }

  lemma ProbeRestore(c: Crypto, policy: Policy, w: World, pid: Pid, e: EventPayload, now: int) returns (t: World)
    requires MayRecover(c, policy, w, e, now) && w.rolloutLock.None? && e.binding !in w.ledgerLock
    requires pid in w.procs
    requires w.procs[pid] == TransWant(ByRestore(e), Command(w.rollout.revision, RestoreCandidate(e.binding)))
    ensures Alone(c, policy, w, pid, 3, t)
    ensures t == w.(procs := w.procs[pid := TransCleared(ByRestore(e),
                                                         Command(w.rollout.revision, RestoreCandidate(e.binding)))],
                    rolloutLock := Some(pid))
  {
    hide Alone, Next, MayRecover, Allows;
    var o, cmd := ByRestore(e), Command(w.rollout.revision, RestoreCandidate(e.binding));
    var take := Effect(TransHold(o, cmd), TakeRollout, NoWrite);
    var probe := Effect(TransProbe(o, cmd), TakeLedger(e.binding), NoWrite);
    var free := Effect(TransCleared(o, cmd), FreeLedger(e.binding), NoWrite);
    var x := Do(w, pid, take);
    var y := Do(x, pid, probe);
    t := Do(y, pid, free);
    assert t.ledgerLock == w.ledgerLock;
    HoldAllowed(c, policy, w, o, cmd);
    Moves(c, policy, w, pid, take);
    ProbeAllowed(c, policy, w, e, now, x);
    Moves(c, policy, x, pid, probe);
    ProbeAllowed(c, policy, w, e, now, y);
    Moves(c, policy, y, pid, free);
    Thrice(c, policy, w, pid, take, x, probe, y, free, t);
  }

  lemma HoldAllowed(c: Crypto, policy: Policy, w: World, o: Origin, cmd: Command)
    ensures Allows(c, policy, w, TransWant(o, cmd), Effect(TransHold(o, cmd), TakeRollout, NoWrite))
  {
  }

  lemma ProbeAllowed(c: Crypto, policy: Policy, w: World, e: EventPayload, now: int, x: World)
    requires MayRecover(c, policy, w, e, now)
    requires x.rollout == w.rollout && x.ledgers == w.ledgers && x.torn == w.torn
    ensures var o, cmd := ByRestore(e), Command(x.rollout.revision, RestoreCandidate(e.binding));
            && Allows(c, policy, x, TransHold(o, cmd), Effect(TransProbe(o, cmd), TakeLedger(e.binding), NoWrite))
            && Allows(c, policy, x, TransProbe(o, cmd), Effect(TransCleared(o, cmd), FreeLedger(e.binding), NoWrite))
  {
    hide Admissible, IsRevoked;
  }

  /** The rollout is written, and the event under both locks. */
  lemma WriteRestore(c: Crypto, policy: Policy, w: World, pid: Pid, e: EventPayload, now: int) returns (t: World)
    requires MayRecover(c, policy, w, e, now) && w.rolloutLock == Some(pid) && e.binding !in w.ledgerLock
    requires pid in w.procs
    requires w.procs[pid] == TransCleared(ByRestore(e), Command(w.rollout.revision, RestoreCandidate(e.binding)))
    ensures Alone(c, policy, w, pid, 3, t)
    ensures t == w.(procs := w.procs[pid := BothAppended(e)], ledgers := Recorded(w, e),
                    ledgerLock := w.ledgerLock[e.binding := pid],
                    rollout := Rollout(w.rollout.revision + 1, e.binding, Disabled, false, []),
                    clearedAt := w.clearedAt[e.binding := w.rollout.revision + 1])
  {
    hide Alone, Next, MayRecover, Allows, Do, Admissible, Transition, LockFree;
    RestoreTransition(c, policy, w, e, now);
    var o, next := ByRestore(e), Rollout(w.rollout.revision + 1, e.binding, Disabled, false, []);
    var write := Effect(TransWritten(o), Keep, WriteRollout(next));
    var take := Effect(RestoreLocked(e), TakeLedger(e.binding), NoWrite);
    var record := Effect(BothAppended(e), Keep, AppendEvent(e));
    var x := w.(procs := w.procs[pid := TransWritten(o)], rollout := next);
    var y := x.(procs := x.procs[pid := RestoreLocked(e)], ledgerLock := w.ledgerLock[e.binding := pid]);
    t := y.(procs := y.procs[pid := BothAppended(e)], ledgers := Recorded(y, e),
            clearedAt := y.clearedAt[e.binding := y.rollout.revision]);
    StepWritten(c, policy, w, pid, o, Command(w.rollout.revision, RestoreCandidate(e.binding)), next);
    StepLocked(c, policy, x, pid, e);
    StepRecorded(c, policy, y, pid, e, now);
    Thrice(c, policy, w, pid, write, x, take, y, record, t);
  }

  lemma RestoreTransition(c: Crypto, policy: Policy, w: World, e: EventPayload, now: int)
    requires MayRecover(c, policy, w, e, now)
    ensures e.action.Recover? && e.binding in w.ledgers && Admissible(c, w.ledgers[e.binding], e, now)
    ensures Transition(policy, w.rollout, Command(w.rollout.revision, RestoreCandidate(e.binding)))
         == Some(Rollout(w.rollout.revision + 1, e.binding, Disabled, false, []))
  {
    hide Admissible, ReadsUnrevoked, IsRevoked;
  }

  lemma StepWritten(c: Crypto, policy: Policy, w: World, pid: Pid, o: Origin, cmd: Command, next: Rollout)
    requires pid in w.procs && w.procs[pid] == TransCleared(o, cmd) && Transition(policy, w.rollout, cmd) == Some(next)
    ensures Next(c, policy, w, pid, Advance(Effect(TransWritten(o), Keep, WriteRollout(next))),
                 w.(procs := w.procs[pid := TransWritten(o)], rollout := next))
  {
    hide Transition, Next;
    Moves(c, policy, w, pid, Effect(TransWritten(o), Keep, WriteRollout(next)));
  }

  lemma StepLocked(c: Crypto, policy: Policy, w: World, pid: Pid, e: EventPayload)
    requires pid in w.procs && w.procs[pid] == TransWritten(ByRestore(e)) && e.binding !in w.ledgerLock
    ensures Next(c, policy, w, pid, Advance(Effect(RestoreLocked(e), TakeLedger(e.binding), NoWrite)),
                 w.(procs := w.procs[pid := RestoreLocked(e)], ledgerLock := w.ledgerLock[e.binding := pid]))
  {
    hide Next;
    Moves(c, policy, w, pid, Effect(RestoreLocked(e), TakeLedger(e.binding), NoWrite));
  }

  lemma StepRecorded(c: Crypto, policy: Policy, w: World, pid: Pid, e: EventPayload, now: int)
    requires pid in w.procs && w.procs[pid] == RestoreLocked(e) && e.action.Recover? && e.binding in w.ledgers
    requires Admissible(c, w.ledgers[e.binding], e, now)
    ensures Next(c, policy, w, pid, Advance(Effect(BothAppended(e), Keep, AppendEvent(e))),
                 w.(procs := w.procs[pid := BothAppended(e)], ledgers := Recorded(w, e),
                    clearedAt := w.clearedAt[e.binding := w.rollout.revision]))
  {
    hide Next;
    assert Records(c, w, e, AppendEvent(e)) by { hide Admits; }
    Moves(c, policy, w, pid, Effect(BothAppended(e), Keep, AppendEvent(e)));
  }

  lemma FreeBoth(c: Crypto, policy: Policy, w: World, pid: Pid, e: EventPayload) returns (t: World)
    requires pid in w.procs && w.procs[pid] == BothAppended(e) && w.rolloutLock == Some(pid)
    requires w.ledgerLock == map[e.binding := pid]
    ensures Alone(c, policy, w, pid, 2, t)
    ensures t == w.(procs := w.procs[pid := Done], rolloutLock := None, ledgerLock := map[])
  {
    hide Alone, Next;
    var free := Effect(LedgerFreed, FreeLedger(e.binding), NoWrite);
    var finish := Effect(Done, FreeAll, NoWrite);
    var x := Do(w, pid, free);
    t := Do(x, pid, finish);
    assert x.ledgerLock == map[];
    AloneNowhere(c, policy, t, pid);
    Moves(c, policy, x, pid, finish);
    Moves(c, policy, w, pid, free);
    Goes(c, policy, x, pid, finish, t, 0, t);
    Goes(c, policy, w, pid, free, x, 1, t);
  }

  lemma AloneNowhere(c: Crypto, policy: Policy, w: World, pid: Pid)
    ensures Alone(c, policy, w, pid, 0, w)
  {
  }

  /**
   A fitting recovery that nothing disturbs takes eleven steps: the primary candidate has the closed rollout again,
   and the event is recorded at that revision of the rollout.
   */
  lemma RecoveryCompletes(c: Crypto, policy: Policy, w: World, pid: Pid, e: EventPayload, now: int) returns (t: World)
    requires pid in w.procs && w.procs[pid] == Apply(e) && MayRecover(c, policy, w, e, now)
    requires w.rolloutLock.None? && w.ledgerLock == map[]
    ensures Alone(c, policy, w, pid, 11, t)
    ensures t == w.(procs := w.procs[pid := Done], ledgers := Recorded(w, e),
                    rollout := Rollout(w.rollout.revision + 1, policy.primary, Disabled, false, []),
                    clearedAt := w.clearedAt[policy.primary := w.rollout.revision + 1])
  {
    hide Alone, Admits, LatestState, Admissible;
    var x := AskRestore(c, policy, w, pid, e, now);
    var y := ProbeRestore(c, policy, x, pid, e, now);
    var z := WriteRestore(c, policy, y, pid, e, now);
    t := FreeBoth(c, policy, z, pid, e);
    AloneJoin(c, policy, w, pid, 3, x, 3, y);
    AloneJoin(c, policy, w, pid, 6, y, 3, z);
    AloneJoin(c, policy, w, pid, 9, z, 2, t);
  }
}

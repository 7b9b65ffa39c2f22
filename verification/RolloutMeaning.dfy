/**
 What the steps of the rollout protocol leave behind, field by field: applied transitions, admissions, and the check
 before a stage is enabled.
 */
module RolloutMeaning {
  import opened Wrappers
  import opened RevocationModel
  import opened RevocationLedger
  import opened RolloutProtocol

  /** Nobody is admitted. */
  predicate Shut(r: Rollout) {
    !r.enabled && r.stage == Disabled && r.cohorts == []
  }

  /** The candidate and the stage that a command may lead to. */
  predicate Leads(policy: Policy, r: Rollout, change: Change, next: Rollout) {
    match change
    case Disable => Shut(next) && next.active == r.active
    case SetStage(stage) =>
      && stage != Disabled && next.enabled && next.stage == stage && next.cohorts == policy.cohorts(stage)
      && next.active == r.active
    case Rollback(target) =>
      && policy.rollback == Some(target) && r.active == policy.primary
      && Shut(next) && next.active == target
    case RestoreCandidate(target) =>
      && target == policy.primary && policy.rollback == Some(r.active)
      && Shut(next) && next.active == target
  }

  /** A command of the current revision moves a consistent rollout on by one revision, to the state it asks for. */
  lemma TransitionMeaning(policy: Policy, r: Rollout, cmd: Command, next: Rollout)
    ensures Transition(policy, r, cmd) == Some(next) <==>
            && (r.active == policy.primary || policy.rollback == Some(r.active))
            && (r.stage == Disabled || r.cohorts == policy.cohorts(r.stage))
            && cmd.expectedRevision == r.revision && next.revision == r.revision + 1
            && Leads(policy, r, cmd.change, next)
  {
  }

  lemma WrittenTransition(c: Crypto, policy: Policy, w: World, p: Proc, eff: Effect)
    requires Allows(c, policy, w, p, eff) && eff.write.WriteRollout?
    ensures p.TransCleared? && Transition(policy, w.rollout, p.cmd) == Some(eff.write.rollout)
  {
    hide Admissible, LatestState, IsRevoked, Protected, Transition, IsNewest, Closed, ReadsUnrevoked, LetsIn;
  }

  lemma WrittenRollout(w: World, pid: Pid, eff: Effect)
    requires eff.write.WriteRollout?
    ensures Do(w, pid, eff).rollout == eff.write.rollout
  {
  }

  /**
   Every written rollout state is the one that its command asks for; one written for a revocation admits nobody, on
   the candidate that was active or on the rollback target.
   */
  lemma AppliedTransition(c: Crypto, policy: Policy, run: seq<World>, pids: seq<Pid>, labels: seq<Label>, n: nat)
    requires IsRun(c, policy, run, pids, labels) && n < |labels|
    requires labels[n].Advance? && labels[n].eff.write.WriteRollout?
    ensures pids[n] in run[n].procs && run[n].procs[pids[n]].TransCleared?
    ensures var r, next, cmd := run[n].rollout, run[n + 1].rollout, run[n].procs[pids[n]].cmd;
            && next == labels[n].eff.write.rollout && next.revision == r.revision + 1
            && cmd.expectedRevision == r.revision && Leads(policy, r, cmd.change, next)
    ensures run[n].procs[pids[n]].origin.ByRevoke? ==>
              && Shut(run[n + 1].rollout)
              && var active := run[n + 1].rollout.active;
              (active == run[n].rollout.active || policy.rollback == Some(active))
  {
    hide Allows, Inv, LockInv, LedgerInv, ClearedInv, Next, ProcInv, Transition, Leads, Do;
    RunInv(c, policy, run, pids, labels, n);
    var w, pid, eff := run[n], pids[n], labels[n].eff;
    assert Next(c, policy, w, pid, labels[n], run[n + 1]);
    AdvanceAllows(c, policy, w, pid, labels[n], run[n + 1]);
    AdvanceDoes(c, policy, w, pid, labels[n], run[n + 1]);
    var p := w.procs[pid];
    WrittenTransition(c, policy, w, p, eff);
    WrittenRollout(w, pid, eff);
    TransitionMeaning(policy, w.rollout, p.cmd, eff.write.rollout);
    KnownOrigin(c, policy, w, pid);
    OriginChange(policy, w, p);
    if p.origin.ByRevoke? {
      RevokedChange(policy, w.rollout, p.cmd.change, eff.write.rollout);
    }
  }

  lemma AdvanceDoes(c: Crypto, policy: Policy, w: World, pid: Pid, l: Label, w': World)
    requires Next(c, policy, w, pid, l, w') && l.Advance?
    ensures w' == Do(w, pid, l.eff)
  {
    hide Allows, Do;
  }

  lemma KnownOrigin(c: Crypto, policy: Policy, w: World, pid: Pid)
    requires Inv(c, policy, w) && pid in w.procs
    ensures ProcInv(policy, w, w.procs[pid])
  {
    hide LockInv, LedgerInv, ClearedInv, ProcInv;
  }

  lemma OriginChange(policy: Policy, w: World, p: Proc)
    requires ProcInv(policy, w, p) && p.TransCleared?
    ensures p.origin.ByRevoke? ==> p.cmd.change.Disable? || p.cmd.change.Rollback?
  {
    hide Recovering, InLedger;
  }

  lemma RevokedChange(policy: Policy, r: Rollout, change: Change, next: Rollout)
    requires Leads(policy, r, change, next) && (change.Disable? || change.Rollback?)
    ensures Shut(next) && (next.active == r.active || policy.rollback == Some(next.active))
  {
  }

  /**
   Whoever is admitted belongs to a cohort that the policy names for the stage of an enabled rollout of his candidate,
   whose ledger can be read and holds no active revocation.
   */
  lemma AdmissionMeaning(c: Crypto, policy: Policy, run: seq<World>, pids: seq<Pid>, labels: seq<Label>, n: nat)
    requires IsRun(c, policy, run, pids, labels) && n < |labels|
    requires labels[n].Advance? && labels[n].eff.next.Admitted?
    ensures pids[n] in run[n].procs && run[n].procs[pids[n]].AdmitSnap?
    ensures var p, w := run[n].procs[pids[n]], run[n];
            && p.snap.active == p.binding && p.snap.enabled && p.snap.stage != Disabled
            && p.snap.cohorts == policy.cohorts(p.snap.stage) && p.cohort in p.snap.cohorts
            && p.binding in w.ledgers && !w.ledgers[p.binding].broken
            && LatestState(c, w.ledgers[p.binding].genesis, w.ledgers[p.binding].events).status != Revoked
  {
    hide Allows, Inv, Next, ProcInv, LatestState;
    RunInv(c, policy, run, pids, labels, n);
    var w, pid := run[n], pids[n];
    assert Next(c, policy, w, pid, labels[n], run[n + 1]);
    AdvanceAllows(c, policy, w, pid, labels[n], run[n + 1]);
    AdmittedCohort(c, policy, w, w.procs[pid], labels[n].eff);
    KnownOrigin(c, policy, w, pid);
    SnapKnown(policy, w, w.procs[pid]);
  }

  lemma AdmittedCohort(c: Crypto, policy: Policy, w: World, p: Proc, eff: Effect)
    requires Allows(c, policy, w, p, eff) && eff.next.Admitted?
    ensures p.AdmitSnap? && p.snap.enabled && p.snap.stage != Disabled
    ensures p.snap.cohorts == policy.cohorts(p.snap.stage) && p.cohort in p.snap.cohorts
    ensures p.binding in w.ledgers && !w.ledgers[p.binding].broken
    ensures LatestState(c, w.ledgers[p.binding].genesis, w.ledgers[p.binding].events).status != Revoked
  {
    hide Records, Admissible, LatestState, Protected, Transition, IsNewest, Closed, ReadsUnrevoked;
  }

  // ---------- enabling a stage ----------

  /** A read of the ledger of `b` succeeds and shows no active revocation. */
  predicate ShowsClear(c: Crypto, w: World, b: Binding) {
    && b in w.ledgers && !w.ledgers[b].broken
    && LatestState(c, w.ledgers[b].genesis, w.ledgers[b].events).status != Revoked
  }

  /** Process `pid` looked at the ledger of `b` in step `k`, and it was clear. */
  ghost predicate LookedAt(c: Crypto, run: seq<World>, pids: seq<Pid>, k: nat, pid: Pid, b: Binding) {
    k < |run| && k < |pids| && pids[k] == pid && ShowsClear(c, run[k], b)
  }

  /** The candidates whose ledgers a transition looks at: the active one for a stage, the target otherwise. */
  predicate MustBeClear(r: Rollout, change: Change, b: Binding) {
    match change
    case Disable => false
    case SetStage(_) => b == r.active
    case Rollback(target) => b == target
    case RestoreCandidate(target) => false
  }

  lemma ClearedStep(c: Crypto, policy: Policy, w: World, p: Proc, eff: Effect, b: Binding)
    requires Allows(c, policy, w, p, eff) && eff.next.TransCleared? && MustBeClear(w.rollout, eff.next.cmd.change, b)
    ensures ShowsClear(c, w, b) && !eff.write.WriteRollout?
  {
    hide Records, Admissible, LatestState, Transition, IsNewest, Closed;
    assert b in Protected(w.rollout, eff.next.cmd.change);
  }

  lemma OthersKeepRollout(c: Crypto, policy: Policy, w: World, pid: Pid, l: Label, w': World, q: Pid)
    requires Inv(c, policy, w) && Next(c, policy, w, pid, l, w') && q != pid && q in w'.procs
    requires w'.procs[q].TransCleared?
    ensures q in w.procs && w.procs[q] == w'.procs[q] && w'.rollout == w.rollout
  {
    hide Allows, LedgerInv, ClearedInv, ProcInv, RolloutLockAfter, LedgerLockAfter, LedgerLockInv, Closed;
    OtherStays(c, policy, w, pid, l, w', q);
    HolderHasLock(w, q);
    if l.Advance? && l.eff.write.WriteRollout? {
      WrittenTransition(c, policy, w, w.procs[pid], l.eff);
      HolderHasLock(w, pid);
    }
  }

  lemma OtherStays(c: Crypto, policy: Policy, w: World, pid: Pid, l: Label, w': World, q: Pid)
    requires Next(c, policy, w, pid, l, w') && q != pid
    ensures q in w.procs <==> q in w'.procs
    ensures q in w.procs ==> w'.procs[q] == w.procs[q]
    ensures !(l.Advance? && l.eff.write.WriteRollout?) ==> w'.rollout == w.rollout
    ensures !l.Spawn? ==> pid in w.procs
  {
    hide Allows, RolloutLockAfter, LedgerLockAfter, MayStart;
  }

  lemma OwnStep(c: Crypto, policy: Policy, w: World, pid: Pid, l: Label, w': World, b: Binding)
    requires Next(c, policy, w, pid, l, w') && pid in w'.procs && w'.procs[pid].TransCleared?
    requires MustBeClear(w'.rollout, w'.procs[pid].cmd.change, b)
    ensures ShowsClear(c, w, b) && w'.rollout == w.rollout
  {
    hide Allows, RolloutLockAfter, LedgerLockAfter, LatestState;
    assert l.Advance? by { OnlyAdvances(c, policy, w, pid, l, w'); }
    if l.eff.write.WriteRollout? {
      WrittenTransition(c, policy, w, w.procs[pid], l.eff);
      WrittenNext(c, policy, w, w.procs[pid], l.eff);
      assert false;
    }
    ClearedStep(c, policy, w, w.procs[pid], l.eff, b);
  }

  lemma WrittenNext(c: Crypto, policy: Policy, w: World, p: Proc, eff: Effect)
    requires Allows(c, policy, w, p, eff) && p.TransCleared?
    ensures !eff.next.TransCleared?
  {
    hide Transition;
  }

  lemma OnlyAdvances(c: Crypto, policy: Policy, w: World, pid: Pid, l: Label, w': World)
    requires Next(c, policy, w, pid, l, w') && pid in w'.procs && w'.procs[pid].TransCleared?
    ensures l.Advance?
  {
    hide Allows, RolloutLockAfter, LedgerLockAfter;
  }

  /**
   In every run that starts without processes: while a process is about to write a transition, it has looked, since
   the rollout last changed, at the ledger of the candidate that the transition lets in, and it was clear.
   */
  lemma {:induction false} CheckedBeforeWrite(c: Crypto, policy: Policy, run: seq<World>, pids: seq<Pid>,
                                              labels: seq<Label>, n: nat, pid: Pid, b: Binding)
    requires IsRun(c, policy, run, pids, labels) && n < |run| && run[0].procs == map[]
    requires pid in run[n].procs && run[n].procs[pid].TransCleared?
    requires MustBeClear(run[n].rollout, run[n].procs[pid].cmd.change, b)
    ensures exists k: nat :: k < n && LookedAt(c, run, pids, k, pid, b) && run[k].rollout == run[n].rollout
  {
    hide Inv, Next, ShowsClear, MustBeClear;
    assert n > 0;
    var m := n - 1;
    assert Next(c, policy, run[m], pids[m], labels[m], run[m + 1]);
    if pids[m] == pid {
      OwnStep(c, policy, run[m], pid, labels[m], run[n], b);
      assert LookedAt(c, run, pids, m, pid, b);
    } else {
      RunInv(c, policy, run, pids, labels, m);
      OthersKeepRollout(c, policy, run[m], pids[m], labels[m], run[n], pid);
      CheckedBeforeWrite(c, policy, run, pids, labels, m, pid, b);
    }
  }

  /** A rollout becomes enabled only after the ledger of its candidate was found clear, at the same rollout state. */
  lemma EnabledAfterCheck(c: Crypto, policy: Policy, run: seq<World>, pids: seq<Pid>, labels: seq<Label>, n: nat)
    requires IsRun(c, policy, run, pids, labels) && n < |labels| && run[0].procs == map[]
    requires !run[n].rollout.enabled && run[n + 1].rollout.enabled
    ensures exists k: nat :: k < n && LookedAt(c, run, pids, k, pids[n], run[n + 1].rollout.active)
                             && run[k].rollout == run[n].rollout
  {
    hide Inv, Next, ShowsClear, MustBeClear, Leads, Do;
    var w, pid := run[n], pids[n];
    assert Next(c, policy, w, pid, labels[n], run[n + 1]);
    OnlyWrites(c, policy, w, pid, labels[n], run[n + 1]);
    AppliedTransition(c, policy, run, pids, labels, n);
    EnabledByStage(policy, w.rollout, w.procs[pid].cmd.change, run[n + 1].rollout);
    CheckedBeforeWrite(c, policy, run, pids, labels, n, pid, run[n + 1].rollout.active);
  }

  lemma OnlyWrites(c: Crypto, policy: Policy, w: World, pid: Pid, l: Label, w': World)
    requires Next(c, policy, w, pid, l, w') && w'.rollout != w.rollout
    ensures l.Advance? && l.eff.write.WriteRollout?
  {
    hide Allows, RolloutLockAfter, LedgerLockAfter, MayStart;
  }

  lemma EnabledByStage(policy: Policy, r: Rollout, change: Change, next: Rollout)
    requires Leads(policy, r, change, next) && next.enabled
    ensures change.SetStage? && next.active == r.active && MustBeClear(r, change, next.active)
  {
  }
}

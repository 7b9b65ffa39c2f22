/**
 The two-ledger protocol: processes that revoke, recover, change the rollout stage or ask for admission, interleaved
 step by step over the revocation ledgers and the signed rollout state (src/k_slide/candidate_revocation.py and
 src/k_slide/rollout.py). Locks are taken and released in steps of their own; any process may raise or die at any
 point, and dying under a lock may leave what the lock protects unreadable.
 */
module RolloutProtocol {
  import opened Wrappers
  import opened RevocationModel
  import opened RevocationLedger

  datatype Stage = Disabled | NamedCohort | Pilot | Canary | Phased | Full

  datatype Policy = Policy(primary: Binding, rollback: Option<Binding>, cohorts: Stage -> seq<string>)

  datatype Rollout = Rollout(revision: nat, active: Binding, stage: Stage, enabled: bool, cohorts: seq<string>)

  datatype Change = Disable | SetStage(stage: Stage) | Rollback(target: Binding) | RestoreCandidate(target: Binding)

  datatype Command = Command(expectedRevision: int, change: Change)

  /** Closed to admissions: disabled, no cohort. */
  predicate Closed(r: Rollout) {
    r.stage == Disabled && !r.enabled && r.cohorts == []
  }

  /** `apply_rollout_transition`: the state that a command leads to, if it is not refused. */
  function Transition(policy: Policy, r: Rollout, cmd: Command): Option<Rollout> {
    if r.active != policy.primary && policy.rollback != Some(r.active) then None
    else if r.stage != Disabled && r.cohorts != policy.cohorts(r.stage) then None
    else if cmd.expectedRevision != r.revision then None
    else
      match cmd.change
      case Disable => Some(Rollout(r.revision + 1, r.active, Disabled, false, []))
      case SetStage(stage) =>
        if stage == Disabled then None
        else Some(Rollout(r.revision + 1, r.active, stage, true, policy.cohorts(stage)))
      case Rollback(target) =>
        if policy.rollback != Some(target) || r.active != policy.primary then None
        else Some(Rollout(r.revision + 1, target, Disabled, false, []))
      case RestoreCandidate(target) =>
        if target != policy.primary || policy.rollback != Some(r.active) then None
        else Some(Rollout(r.revision + 1, target, Disabled, false, []))
  }

  /** One candidate's ledger; a broken one fails every read (see module RevocationConcurrency). */
  datatype Ledger = Ledger(genesis: StatePayload, events: seq<EventPayload>, broken: bool)

  predicate IsRevoked(c: Crypto, l: Ledger) {
    LatestState(c, l.genesis, l.events).status == Revoked
  }

  predicate Admissible(c: Crypto, l: Ledger, e: EventPayload, now: int) {
    !l.broken && Admits(c, e.binding, l.genesis, l.events, e, now)
  }

  type Pid = nat

  /** Who issued a rollout transition. */
  datatype Origin = ByOperator | ByRevoke(event: EventPayload) | ByRestore(event: EventPayload)

  datatype Proc =
    | Apply(event: EventPayload)
    | RevokeLocked(event: EventPayload)
    | RevokeRecorded(event: EventPayload, newest: bool)
    | RevokeReleased(event: EventPayload)
    | RevokeSnap(event: EventPayload, snap: Rollout)
    | RecoverLocked(event: EventPayload)
    | RecoverReleased(event: EventPayload)
    | DirectWant(event: EventPayload)
    | DirectHold(event: EventPayload)
    | DirectChecked(event: EventPayload)
    | DirectLocked(event: EventPayload)
    | TransWant(origin: Origin, cmd: Command)
    | TransHold(origin: Origin, cmd: Command)
    | TransProbe(origin: Origin, cmd: Command)
    | TransCleared(origin: Origin, cmd: Command)
    | TransWritten(origin: Origin)
    | RestoreLocked(event: EventPayload)
    | BothAppended(event: EventPayload)
    | LedgerFreed
    | WrapStart(binding: Binding, cohort: string)
    | AdmitStart(binding: Binding, cohort: string)
    | AdmitSnap(binding: Binding, cohort: string, snap: Rollout)
    | Admitted(binding: Binding, snap: Rollout)
    | Done

  /** `clearedAt` records the rollout revision at which a ledger last took a recovery event. */
  datatype World = World(
    rollout: Rollout,
    torn: bool,
    ledgers: map<Binding, Ledger>,
    rolloutLock: Option<Pid>,
    ledgerLock: map<Binding, Pid>,
    procs: map<Pid, Proc>,
    clearedAt: map<Binding, nat>)

  // ---------- steps ----------

  datatype LockOp = Keep | TakeRollout | TakeLedger(binding: Binding) | FreeLedger(binding: Binding) | FreeAll

  datatype Write = NoWrite | WriteRollout(rollout: Rollout) | AppendEvent(event: EventPayload)

  /** What one step does: write, operate on a lock, and go on to the next position. */
  datatype Effect = Effect(next: Proc, lock: LockOp, write: Write)

  function Written(w: World, write: Write): World {
    match write
    case NoWrite => w
    case WriteRollout(r) => w.(rollout := r)
    case AppendEvent(e) =>
      if e.binding !in w.ledgers then w
      else
        var l := w.ledgers[e.binding];
        w.(ledgers := w.ledgers[e.binding := l.(events := l.events + [e])],
           clearedAt := if e.action.Recover? then w.clearedAt[e.binding := w.rollout.revision] else w.clearedAt)
  }

  function RolloutLockAfter(lock: Option<Pid>, pid: Pid, op: LockOp): Option<Pid> {
    match op
    case TakeRollout => Some(pid)
    case FreeAll => if lock == Some(pid) then None else lock
    case _ => lock
  }

  function LedgerLockAfter(lock: map<Binding, Pid>, pid: Pid, op: LockOp): map<Binding, Pid> {
    match op
    case TakeLedger(b) => lock[b := pid]
    case FreeLedger(b) => lock - {b}
    case FreeAll => map b | b in lock && lock[b] != pid :: lock[b]
    case _ => lock
  }

  /** A lock is taken only while it is free. */
  predicate LockFree(w: World, op: LockOp) {
    match op
    case TakeRollout => w.rolloutLock.None?
    case TakeLedger(b) => b !in w.ledgerLock
    case _ => true
  }

  function Do(w: World, pid: Pid, eff: Effect): World {
    Written(w, eff.write).(
      rolloutLock := RolloutLockAfter(w.rolloutLock, pid, eff.lock),
      ledgerLock := LedgerLockAfter(w.ledgerLock, pid, eff.lock),
      procs := w.procs[pid := eff.next])
  }

  /** The candidates whose revocation blocks a transition. */
  function Protected(r: Rollout, change: Change): set<Binding> {
    match change
    case Disable => {}
    case SetStage(_) => {r.active}
    case Rollback(target) => {target}
    case RestoreCandidate(target) => {target}
  }

  /** A status read of `b` that succeeds and reports no active revocation. */
  predicate ReadsUnrevoked(c: Crypto, w: World, b: Binding) {
    b in w.ledgers && !w.ledgers[b].broken && !IsRevoked(c, w.ledgers[b])
  }

  /** Recording `e` succeeds: it is already in the ledger, or it is appended. */
  ghost predicate Records(c: Crypto, w: World, e: EventPayload, write: Write) {
    && e.binding in w.ledgers && !w.ledgers[e.binding].broken
    && match write
       case NoWrite => e in w.ledgers[e.binding].events
       case AppendEvent(x) => x == e && exists now :: Admissible(c, w.ledgers[e.binding], e, now)
       case WriteRollout(_) => false
  }

  predicate IsNewest(c: Crypto, l: Ledger, e: EventPayload) {
    LatestState(c, l.genesis, l.events).eventIdentity == Some(EventIdentity(c, e))
  }

  /** The steps open to a process at position `p` that neither raises nor dies. */
  ghost predicate Allows(c: Crypto, policy: Policy, w: World, p: Proc, eff: Effect) {
    match p
    case Apply(e) =>
      eff == Effect(if e.action.Revoke? then RevokeLocked(e) else RecoverLocked(e), TakeLedger(e.binding), NoWrite)
    case RevokeLocked(e) =>
      && Records(c, w, e, eff.write)
      && var newest := eff.write.AppendEvent? || IsNewest(c, w.ledgers[e.binding], e);
         eff == Effect(RevokeRecorded(e, newest), Keep, eff.write)
    case RevokeRecorded(e, newest) =>
      eff == Effect(if newest then RevokeReleased(e) else Done, FreeLedger(e.binding), NoWrite)
    case RevokeReleased(e) =>
      !w.torn && eff == Effect(RevokeSnap(e, w.rollout), Keep, NoWrite)
    case RevokeSnap(e, snap) =>
      if snap.active != e.binding then
        eff == Effect(Done, Keep, NoWrite)
      else if policy.rollback.None? then
        eff == Effect(TransWant(ByRevoke(e), Command(snap.revision, Disable)), Keep, NoWrite)
      else
        var fallback := policy.rollback.value;
        && fallback in w.ledgers && !w.ledgers[fallback].broken
        && var change := if IsRevoked(c, w.ledgers[fallback]) then Disable else Rollback(fallback);
           eff == Effect(TransWant(ByRevoke(e), Command(snap.revision, change)), Keep, NoWrite)
    case RecoverLocked(e) =>
      && e.binding in w.ledgers && !w.ledgers[e.binding].broken
      && if e in w.ledgers[e.binding].events then
           eff == Effect(Done, FreeLedger(e.binding), NoWrite)
         else
           && (exists now :: Admissible(c, w.ledgers[e.binding], e, now))
           && eff == Effect(RecoverReleased(e), FreeLedger(e.binding), NoWrite)
    case RecoverReleased(e) =>
      && !w.torn && policy.primary == e.binding
      && if w.rollout.active == policy.primary then
           Closed(w.rollout) && eff == Effect(DirectWant(e), Keep, NoWrite)
         else
           && policy.rollback == Some(w.rollout.active) && ReadsUnrevoked(c, w, w.rollout.active)
           && var cmd := Command(w.rollout.revision, RestoreCandidate(e.binding));
              eff == Effect(TransWant(ByRestore(e), cmd), Keep, NoWrite)
    case DirectWant(e) =>
      eff == Effect(DirectHold(e), TakeRollout, NoWrite)
    case DirectHold(e) =>
      && !w.torn && policy.primary == e.binding && w.rollout.active == e.binding && Closed(w.rollout)
      && eff == Effect(DirectChecked(e), Keep, NoWrite)
    case DirectChecked(e) =>
      eff == Effect(DirectLocked(e), TakeLedger(e.binding), NoWrite)
    case DirectLocked(e) =>
      Records(c, w, e, eff.write) && eff == Effect(BothAppended(e), Keep, eff.write)
    case TransWant(o, cmd) =>
      eff == Effect(TransHold(o, cmd), TakeRollout, NoWrite)
    case TransHold(o, cmd) =>
      && !w.torn
      && if o.ByRestore? then
           eff == Effect(TransProbe(o, cmd), TakeLedger(o.event.binding), NoWrite)
         else
           && (forall b | b in Protected(w.rollout, cmd.change) :: ReadsUnrevoked(c, w, b))
           && eff == Effect(TransCleared(o, cmd), Keep, NoWrite)
    case TransProbe(o, cmd) =>
      && o.ByRestore? && o.event.binding in w.ledgers && cmd.change == RestoreCandidate(policy.primary)
      && o.event.action.Recover? && o.event.binding == policy.primary && policy.rollback == Some(w.rollout.active)
      && (exists now :: Admissible(c, w.ledgers[o.event.binding], o.event, now))
      && IsRevoked(c, w.ledgers[o.event.binding]) && ReadsUnrevoked(c, w, w.rollout.active)
      && eff == Effect(TransCleared(o, cmd), FreeLedger(o.event.binding), NoWrite)
    case TransCleared(o, cmd) =>
      && Transition(policy, w.rollout, cmd).Some?
      && eff == Effect(TransWritten(o), Keep, WriteRollout(Transition(policy, w.rollout, cmd).value))
    case TransWritten(o) =>
      eff == if o.ByRestore? then Effect(RestoreLocked(o.event), TakeLedger(o.event.binding), NoWrite)
             else Effect(Done, FreeAll, NoWrite)
    case RestoreLocked(e) =>
      Records(c, w, e, eff.write) && eff == Effect(BothAppended(e), Keep, eff.write)
    case BothAppended(e) =>
      eff == Effect(LedgerFreed, FreeLedger(e.binding), NoWrite)
    case LedgerFreed =>
      eff == Effect(Done, FreeAll, NoWrite)
    case WrapStart(b, cohort) =>
      // the status is read before the rollout is asked for a receipt
      && b in w.ledgers && !w.ledgers[b].broken
      && eff == Effect(if IsRevoked(c, w.ledgers[b]) then Done else AdmitStart(b, cohort), Keep, NoWrite)
    case AdmitStart(b, cohort) =>
      !w.torn && w.rollout.active == b && eff == Effect(AdmitSnap(b, cohort, w.rollout), Keep, NoWrite)
    case AdmitSnap(b, cohort, snap) =>
      && b in w.ledgers && !w.ledgers[b].broken
      && eff == Effect(if !IsRevoked(c, w.ledgers[b]) && LetsIn(policy, snap, cohort) then Admitted(b, snap) else Done,
                       Keep, NoWrite)
    case Admitted(_, _) => false
    case Done => false
  }

  /** The rollout state lets this cohort in. */
  predicate LetsIn(policy: Policy, snap: Rollout, cohort: string) {
    && snap.enabled && snap.stage != Disabled
    && snap.cohorts == policy.cohorts(snap.stage) && cohort in snap.cohorts
  }

  /** A raised exception: every lock is released and nothing is written. */
  const RAISE := Effect(Done, FreeAll, NoWrite)

  predicate MayStart(p: Proc) {
    match p
    case Apply(e) => ValidEvent(e, e.binding, None)
    case TransWant(o, _) => o.ByOperator?
    case WrapStart(_, _) => true
    case AdmitStart(_, _) => true
    case _ => false
  }

  function Damage(w: World, torn: bool, broken: set<Binding>): World {
    w.(torn := w.torn || torn,
       ledgers := map b | b in w.ledgers :: if b in broken then w.ledgers[b].(broken := true) else w.ledgers[b])
  }

  datatype Label = Advance(eff: Effect) | Raise | Die(torn: bool, broken: set<Binding>) | Spawn(proc: Proc)

  /** One step of process `pid`. A process that dies may leave what its locks protect half written. */
  ghost predicate Next(c: Crypto, policy: Policy, w: World, pid: Pid, l: Label, w': World) {
    match l
    case Advance(eff) =>
      pid in w.procs && Allows(c, policy, w, w.procs[pid], eff) && LockFree(w, eff.lock) && w' == Do(w, pid, eff)
    case Raise =>
      pid in w.procs && w' == Do(w, pid, RAISE)
    case Die(torn, broken) =>
      && pid in w.procs
      && (torn ==> w.rolloutLock == Some(pid))
      && (forall b | b in broken :: b in w.ledgerLock && w.ledgerLock[b] == pid)
      && w' == Do(Damage(w, torn, broken), pid, RAISE)
    case Spawn(p) =>
      pid !in w.procs && MayStart(p) && w' == w.(procs := w.procs[pid := p])
  }

  // ---------- invariant ----------

  predicate HoldsRollout(p: Proc) {
    p.DirectHold? || p.DirectChecked? || p.DirectLocked? || p.TransHold? || p.TransProbe? || p.TransCleared?
    || p.TransWritten? || p.RestoreLocked? || p.BothAppended? || p.LedgerFreed?
  }

  function HeldLedger(p: Proc): Option<Binding> {
    match p
    case RevokeLocked(e) => Some(e.binding)
    case RevokeRecorded(e, _) => Some(e.binding)
    case RecoverLocked(e) => Some(e.binding)
    case DirectLocked(e) => Some(e.binding)
    case TransProbe(o, _) => if o.ByRestore? then Some(o.event.binding) else None
    case RestoreLocked(e) => Some(e.binding)
    case BothAppended(e) => Some(e.binding)
    case _ => None
  }

  predicate InLedger(w: World, e: EventPayload) {
    e.binding in w.ledgers && e in w.ledgers[e.binding].events
  }

  predicate Recovering(policy: Policy, e: EventPayload) {
    e.action.Recover? && ValidEvent(e, e.binding, None)
  }

  /** What a process knows between its steps. */
  predicate ProcInv(policy: Policy, w: World, p: Proc) {
    match p
    case Apply(e) => ValidEvent(e, e.binding, None)
    case RevokeLocked(e) => e.action.Revoke? && ValidEvent(e, e.binding, None)
    case RevokeRecorded(e, _) => InLedger(w, e) && e.action.Revoke?
    case RevokeReleased(e) => InLedger(w, e) && e.action.Revoke?
    case RevokeSnap(e, snap) => InLedger(w, e) && e.action.Revoke? && snap.revision <= w.rollout.revision
    case RecoverLocked(e) => Recovering(policy, e)
    case RecoverReleased(e) => Recovering(policy, e)
    case DirectWant(e) => Recovering(policy, e)
    case DirectHold(e) => Recovering(policy, e)
    case DirectChecked(e) =>
      Recovering(policy, e) && w.rollout.active == e.binding == policy.primary && Closed(w.rollout)
    case DirectLocked(e) =>
      Recovering(policy, e) && w.rollout.active == e.binding == policy.primary && Closed(w.rollout)
    case TransWant(o, cmd) => OriginInv(policy, w, o, cmd)
    case TransHold(o, cmd) => OriginInv(policy, w, o, cmd)
    case TransProbe(o, cmd) => OriginInv(policy, w, o, cmd)
    case TransCleared(o, cmd) => OriginInv(policy, w, o, cmd)
    case TransWritten(o) =>
      o.ByRestore? ==>
        && Recovering(policy, o.event)
        && w.rollout.active == o.event.binding == policy.primary && Closed(w.rollout)
    case RestoreLocked(e) =>
      Recovering(policy, e) && w.rollout.active == e.binding == policy.primary && Closed(w.rollout)
    case BothAppended(e) => InLedger(w, e)
    case LedgerFreed => true
    case WrapStart(_, _) => true
    case AdmitStart(_, _) => true
    case AdmitSnap(b, _, snap) => snap.active == b && snap.revision <= w.rollout.revision
    case Admitted(b, snap) => snap.active == b && snap.enabled && snap.revision <= w.rollout.revision
    case Done => true
  }

  predicate OriginInv(policy: Policy, w: World, o: Origin, cmd: Command) {
    match o
    case ByOperator => true
    case ByRevoke(e) => InLedger(w, e) && e.action.Revoke? && (cmd.change.Disable? || cmd.change.Rollback?)
    case ByRestore(e) =>
      Recovering(policy, e) && e.binding == policy.primary && cmd.change == RestoreCandidate(e.binding)
  }

  ghost predicate LedgerInv(c: Crypto, b: Binding, l: Ledger) {
    ChainOk(c, b, l.genesis, l.events) && UniqueIds(l.events)
  }

  predicate Holds(lock: map<Binding, Pid>, p: Pid, b: Binding) {
    b in lock && lock[b] == p
  }

  predicate RolloutLockInv(procs: map<Pid, Proc>, lock: Option<Pid>) {
    && (lock.Some? ==> lock.value in procs)
    && (forall p | p in procs :: lock == Some(p) <==> HoldsRollout(procs[p]))
  }

  ghost predicate LedgerLockInv(procs: map<Pid, Proc>, lock: map<Binding, Pid>) {
    && (forall b | b in lock :: lock[b] in procs)
    && (forall p, b | p in procs :: Holds(lock, p, b) <==> HeldLedger(procs[p]) == Some(b))
  }

  /** Locks are held by exactly the processes whose position says so. */
  ghost predicate LockInv(w: World) {
    RolloutLockInv(w.procs, w.rolloutLock) && LedgerLockInv(w.procs, w.ledgerLock)
  }

  /** A recovery was recorded at a rollout revision that admits nobody. */
  predicate ClearedInv(w: World) {
    forall b | b in w.clearedAt ::
      w.clearedAt[b] <= w.rollout.revision && (w.clearedAt[b] == w.rollout.revision ==> Closed(w.rollout))
  }

  ghost predicate Inv(c: Crypto, policy: Policy, w: World) {
    && LockInv(w)
    && (forall b | b in w.ledgers :: LedgerInv(c, b, w.ledgers[b]))
    && (forall p | p in w.procs :: ProcInv(policy, w, w.procs[p]))
    && ClearedInv(w)
  }

  /** What every step promises the other processes. */
  ghost predicate Guarantee(w: World, pid: Pid, w': World) {
    && w'.procs.Keys == w.procs.Keys + {pid}
    && (forall p | p in w.procs && p != pid :: w'.procs[p] == w.procs[p])
    && (w'.rollout == w.rollout || (w.rolloutLock == Some(pid) && w'.rollout.revision == w.rollout.revision + 1))
    && (forall b | b in w.ledgers :: b in w'.ledgers && w.ledgers[b].genesis == w'.ledgers[b].genesis
                                     && w.ledgers[b].events <= w'.ledgers[b].events)
  }

  lemma GuaranteeKeepsOther(policy: Policy, w: World, pid: Pid, w': World, q: Pid)
    requires Guarantee(w, pid, w') && LockInv(w)
    requires q in w.procs && q != pid && ProcInv(policy, w, w.procs[q])
    ensures ProcInv(policy, w', w'.procs[q])
  {
    hide ValidEvent;
    assert HoldsRollout(w.procs[q]) ==> w.rolloutLock == Some(q);
  }

  // ---------- preservation ----------

  /** The positions of a process say which locks a step takes and frees. */
  lemma PositionsMatchLocks(c: Crypto, policy: Policy, w: World, p: Proc, eff: Effect)
    requires Allows(c, policy, w, p, eff)
    ensures HoldsRollout(eff.next) <==> eff.lock.TakeRollout? || (HoldsRollout(p) && !eff.lock.FreeAll?)
    ensures HeldLedger(eff.next) == match eff.lock
                                    case TakeLedger(b) => Some(b)
                                    case FreeLedger(_) => None
                                    case FreeAll => None
                                    case _ => HeldLedger(p)
    ensures eff.lock.TakeRollout? ==> HeldLedger(p).None? && !HoldsRollout(p)
    ensures eff.lock.TakeLedger? ==> HeldLedger(p).None?
    ensures eff.lock.FreeLedger? ==> HeldLedger(p) == Some(eff.lock.binding)
  {
    hide Records, Admissible, LatestState, ReadsUnrevoked, IsRevoked, Protected, Transition, IsNewest, Closed;
  }

  lemma RolloutLockKept(procs: map<Pid, Proc>, lock: Option<Pid>, pid: Pid, p: Proc, next: Proc, op: LockOp)
    requires RolloutLockInv(procs, lock) && pid in procs && procs[pid] == p
    requires op.TakeRollout? ==> lock.None?
    requires HoldsRollout(next) <==> op.TakeRollout? || (HoldsRollout(p) && !op.FreeAll?)
    ensures RolloutLockInv(procs[pid := next], RolloutLockAfter(lock, pid, op))
  {
    hide HoldsRollout;
  }

  lemma LedgerLockKept(procs: map<Pid, Proc>, lock: map<Binding, Pid>, pid: Pid, p: Proc, next: Proc, op: LockOp)
    requires LedgerLockInv(procs, lock) && pid in procs && procs[pid] == p
    requires op.TakeLedger? ==> op.binding !in lock
    requires HeldLedger(next) == match op
                                 case TakeLedger(b) => Some(b)
                                 case FreeLedger(_) => None
                                 case FreeAll => None
                                 case _ => HeldLedger(p)
    requires op.TakeLedger? ==> HeldLedger(p).None?
    requires op.FreeLedger? ==> HeldLedger(p) == Some(op.binding)
    ensures LedgerLockInv(procs[pid := next], LedgerLockAfter(lock, pid, op))
  {
    hide HeldLedger;
    var procs', lock' := procs[pid := next], LedgerLockAfter(lock, pid, op);
    forall q, b | q in procs'
      ensures Holds(lock', q, b) <==> HeldLedger(procs'[q]) == Some(b)
    {
      assert Holds(lock, q, b) <==> HeldLedger(procs[q]) == Some(b);
      assert Holds(lock, pid, b) <==> HeldLedger(procs[pid]) == Some(b);
    }
  }

  /** What a step may write: rollout states under the rollout lock, recoveries only while the rollout is closed. */
  ghost predicate WriteGuarded(c: Crypto, policy: Policy, w: World, p: Proc, write: Write) {
    match write
    case NoWrite => true
    case WriteRollout(r) => HoldsRollout(p) && r.revision == w.rollout.revision + 1
    case AppendEvent(e) =>
      && HeldLedger(p) == Some(e.binding) && e.binding in w.ledgers
      && (exists now :: Admissible(c, w.ledgers[e.binding], e, now))
      && (!e.action.Revoke? ==>
            HoldsRollout(p) && w.rollout.active == e.binding == policy.primary && Closed(w.rollout))
  }

  lemma WritesAreGuarded(c: Crypto, policy: Policy, w: World, p: Proc, eff: Effect)
    requires Allows(c, policy, w, p, eff) && ProcInv(policy, w, p)
    ensures WriteGuarded(c, policy, w, p, eff.write)
  {
    hide Admissible, ReadsUnrevoked, IsRevoked, Protected, IsNewest, Closed, ValidEvent;
  }

  lemma DoGrows(c: Crypto, policy: Policy, w: World, pid: Pid, p: Proc, eff: Effect)
    requires WriteGuarded(c, policy, w, p, eff.write)
    requires forall b | b in w.ledgers :: LedgerInv(c, b, w.ledgers[b])
    ensures var w' := Do(w, pid, eff);
            && w'.ledgers.Keys == w.ledgers.Keys
            && (forall b | b in w.ledgers ::
                  && w'.ledgers[b].genesis == w.ledgers[b].genesis && w.ledgers[b].events <= w'.ledgers[b].events
                  && LedgerInv(c, b, w'.ledgers[b]))
            && (eff.write.AppendEvent? ==> InLedger(w', eff.write.event))
            && w'.torn == w.torn
            && w'.rollout == (if eff.write.WriteRollout? then eff.write.rollout else w.rollout)
  {
    hide ChainOk, UniqueIds, Admits, RolloutLockAfter, LedgerLockAfter, HoldsRollout, HeldLedger, Closed;
    if eff.write.AppendEvent? {
      var e := eff.write.event;
      var now :| Admissible(c, w.ledgers[e.binding], e, now);
      var l := w.ledgers[e.binding];
      AdmitsExtends(c, e.binding, l.genesis, l.events, e, now);
    }
  }

  /** `w'` is at least as far as `w`, apart from the rollout state. */
  predicate LedgersGrow(w: World, w': World) {
    forall b | b in w.ledgers :: b in w'.ledgers && w.ledgers[b].events <= w'.ledgers[b].events
  }

  /** A step leaves its own process in a position whose knowledge holds. */
  lemma OwnKept(c: Crypto, policy: Policy, w: World, p: Proc, eff: Effect, w': World)
    requires Allows(c, policy, w, p, eff) && ProcInv(policy, w, p)
    requires LedgersGrow(w, w') && (eff.write.AppendEvent? ==> InLedger(w', eff.write.event))
    requires w'.rollout == if eff.write.WriteRollout? then eff.write.rollout else w.rollout
    ensures ProcInv(policy, w', eff.next)
  {
    hide Admissible, ReadsUnrevoked, IsRevoked, Protected, IsNewest, ValidEvent, LatestState, LedgersGrow;
    forall e | InLedger(w, e)
      ensures InLedger(w', e)
    {
      InLedgerGrows(w, w', e);
    }
    if p.Apply? {
      EventActs(p.event);
    }
  }

  lemma EventActs(e: EventPayload)
    requires ValidEvent(e, e.binding, None)
    ensures e.action.Revoke? || e.action.Recover?
  {
  }

  lemma InLedgerGrows(w: World, w': World, e: EventPayload)
    requires LedgersGrow(w, w') && InLedger(w, e)
    ensures InLedger(w', e)
  {
    var before, after := w.ledgers[e.binding].events, w'.ledgers[e.binding].events;
    var i :| 0 <= i < |before| && before[i] == e;
    assert after[i] == e;
  }

  lemma ClearedKept(c: Crypto, policy: Policy, w: World, pid: Pid, p: Proc, eff: Effect)
    requires WriteGuarded(c, policy, w, p, eff.write)
    requires ClearedInv(w)
    ensures ClearedInv(Do(w, pid, eff))
  {
    hide Admissible, RolloutLockAfter, LedgerLockAfter, HoldsRollout, HeldLedger, Closed;
  }

  lemma AdvanceKeepsInv(c: Crypto, policy: Policy, w: World, pid: Pid, eff: Effect)
    requires Inv(c, policy, w) && pid in w.procs
    requires Allows(c, policy, w, w.procs[pid], eff) && LockFree(w, eff.lock)
    ensures Inv(c, policy, Do(w, pid, eff))
  {
    hide Allows, HoldsRollout, HeldLedger, LedgerInv, ProcInv, RolloutLockInv, LedgerLockInv, Closed, Admissible,
         ClearedInv, RolloutLockAfter, LedgerLockAfter;
    var p, w' := w.procs[pid], Do(w, pid, eff);
    PositionsMatchLocks(c, policy, w, p, eff);
    WritesAreGuarded(c, policy, w, p, eff);
    RolloutLockKept(w.procs, w.rolloutLock, pid, p, eff.next, eff.lock);
    LedgerLockKept(w.procs, w.ledgerLock, pid, p, eff.next, eff.lock);
    DoGrows(c, policy, w, pid, p, eff);
    OwnKept(c, policy, w, p, eff, w');
    ClearedKept(c, policy, w, pid, p, eff);
    HolderHasLock(w, pid);
    forall q | q in w'.procs
      ensures ProcInv(policy, w', w'.procs[q])
    {
      if q != pid {
        GuaranteeKeepsOther(policy, w, pid, w', q);
      }
    }
  }

  lemma HolderHasLock(w: World, pid: Pid)
    requires RolloutLockInv(w.procs, w.rolloutLock) && pid in w.procs
    ensures HoldsRollout(w.procs[pid]) ==> w.rolloutLock == Some(pid)
  {
  }

  lemma RaiseKeepsInv(c: Crypto, policy: Policy, w: World, pid: Pid)
    requires Inv(c, policy, w) && pid in w.procs
    ensures Inv(c, policy, Do(w, pid, RAISE))
  {
    hide HoldsRollout, HeldLedger, LedgerInv, RolloutLockInv, LedgerLockInv, Closed, ClearedInv,
         RolloutLockAfter, LedgerLockAfter, ValidEvent;
    var w' := Do(w, pid, RAISE);
    DonePosition();
    RolloutLockKept(w.procs, w.rolloutLock, pid, w.procs[pid], Done, FreeAll);
    LedgerLockKept(w.procs, w.ledgerLock, pid, w.procs[pid], Done, FreeAll);
    ClearedKept(c, policy, w, pid, w.procs[pid], RAISE);
  }

  lemma DonePosition()
    ensures !HoldsRollout(Done) && HeldLedger(Done).None?
  {
  }

  lemma DamageKeepsInv(c: Crypto, policy: Policy, w: World, torn: bool, broken: set<Binding>)
    requires Inv(c, policy, w)
    ensures Inv(c, policy, Damage(w, torn, broken))
  {
    hide ChainOk, UniqueIds, RolloutLockInv, LedgerLockInv, Closed, ValidEvent;
    var w' := Damage(w, torn, broken);
    forall q | q in w'.procs
      ensures ProcInv(policy, w', w'.procs[q])
    {
      assert ProcInv(policy, w, w.procs[q]);
    }
  }

  lemma NewcomerHoldsNothing(procs: map<Pid, Proc>, rolloutLock: Option<Pid>, ledgerLock: map<Binding, Pid>,
                             pid: Pid, p: Proc)
    requires RolloutLockInv(procs, rolloutLock) && LedgerLockInv(procs, ledgerLock)
    requires pid !in procs && !HoldsRollout(p) && HeldLedger(p).None?
    ensures RolloutLockInv(procs[pid := p], rolloutLock) && LedgerLockInv(procs[pid := p], ledgerLock)
  {
    hide HoldsRollout, HeldLedger;
    forall q, b | q in procs[pid := p]
      ensures Holds(ledgerLock, q, b) <==> HeldLedger(procs[pid := p][q]) == Some(b)
    {
    }
  }

  lemma SpawnKeepsInv(c: Crypto, policy: Policy, w: World, pid: Pid, p: Proc)
    requires Inv(c, policy, w) && pid !in w.procs && MayStart(p)
    ensures Inv(c, policy, w.(procs := w.procs[pid := p]))
  {
    hide ChainOk, UniqueIds, Closed, ValidEvent, LedgerInv, ClearedInv, RolloutLockInv, LedgerLockInv;
    var w' := w.(procs := w.procs[pid := p]);
    NewcomerHoldsNothing(w.procs, w.rolloutLock, w.ledgerLock, pid, p);
    forall q | q in w'.procs
      ensures ProcInv(policy, w', w'.procs[q])
    {
      assert q != pid ==> ProcInv(policy, w, w.procs[q]);
    }
    assert ClearedInv(w') by {
      SameCleared(w, w');
    }
  }

  lemma SameCleared(w: World, w': World)
    requires ClearedInv(w) && w'.clearedAt == w.clearedAt && w'.rollout == w.rollout
    ensures ClearedInv(w')
  {
  }

  lemma NextKeepsInv(c: Crypto, policy: Policy, w: World, pid: Pid, l: Label, w': World)
    requires Inv(c, policy, w) && Next(c, policy, w, pid, l, w')
    ensures Inv(c, policy, w')
  {
    hide Inv, Allows, Damage, Do, MayStart;
    match l
    case Advance(eff) => AdvanceKeepsInv(c, policy, w, pid, eff);
    case Raise => RaiseKeepsInv(c, policy, w, pid);
    case Die(torn, broken) =>
      DamageKeepsInv(c, policy, w, torn, broken);
      DamageKeepsProcs(w, torn, broken);
      RaiseKeepsInv(c, policy, Damage(w, torn, broken), pid);
    case Spawn(p) => SpawnKeepsInv(c, policy, w, pid, p);
  }

  lemma DamageKeepsProcs(w: World, torn: bool, broken: set<Binding>)
    ensures Damage(w, torn, broken).procs == w.procs
  {
  }

  // ---------- theorems about every run ----------

  ghost predicate IsRun(c: Crypto, policy: Policy, run: seq<World>, pids: seq<Pid>, labels: seq<Label>) {
    && |run| == |labels| + 1 && |pids| == |labels|
    && Inv(c, policy, run[0])
    && forall i | 0 <= i < |labels| :: Next(c, policy, run[i], pids[i], labels[i], run[i + 1])
  }

  /** A world with no process yet, any rollout state, and any well-formed ledgers. */
  lemma StartSatisfiesInv(c: Crypto, policy: Policy, rollout: Rollout, ledgers: map<Binding, Ledger>)
    requires forall b | b in ledgers :: LedgerInv(c, b, ledgers[b])
    ensures Inv(c, policy, World(rollout, false, ledgers, None, map[], map[], map[]))
  {
    hide LedgerInv;
  }

  lemma {:induction false} RunInv(c: Crypto, policy: Policy, run: seq<World>, pids: seq<Pid>, labels: seq<Label>,
                                  n: nat)
    requires IsRun(c, policy, run, pids, labels) && n < |run|
    ensures Inv(c, policy, run[n])
  {
    hide Inv, Next;
    if n > 0 {
      RunInv(c, policy, run, pids, labels, n - 1);
      assert Next(c, policy, run[n - 1], pids[n - 1], labels[n - 1], run[n - 1 + 1]);
      NextKeepsInv(c, policy, run[n - 1], pids[n - 1], labels[n - 1], run[n]);
    }
  }

  /** The step from `w` by `pid` records a recovery of `b` while `pid` holds the rollout lock over a closed rollout. */
  ghost predicate GuardedRecovery(policy: Policy, w: World, pid: Pid, l: Label, b: Binding) {
    && l.Advance? && l.eff.write.AppendEvent? && l.eff.write.event.binding == b && l.eff.write.event.action.Recover?
    && w.rolloutLock == Some(pid) && b in w.ledgerLock && w.ledgerLock[b] == pid
    && w.rollout.active == b == policy.primary && Closed(w.rollout)
  }

  lemma AdmittedEvent(c: Crypto, b: Binding, genesis: StatePayload, events: seq<EventPayload>, e: EventPayload,
                      now: int)
    requires Admits(c, b, genesis, events, e, now)
    ensures ValidEvent(e, b, None) && e.reasons != []
  {
  }

  lemma RevokeRevokes(c: Crypto, l: Ledger, e: EventPayload, now: int)
    requires Admissible(c, l, e, now) && e.action.Revoke?
    ensures IsRevoked(c, l.(events := l.events + [e]))
  {
    hide StateAt, Extends, Sorted, ValidEvent;
    LatestAppend(c, l.genesis, l.events, e);
    AdmittedEvent(c, e.binding, l.genesis, l.events, e, now);
    assert e.reasons[0] in NextActive(Elems(LatestState(c, l.genesis, l.events).active), e);
  }

  /** The only step that ends a revocation is a recovery recorded under the rollout lock with the rollout closed. */
  lemma OnlyGuardedRecoveryClears(c: Crypto, policy: Policy, w: World, pid: Pid, l: Label, w': World, b: Binding)
    requires Inv(c, policy, w) && Next(c, policy, w, pid, l, w')
    requires b in w.ledgers && b in w'.ledgers && IsRevoked(c, w.ledgers[b]) && !IsRevoked(c, w'.ledgers[b])
    ensures GuardedRecovery(policy, w, pid, l, b)
  {
    hide Allows, HoldsRollout, HeldLedger, LedgerInv, ProcInv, LedgerLockInv, Closed, Admits, ClearedInv,
         RolloutLockAfter, LedgerLockAfter, LatestState, MayStart;
    match l
    case Advance(eff) =>
      var p := w.procs[pid];
      WritesAreGuarded(c, policy, w, p, eff);
      HolderHasLock(w, pid);
      HolderHasLedger(w, pid, b);
      assert eff.write.AppendEvent? && eff.write.event.binding == b;
      var e := eff.write.event;
      var now :| Admissible(c, w.ledgers[b], e, now);
      if e.action.Revoke? {
        RevokeRevokes(c, w.ledgers[b], e, now);
        assert false;
      }
      AdmittedEvent(c, b, w.ledgers[b].genesis, w.ledgers[b].events, e, now);
      EventActs(e);
    case Raise =>
    case Die(torn, broken) =>
    case Spawn(p) =>
  }

  lemma HolderHasLedger(w: World, pid: Pid, b: Binding)
    requires LedgerLockInv(w.procs, w.ledgerLock) && pid in w.procs
    ensures HeldLedger(w.procs[pid]) == Some(b) ==> b in w.ledgerLock && w.ledgerLock[b] == pid
  {
    hide HeldLedger;
    assert Holds(w.ledgerLock, pid, b) <==> HeldLedger(w.procs[pid]) == Some(b);
  }

  /**
   In every run, between a moment at which a candidate is revoked and a later one at which it is not, some process
   recorded a recovery while it held the rollout lock over a disabled rollout of exactly this candidate.
   */
  lemma {:induction false} RevocationsAreClearedSafely(c: Crypto, policy: Policy, run: seq<World>, pids: seq<Pid>,
                                                       labels: seq<Label>, b: Binding, i: nat, j: nat)
    requires IsRun(c, policy, run, pids, labels) && i <= j < |run|
    requires b in run[i].ledgers && IsRevoked(c, run[i].ledgers[b])
    requires b in run[j].ledgers && !IsRevoked(c, run[j].ledgers[b])
    ensures exists k: nat :: i <= k < j && GuardedRecovery(policy, run[k], pids[k], labels[k], b)
    decreases j
  {
    hide Inv, Next, IsRevoked, GuardedRecovery;
    if i < j {
      var k := j - 1;
      RunInv(c, policy, run, pids, labels, k);
      assert Next(c, policy, run[k], pids[k], labels[k], run[k + 1]);
      SameLedgers(c, policy, run[k], pids[k], labels[k], run[j]);
      if IsRevoked(c, run[k].ledgers[b]) {
        OnlyGuardedRecoveryClears(c, policy, run[k], pids[k], labels[k], run[j], b);
      } else {
        RevocationsAreClearedSafely(c, policy, run, pids, labels, b, i, k);
      }
    }
  }

  lemma SameLedgers(c: Crypto, policy: Policy, w: World, pid: Pid, l: Label, w': World)
    requires Next(c, policy, w, pid, l, w')
    ensures w'.ledgers.Keys == w.ledgers.Keys
  {
    hide Allows, RolloutLockAfter, LedgerLockAfter, MayStart;
  }

  /**
   A DISABLE or ROLLBACK issued for a revocation is written only after the revocation is in its ledger; and if that
   transition fails instead, the revocation is in the ledger all the same.
   */
  lemma RevocationPrecedesTransition(c: Crypto, policy: Policy, run: seq<World>, pids: seq<Pid>, labels: seq<Label>,
                                     n: nat, e: EventPayload, cmd: Command)
    requires IsRun(c, policy, run, pids, labels) && n < |labels| && pids[n] in run[n].procs
    requires var p := run[n].procs[pids[n]]; p == TransCleared(ByRevoke(e), cmd) || p == TransHold(ByRevoke(e), cmd)
    ensures InLedger(run[n], e) && InLedger(run[n + 1], e)
    ensures cmd.change.Disable? || cmd.change.Rollback?
  {
    hide Next, LockInv, LedgerInv, ClearedInv;
    RunInv(c, policy, run, pids, labels, n);
    assert ProcInv(policy, run[n], run[n].procs[pids[n]]);
    assert Next(c, policy, run[n], pids[n], labels[n], run[n + 1]);
    StepGrowsLedgers(c, policy, run[n], pids[n], labels[n], run[n + 1]);
    InLedgerGrows(run[n], run[n + 1], e);
  }

  lemma StepGrowsLedgers(c: Crypto, policy: Policy, w: World, pid: Pid, l: Label, w': World)
    requires Next(c, policy, w, pid, l, w')
    ensures LedgersGrow(w, w')
  {
    hide Allows, RolloutLockAfter, LedgerLockAfter, MayStart;
  }

  /**
   Waiting respects one order. A process that holds a ledger lock waits for nothing, so no cycle of waiting
   processes can form, and whenever some lock is held some holder is not waiting.
   */
  lemma LocksNeverDeadlock(c: Crypto, policy: Policy, run: seq<World>, pids: seq<Pid>, labels: seq<Label>, n: nat)
    requires IsRun(c, policy, run, pids, labels) && n < |run|
    requires run[n].rolloutLock.Some? || run[n].ledgerLock != map[]
    ensures exists p :: p in run[n].procs && HoldsLock(run[n], p) && !Waits(run[n], p)
  {
    hide Next, LedgerInv, ClearedInv, ProcInv;
    RunInv(c, policy, run, pids, labels, n);
    var w := run[n];
    if w.ledgerLock != map[] {
      var b :| b in w.ledgerLock;
      LedgerHolderRuns(w, b);
    } else {
      var p := w.rolloutLock.value;
      assert p in w.procs && HoldsLock(w, p) && !Waits(w, p);
    }
  }

  predicate HoldsLock(w: World, p: Pid) {
    w.rolloutLock == Some(p) || exists b :: b in w.ledgerLock && w.ledgerLock[b] == p
  }

  /** The process is at a lock that another process holds. */
  predicate Waits(w: World, p: Pid)
    requires p in w.procs
  {
    match w.procs[p]
    case Apply(e) => e.binding in w.ledgerLock
    case DirectWant(_) => w.rolloutLock.Some?
    case TransWant(_, _) => w.rolloutLock.Some?
    case DirectChecked(e) => e.binding in w.ledgerLock
    case TransHold(o, _) => o.ByRestore? && o.event.binding in w.ledgerLock
    case TransWritten(o) => o.ByRestore? && o.event.binding in w.ledgerLock
    case _ => false
  }

  /** A process waits exactly when the lock that its next step takes is not free. */
  lemma WaitsForLock(c: Crypto, policy: Policy, w: World, p: Pid, eff: Effect)
    requires p in w.procs && Allows(c, policy, w, w.procs[p], eff)
    ensures Waits(w, p) <==> !LockFree(w, eff.lock)
  {
    hide Records, Admissible, LatestState, IsRevoked, Protected, Transition, IsNewest, Closed, ReadsUnrevoked;
  }

  lemma LedgerHolderRuns(w: World, b: Binding)
    requires LockInv(w) && b in w.ledgerLock
    ensures w.ledgerLock[b] in w.procs && HoldsLock(w, w.ledgerLock[b]) && !Waits(w, w.ledgerLock[b])
  {
    assert Holds(w.ledgerLock, w.ledgerLock[b], b);
  }

  /**
   Recovering a candidate never reopens it: while admissions are on, the rollout has moved on from the revision at
   which any recovery was recorded, so somebody changed the stage explicitly since.
   */
  lemma RecoveryNeverReopens(c: Crypto, policy: Policy, run: seq<World>, pids: seq<Pid>, labels: seq<Label>, n: nat,
                             b: Binding)
    requires IsRun(c, policy, run, pids, labels) && n < |run|
    requires b in run[n].clearedAt && run[n].rollout.enabled
    ensures run[n].clearedAt[b] < run[n].rollout.revision
  {
    hide Next, LedgerInv, LockInv, ProcInv;
    RunInv(c, policy, run, pids, labels, n);
  }

  lemma AdmittedFrom(c: Crypto, policy: Policy, w: World, p: Proc, eff: Effect)
    requires Allows(c, policy, w, p, eff) && eff.next.Admitted?
    ensures p.AdmitSnap? && p.binding == eff.next.binding && p.snap == eff.next.snap
    ensures ReadsUnrevoked(c, w, p.binding) && p.snap.enabled
  {
    hide Records, Admissible, LatestState, IsRevoked, Protected, Transition, IsNewest, Closed;
  }

  lemma AdvanceAllows(c: Crypto, policy: Policy, w: World, pid: Pid, l: Label, w': World)
    requires Next(c, policy, w, pid, l, w') && l.Advance?
    ensures pid in w.procs && Allows(c, policy, w, w.procs[pid], l.eff)
  {
    hide Allows, Do;
  }

  lemma SnapKnown(policy: Policy, w: World, p: Proc)
    requires ProcInv(policy, w, p) && p.AdmitSnap?
    ensures p.snap.active == p.binding && p.snap.revision <= w.rollout.revision
  {
  }

  /**
   Whoever is admitted was let in by an enabled rollout of this candidate and an unrevoked, readable ledger, also when
   the status was read once before and a revocation came in between.
   */
  lemma AdmissionMeansUnrevoked(c: Crypto, policy: Policy, run: seq<World>, pids: seq<Pid>, labels: seq<Label>, n: nat)
    requires IsRun(c, policy, run, pids, labels) && n < |labels|
    requires labels[n].Advance? && labels[n].eff.next.Admitted?
    ensures var Admitted(b, snap) := labels[n].eff.next;
            ReadsUnrevoked(c, run[n], b) && snap.active == b && snap.enabled && snap.revision <= run[n].rollout.revision
  {
    hide Allows, LockInv, LedgerInv, ClearedInv, ReadsUnrevoked, Next, ProcInv;
    RunInv(c, policy, run, pids, labels, n);
    assert Next(c, policy, run[n], pids[n], labels[n], run[n + 1]);
    AdvanceAllows(c, policy, run[n], pids[n], labels[n], run[n + 1]);
    AdmittedFrom(c, policy, run[n], run[n].procs[pids[n]], labels[n].eff);
    SnapKnown(policy, run[n], run[n].procs[pids[n]]);
  }

  /**
   Recording a revocation closes the gate at once, whatever becomes of the rollout transition that follows; by
   RevocationsAreClearedSafely it then stays closed until a guarded recovery.
   */
  lemma RevocationClosesGate(c: Crypto, policy: Policy, run: seq<World>, pids: seq<Pid>, labels: seq<Label>, n: nat,
                             e: EventPayload)
    requires IsRun(c, policy, run, pids, labels) && n < |labels|
    requires labels[n].Advance? && labels[n].eff.write == AppendEvent(e) && e.action.Revoke?
    ensures e.binding in run[n + 1].ledgers && IsRevoked(c, run[n + 1].ledgers[e.binding])
    ensures !ReadsUnrevoked(c, run[n + 1], e.binding)
  {
    hide Allows, LockInv, ClearedInv, LedgerInv, IsRevoked, Admissible, RolloutLockAfter, LedgerLockAfter, ProcInv;
    RunInv(c, policy, run, pids, labels, n);
    var w, pid := run[n], pids[n];
    assert Next(c, policy, w, pid, labels[n], run[n + 1]);
    assert ProcInv(policy, w, w.procs[pid]);
    WritesAreGuarded(c, policy, w, w.procs[pid], labels[n].eff);
    var now :| Admissible(c, w.ledgers[e.binding], e, now);
    RevokeRevokes(c, w.ledgers[e.binding], e, now);
  }
}

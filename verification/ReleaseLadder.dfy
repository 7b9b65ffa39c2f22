/**
 The release-state ladder and its downgrade by the revocation gate (evals/release.py), over the candidate ledgers.
 */
module ReleaseLadder {
  import opened Wrappers
  import opened RevocationModel
  import opened RevocationLedger
  import opened RevocationStore

  datatype ReleaseState =
    | Development | RuntimeReady | GemmaEvalReady | SyntheticProductionCandidate | InternalValidated | PilotApproved
    | ProductionCertified | CertificationStale

  datatype Evidence =
    | Runtime | HeavyRuntime | ModelValidation | ModelHighRiskStability | ModelHeldOut | InternalBilingual
    | ZeroKoreanComprehension | ModelDataPolicy | Security | Reliability | Governance | PilotCanary

  datatype Blocker =
    | MissingEvidence(kind: Evidence) | OtherBlocker(text: string) | NotRequestable
    | ExceedsMaximum(maximum: ReleaseState)
    | RevocationGate

  function Requirements(state: ReleaseState): seq<Evidence> {
    var synthetic := [Runtime, HeavyRuntime, ModelValidation, ModelHighRiskStability, ModelHeldOut];
    var internally := synthetic + [InternalBilingual, ZeroKoreanComprehension, ModelDataPolicy];
    var pilot := internally + [Security, Reliability, Governance];
    match state
    case Development => []
    case RuntimeReady => [Runtime]
    case GemmaEvalReady => [Runtime, HeavyRuntime]
    case SyntheticProductionCandidate => synthetic
    case InternalValidated => internally
    case PilotApproved => pilot
    case ProductionCertified => pilot + [PilotCanary]
    case CertificationStale => []
  }

  /** The states that can be requested, in order. */
  function Ladder(): seq<ReleaseState> {
    [Development, RuntimeReady, GemmaEvalReady, SyntheticProductionCandidate, InternalValidated, PilotApproved,
     ProductionCertified]
  }

  function Rank(state: ReleaseState): (rank: nat)
    requires !state.CertificationStale?
    ensures rank < |Ladder()| && Ladder()[rank] == state
  {
    match state
    case Development => 0
    case RuntimeReady => 1
    case GemmaEvalReady => 2
    case SyntheticProductionCandidate => 3
    case InternalValidated => 4
    case PilotApproved => 5
    case ProductionCertified => 6
  }

  lemma RankOfLadder(i: nat)
    requires i < |Ladder()|
    ensures !Ladder()[i].CertificationStale? && Rank(Ladder()[i]) == i
  {
  }

  /** The validated evidence, and everything else that may stand against a state. */
  datatype Dossier = Dossier(records: set<Evidence>, others: ReleaseState -> seq<Blocker>)

  function Missing(records: set<Evidence>, required: seq<Evidence>): (blockers: seq<Blocker>)
    ensures blockers == [] <==> forall kind | kind in required :: kind in records
  {
    if required == [] then []
    else (if required[0] in records then [] else [MissingEvidence(required[0])]) + Missing(records, required[1..])
  }

  function Blockers(d: Dossier, state: ReleaseState): seq<Blocker> {
    Missing(d.records, Requirements(state)) + d.others(state)
  }

  /** Every state above the first one, up to `state`, is without blockers. */
  ghost predicate Supported(d: Dossier, state: ReleaseState) {
    !state.CertificationStale? && forall i | 0 < i <= Rank(state) :: Blockers(d, Ladder()[i]) == []
  }

  /** A higher state asks for at least the evidence of a lower one. */
  lemma {:induction false} RequirementsGrow(i: nat, j: nat)
    requires i <= j < |Ladder()|
    ensures forall kind | kind in Requirements(Ladder()[i]) :: kind in Requirements(Ladder()[j])
    decreases j - i
  {
    if i < j {
      RequirementsGrow(i, j - 1);
      NextRequires(j - 1);
    }
  }

  lemma NextRequires(i: nat)
    requires i + 1 < |Ladder()|
    ensures forall kind | kind in Requirements(Ladder()[i]) :: kind in Requirements(Ladder()[i + 1])
  {
    assert Requirements(Ladder()[i]) <= Requirements(Ladder()[i + 1]);
  }

  /** A supported state has all the evidence required of it and of the states below. */
  lemma SupportedHasEvidence(d: Dossier, state: ReleaseState, lower: nat)
    requires Supported(d, state) && lower <= Rank(state)
    ensures forall kind | kind in Requirements(Ladder()[lower]) :: kind in d.records
  {
    hide Ladder, Requirements, Rank;
    var top := Rank(state);
    RequirementsGrow(lower, top);
    if top > 0 {
      assert Blockers(d, Ladder()[top]) == [];
    } else {
      NothingForDevelopment();
    }
  }

  /** What each state asks for, beside having nothing else against it and standing on the state below. */
  ghost predicate Earned(d: Dossier, state: ReleaseState)
    decreases if state.CertificationStale? then 0 else Rank(state)
  {
    match state
    case Development => true
    case RuntimeReady => Runtime in d.records && d.others(RuntimeReady) == []
    case GemmaEvalReady => Earned(d, RuntimeReady) && HeavyRuntime in d.records && d.others(GemmaEvalReady) == []
    case SyntheticProductionCandidate =>
      && Earned(d, GemmaEvalReady) && {ModelValidation, ModelHighRiskStability, ModelHeldOut} <= d.records
      && d.others(SyntheticProductionCandidate) == []
    case InternalValidated =>
      && Earned(d, SyntheticProductionCandidate)
      && {InternalBilingual, ZeroKoreanComprehension, ModelDataPolicy} <= d.records && d.others(InternalValidated) == []
    case PilotApproved =>
      Earned(d, InternalValidated) && {Security, Reliability, Governance} <= d.records && d.others(PilotApproved) == []
    case ProductionCertified =>
      Earned(d, PilotApproved) && PilotCanary in d.records && d.others(ProductionCertified) == []
    case CertificationStale => false
  }

  function Below(state: ReleaseState): ReleaseState {
    match state
    case ProductionCertified => PilotApproved
    case PilotApproved => InternalValidated
    case InternalValidated => SyntheticProductionCandidate
    case SyntheticProductionCandidate => GemmaEvalReady
    case GemmaEvalReady => RuntimeReady
    case _ => Development
  }

  /** A state is supported exactly when it is earned. */
  lemma {:induction false} SupportedIsEarned(d: Dossier, state: ReleaseState)
    ensures Supported(d, state) <==> Earned(d, state)
    decreases if state.CertificationStale? then 0 else Rank(state)
  {
    hide Earned, Supported, Blockers, Requirements;
    if state.CertificationStale? || state.Development? {
      LowestState(d, state);
    } else {
      SupportedBelow(d, state);
      SupportedIsEarned(d, Below(state));
      EarnedStep(d, state);
      OwnBlockers(d, state);
    }
  }

  lemma LowestState(d: Dossier, state: ReleaseState)
    requires state.CertificationStale? || state.Development?
    ensures Supported(d, state) <==> Earned(d, state)
  {
  }

  lemma EarnedStep(d: Dossier, state: ReleaseState)
    requires !state.CertificationStale? && !state.Development?
    ensures Earned(d, state) <==>
            && Earned(d, Below(state)) && d.others(state) == []
            && forall kind | kind in Requirements(state) :: kind in d.records
  {
    EarnedRecordsBelow(d, Below(state));
  }

  /** What is earned includes the records of the state itself. */
  lemma {:induction false} EarnedRecordsBelow(d: Dossier, state: ReleaseState)
    ensures Earned(d, state) ==> forall kind | kind in Requirements(state) :: kind in d.records
    decreases if state.CertificationStale? then 0 else Rank(state)
  {
    if Earned(d, state) && !state.Development? {
      EarnedRecordsBelow(d, Below(state));
    }
  }

  lemma SupportedBelow(d: Dossier, state: ReleaseState)
    requires !state.CertificationStale? && !state.Development?
    ensures Rank(Below(state)) < Rank(state)
    ensures Supported(d, state) <==> Supported(d, Below(state)) && Blockers(d, state) == []
  {
    hide Blockers;
    assert Ladder()[Rank(state)] == state;
    assert Rank(Below(state)) == Rank(state) - 1;
  }

  lemma OwnBlockers(d: Dossier, state: ReleaseState)
    ensures Blockers(d, state) == []
       <==> d.others(state) == [] && forall kind | kind in Requirements(state) :: kind in d.records
  {
    hide Requirements;
  }

  lemma NothingForDevelopment()
    ensures Requirements(Ladder()[0]) == []
  {
  }

  /** `derive_release_state`: the highest state that the evidence supports, up to the requested one. */
  method DeriveReleaseState(requested: ReleaseState, d: Dossier) returns (derived: ReleaseState, blockers: seq<Blocker>)
    ensures Supported(d, derived)
    ensures requested.CertificationStale? ==> derived.Development? && blockers == [NotRequestable]
    ensures !requested.CertificationStale? ==> Rank(derived) <= Rank(requested)
    ensures !requested.CertificationStale? && derived != requested ==>
              Blockers(d, Ladder()[Rank(derived) + 1]) != [] && ExceedsMaximum(derived) in blockers
    ensures derived == requested ==> blockers == Blockers(d, requested)
    ensures Earned(d, derived)
    ensures !requested.CertificationStale? && derived != requested ==> !Earned(d, Ladder()[Rank(derived) + 1])
    ensures !requested.CertificationStale? && Earned(d, requested) ==> derived == requested
  {
    hide Requirements, Blockers, Earned;
    SupportedIsEarned(d, Development);
    if requested.CertificationStale? {
      return Development, [NotRequestable];
    }
    var ordered := Ladder();
    var available := Development;
    for i := 1 to |ordered|
      invariant Supported(d, available) && Rank(available) == i - 1
    {
      RankOfLadder(i);
      if Blockers(d, ordered[i]) != [] {
        break;
      }
      available := ordered[i];
    }
    assert Rank(available) + 1 < |ordered| ==> Blockers(d, ordered[Rank(available) + 1]) != [];
    SupportedIsEarned(d, available);
    SupportedIsEarned(d, requested);
    if Rank(available) + 1 < |ordered| {
      SupportedIsEarned(d, ordered[Rank(available) + 1]);
      RankOfLadder(Rank(available) + 1);
      assert !Supported(d, ordered[Rank(available) + 1]);
    }
    var requestedBlockers := Blockers(d, requested);
    if Rank(requested) > Rank(available) {
      return available, requestedBlockers + [ExceedsMaximum(available)];
    }
    return requested, requestedBlockers;
  }

  // ---------- the revocation gate ----------

  /** The ledger of the candidate can be read, and the last event naming any category is not a REVOKE. */
  ghost predicate Unrevoked(store: Store, candidate: Binding)
    reads store
  {
    && candidate in store.ledgers
    && exists genesis, events ::
         && Healthy(store.crypto, candidate, store.ledgers[candidate], genesis, events)
         && forall x, i :: !LastNamingRevokes(events, |events|, x, i)
  }

  /** `candidate_revocation_gate` on the file-backed provider. */
  method CandidateGate(store: Option<Store>, candidate: Option<Binding>) returns (ready: bool)
    ensures ready <==> candidate.Some? && store.Some? && Unrevoked(store.value, candidate.value)
  {
    if candidate.None? || store.None? {
      return false;
    }
    ghost var genesis, events;
    var r: Result<StatePayload, Error>;
    r, genesis, events := store.value.ReadState(candidate.value);
    if r.Failure? {
      NotReadable(store.value, candidate.value);
      return false;
    }
    ReadMeansGate(store.value, candidate.value, genesis, events);
    ready := r.value.status != Revoked;
  }

  lemma NotReadable(store: Store, candidate: Binding)
    requires candidate !in store.ledgers || !Readable(store.crypto, candidate, store.ledgers[candidate])
    ensures !Unrevoked(store, candidate)
  {
    hide Healthy;
  }

  lemma ReadMeansGate(store: Store, candidate: Binding, genesis: StatePayload, events: seq<EventPayload>)
    requires candidate in store.ledgers && Healthy(store.crypto, candidate, store.ledgers[candidate], genesis, events)
    ensures Unrevoked(store, candidate) <==> LatestState(store.crypto, genesis, events).status != Revoked
  {
    hide ChainOk, Layout, LatestState, LastNamingRevokes;
    StatusMeaning(store.crypto, candidate, genesis, events);
    if Unrevoked(store, candidate) {
      var g, es :| Healthy(store.crypto, candidate, store.ledgers[candidate], g, es)
                   && forall x, i :: !LastNamingRevokes(es, |es|, x, i);
      LayoutIsInjective(store.crypto, candidate, store.ledgers[candidate], genesis, events, g, es);
    }
  }

  predicate Gated(state: ReleaseState) {
    state.PilotApproved? || state.ProductionCertified?
  }

  /**
   The label of `build_release_manifest`: the highest state up to the request that is earned, a pilot or production one
   only for a candidate whose ledger shows no active revocation. `more` are the evidence and champion blockers
   found besides.
   */
  method ReleaseLabel(requested: ReleaseState, d: Dossier, store: Option<Store>, candidate: Option<Binding>,
                      more: seq<Blocker>)
    returns (stage: ReleaseState, blockers: seq<Blocker>)
    ensures Supported(d, stage) && Earned(d, stage)
    ensures !requested.CertificationStale? ==> Rank(stage) <= Rank(requested)
    ensures stage == PilotApproved || stage == ProductionCertified ==>
              candidate.Some? && store.Some? && Unrevoked(store.value, candidate.value)
    ensures (requested == PilotApproved || requested == ProductionCertified)
            && !(candidate.Some? && store.Some? && Unrevoked(store.value, candidate.value)) ==>
              && RevocationGate in blockers && Rank(stage) <= Rank(InternalValidated)
              && stage in AtMostInternal()
    ensures stage == PilotApproved ==>
              {Runtime, HeavyRuntime, ModelValidation, ModelHighRiskStability, ModelHeldOut, InternalBilingual,
               ZeroKoreanComprehension, ModelDataPolicy, Security, Reliability, Governance} <= d.records
    ensures stage == ProductionCertified ==>
              {Runtime, HeavyRuntime, ModelValidation, ModelHighRiskStability, ModelHeldOut, InternalBilingual,
               ZeroKoreanComprehension, ModelDataPolicy, Security, Reliability, Governance, PilotCanary} <= d.records
    ensures !requested.CertificationStale? ==>
              forall s | Earned(d, s) && Rank(s) <= Rank(requested) ::
                || Rank(s) <= Rank(stage)
                || ((s == PilotApproved || s == ProductionCertified)
                    && !(candidate.Some? && store.Some? && Unrevoked(store.value, candidate.value)))
    ensures blockers == [] ==> stage == requested
    ensures forall blocker | blocker in more :: blocker in blockers
  {
    hide Supported, Unrevoked, Blockers, Requirements;
    hide Earned;
    stage, blockers := DeriveReleaseState(requested, d);
    NoneAbove(d, stage, requested);
    if Gated(requested) {
      var ready := CandidateGate(store, candidate);
      if !ready {
        blockers := blockers + [RevocationGate];
        if Gated(stage) {
          LowerIsSupported(d, stage);
          stage := InternalValidated;
        }
      }
    }
    blockers := blockers + more;
    SupportedIsEarned(d, stage);
    EarnedRecords(d, stage);
    RankedLow(stage);
  }

  lemma NoneAbove(d: Dossier, state: ReleaseState, requested: ReleaseState)
    requires !requested.CertificationStale? ==> Earned(d, state) && Rank(state) <= Rank(requested)
    requires !requested.CertificationStale? && state != requested ==> !Earned(d, Ladder()[Rank(state) + 1])
    ensures !requested.CertificationStale? ==>
              forall s | Earned(d, s) && Rank(s) <= Rank(requested) :: Rank(s) <= Rank(state)
  {
    hide Earned, Blockers;
    if !requested.CertificationStale? {
      SupportedIsEarned(d, state);
      forall s | Earned(d, s) && Rank(s) <= Rank(requested)
        ensures Rank(s) <= Rank(state)
      {
        SupportedIsEarned(d, s);
        if Rank(s) > Rank(state) {
          RankOfLadder(Rank(state) + 1);
          SupportedIsEarned(d, Ladder()[Rank(state) + 1]);
          assert false;
        }
      }
    }
  }

  function AtMostInternal(): set<ReleaseState> {
    {Development, RuntimeReady, GemmaEvalReady, SyntheticProductionCandidate, InternalValidated}
  }

  lemma RankedLow(state: ReleaseState)
    requires !state.CertificationStale?
    ensures Rank(state) <= Rank(InternalValidated) <==> state in AtMostInternal()
  {
  }

  /** All that a pilot or production label rests on. */
  lemma {:induction false} EarnedRecords(d: Dossier, state: ReleaseState)
    requires Earned(d, state)
    ensures state == PilotApproved || state == ProductionCertified ==>
              {Runtime, HeavyRuntime, ModelValidation, ModelHighRiskStability, ModelHeldOut, InternalBilingual,
               ZeroKoreanComprehension, ModelDataPolicy, Security, Reliability, Governance} <= d.records
    ensures state == ProductionCertified ==> PilotCanary in d.records
    decreases Rank(state)
  {
    if state == ProductionCertified {
      EarnedRecords(d, PilotApproved);
    } else if state == PilotApproved {
      EarnedBelow(d, PilotApproved);
      EarnedBelow(d, InternalValidated);
      EarnedBelow(d, SyntheticProductionCandidate);
      EarnedBelow(d, GemmaEvalReady);
    }
  }

  lemma EarnedBelow(d: Dossier, state: ReleaseState)
    ensures Earned(d, state) ==> Earned(d, Below(state))
  {
  }

  lemma LowerIsSupported(d: Dossier, state: ReleaseState)
    requires Supported(d, state) && Gated(state)
    ensures Supported(d, InternalValidated)
  {
    hide Blockers;
  }
}

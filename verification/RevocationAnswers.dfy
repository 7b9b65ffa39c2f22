/**
 What recording answers and stores, on the events themselves: which events are appended, what the answered status
 reports, and how a caller goes on from it.
 */
module RevocationAnswers {
  import opened Wrappers
  import opened RevocationModel
  import opened RevocationLedger
  import opened RevocationStore

  // ---------- states ----------

  /** Hash of the last event, if there is one. */
  function LastHash(c: Crypto, events: seq<EventPayload>): Option<string> {
    if events == [] then None else Some(c.sha(EventDoc(events[|events| - 1])))
  }

  ghost predicate IsActive(events: seq<EventPayload>, x: Category) {
    exists i: nat :: LastNamingRevokes(events, |events|, x, i)
  }

  /** The genesis payload, field by field. */
  lemma GenesisFields(candidate: Binding, now: int)
    ensures var s := InitialState(candidate, now);
            && s.schema == "1.0" && s.binding == candidate && s.revision == 0 && s.previousStateIdentity == None
            && s.eventIdentity == None && s.status == Clear && s.active == [] && s.actorRef == "deployment_authority"
            && s.authorityRef == "deployment_authority" && s.updatedAt == now && s.transitionId == "initial"
  {
  }

  /** A state after at least one event, field by field. */
  lemma StateFields(c: Crypto, candidate: Binding, genesis: StatePayload, events: seq<EventPayload>)
    requires ChainOk(c, candidate, genesis, events) && events != []
    ensures var s, e := LatestState(c, genesis, events), events[|events| - 1];
            && s.schema == "1.0" && s.binding == candidate && s.revision == |events|
            && s.previousStateIdentity == Some(c.sha(StateDoc(StateAt(c, genesis, events, |events| - 1))))
            && s.eventIdentity == Some(c.sha(EventDoc(e)))
            && s.actorRef == e.actorRef && s.authorityRef == e.authorityRef && s.updatedAt == e.occurredAt
            && s.transitionId == e.eventId
            && (forall x :: x in s.active <==> IsActive(events, x))
            && s.status == if exists x :: IsActive(events, x) then Revoked else Recovered
  {
    hide Elems, NextActive, Sorted, ChainOk, IsActive;
    LatestIsValid(c, candidate, genesis, events);
    LatestFacts(c, candidate, genesis, events);
    forall x
      ensures x in LatestState(c, genesis, events).active <==> IsActive(events, x)
    {
      ActiveNow(c, candidate, genesis, events, x);
    }
  }

  lemma ActiveNow(c: Crypto, candidate: Binding, genesis: StatePayload, events: seq<EventPayload>, x: Category)
    requires ChainOk(c, candidate, genesis, events)
    ensures x in LatestState(c, genesis, events).active <==> IsActive(events, x)
  {
    hide StateAt, ChainOk;
    ActiveMeaning(c, candidate, genesis, events, |events|, x);
  }

  lemma LatestFacts(c: Crypto, candidate: Binding, genesis: StatePayload, events: seq<EventPayload>)
    requires ChainOk(c, candidate, genesis, events)
    ensures var s := LatestState(c, genesis, events);
            && s.schema == "1.0" && s.binding == candidate && s.revision == |events|
            && !s.status.OtherStatus? && (s.status == Revoked <==> exists x :: IsActive(events, x))
            && (s.status == Clear <==> events == []) && s.eventIdentity == LastHash(c, events)
  {
    hide Elems, NextActive, Sorted, LastNamingRevokes, StateAt, LinkOk;
    LatestIsValid(c, candidate, genesis, events);
    StatusMeaning(c, candidate, genesis, events);
    if x, i: nat :| LastNamingRevokes(events, |events|, x, i) {
      assert IsActive(events, x);
    }
  }

  // ---------- files ----------

  function SignedBy(c: Crypto, doc: Doc): File {
    Signed(doc, c.mac(doc))
  }

  /** The files of a ledger, one by one. */
  lemma LedgerFiles(c: Crypto, candidate: Binding, genesis: StatePayload, events: seq<EventPayload>)
    requires ChainOk(c, candidate, genesis, events)
    ensures var d, latest := Layout(c, candidate, genesis, events), LatestState(c, genesis, events);
            && d.genesis == SignedBy(c, StateDoc(genesis)) && d.state == SignedBy(c, StateDoc(latest))
            && d.head == SignedBy(c, HeadDoc(HeadPayload("1.0", c.sha(BindingDoc(candidate)), |events|,
                                                         c.sha(StateDoc(latest)))))
            && (forall n :: n in d.history <==> n.Rev? && 1 <= n.n <= |events|)
            && forall k: nat | 1 <= k <= |events| :: d.history[Rev(k)] == SignedBy(c, EventDoc(events[k - 1]))
  {
    hide ChainOk, StateAt;
    LatestIsValid(c, candidate, genesis, events);
  }

  // ---------- what is appended ----------

  /** The authority that may revoke for a reason. */
  predicate MayRevoke(x: Category, authority: string) {
    || (authority == "security_authority"
        && (x.SecurityIncident? || x.CredentialLeakage? || x.TenantIsolationFailure? || x.CriticalVulnerability?))
    || (authority == "privacy_authority" && (x.PrivacyIncident? || x.MaterialDataUsePolicyChange?))
    || (authority == "quality_authority" && x.CriticalSemanticDefect?)
    || (authority == "deployment_authority" && x.ProviderModelConfigDrift?)
    || (authority == "release_authority" && x.BrokenEvidenceIdentity?)
  }

  /** One reason under its own authority, or a requalified recovery. */
  predicate Authorised(e: EventPayload) {
    match e.action
    case Revoke => |e.reasons| == 1 && MayRevoke(e.reasons[0], e.authorityRef)
    case Recover => e.authorityRef == "qualification_authority" && e.evidenceKind == RequalificationAttestation
    case OtherAction(_) => false
  }

  /** The fields of an event that have nothing to do with the ledger. */
  predicate WellFormed(e: EventPayload) {
    && e.schema == "1.0" && ValidBinding(e.binding)
    && IsRef(e.actorRef) && IsRef(e.authorityRef) && IsRef(e.eventId) && |e.eventId| <= 55
    && e.reasons != [] && Canonical(e.reasons) && !e.evidenceKind.OtherKind? && IsHex64(e.evidenceIdentity)
  }

  function LastTime(genesis: StatePayload, events: seq<EventPayload>): int {
    if events == [] then genesis.updatedAt else events[|events| - 1].occurredAt
  }

  /** The event names the ledger as it stands, comes no earlier than the last one, and recovers active reasons only. */
  ghost predicate Appendable(c: Crypto, genesis: StatePayload, events: seq<EventPayload>, e: EventPayload, now: int) {
    && WellFormed(e) && Authorised(e)
    && (forall i | 0 <= i < |events| :: events[i].eventId != e.eventId)
    && e.expectedRevision == |events| && e.revision == |events| + 1
    && e.expectedStateIdentity == c.sha(StateDoc(LatestState(c, genesis, events)))
    && e.previousEventIdentity == LastHash(c, events)
    && LastTime(genesis, events) <= e.occurredAt <= now
    && (e.action.Recover? ==> forall x | x in e.reasons :: IsActive(events, x))
  }

  lemma ValidMeansWellFormed(e: EventPayload, now: int)
    ensures ValidEvent(e, e.binding, Some(now)) <==>
            && WellFormed(e) && Authorised(e) && 0 <= e.expectedRevision && e.revision == e.expectedRevision + 1
            && IsHex64(e.expectedStateIdentity)
            && (e.previousEventIdentity.Some? ==> IsHex64(e.previousEventIdentity.value)) && e.occurredAt <= now
  {
    hide IsRef, IsHex64, Canonical, ValidBinding;
  }

  lemma ExtendsMeansNames(c: Crypto, candidate: Binding, genesis: StatePayload, events: seq<EventPayload>,
                          e: EventPayload)
    requires ChainOk(c, candidate, genesis, events)
    ensures Extends(c, LatestState(c, genesis, events), IdentityBefore(c, events, |events|), e) <==>
            && e.expectedRevision == |events| && e.revision == |events| + 1
            && e.expectedStateIdentity == c.sha(StateDoc(LatestState(c, genesis, events)))
            && e.previousEventIdentity == LastHash(c, events)
            && LastTime(genesis, events) <= e.occurredAt
            && (e.action.Recover? ==> forall x | x in e.reasons :: IsActive(events, x))
  {
    hide ChainOk, IsActive, StateAt;
    var latest := LatestState(c, genesis, events);
    LatestIsValid(c, candidate, genesis, events);
    TimeOfLatest(c, candidate, genesis, events);
    forall x
      ensures x in latest.active <==> IsActive(events, x)
    {
      ActiveNow(c, candidate, genesis, events, x);
    }
    assert Elems(e.reasons) <= Elems(latest.active) <==> forall x | x in e.reasons :: x in latest.active by {
      assert forall x :: x in e.reasons <==> x in Elems(e.reasons);
      assert forall x :: x in latest.active <==> x in Elems(latest.active);
    }
  }

  lemma TimeOfLatest(c: Crypto, candidate: Binding, genesis: StatePayload, events: seq<EventPayload>)
    requires ChainOk(c, candidate, genesis, events)
    ensures LatestState(c, genesis, events).updatedAt == LastTime(genesis, events)
  {
    hide Elems, NextActive, Sorted, ChainOk;
  }

  /** Recording appends exactly the events that name the ledger as it stands. */
  lemma AdmitsExactly(c: Crypto, genesis: StatePayload, events: seq<EventPayload>, e: EventPayload, now: int)
    requires ChainOk(c, e.binding, genesis, events)
    ensures Admits(c, e.binding, genesis, events, e, now) <==> Appendable(c, genesis, events, e, now)
  {
    hide ChainOk, Extends, ValidEvent, WellFormed, Authorised, IsActive, LatestState, IsHex64;
    ValidMeansWellFormed(e, now);
    ExtendsMeansNames(c, e.binding, genesis, events, e);
    HashesAreHex(c, genesis, events);
  }

  lemma HashesAreHex(c: Crypto, genesis: StatePayload, events: seq<EventPayload>)
    ensures IsHex64(c.sha(StateDoc(LatestState(c, genesis, events))))
    ensures LastHash(c, events).Some? ==> IsHex64(LastHash(c, events).value)
  {
    hide IsHex64, LatestState;
  }

  // ---------- what is answered ----------

  /** The status describes the ledger after `events`. */
  ghost predicate Reports(c: Crypto, candidate: Binding, genesis: StatePayload, events: seq<EventPayload>,
                          s: CandidateStatus)
  {
    && s.binding == candidate && s.revision == |events|
    && s.stateIdentity == c.sha(StateDoc(LatestState(c, genesis, events)))
    && s.eventIdentity == LastHash(c, events)
    && (forall x :: x in s.active <==> IsActive(events, x))
    && s.status == if exists x :: IsActive(events, x) then Revoked else if events == [] then Clear else Recovered
  }

  lemma StatusReports(c: Crypto, candidate: Binding, genesis: StatePayload, events: seq<EventPayload>)
    requires ChainOk(c, candidate, genesis, events)
    ensures Reports(c, candidate, genesis, events, StatusOf(c, LatestState(c, genesis, events)))
  {
    hide ChainOk, IsActive, LatestState, LastHash;
    LatestFacts(c, candidate, genesis, events);
    forall x
      ensures x in LatestState(c, genesis, events).active <==> IsActive(events, x)
    {
      ActiveNow(c, candidate, genesis, events, x);
    }
  }

  /**
   What recording answers: a recorded event is a duplicate and the ledger is reported as it stands; an event that can
   be appended is, and the ledger is reported with it (or as it stands, if the call only validates); everything else
   is refused.
   */
  lemma AnswerMeaning(c: Crypto, genesis: StatePayload, events: seq<EventPayload>, e: EventPayload, now: int,
                      validateOnly: bool, r: Result<Recorded, Error>)
    requires ChainOk(c, e.binding, genesis, events) && UniqueIds(events)
    requires Answers(c, genesis, events, e, now, validateOnly, r)
    ensures r.Success? <==> e in events || Appendable(c, genesis, events, e, now)
    ensures r.Success? && e in events ==> r.value.duplicate && Reports(c, e.binding, genesis, events, r.value.status)
    ensures r.Success? && e !in events && validateOnly ==>
              !r.value.duplicate && Reports(c, e.binding, genesis, events, r.value.status)
    ensures r.Success? && e !in events && !validateOnly ==>
              && !r.value.duplicate && Reports(c, e.binding, genesis, events + [e], r.value.status)
              && r.value.status.eventIdentity == Some(c.sha(EventDoc(e))) && r.value.status.revision == e.revision
    ensures AfterSubmit(c, e.binding, genesis, events, e, now) ==
            if e !in events && Appendable(c, genesis, events, e, now) then events + [e] else events
  {
    hide ChainOk, Admits, Appendable, IsActive, LatestState, Reports;
    AdmitsExactly(c, genesis, events, e, now);
    UsedMeansRefused(c, genesis, events, e, now);
    StatusReports(c, e.binding, genesis, events);
    if Admits(c, e.binding, genesis, events, e, now) {
      AdmitsExtends(c, e.binding, genesis, events, e, now);
      StatusReports(c, e.binding, genesis, events + [e]);
      ReportedLast(c, e.binding, genesis, events, e, StatusOf(c, LatestState(c, genesis, events + [e])));
      NamesRevision(c, genesis, events, e, now);
    }
    if e in events {
      NoRival(events, e);
    }
  }

  lemma NoRival(events: seq<EventPayload>, e: EventPayload)
    requires UniqueIds(events) && e in events
    ensures forall i | 0 <= i < |events| && events[i].eventId == e.eventId :: events[i] == e
  {
    var j :| 0 <= j < |events| && events[j] == e;
    forall i | 0 <= i < |events| && events[i].eventId == e.eventId
      ensures i == j
    {
      assert i < j || j < i || i == j;
    }
  }

  lemma NamesRevision(c: Crypto, genesis: StatePayload, events: seq<EventPayload>, e: EventPayload, now: int)
    requires Appendable(c, genesis, events, e, now)
    ensures e.revision == |events| + 1 && e !in events
  {
    hide WellFormed, Authorised, IsActive, LatestState;
  }

  lemma ReportedLast(c: Crypto, candidate: Binding, genesis: StatePayload, events: seq<EventPayload>, e: EventPayload,
                     s: CandidateStatus)
    requires Reports(c, candidate, genesis, events + [e], s)
    ensures s.eventIdentity == Some(c.sha(EventDoc(e))) && s.revision == |events| + 1
  {
    hide IsActive, LatestState;
  }

  lemma UsedMeansRefused(c: Crypto, genesis: StatePayload, events: seq<EventPayload>, e: EventPayload, now: int)
    ensures e in events ==> KnownId(events, e.eventId)
    ensures KnownId(events, e.eventId) ==> !Admits(c, e.binding, genesis, events, e, now)
  {
    hide ValidEvent, Extends, LatestState;
  }

  /**
   A caller goes on from the status it was answered: an event with a fresh ID that copies revision, state identity and
   event identity from it, and comes no earlier than the last one, is appended by the next recording.
   */
  lemma NextIsAppended(c: Crypto, genesis: StatePayload, events: seq<EventPayload>, s: CandidateStatus,
                       e: EventPayload, now: int, r: Result<Recorded, Error>)
    requires ChainOk(c, e.binding, genesis, events) && UniqueIds(events) && Reports(c, e.binding, genesis, events, s)
    requires WellFormed(e) && Authorised(e) && LastTime(genesis, events) <= e.occurredAt <= now
    requires forall i | 0 <= i < |events| :: events[i].eventId != e.eventId
    requires e.expectedRevision == s.revision && e.revision == s.revision + 1
    requires e.expectedStateIdentity == s.stateIdentity && e.previousEventIdentity == s.eventIdentity
    requires e.action.Recover? ==> forall x | x in e.reasons :: x in s.active
    requires Answers(c, genesis, events, e, now, false, r)
    ensures r.Success? && !r.value.duplicate && Reports(c, e.binding, genesis, events + [e], r.value.status)
    ensures AfterSubmit(c, e.binding, genesis, events, e, now) == events + [e]
  {
    hide ChainOk, WellFormed, Authorised, IsActive, LatestState, Answers;
    assert Appendable(c, genesis, events, e, now);
    AnswerMeaning(c, genesis, events, e, now, false, r);
  }
}

/**
 The records of the candidate revocation ledger and the checks made on one record at a time
 (src/k_slide/candidate_revocation.py). Canonical JSON is the identity on records, so a record is its own
 encoding; SHA-256 and the keyed HMAC are arbitrary functions carried by `Crypto`. A JSON object whose field set
 is not the expected one is an `OtherDoc`.
 */
module RevocationModel {
  import opened Wrappers

  const SCHEMA := "1.0"
  const QUALIFICATION_AUTHORITY := "qualification_authority"
  const DEPLOYMENT_AUTHORITY := "deployment_authority"
  const MAX_EVENT_ID := 55

  datatype Action = Revoke | Recover | OtherAction(name: string)

  /** Declared in the alphabetical order of the category names. */
  datatype Category =
    | BrokenEvidenceIdentity
    | CredentialLeakage
    | CriticalSemanticDefect
    | CriticalVulnerability
    | MaterialDataUsePolicyChange
    | PrivacyIncident
    | ProviderModelConfigDrift
    | SecurityIncident
    | TenantIsolationFailure
    | OtherCategory(name: string)

  const CATEGORIES := [
    BrokenEvidenceIdentity, CredentialLeakage, CriticalSemanticDefect, CriticalVulnerability,
    MaterialDataUsePolicyChange, PrivacyIncident, ProviderModelConfigDrift, SecurityIncident, TenantIsolationFailure
  ]

  datatype EvidenceKind =
    | IncidentRecord
    | SecurityAdvisory
    | PolicyChangeRecord
    | EvidenceIdentityRecord
    | RequalificationAttestation
    | OtherKind(name: string)

  datatype Status = Clear | Revoked | Recovered | OtherStatus(name: string)

  datatype Binding = Binding(subject: string, deployment: string, environment: string)

  datatype EventPayload = EventPayload(
    schema: string,
    action: Action,
    binding: Binding,
    actorRef: string,
    authorityRef: string,
    eventId: string,
    expectedRevision: int,
    revision: int,
    expectedStateIdentity: string,
    previousEventIdentity: Option<string>,
    occurredAt: int,
    reasons: seq<Category>,
    evidenceKind: EvidenceKind,
    evidenceIdentity: string)

  datatype StatePayload = StatePayload(
    schema: string,
    binding: Binding,
    revision: int,
    previousStateIdentity: Option<string>,
    eventIdentity: Option<string>,
    status: Status,
    active: seq<Category>,
    actorRef: string,
    authorityRef: string,
    updatedAt: int,
    transitionId: string)

  datatype HeadPayload = HeadPayload(schema: string, bindingIdentity: string, revision: int, stateIdentity: string)

  datatype Doc =
    | EventDoc(event: EventPayload)
    | StateDoc(state: StatePayload)
    | HeadDoc(head: HeadPayload)
    | BindingDoc(binding: Binding)
    | OtherDoc(text: string)

  predicate IsLowerHex(s: string) {
    forall i | 0 <= i < |s| :: '0' <= s[i] <= '9' || 'a' <= s[i] <= 'f'
  }

  predicate IsHex64(s: string) {
    |s| == 64 && IsLowerHex(s)
  }

  predicate IsRef(s: string) {
    && 1 <= |s| <= 64
    && 'a' <= s[0] <= 'z'
    && forall i | 1 <= i < |s| ::
         'a' <= s[i] <= 'z' || '0' <= s[i] <= '9' || s[i] == '_' || s[i] == '.' || s[i] == '-'
  }

  /** What SHA-256 yields: 64 lower-case hexadecimal digits. */
  type Digest = s: string | IsHex64(s) witness seq(64, i => '0')

  /** `mac` is the HMAC under the authority key of the deployment. */
  datatype Crypto = Crypto(sha: Doc -> Digest, mac: Doc -> string)

  /** A file that cannot be read, parsed or unwrapped as payload and signature is `Unusable`. */
  datatype File = Unusable | Signed(payload: Doc, signature: string)

  function Sign(c: Crypto, doc: Doc): File {
    Signed(doc, c.mac(doc))
  }

  predicate Verified(c: Crypto, f: File) {
    f.Signed? && f.signature == c.mac(f.payload)
  }

  function StateId(c: Crypto, s: StatePayload): Digest {
    c.sha(StateDoc(s))
  }

  function EventIdentity(c: Crypto, e: EventPayload): Digest {
    c.sha(EventDoc(e))
  }

  function BindingId(c: Crypto, b: Binding): Digest {
    c.sha(BindingDoc(b))
  }

  predicate ValidBinding(b: Binding) {
    |b.subject| == 40 && IsLowerHex(b.subject) && IsHex64(b.deployment) && IsHex64(b.environment)
  }

  // ---------- category lists ----------

  function Elems(cs: seq<Category>): set<Category> {
    set x | x in cs
  }

  function Filter(order: seq<Category>, s: set<Category>): seq<Category>
    decreases |order|, s
  {
    if order == [] then []
    else (if order[0] in s then [order[0]] else []) + Filter(order[1..], s)
  }

  /** `sorted(s)` for a set of known categories. */
  function Sorted(s: set<Category>): seq<Category> {
    Filter(CATEGORIES, s)
  }

  /** A duplicate-free alphabetical list of known categories. */
  predicate Canonical(cs: seq<Category>) {
    cs == Sorted(Elems(cs))
  }

  function ReasonAuthority(c: Category): Option<string> {
    match c
    case CriticalSemanticDefect => Some("quality_authority")
    case SecurityIncident => Some("security_authority")
    case PrivacyIncident => Some("privacy_authority")
    case CredentialLeakage => Some("security_authority")
    case TenantIsolationFailure => Some("security_authority")
    case ProviderModelConfigDrift => Some("deployment_authority")
    case BrokenEvidenceIdentity => Some("release_authority")
    case MaterialDataUsePolicyChange => Some("privacy_authority")
    case CriticalVulnerability => Some("security_authority")
    case OtherCategory(_) => None
  }

  lemma {:induction false} FilterElems(order: seq<Category>, s: set<Category>)
    ensures Elems(Filter(order, s)) == Elems(order) * s
  {
    if order != [] {
      FilterElems(order[1..], s);
      assert order == [order[0]] + order[1..];
      assert forall x :: x in Filter(order, s) <==> (x == order[0] && x in s) || x in Filter(order[1..], s);
      assert forall x :: x in order <==> x == order[0] || x in order[1..];
      forall x
        ensures x in Elems(Filter(order, s)) <==> x in Elems(order) * s
      {
        assert x in Filter(order[1..], s) <==> x in Elems(Filter(order[1..], s));
      }
    }
  }

  /** Sorting a set of known categories loses nothing and yields a canonical list. */
  lemma SortedIsCanonical(s: set<Category>)
    requires s <= Elems(CATEGORIES)
    ensures Elems(Sorted(s)) == s && Canonical(Sorted(s))
  {
    FilterElems(CATEGORIES, s);
    assert Elems(CATEGORIES) * s == s;
  }

  lemma CanonicalIsKnown(cs: seq<Category>)
    requires Canonical(cs)
    ensures Elems(cs) <= Elems(CATEGORIES)
  {
    FilterElems(CATEGORIES, Elems(cs));
  }

  // ---------- checks on one record ----------

  /** `now` is absent in a replay, which accepts any time up to the end of the calendar. */
  predicate ValidEvent(e: EventPayload, candidate: Binding, now: Option<int>) {
    && e.schema == SCHEMA
    && e.binding == candidate && ValidBinding(candidate)
    && !e.action.OtherAction?
    && IsRef(e.actorRef) && IsRef(e.authorityRef) && IsRef(e.eventId) && |e.eventId| <= MAX_EVENT_ID
    && 0 <= e.expectedRevision && e.revision == e.expectedRevision + 1
    && IsHex64(e.expectedStateIdentity)
    && (e.previousEventIdentity.Some? ==> IsHex64(e.previousEventIdentity.value))
    && (now.Some? ==> e.occurredAt <= now.value)
    && e.reasons != [] && Canonical(e.reasons)
    && (e.action.Revoke? ==> |e.reasons| == 1 && ReasonAuthority(e.reasons[0]) == Some(e.authorityRef))
    && (e.action.Recover? ==> e.authorityRef == QUALIFICATION_AUTHORITY)
    && !e.evidenceKind.OtherKind? && IsHex64(e.evidenceIdentity)
    && (e.action.Recover? ==> e.evidenceKind.RequalificationAttestation?)
  }

  predicate ValidState(s: StatePayload, candidate: Binding) {
    && s.schema == SCHEMA
    && s.binding == candidate && ValidBinding(candidate)
    && 0 <= s.revision
    && (s.revision == 0 ==>
          s.previousStateIdentity.None? && s.eventIdentity.None? && s.status == Clear && s.active == [])
    && (s.revision > 0 ==>
          && s.previousStateIdentity.Some? && IsHex64(s.previousStateIdentity.value)
          && s.eventIdentity.Some? && IsHex64(s.eventIdentity.value))
    && Canonical(s.active)
    && !s.status.OtherStatus? && (s.status == Revoked <==> s.active != [])
    && (s.revision > 0 ==> s.status != Clear)
    && IsRef(s.actorRef) && IsRef(s.authorityRef) && IsRef(s.transitionId)
  }

  function InitialState(candidate: Binding, now: int): StatePayload {
    StatePayload(
      SCHEMA, candidate, 0, None, None, Clear, [], DEPLOYMENT_AUTHORITY, DEPLOYMENT_AUTHORITY, now, "initial")
  }

  function HeadOf(c: Crypto, candidate: Binding, s: StatePayload): HeadPayload {
    HeadPayload(SCHEMA, BindingId(c, candidate), s.revision, StateId(c, s))
  }

  /** The typed status handed to callers (`CandidateRevocationStatus`). */
  datatype CandidateStatus = CandidateStatus(
    binding: Binding, stateIdentity: string, revision: int, status: Status,
    active: seq<Category>, eventIdentity: Option<string>)
  {
    predicate Valid(candidate: Binding) {
      && binding == candidate
      && IsHex64(stateIdentity)
      && 0 <= revision
      && !status.OtherStatus?
      && (revision == 0 ==> eventIdentity.None? && status == Clear && active == [])
      && (revision > 0 ==> eventIdentity.Some? && IsHex64(eventIdentity.value))
      && Canonical(active)
      && (status == Revoked <==> active != [])
      && (revision > 0 ==> status != Clear)
    }
  }

  function StatusOf(c: Crypto, s: StatePayload): CandidateStatus {
    CandidateStatus(s.binding, StateId(c, s), s.revision, s.status, s.active, s.eventIdentity)
  }

  lemma {:induction false} FilterOfNothing(order: seq<Category>)
    ensures Filter(order, {}) == []
  {
    if order != [] {
      FilterOfNothing(order[1..]);
    }
  }

  lemma LettersAreRefs(s: string)
    requires 1 <= |s| <= 64 && forall i | 0 <= i < |s| :: 'a' <= s[i] <= 'z' || s[i] == '_'
    requires s[0] != '_'
    ensures IsRef(s)
  {
  }

  lemma GenesisRefs()
    ensures IsRef(DEPLOYMENT_AUTHORITY) && IsRef("initial")
  {
    LettersAreRefs("initial");
    var d := DEPLOYMENT_AUTHORITY;
    assert d == "deployment" + "_" + "authority";
    LettersAreRefs(d);
  }

  lemma InitialStateIsValid(candidate: Binding, now: int)
    requires ValidBinding(candidate)
    ensures ValidState(InitialState(candidate, now), candidate) && InitialState(candidate, now).revision == 0
  {
    GenesisRefs();
    FilterOfNothing(CATEGORIES);
    var none: seq<Category> := [];
    assert Elems(none) == {};
  }
}

/**
 The contract document around the ledger, and the release payload derived from it: what the header must say, what is
 put into a payload, and what a payload must agree with to be accepted.
 */
module BilingualPayload {
  import opened Wrappers
  import opened BilingualReview
  import opened BilingualWorks
  import opened BilingualChecker
  import opened BilingualMeaning

  const REVIEW_VERSION := "1.0"
  const PRIVATE_EVALUATION := "private_evaluation"
  const TOLERANCE: real := 0.000000000001

  datatype Item = Item(itemId: string, sourceSha: string, goldSha: string, active: bool)

  datatype Manifest = Manifest(role: string, items: seq<Item>)

  datatype PolicyRecord = PolicyRecord(identity: string, content: string)

  /** Corpus manifest and set identity are documents that the governance functions read. */
  datatype Document = Document(
    version: string, subject: string, deployment: string, purpose: string, manifest: string, setIdentity: string,
    policy: PolicyRecord, works: seq<Work>, reviews: seq<Review>, assistance: seq<Assistance>,
    adjudications: seq<Adjudication>, decisions: seq<Decision>)

  /** Hash functions, governance of corpora (which may raise), and the policy in force. */
  datatype Governance = Governance(
    manifest: string -> Option<Manifest>, manifestIdentity: Manifest -> string,
    consumed: (string, string) -> Option<string>, setDigest: string -> string, contractDigest: Document -> string,
    itemDigest: (string, string, string) -> string, reviewDigest: Review -> string,
    assistanceDigest: Assistance -> string, adjudicationDigest: Adjudication -> string, policy: PolicyRecord,
    policyIdentity: string)

  predicate IsCommit(s: string) {
    |s| == 40 && forall k | 0 <= k < |s| :: '0' <= s[k] <= '9' || 'a' <= s[k] <= 'f'
  }

  // ---------- the contract document ----------

  /** The active items of a manifest by identity; the last one of an identity counts. */
  function Active(items: seq<Item>): map<string, (string, string)> {
    if items == [] then map[]
    else
      var rest, last := Active(items[..|items| - 1]), items[|items| - 1];
      if last.active then rest[last.itemId := (last.sourceSha, last.goldSha)] else rest
  }

  /** Item `k` is the last active item of its identity. */
  ghost predicate LastActive(items: seq<Item>, k: nat) {
    k < |items| && items[k].active
    && forall j | k < j < |items| && items[j].active :: items[j].itemId != items[k].itemId
  }

  /** An identity is bound to the hashes of its last active item, and only active items are bound. */
  lemma {:induction false} ActiveMeaning(items: seq<Item>, id: string, source: string, gold: string)
    ensures id in Active(items) && Active(items)[id] == (source, gold) <==>
            exists k: nat :: LastActive(items, k) && items[k] == Item(id, source, gold, true)
  {
    if items != [] {
      var front, last := items[..|items| - 1], items[|items| - 1];
      var n: nat := |front|;
      ActiveMeaning(front, id, source, gold);
      forall k: nat | k < n
        ensures LastActive(items, k) <==> LastActive(front, k) && !(last.active && last.itemId == items[k].itemId)
      {
        LastActiveStep(items, k);
      }
      if last.active && last.itemId == id {
        assert LastActive(items, n);
      } else if k: nat :| LastActive(front, k) && front[k] == Item(id, source, gold, true) {
        assert items[k] == front[k] && LastActive(items, k);
      }
      if k: nat :| LastActive(items, k) && items[k] == Item(id, source, gold, true) {
        assert k < n ==> front[k] == items[k];
      }
    }
  }

  lemma LastActiveStep(items: seq<Item>, k: nat)
    requires k + 1 < |items|
    ensures var front, last := items[..|items| - 1], items[|items| - 1];
            LastActive(items, k) <==> LastActive(front, k) && !(last.active && last.itemId == items[k].itemId)
  {
    var front := items[..|items| - 1];
    assert forall j | 0 <= j < |front| :: front[j] == items[j];
  }

  /** Each work unit of an accepted document is bound to the last active item of its identity in the manifest. */
  lemma BoundToActive(g: Governance, d: Document, work: Work)
    requires DocumentOk(g, d) && work in d.works
    ensures g.manifest(d.manifest).Some?
    ensures var items := g.manifest(d.manifest).value.items;
            exists k: nat :: LastActive(items, k) && items[k] == Item(work.itemId, work.sourceSha, work.goldSha, true)
  {
    hide LastActive, Active;
    var manifest := g.manifest(d.manifest).value;
    WorkBound(ContextOf(g, manifest), ContractOf(g, d), work);
    ActiveMeaning(manifest.items, work.itemId, work.sourceSha, work.goldSha);
  }

  lemma WorkBound(ctx: Context, c: Contract, work: Work)
    requires Acceptable(ctx, c) && work in c.works
    ensures work.itemId in ctx.active && ctx.active[work.itemId] == (work.sourceSha, work.goldSha)
  {
    hide Slots, TruthsApart, RecordsOk, AssistanceOk, AdjudicationsOk, Decisions, AllPaired;
    assert WorkOk(ctx, work);
  }

  function ContextOf(g: Governance, manifest: Manifest): Context {
    Context(g.itemDigest, g.reviewDigest, g.assistanceDigest, g.adjudicationDigest, Active(manifest.items))
  }

  function ContractOf(g: Governance, d: Document): Contract {
    Contract(Header(d.subject, d.deployment, g.setDigest(d.setIdentity), d.purpose, d.policy.identity),
             d.works, d.reviews, d.assistance, d.adjudications, d.decisions)
  }

  /** The header is well formed, for the policy in force, and set identity and manifest speak of one private corpus. */
  ghost predicate HeaderOk(g: Governance, d: Document) {
    && d.version == REVIEW_VERSION && IsCommit(d.subject) && IsHash(d.deployment) && d.purpose == PRIVATE_EVALUATION
    && d.policy == g.policy
    && g.manifest(d.manifest).Some?
    && g.manifest(d.manifest).value.role == "private_representative"
    && g.consumed(d.setIdentity, d.purpose) == Some(g.manifestIdentity(g.manifest(d.manifest).value))
  }

  ghost predicate DocumentOk(g: Governance, d: Document) {
    HeaderOk(g, d) && Acceptable(ContextOf(g, g.manifest(d.manifest).value), ContractOf(g, d))
  }

  /** `_validate_contract`: the header, then the ledger. */
  method ValidateDocument(g: Governance, d: Document) returns (r: Option<Measures>)
    ensures r.Some? <==> DocumentOk(g, d)
    ensures r.Some? ==> r.value.decisions == d.decisions && Measured(d.decisions, r.value.counts, r.value.rates)
  {
    hide Acceptable, Measured, IsHash, IsCommit;
    if d.version != REVIEW_VERSION || !IsCommit(d.subject) || !IsHash(d.deployment) || d.purpose != PRIVATE_EVALUATION {
      return None;
    }
    var manifest, identity := g.manifest(d.manifest), g.consumed(d.setIdentity, d.purpose);
    if manifest.None? || identity.None? {
      return None;
    }
    if manifest.value.role != "private_representative" || identity.value != g.manifestIdentity(manifest.value) {
      return None;
    }
    if d.policy != g.policy {
      return None;
    }
    r := ValidateContract(ContextOf(g, manifest.value), ContractOf(g, d));
    if r.Some? {
      OwnDecisions(ContextOf(g, manifest.value), ContractOf(g, d));
    }
  }

  /** The header of an accepted document, field by field. */
  lemma AcceptedHeader(g: Governance, d: Document)
    requires DocumentOk(g, d)
    ensures d.version == "1.0" && d.purpose == "private_evaluation" && |d.subject| == 40 && |d.deployment| == 64
    ensures d.policy == g.policy && g.manifest(d.manifest).Some?
    ensures var manifest := g.manifest(d.manifest).value;
            && manifest.role == "private_representative"
            && g.consumed(d.setIdentity, d.purpose) == Some(g.manifestIdentity(manifest))
  {
    hide Acceptable;
  }

  lemma OwnDecisions(ctx: Context, c: Contract)
    requires Acceptable(ctx, c)
    ensures (PairsOfReviews(ctx, c); Decisions(c)) == c.decisions
  {
    hide WorksOk, AssistanceOk, RecordsOk, Decisions;
  }

  // ---------- the payload ----------

  /** A metric of a payload. `NoFigure` is what is no number, or infinite. */
  datatype Figure = Figure(value: real) | NaN | NoFigure

  datatype Payload = Payload(
    attestation: string, version: string, document: Document, setIdentity: string, purpose: string, artifacts: int,
    workUnits: int, metrics: map<Metric, Figure>, policy: PolicyRecord, policyIdentity: string)

  function Artifacts(works: seq<Work>): set<string> {
    set work | work in works :: work.artifactId
  }

  /** What the decisions say about a metric: a count of errors, or the share of correct outcomes. */
  ghost function MetricOf(decisions: seq<Decision>, m: Metric): real {
    if Critical(m) then Tally(decisions, m, Incorrect) as real
    else if Tally(decisions, m, Correct) + Tally(decisions, m, Incorrect) > 0 then Rate(decisions, m) else 0.0
  }

  predicate Near(v: Figure, expected: real) {
    v.Figure? && -TOLERANCE <= v.value - expected <= TOLERANCE
  }

  /** The difference is not greater than the tolerance; no comparison with NaN holds, so NaN passes. */
  predicate Tolerated(v: Figure, expected: real) {
    v.NaN? || Near(v, expected)
  }

  /** Everything in the payload but the metrics. */
  predicate Summarises(g: Governance, p: Payload) {
    && p.attestation == g.contractDigest(p.document) && p.version == REVIEW_VERSION
    && p.setIdentity == p.document.setIdentity && p.purpose == p.document.purpose
    && p.artifacts == |Artifacts(p.document.works)| && p.workUnits == |p.document.works|
    && p.policy == g.policy && p.policyIdentity == g.policyIdentity
  }

  /** A payload of an acceptable contract, with the metrics of its decisions wherever a metric is a number. */
  ghost predicate PayloadOk(g: Governance, p: Payload) {
    && DocumentOk(g, p.document) && Summarises(g, p) && p.metrics.Keys == AllMetrics()
    && forall m | m in AllMetrics() :: Tolerated(p.metrics[m], MetricOf(p.document.decisions, m))
  }

  lemma MeasuredMetrics(decisions: seq<Decision>, counts: map<Metric, nat>, rates: map<Metric, real>, m: Metric)
    requires Measured(decisions, counts, rates)
    ensures m in counts <==> m in AllMetrics() && Critical(m)
    ensures m in rates <==> m in AllMetrics() && !Critical(m)
    ensures m in counts ==> counts[m] as real == MetricOf(decisions, m)
    ensures m in rates ==> rates[m] == MetricOf(decisions, m)
  {
    hide Tally;
  }

  /** `validate_internal_bilingual_payload`. */
  method ValidatePayload(g: Governance, p: Payload) returns (ok: bool)
    requires forall d :: IsHash(g.contractDigest(d))
    ensures ok <==> PayloadOk(g, p)
  {
    hide DocumentOk, Measured, IsHash, Artifacts, AllMetrics, MetricOf, Tolerated;
    if p.metrics.Keys != AllMetrics() || !IsHash(p.attestation) || p.version != REVIEW_VERSION {
      return false;
    }
    if p.policy != g.policy || p.policyIdentity != g.policyIdentity {
      return false;
    }
    var measures := ValidateDocument(g, p.document);
    if measures.None? {
      return false;
    }
    if p.attestation != g.contractDigest(p.document) {
      return false;
    }
    if p.setIdentity != p.document.setIdentity || p.purpose != p.document.purpose {
      return false;
    }
    if p.artifacts != |Artifacts(p.document.works)| || p.workUnits != |p.document.works| {
      return false;
    }
    var counts, rates := measures.value.counts, measures.value.rates;
    forall m: Metric
      ensures m in counts <==> m in AllMetrics() && Critical(m)
      ensures m in rates <==> m in AllMetrics() && !Critical(m)
      ensures m in counts ==> counts[m] as real == MetricOf(p.document.decisions, m)
      ensures m in rates ==> rates[m] == MetricOf(p.document.decisions, m)
    {
      MeasuredMetrics(p.document.decisions, counts, rates, m);
    }
    ok := (forall m | m in counts :: Tolerated(p.metrics[m], counts[m] as real))
          && forall m | m in rates :: Tolerated(p.metrics[m], rates[m]);
  }

  /** `build_internal_bilingual_payload`: every acceptable contract gives a payload, and the payload is accepted. */
  method BuildPayload(g: Governance, d: Document) returns (r: Option<Payload>)
    requires forall e :: IsHash(g.contractDigest(e))
    ensures r.Some? <==> DocumentOk(g, d)
    ensures r.Some? ==> r.value.document == d && PayloadOk(g, r.value)
    ensures r.Some? ==> forall m | m in r.value.metrics :: r.value.metrics[m] == Figure(MetricOf(d.decisions, m))
  {
    hide DocumentOk, Measured, IsHash, Artifacts, AllMetrics, MetricOf;
    var measures := ValidateDocument(g, d);
    if measures.None? {
      return None;
    }
    var counts, rates := measures.value.counts, measures.value.rates;
    forall m: Metric
      ensures m in counts <==> m in AllMetrics() && Critical(m)
      ensures m in rates <==> m in AllMetrics() && !Critical(m)
      ensures m in counts ==> counts[m] as real == MetricOf(d.decisions, m)
      ensures m in rates ==> rates[m] == MetricOf(d.decisions, m)
    {
      MeasuredMetrics(d.decisions, counts, rates, m);
    }
    var metrics :=
      (map m | m in counts :: Figure(counts[m] as real)) + (map m | m in rates :: Figure(rates[m]));
    assert metrics.Keys == AllMetrics();
    var payload := Payload(
      g.contractDigest(d), REVIEW_VERSION, d, d.setIdentity, d.purpose, |Artifacts(d.works)|, |d.works|, metrics,
      g.policy, g.policyIdentity);
    var ok := ValidatePayload(g, payload);
    assert ok;
    r := Some(payload);
  }

  /** A metric of an accepted payload is the one of the decisions, up to the tolerance, exactly when it is not NaN. */
  lemma FiguresAreRight(g: Governance, p: Payload, m: Metric)
    requires PayloadOk(g, p) && m in AllMetrics()
    ensures Near(p.metrics[m], MetricOf(p.document.decisions, m)) <==> !p.metrics[m].NaN?
  {
    hide DocumentOk, MetricOf, AllMetrics;
    assert Tolerated(p.metrics[m], MetricOf(p.document.decisions, m));
  }

  /** Replacing every metric of an accepted payload by NaN leaves it accepted. */
  lemma NaNIsAccepted(g: Governance, p: Payload)
    requires PayloadOk(g, p)
    ensures PayloadOk(g, p.(metrics := map m | m in AllMetrics() :: NaN))
  {
    hide DocumentOk, MetricOf, AllMetrics;
    var q := p.(metrics := map m | m in AllMetrics() :: NaN);
    assert q.metrics.Keys == AllMetrics();
  }

  /**
   The attestation identity commits to the whole contract: two accepted payloads with one identity hold two different
   contracts with one digest, or are the same but for NaN and rounding in the metrics.
   */
  lemma AttestationCommits(g: Governance, p: Payload, q: Payload)
    requires PayloadOk(g, p) && PayloadOk(g, q) && p.attestation == q.attestation
    ensures if p.document != q.document then g.contractDigest(p.document) == g.contractDigest(q.document)
            else
              && q == p.(metrics := q.metrics) && q.metrics.Keys == p.metrics.Keys
              && forall m | m in p.metrics :: SameFigure(p.metrics[m], q.metrics[m])
  {
    hide DocumentOk, MetricOf, AllMetrics, Artifacts;
    if p.document == q.document {
      forall m | m in p.metrics
        ensures SameFigure(p.metrics[m], q.metrics[m])
      {
        assert m in AllMetrics();
        assert Tolerated(p.metrics[m], MetricOf(p.document.decisions, m));
        assert Tolerated(q.metrics[m], MetricOf(p.document.decisions, m));
      }
    }
  }

  predicate SameFigure(v: Figure, w: Figure) {
    v.NaN? || w.NaN? || (v.Figure? && w.Figure? && -2.0 * TOLERANCE <= v.value - w.value <= 2.0 * TOLERANCE)
  }

  /** In an accepted payload a critical metric of zero means that no decision-critical unit of it was judged wrong. */
  lemma CleanMetric(g: Governance, p: Payload, m: Metric)
    requires PayloadOk(g, p) && m in AllMetrics() && Critical(m) && p.metrics[m] == Figure(0.0)
    ensures forall d | d in p.document.decisions && d.metric == m :: d.outcome != Incorrect
  {
    hide DocumentOk, AllMetrics, Tally;
    forall d | d in p.document.decisions && d.metric == m
      ensures d.outcome != Incorrect
    {
      TallyMember(p.document.decisions, d);
      assert Tolerated(p.metrics[m], MetricOf(p.document.decisions, m));
    }
  }

  /** The fields of an accepted payload besides the metrics. */
  lemma AcceptedPayload(g: Governance, p: Payload)
    requires PayloadOk(g, p)
    ensures p.version == "1.0" && p.purpose == "private_evaluation" && p.setIdentity == p.document.setIdentity
    ensures p.policy == g.policy && p.policyIdentity == g.policyIdentity
    ensures p.attestation == g.contractDigest(p.document)
    ensures p.artifacts == |set work | work in p.document.works :: work.artifactId| && p.artifacts >= 50
    ensures p.workUnits == |p.document.works| && p.workUnits >= 200
  {
    hide Acceptable, MetricOf, AllMetrics;
    AcceptedSample(ContextOf(g, g.manifest(p.document.manifest).value), ContractOf(g, p.document));
  }

  /**
   The metrics of an accepted payload, each NaN or within 1e-12: of the number of incorrect decisions for six of them,
   and of the share of correct ones for the other four.
   */
  lemma AcceptedMetrics(g: Governance, p: Payload, m: Metric)
    requires PayloadOk(g, p)
    ensures m in p.metrics <==>
            m in {BusinessMeaning, NumericDateUnit, Modality, TableMapping, TrendReversal, ExecutiveClaim,
                  SemanticFidelity, UnresolvedPrecision, UnresolvedRecall, LockedTerminology}
    ensures m in {BusinessMeaning, NumericDateUnit, Modality, TableMapping, TrendReversal, ExecutiveClaim} ==>
              Within(p.metrics[m], |Positions(p.document.decisions, m, Incorrect)| as real)
    ensures m in {SemanticFidelity, UnresolvedPrecision, UnresolvedRecall, LockedTerminology} ==>
              exists share ::
                && Within(p.metrics[m], share)
                && IsShare(share, |Positions(p.document.decisions, m, Correct)|,
                           |Positions(p.document.decisions, m, Incorrect)|)
  {
    hide DocumentOk, Tally, Positions, IsShare, Rate;
    var decisions := p.document.decisions;
    if m in p.metrics {
      assert Tolerated(p.metrics[m], MetricOf(decisions, m));
      TallyCounts(decisions, m, Correct);
      TallyCounts(decisions, m, Incorrect);
      DecidedInDocument(g, p.document, m);
      RateTimes(decisions, m);
      assert Within(p.metrics[m], MetricOf(decisions, m));
    }
  }

  predicate Within(v: Figure, expected: real) {
    v.NaN? || (v.Figure? && -0.000000000001 <= v.value - expected <= 0.000000000001)
  }

  lemma DecidedInDocument(g: Governance, d: Document, m: Metric)
    requires DocumentOk(g, d) && m in AllMetrics()
    ensures Tally(d.decisions, m, Correct) + Tally(d.decisions, m, Incorrect) > 0
  {
    hide Acceptable, Tally, Positions;
    EveryMetricDecided(ContextOf(g, g.manifest(d.manifest).value), ContractOf(g, d), m);
    TallyCounts(d.decisions, m, Correct);
    TallyCounts(d.decisions, m, Incorrect);
  }
}

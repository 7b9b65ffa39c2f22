/**
 The bilingual review ledger (src/k_slide/bilingual_adjudication.py): its records, and what an accepted contract
 is, said without counting: every work unit is reviewed by exactly two different people, every disagreement is
 settled by its own adjudication, and the decision list follows from the two.
 */
module BilingualReview {
  import opened Wrappers
  import opened Sorting

  const MINIMUM_WORK_UNITS: nat := 200
  const MINIMUM_ARTIFACTS: nat := 50

  datatype Metric =
    | BusinessMeaning | NumericDateUnit | Modality | TableMapping | TrendReversal | ExecutiveClaim
    | SemanticFidelity | UnresolvedPrecision | UnresolvedRecall | LockedTerminology
    | OtherMetric(name: string)

  predicate Critical(m: Metric) {
    m.BusinessMeaning? || m.NumericDateUnit? || m.Modality? || m.TableMapping? || m.TrendReversal? || m.ExecutiveClaim?
  }

  predicate Supported(m: Metric) {
    !m.OtherMetric?
  }

  datatype Outcome = Correct | Incorrect | OtherOutcome(name: string)

  datatype Truth = Truth(id: string, metric: Metric)

  datatype Work = Work(
    itemId: string, sourceSha: string, goldSha: string, workUnitId: string, artifactId: string, artifactSha: string,
    truths: seq<Truth>)

  /** What the contract says once for every record: candidate, corpus set, purpose and policy. */
  datatype Header = Header(subject: string, deployment: string, corpusSet: string, purpose: string, policy: string)

  datatype Binding = Binding(
    header: Header, itemId: string, itemIdentity: string, workUnitId: string, artifactId: string, artifactSha: string)

  /** The four identities of a record that may not be used twice. */
  datatype Mark = Mark(id: string, digest: string, artifactId: string, artifactSha: string)

  datatype Standing = Standing(kind: string, authority: string)

  datatype Judgement = Judgement(truthId: string, metric: Metric, outcome: Outcome)

  datatype Review = Review(
    mark: Mark, reviewer: string, standing: Standing, basis: string, binding: Binding, outcomes: seq<Judgement>,
    assistance: seq<string>)

  datatype Ref = Ref(id: string, digest: string)

  datatype Adjudication = Adjudication(
    mark: Mark, adjudicator: string, standing: Standing, binding: Binding, truthId: string, metric: Metric,
    refs: seq<Ref>, resolution: Outcome)

  /** AI assistance of one review, which is recorded and has no authority. */
  datatype Assistance = Assistance(mark: Mark, reviewId: string, standing: Standing, binding: Binding)

  datatype Decision = Decision(
    itemId: string, workUnitId: string, truthId: string, metric: Metric, refs: seq<Ref>, agreement: bool,
    adjudicationId: Option<string>, outcome: Outcome)

  datatype Contract = Contract(
    header: Header, works: seq<Work>, reviews: seq<Review>, assistance: seq<Assistance>,
    adjudications: seq<Adjudication>, decisions: seq<Decision>)

  /** The hash functions, and the active corpus items with their source and gold hashes. */
  datatype Context = Context(
    itemDigest: (string, string, string) -> string, reviewDigest: Review -> string,
    assistanceDigest: Assistance -> string, adjudicationDigest: Adjudication -> string,
    active: map<string, (string, string)>)

  function HumanReview(): Standing {
    Standing("independent_bilingual_human", "human_review")
  }

  function DirectComparison(): string {
    "direct_source_gold_comparison"
  }

  function HumanAdjudication(): Standing {
    Standing("human_bilingual_adjudicator", "human_adjudication")
  }

  predicate IsHash(s: string) {
    |s| == 64 && forall k | 0 <= k < |s| :: '0' <= s[k] <= '9' || 'a' <= s[k] <= 'f'
  }

  function BindingFor(ctx: Context, header: Header, work: Work): Binding {
    Binding(header, work.itemId, ctx.itemDigest(work.itemId, work.sourceSha, work.goldSha), work.workUnitId,
            work.artifactId, work.artifactSha)
  }

  // ---------- orders ----------

  predicate PairLe(a0: string, a1: string, b0: string, b1: string) {
    if a0 == b0 then LexLe(a1, b1) else LexLe(a0, b0)
  }

  predicate WorkLe(a: Work, b: Work) {
    PairLe(a.itemId, a.workUnitId, b.itemId, b.workUnitId)
  }

  predicate TruthLe(a: Truth, b: Truth) {
    LexLe(a.id, b.id)
  }

  predicate JudgementLe(a: Judgement, b: Judgement) {
    LexLe(a.truthId, b.truthId)
  }

  predicate ReviewLe(a: Review, b: Review) {
    LexLe(a.mark.id, b.mark.id)
  }

  predicate AssistanceLe(a: Assistance, b: Assistance) {
    LexLe(a.mark.id, b.mark.id)
  }

  predicate AdjudicationLe(a: Adjudication, b: Adjudication) {
    LexLe(a.mark.id, b.mark.id)
  }

  predicate DecisionLe(a: Decision, b: Decision) {
    if a.itemId == b.itemId then PairLe(a.workUnitId, a.truthId, b.workUnitId, b.truthId) else LexLe(a.itemId, b.itemId)
  }

  // ---------- truth units ----------

  /** Truth unit `t` of work unit `w`. */
  datatype Slot = Slot(w: nat, t: nat)

  predicate ValidSlot(works: seq<Work>, s: Slot) {
    s.w < |works| && s.t < |works[s.w].truths|
  }

  function TruthAt(works: seq<Work>, s: Slot): Truth
    requires ValidSlot(works, s)
  {
    works[s.w].truths[s.t]
  }

  function SlotsOf(works: seq<Work>, w: nat): (slots: seq<Slot>)
    requires w < |works|
  {
    seq(|works[w].truths|, t requires 0 <= t < |works[w].truths| => Slot(w, t))
  }

  /** The truth units of the first `n` work units, in document order. */
  function Slots(works: seq<Work>, n: nat): (slots: seq<Slot>)
    requires n <= |works|
    ensures forall s :: s in slots <==> s.w < n && ValidSlot(works, s)
  {
    if n == 0 then []
    else
      assert forall s: Slot | s.w == n - 1 && ValidSlot(works, s) :: SlotsOf(works, n - 1)[s.t] == s;
      Slots(works, n - 1) + SlotsOf(works, n - 1)
  }

  // ---------- accepted work units ----------

  predicate TruthOk(truth: Truth) {
    IsHash(truth.id) && Supported(truth.metric)
  }

  ghost predicate WorkOk(ctx: Context, work: Work) {
    && work.itemId in ctx.active && ctx.active[work.itemId] == (work.sourceSha, work.goldSha)
    && IsHash(work.workUnitId) && IsHash(work.artifactId) && IsHash(work.artifactSha)
    && Sorted(work.truths, TruthLe) && work.truths != []
    && forall truth | truth in work.truths :: TruthOk(truth)
  }

  /** Work-unit identities are unique, and a reused artifact stands for one item and one content. */
  ghost predicate WorksApart(works: seq<Work>, n: nat)
    requires n <= |works|
  {
    && (forall i, j | 0 <= i < j < n :: works[i].workUnitId != works[j].workUnitId)
    && (forall i, j | 0 <= i < j < n && works[i].artifactId == works[j].artifactId ::
          works[i].itemId == works[j].itemId && works[i].artifactSha == works[j].artifactSha)
  }

  /** No truth unit appears twice, anywhere in the sample. */
  ghost predicate TruthsApart(works: seq<Work>, slots: seq<Slot>)
    requires forall s | s in slots :: ValidSlot(works, s)
  {
    forall i, j | 0 <= i < j < |slots| :: TruthAt(works, slots[i]).id != TruthAt(works, slots[j]).id
  }

  ghost predicate WorksOk(ctx: Context, works: seq<Work>) {
    && Sorted(works, WorkLe) && |works| >= MINIMUM_WORK_UNITS
    && (forall work | work in works :: WorkOk(ctx, work))
    && WorksApart(works, |works|) && TruthsApart(works, Slots(works, |works|))
    && |set work | work in works :: work.artifactId| >= MINIMUM_ARTIFACTS
    && (forall m: Metric | Supported(m) ::
          exists s | s in Slots(works, |works|) :: TruthAt(works, s).metric == m)
  }

  // ---------- accepted reviews ----------

  predicate MarkOk(mark: Mark, digest: string) {
    && IsHash(mark.id) && IsHash(mark.digest) && mark.digest == digest
    && IsHash(mark.artifactId) && IsHash(mark.artifactSha)
  }

  predicate Apart(a: Mark, b: Mark) {
    a.id != b.id && a.digest != b.digest && a.artifactId != b.artifactId && a.artifactSha != b.artifactSha
  }

  /** No identity, digest, artifact or artifact content occurs in two records. */
  ghost predicate NoReplay(marks: seq<Mark>) {
    forall i, j | 0 <= i < j < |marks| :: Apart(marks[i], marks[j])
  }

  function ReviewMarks(reviews: seq<Review>): (marks: seq<Mark>)
    ensures |marks| == |reviews| && forall r | 0 <= r < |reviews| :: marks[r] == reviews[r].mark
  {
    seq(|reviews|, r requires 0 <= r < |reviews| => reviews[r].mark)
  }

  function ReviewDigest(ctx: Context, review: Review): string {
    ctx.reviewDigest(review.(mark := review.mark.(digest := "")))
  }

  /** The review judges each truth unit of its work unit once, in order, under its metric. */
  predicate Covers(outcomes: seq<Judgement>, truths: seq<Truth>) {
    |outcomes| == |truths| && forall t | 0 <= t < |truths| ::
      && outcomes[t].truthId == truths[t].id && outcomes[t].metric == truths[t].metric
      && !outcomes[t].outcome.OtherOutcome?
  }

  ghost predicate Reviews(ctx: Context, c: Contract, review: Review, w: nat) {
    && w < |c.works| && review.binding == BindingFor(ctx, c.header, c.works[w])
    && Covers(review.outcomes, c.works[w].truths)
  }

  /** References to assistance: identities in increasing order. */
  ghost predicate Increasing(ids: seq<string>) {
    && (forall id | id in ids :: IsHash(id))
    && (forall i, j | 0 <= i < j < |ids| :: LexLe(ids[i], ids[j]) && ids[i] != ids[j])
  }

  ghost predicate ReviewOk(ctx: Context, c: Contract, review: Review) {
    && MarkOk(review.mark, ReviewDigest(ctx, review)) && IsHash(review.reviewer) && review.standing == HumanReview()
    && review.basis == DirectComparison() && Increasing(review.assistance)
    && exists w: nat :: Reviews(ctx, c, review, w)
  }

  /** The reviews of a work unit among the first `n`, in order. */
  function ReviewsOf(reviews: seq<Review>, id: string, n: nat): (found: seq<nat>)
    requires n <= |reviews|
    ensures forall i | 0 <= i < |found| :: found[i] < n && reviews[found[i]].binding.workUnitId == id
    ensures forall i, j | 0 <= i < j < |found| :: found[i] < found[j]
    ensures forall r: nat | r < n && reviews[r].binding.workUnitId == id :: r in found
  {
    if n == 0 then []
    else ReviewsOf(reviews, id, n - 1) + if reviews[n - 1].binding.workUnitId == id then [n - 1] else []
  }

  function ReviewsAt(c: Contract, w: nat): seq<nat>
    requires w < |c.works|
  {
    ReviewsOf(c.reviews, c.works[w].workUnitId, |c.reviews|)
  }

  /** Work unit `w` has exactly two reviews, by two different reviewers. */
  predicate Paired(c: Contract, w: nat)
    requires w < |c.works|
  {
    var found := ReviewsAt(c, w);
    |found| == 2 && found[0] < |c.reviews| && found[1] < |c.reviews|
    && c.reviews[found[0]].reviewer != c.reviews[found[1]].reviewer
  }

  ghost predicate AllPaired(c: Contract) {
    forall w: nat | w < |c.works| :: Paired(c, w)
  }

  ghost predicate RecordsOk(ctx: Context, c: Contract) {
    && Sorted(c.reviews, ReviewLe) && NoReplay(ReviewMarks(c.reviews))
    && forall review | review in c.reviews :: ReviewOk(ctx, c, review)
  }

  ghost predicate ReviewsOk(ctx: Context, c: Contract) {
    RecordsOk(ctx, c) && AllPaired(c)
  }

  // ---------- accepted assistance ----------

  function AssistanceMarks(assistance: seq<Assistance>): (marks: seq<Mark>)
    ensures |marks| == |assistance| && forall a | 0 <= a < |marks| :: marks[a] == assistance[a].mark
  {
    seq(|assistance|, a requires 0 <= a < |assistance| => assistance[a].mark)
  }

  function AssistanceDigest(ctx: Context, a: Assistance): string {
    ctx.assistanceDigest(a.(mark := a.mark.(digest := "")))
  }

  /** A suggestion, recorded as such. */
  predicate Suggests(s: Standing) {
    && s.authority == "non_authoritative_assistance"
    && (s.kind == "translation_suggestion" || s.kind == "terminology_suggestion" || s.kind == "comparison_suggestion")
  }

  ghost predicate Assists(c: Contract, a: Assistance, r: nat) {
    r < |c.reviews| && c.reviews[r].mark.id == a.reviewId && c.reviews[r].binding == a.binding
  }

  /** Assistance without authority for one review, bound to what that review is bound to. */
  ghost predicate AssistanceRecordOk(ctx: Context, c: Contract, a: Assistance) {
    && MarkOk(a.mark, AssistanceDigest(ctx, a)) && Suggests(a.standing)
    && exists r: nat :: Assists(c, a, r)
  }

  /** The identities of the first `n` records of assistance that name a review, in order. */
  function AssistedBy(assistance: seq<Assistance>, reviewId: string, n: nat): seq<string>
    requires n <= |assistance|
  {
    if n == 0 then []
    else AssistedBy(assistance, reviewId, n - 1)
         + if assistance[n - 1].reviewId == reviewId then [assistance[n - 1].mark.id] else []
  }

  ghost predicate AssistanceOk(ctx: Context, c: Contract) {
    && Sorted(c.assistance, AssistanceLe) && NoReplay(AssistanceMarks(c.assistance))
    && (forall a | a in c.assistance :: AssistanceRecordOk(ctx, c, a))
    && (forall r | 0 <= r < |c.reviews| ::
          c.reviews[r].assistance == AssistedBy(c.assistance, c.reviews[r].mark.id, |c.assistance|))
  }

  // ---------- accepted adjudications ----------

  function Pair(c: Contract, s: Slot): (Review, Review)
    requires s.w < |c.works| && Paired(c, s.w)
  {
    (c.reviews[ReviewsAt(c, s.w)[0]], c.reviews[ReviewsAt(c, s.w)[1]])
  }

  function OutcomeAt(review: Review, t: nat): Outcome {
    if t < |review.outcomes| then review.outcomes[t].outcome else OtherOutcome("")
  }

  predicate Agree(c: Contract, s: Slot)
    requires s.w < |c.works| && Paired(c, s.w)
  {
    OutcomeAt(Pair(c, s).0, s.t) == OutcomeAt(Pair(c, s).1, s.t)
  }

  function RefTo(review: Review): Ref {
    Ref(review.mark.id, review.mark.digest)
  }

  function Refs(c: Contract, s: Slot): seq<Ref>
    requires s.w < |c.works| && Paired(c, s.w)
  {
    [RefTo(Pair(c, s).0), RefTo(Pair(c, s).1)]
  }

  function AdjudicationMarks(adjudications: seq<Adjudication>): (marks: seq<Mark>)
    ensures |marks| == |adjudications| && forall a | 0 <= a < |marks| :: marks[a] == adjudications[a].mark
  {
    seq(|adjudications|, a requires 0 <= a < |adjudications| => adjudications[a].mark)
  }

  function AdjudicationDigest(ctx: Context, a: Adjudication): string {
    ctx.adjudicationDigest(a.(mark := a.mark.(digest := "")))
  }

  /** A human adjudication that cites exactly the two conflicting reviews of the truth unit. */
  predicate Settles(ctx: Context, c: Contract, s: Slot, a: Adjudication)
    requires ValidSlot(c.works, s) && Paired(c, s.w)
  {
    && MarkOk(a.mark, AdjudicationDigest(ctx, a)) && IsHash(a.adjudicator) && a.standing == HumanAdjudication()
    && a.binding == BindingFor(ctx, c.header, c.works[s.w])
    && a.truthId == TruthAt(c.works, s).id && a.metric == TruthAt(c.works, s).metric
    && a.refs == Refs(c, s) && !a.resolution.OtherOutcome?
  }

  /** The two reviewers disagree on the truth unit. */
  ghost predicate Disputed(c: Contract, s: Slot)
    requires AllPaired(c)
  {
    ValidSlot(c.works, s) && !Agree(c, s)
  }

  ghost predicate Names(c: Contract, a: nat, s: Slot) {
    ValidSlot(c.works, s) && a < |c.adjudications| && c.adjudications[a].truthId == TruthAt(c.works, s).id
  }

  ghost predicate SettlesDispute(ctx: Context, c: Contract, s: Slot, a: nat)
    requires AllPaired(c)
  {
    Disputed(c, s) && a < |c.adjudications| && Settles(ctx, c, s, c.adjudications[a])
  }

  /** Some disagreement is settled by adjudication `a`. */
  ghost predicate Needed(ctx: Context, c: Contract, a: nat)
    requires AllPaired(c)
  {
    exists s :: SettlesDispute(ctx, c, s, a)
  }

  /** Disagreements and adjudications correspond one to one. */
  ghost predicate OneToOne(ctx: Context, c: Contract)
    requires AllPaired(c)
  {
    && NoReplay(AdjudicationMarks(c.adjudications))
    && (forall i, j | 0 <= i < j < |c.adjudications| :: c.adjudications[i].truthId != c.adjudications[j].truthId)
    && (forall s | Disputed(c, s) :: exists a: nat :: Names(c, a, s))
    && (forall a: nat | a < |c.adjudications| :: Needed(ctx, c, a))
  }

  ghost predicate AdjudicationsOk(ctx: Context, c: Contract)
    requires AllPaired(c)
  {
    Sorted(c.adjudications, AdjudicationLe) && OneToOne(ctx, c)
  }

  // ---------- the decision list ----------

  /** The first adjudication, from `k` on, that names the truth unit. */
  function FirstFor(adjudications: seq<Adjudication>, truthId: string, k: nat): (found: Option<nat>)
    requires k <= |adjudications|
    ensures found.Some? ==> k <= found.value < |adjudications| && adjudications[found.value].truthId == truthId
    ensures found.None? ==> forall a | k <= a < |adjudications| :: adjudications[a].truthId != truthId
    decreases |adjudications| - k
  {
    if k == |adjudications| then None
    else if adjudications[k].truthId == truthId then Some(k)
    else FirstFor(adjudications, truthId, k + 1)
  }

  function AdjudicationFor(c: Contract, s: Slot): Option<nat>
    requires ValidSlot(c.works, s)
  {
    FirstFor(c.adjudications, TruthAt(c.works, s).id, 0)
  }

  /** The outcome that counts: the shared one, or the resolution of the disagreement. */
  function Authoritative(c: Contract, s: Slot): Outcome
    requires ValidSlot(c.works, s) && Paired(c, s.w)
  {
    if Agree(c, s) then OutcomeAt(Pair(c, s).0, s.t)
    else if AdjudicationFor(c, s).Some? then c.adjudications[AdjudicationFor(c, s).value].resolution
    else OtherOutcome("")
  }

  function DecisionFor(c: Contract, s: Slot): Decision
    requires ValidSlot(c.works, s) && Paired(c, s.w)
  {
    var work := c.works[s.w];
    var adjudication := AdjudicationFor(c, s);
    Decision(work.itemId, work.workUnitId, TruthAt(c.works, s).id, TruthAt(c.works, s).metric, Refs(c, s), Agree(c, s),
             if !Agree(c, s) && adjudication.Some? then Some(c.adjudications[adjudication.value].mark.id) else None,
             Authoritative(c, s))
  }

  ghost function DecisionsFor(c: Contract, slots: seq<Slot>): (decisions: seq<Decision>)
    requires AllPaired(c) && forall s | s in slots :: ValidSlot(c.works, s)
    ensures |decisions| == |slots|
    ensures forall k | 0 <= k < |slots| :: decisions[k] == DecisionFor(c, slots[k])
  {
    seq(|slots|, k requires 0 <= k < |slots| => DecisionFor(c, slots[k]))
  }

  /** One decision for each truth unit, in document order. */
  ghost function Decisions(c: Contract): seq<Decision>
    requires AllPaired(c)
  {
    DecisionsFor(c, Slots(c.works, |c.works|))
  }

  ghost predicate Acceptable(ctx: Context, c: Contract) {
    && WorksOk(ctx, c.works) && ReviewsOk(ctx, c) && AssistanceOk(ctx, c) && AdjudicationsOk(ctx, c)
    && c.decisions == Decisions(c)
  }

  // ---------- the derived metrics ----------

  datatype Judged = Judged(metric: Metric, outcome: Outcome)

  function JudgedOf(d: Decision): Judged {
    Judged(d.metric, d.outcome)
  }

  /** How many truth units of a metric have an authoritative outcome. */
  function Tally(decisions: seq<Decision>, m: Metric, o: Outcome): nat {
    multiset(Map(JudgedOf, decisions))[Judged(m, o)]
  }
}

/**
 The whole ledger checker: the decision list, the derived metrics, and the theorem that the checker accepts exactly
 the acceptable contracts.
 */
module BilingualChecker {
  import opened Wrappers
  import opened Sorting
  import opened BilingualReview
  import opened BilingualCounting
  import opened BilingualWorks
  import opened BilingualRecords
  import opened BilingualAssistance
  import opened BilingualDecisions

  // ---------- the decision list is in document order ----------

  lemma DecisionOrder()
    ensures Preorder(DecisionLe)
  {
    hide PairLe, LexLe;
    forall a: Decision, b: Decision, c: Decision
      ensures DecisionLe(a, b) || DecisionLe(b, a)
      ensures DecisionLe(a, b) && DecisionLe(b, c) ==> DecisionLe(a, c)
    {
      DecisionLePreorder(a, b, c);
    }
  }

  lemma DecisionLePreorder(a: Decision, b: Decision, c: Decision)
    ensures DecisionLe(a, b) || DecisionLe(b, a)
    ensures DecisionLe(a, b) && DecisionLe(b, c) ==> DecisionLe(a, c)
  {
    hide PairLe, LexLe;
    LexPreorder(a.itemId, b.itemId, c.itemId);
    PairLePreorder(a.workUnitId, a.truthId, b.workUnitId, b.truthId, c.workUnitId, c.truthId);
    if LexLe(a.itemId, b.itemId) && LexLe(b.itemId, a.itemId) {
      LexAntisymmetric(a.itemId, b.itemId);
    }
    if LexLe(b.itemId, c.itemId) && LexLe(c.itemId, b.itemId) {
      LexAntisymmetric(b.itemId, c.itemId);
    }
  }

  lemma SameTruthBothWays(a: Decision, b: Decision)
    requires DecisionLe(a, b) && DecisionLe(b, a)
    ensures a.truthId == b.truthId
  {
    hide LexLe;
    if a.itemId != b.itemId {
      LexAntisymmetric(a.itemId, b.itemId);
    } else if a.workUnitId != b.workUnitId {
      LexAntisymmetric(a.workUnitId, b.workUnitId);
    } else {
      LexAntisymmetric(a.truthId, b.truthId);
    }
  }

  predicate Before(a: Slot, b: Slot) {
    a.w < b.w || (a.w == b.w && a.t < b.t)
  }

  lemma {:induction false} SlotsInOrder(works: seq<Work>, n: nat, i: nat, j: nat)
    requires n <= |works| && i < j < |Slots(works, n)|
    ensures Before(Slots(works, n)[i], Slots(works, n)[j])
  {
    var before := Slots(works, n - 1);
    SlotsPrefix(works, n - 1);
    if j < |before| {
      SlotsInOrder(works, n - 1, i, j);
    } else if i < |before| {
      assert before[i] in before;
    }
  }

  /** Sorted work units with sorted truth units give sorted decisions. */
  lemma BeforeMeansLe(ctx: Context, c: Contract, a: Slot, b: Slot)
    requires WorksOk(ctx, c.works) && AllPaired(c) && ValidSlot(c.works, a) && ValidSlot(c.works, b) && Before(a, b)
    ensures DecisionLe(DecisionFor(c, a), DecisionFor(c, b))
  {
    hide LexLe, IsHash, TruthOk, Slots, Refs, Agree, Authoritative, AdjudicationFor, Paired;
    if a.w < b.w {
      assert WorkLe(c.works[a.w], c.works[b.w]);
      assert c.works[a.w].workUnitId != c.works[b.w].workUnitId;
    } else {
      assert c.works[a.w] in c.works;
      assert TruthLe(TruthAt(c.works, a), TruthAt(c.works, b));
    }
  }

  ghost function DecisionOf(c: Contract): Slot -> Decision {
    (s: Slot) => if ValidSlot(c.works, s) && Paired(c, s.w) then DecisionFor(c, s)
                 else Decision("", "", "", OtherMetric(""), [], false, None, OtherOutcome(""))
  }

  lemma DecidedIsMap(c: Contract, order: seq<Slot>, decisions: seq<Decision>)
    requires Ready(c, order) && Decided(c, order, decisions) && |decisions| == |order|
    ensures decisions == Map(DecisionOf(c), order)
  {
    hide DecisionFor, ValidSlot, Paired, Listing;
    var images := Map(DecisionOf(c), order);
    forall i: nat | i < |order|
      ensures decisions[i] == images[i]
    {
      ListingMember(c.works, order, i);
      assert ValidSlot(c.works, order[i]);
      PairedAt(c, order[i]);
      assert decisions[i] == DecisionAt(c, order, i);
    }
  }

  lemma PairedAt(c: Contract, s: Slot)
    requires AllPaired(c) && ValidSlot(c.works, s)
    ensures s.w < |c.works| && Paired(c, s.w)
  {
    hide Paired;
  }

  lemma DecisionsAreMap(c: Contract)
    requires AllPaired(c)
    ensures Decisions(c) == Map(DecisionOf(c), Slots(c.works, |c.works|))
  {
    hide DecisionFor, ValidSlot, Paired;
    var slots := Slots(c.works, |c.works|);
    forall i: nat | i < |slots|
      ensures Decisions(c)[i] == Map(DecisionOf(c), slots)[i]
    {
      assert slots[i] in slots;
      PairedAt(c, slots[i]);
    }
  }

  lemma DecisionsSorted(ctx: Context, c: Contract)
    requires WorksOk(ctx, c.works) && AllPaired(c)
    ensures Sorted(Decisions(c), DecisionLe)
  {
    hide DecisionFor, ValidSlot, AllPaired, WorksOk, DecisionLe, Before;
    var slots := Slots(c.works, |c.works|);
    forall i, j | 0 <= i < j < |slots|
      ensures DecisionLe(Decisions(c)[i], Decisions(c)[j])
    {
      assert slots[i] in slots && slots[j] in slots;
      SlotsInOrder(c.works, |c.works|, i, j);
      BeforeMeansLe(ctx, c, slots[i], slots[j]);
    }
  }

  lemma DecisionTruth(c: Contract, d: Decision) returns (s: Slot)
    requires AllPaired(c) && d in Decisions(c)
    ensures ValidSlot(c.works, s) && Paired(c, s.w) && d == DecisionFor(c, s) && d.truthId == TruthAt(c.works, s).id
  {
    hide Slots, Paired;
    var slots := Slots(c.works, |c.works|);
    var i :| 0 <= i < |slots| && Decisions(c)[i] == d;
    s := slots[i];
    assert s in slots;
  }

  lemma OneDecisionEach(c: Contract, a: Decision, b: Decision)
    requires AllPaired(c) && Listing(c.works, Slots(c.works, |c.works|))
    requires a in Decisions(c) && b in Decisions(c) && a.truthId == b.truthId
    ensures a == b
  {
    hide Listing, AllPaired, DecisionFor, Decisions, TruthAt;
    var s := DecisionTruth(c, a);
    var t := DecisionTruth(c, b);
    SameTruthSameSlot(c.works, Slots(c.works, |c.works|), s, t);
  }

  /** However the truth units are visited, sorting the decisions gives the one list in document order. */
  lemma DecisionListUnique(ctx: Context, c: Contract, order: seq<Slot>, decisions: seq<Decision>)
    requires WorksOk(ctx, c.works) && Ready(c, order) && Decided(c, order, decisions) && |decisions| == |order|
    requires multiset(order) == multiset(Slots(c.works, |c.works|))
    ensures multiset(decisions) == multiset(Decisions(c))
    ensures Sort(decisions, DecisionLe) == Decisions(c)
  {
    hide *;
    PairsReady(c, order);
    DecidedIsMap(c, order, decisions);
    DecisionsAreMap(c);
    MapKeepsMultiset(DecisionOf(c), order, Slots(c.works, |c.works|));
    DecisionOrder();
    SortSorts(decisions, DecisionLe);
    DecisionsSorted(ctx, c);
    WorksApartSlots(ctx, c.works);
    SlotsListed(c.works);
    var sorted := Sort(decisions, DecisionLe);
    forall x, y | x in sorted && y in sorted && DecisionLe(x, y) && DecisionLe(y, x)
      ensures x == y
    {
      assert x in multiset(sorted) && y in multiset(sorted);
      assert x in Decisions(c) && y in Decisions(c);
      SameTruthBothWays(x, y);
      OneDecisionEach(c, x, y);
    }
    SortedUnique(sorted, Decisions(c), DecisionLe);
  }

  lemma WorksApartSlots(ctx: Context, works: seq<Work>)
    requires WorksOk(ctx, works)
    ensures TruthsApart(works, Slots(works, |works|)) && UniqueWorks(works)
  {
    hide WorkOk, Slots, TruthsApart;
  }

  // ---------- metrics ----------

  datatype Measures = Measures(decisions: seq<Decision>, counts: map<Metric, nat>, rates: map<Metric, real>)

  /** Every authoritative outcome is correct or incorrect. */
  lemma OutcomesSettled(ctx: Context, c: Contract, d: Decision)
    requires WorksOk(ctx, c.works) && ReviewsOk(ctx, c) && OneToOne(ctx, c) && d in Decisions(c)
    ensures !d.outcome.OtherOutcome? && Supported(d.metric)
  {
    hide WorksOk, OneToOne, RecordsOk, Decisions, AllPaired, Covers, Paired, Agree, Refs;
    var s := DecisionTruth(c, d);
    SlotSupported(ctx, c.works, s);
    SharedOutcome(ctx, c, s);
    if !Agree(c, s) {
      NamedBy(ctx, c, s);
      var a := AdjudicationFor(c, s).value;
      var t := SettledSlot(ctx, c, a);
      SettledResolution(ctx, c, t, a);
    }
  }

  lemma SettledResolution(ctx: Context, c: Contract, t: Slot, a: nat)
    requires AllPaired(c) && SettlesDispute(ctx, c, t, a)
    ensures !c.adjudications[a].resolution.OtherOutcome?
  {
  }

  lemma SlotSupported(ctx: Context, works: seq<Work>, s: Slot)
    requires WorksOk(ctx, works) && ValidSlot(works, s)
    ensures Supported(TruthAt(works, s).metric)
  {
    hide Slots, Sorted, IsHash;
    assert works[s.w] in works && TruthAt(works, s) in works[s.w].truths;
  }

  lemma SharedOutcome(ctx: Context, c: Contract, s: Slot)
    requires WorksOk(ctx, c.works) && RecordsOk(ctx, c) && ValidSlot(c.works, s) && Paired(c, s.w)
    ensures !OutcomeAt(Pair(c, s).0, s.t).OtherOutcome?
  {
    hide WorksOk, RecordsOk;
    WorksApartSlots(ctx, c.works);
    CoversWork(ctx, c, s.w, ReviewsAt(c, s.w)[0]);
  }

  lemma {:induction false} TwoOutcomes(s: seq<Outcome>)
    requires forall o | o in s :: !o.OtherOutcome?
    ensures |s| == multiset(s)[Correct] + multiset(s)[Incorrect]
  {
    if s != [] {
      TwoOutcomes(s[1..]);
      assert s == [s[0]] + s[1..];
      assert s[0] in s;
    }
  }

  lemma TallyMember(decisions: seq<Decision>, d: Decision)
    requires d in decisions
    ensures Tally(decisions, d.metric, d.outcome) > 0
  {
    var i :| 0 <= i < |decisions| && decisions[i] == d;
    assert Map(JudgedOf, decisions)[i] == Judged(d.metric, d.outcome);
    assert Judged(d.metric, d.outcome) in Map(JudgedOf, decisions);
  }

  lemma MemberOfTally(decisions: seq<Decision>, m: Metric, o: Outcome) returns (d: Decision)
    requires Tally(decisions, m, o) > 0
    ensures d in decisions && d.metric == m && d.outcome == o
  {
    var images := Map(JudgedOf, decisions);
    assert Judged(m, o) in images;
    var i :| 0 <= i < |images| && images[i] == Judged(m, o);
    d := decisions[i];
  }

  /** The metrics found are exactly the supported ones, each with correct and incorrect outcomes only. */
  lemma MetricsCovered(ctx: Context, c: Contract, metricsOutcomes: map<Metric, seq<Outcome>>, m: Metric)
    requires WorksOk(ctx, c.works) && ReviewsOk(ctx, c) && OneToOne(ctx, c)
    requires Tallied(metricsOutcomes, Decisions(c))
    ensures m in metricsOutcomes <==> Supported(m)
    ensures forall o | o in Lookup(metricsOutcomes, m) :: !o.OtherOutcome?
    ensures |Lookup(metricsOutcomes, m)| == Tally(Decisions(c), m, Correct) + Tally(Decisions(c), m, Incorrect)
    ensures Supported(m) ==> |Lookup(metricsOutcomes, m)| > 0
  {
    hide WorksOk, ReviewsOk, OneToOne, Decisions, Tally, Supported, AllPaired;
    PairsOfReviews(ctx, c);
    var outcomes := Lookup(metricsOutcomes, m);
    assert forall o :: multiset(outcomes)[o] == Tally(Decisions(c), m, o);
    forall o | o in outcomes
      ensures !o.OtherOutcome? && Supported(m)
    {
      assert o in multiset(outcomes);
      var d := MemberOfTally(Decisions(c), m, o);
      OutcomesSettled(ctx, c, d);
    }
    TwoOutcomes(outcomes);
    if m in metricsOutcomes {
      assert outcomes[0] in outcomes;
    }
    if Supported(m) {
      var d := MetricDecided(ctx, c, m);
      TallyMember(Decisions(c), d);
      assert d.outcome in multiset(outcomes);
    }
  }

  lemma PairsOfReviews(ctx: Context, c: Contract)
    requires ReviewsOk(ctx, c)
    ensures AllPaired(c) && RecordsOk(ctx, c)
  {
    hide AllPaired, RecordsOk;
  }

  lemma MetricDecided(ctx: Context, c: Contract, m: Metric) returns (d: Decision)
    requires WorksOk(ctx, c.works) && AllPaired(c) && Supported(m)
    ensures d in Decisions(c) && d.metric == m
  {
    hide WorkOk, Slots, TruthsApart, WorksApart, Supported, AllPaired, Authoritative, Refs, Agree;
    var slots := Slots(c.works, |c.works|);
    var s :| s in slots && TruthAt(c.works, s).metric == m;
    var i :| 0 <= i < |slots| && slots[i] == s;
    d := Decisions(c)[i];
  }

  function CriticalMetrics(): set<Metric> {
    set m | m in AllMetrics() && Critical(m)
  }

  function RateMetrics(): set<Metric> {
    AllMetrics() - CriticalMetrics()
  }

  function Wrong(outcomes: seq<Outcome>): nat {
    multiset(outcomes)[Incorrect]
  }

  function Share(outcomes: seq<Outcome>): real
    requires outcomes != []
  {
    multiset(outcomes)[Correct] as real / |outcomes| as real
  }

  /** The share of truth units of a metric that were judged correct. */
  ghost function Rate(decisions: seq<Decision>, m: Metric): real
    requires Tally(decisions, m, Correct) + Tally(decisions, m, Incorrect) > 0
  {
    Tally(decisions, m, Correct) as real / (Tally(decisions, m, Correct) + Tally(decisions, m, Incorrect)) as real
  }

  /** Counts of incorrect outcomes for the critical metrics, shares of correct ones for the others. */
  ghost predicate Measured(decisions: seq<Decision>, counts: map<Metric, nat>, rates: map<Metric, real>) {
    && counts.Keys == CriticalMetrics() && rates.Keys == RateMetrics()
    && (forall m | m in counts :: counts[m] == Tally(decisions, m, Incorrect))
    && (forall m | m in rates ::
          Tally(decisions, m, Correct) + Tally(decisions, m, Incorrect) > 0 && rates[m] == Rate(decisions, m))
  }

  lemma MetricMeasured(ctx: Context, c: Contract, metricsOutcomes: map<Metric, seq<Outcome>>, m: Metric)
    requires WorksOk(ctx, c.works) && ReviewsOk(ctx, c) && OneToOne(ctx, c)
    requires Tallied(metricsOutcomes, Decisions(c))
    ensures m in metricsOutcomes <==> m in AllMetrics()
    ensures m in metricsOutcomes ==>
              && Lookup(metricsOutcomes, m) == metricsOutcomes[m] != []
              && Wrong(metricsOutcomes[m]) == Tally(Decisions(c), m, Incorrect)
              && Tally(Decisions(c), m, Correct) + Tally(Decisions(c), m, Incorrect) > 0
              && Share(metricsOutcomes[m]) == Rate(Decisions(c), m)
  {
    hide WorksOk, ReviewsOk, OneToOne, Decisions, Tally, Supported, AllPaired;
    PairsOfReviews(ctx, c);
    MetricsCovered(ctx, c, metricsOutcomes, m);
    assert multiset(Lookup(metricsOutcomes, m))[Incorrect] == Tally(Decisions(c), m, Incorrect);
    assert multiset(Lookup(metricsOutcomes, m))[Correct] == Tally(Decisions(c), m, Correct);
  }

  method Derive(ctx: Context, c: Contract, metricsOutcomes: map<Metric, seq<Outcome>>)
    returns (ok: bool, counts: map<Metric, nat>, rates: map<Metric, real>)
    requires WorksOk(ctx, c.works) && ReviewsOk(ctx, c) && OneToOne(ctx, c)
    requires Tallied(metricsOutcomes, Decisions(c))
    ensures ok && Measured(Decisions(c), counts, rates)
  {
    hide WorksOk, ReviewsOk, OneToOne, Decisions, Tally, Supported, Critical, AllPaired, AllMetrics, Wrong, Share, Rate,
         Tallied, Lookup;
    PairsOfReviews(ctx, c);
    forall m: Metric
      ensures m in metricsOutcomes <==> m in AllMetrics()
      ensures m in metricsOutcomes ==>
                && Lookup(metricsOutcomes, m) == metricsOutcomes[m] != []
                && Wrong(metricsOutcomes[m]) == Tally(Decisions(c), m, Incorrect)
                && Tally(Decisions(c), m, Correct) + Tally(Decisions(c), m, Incorrect) > 0
                && Share(metricsOutcomes[m]) == Rate(Decisions(c), m)
    {
      MetricMeasured(ctx, c, metricsOutcomes, m);
    }
    assert metricsOutcomes.Keys == AllMetrics();
    counts, rates := map[], map[];
    if metricsOutcomes.Keys != AllMetrics() || exists m | m in RateMetrics() :: Lookup(metricsOutcomes, m) == [] {
      return false, counts, rates;
    }
    counts := map m | m in CriticalMetrics() :: Wrong(metricsOutcomes[m]);
    rates := map m | m in RateMetrics() :: Share(metricsOutcomes[m]);
    ok := true;
  }

  // ---------- the checker ----------

  lemma AdjudicationOrder()
    ensures Preorder(AdjudicationLe)
  {
    OrderByKey(AdjudicationLe, (a: Adjudication) => a.mark.id);
  }

  lemma Visiting(ctx: Context, c: Contract)
    requires WorksOk(ctx, c.works) && AllPaired(c)
    ensures var order := Sort(Slots(c.works, |c.works|), ByTruth(c.works));
            Ready(c, order) && multiset(order) == multiset(Slots(c.works, |c.works|))
  {
    hide WorksOk, AllPaired, Listing, Slots, ByTruth;
    WorksApartSlots(ctx, c.works);
    SlotsListed(c.works);
    ByTruthOrder(c.works);
    SortSorts(Slots(c.works, |c.works|), ByTruth(c.works));
    RearrangedListing(c.works, Slots(c.works, |c.works|), Sort(Slots(c.works, |c.works|), ByTruth(c.works)));
  }

  lemma TallyRearranged(metricsOutcomes: map<Metric, seq<Outcome>>, a: seq<Decision>, b: seq<Decision>)
    requires Tallied(metricsOutcomes, a) && multiset(a) == multiset(b)
    ensures Tallied(metricsOutcomes, b)
  {
    MapKeepsMultiset(JudgedOf, a, b);
  }

  lemma AcceptableParts(ctx: Context, c: Contract)
    ensures Acceptable(ctx, c) <==>
            && WorksOk(ctx, c.works) && ReviewsOk(ctx, c)
            && AssistanceOk(ctx, c)
            && (PairsOfReviews(ctx, c); Sorted(c.adjudications, AdjudicationLe) && OneToOne(ctx, c))
            && c.decisions == Decisions(c)
  {
    hide WorksOk, AllPaired, RecordsOk, AssistanceOk, OneToOne, Sorted, Decisions;
  }

  /**
   `_validate_contract` accepts exactly the acceptable contracts; the decisions it returns are the ones that follow
   from reviews and adjudications, and the metrics are taken over all of them.
   */
  method ValidateContract(ctx: Context, c: Contract) returns (r: Option<Measures>)
    ensures r.Some? <==> Acceptable(ctx, c)
    ensures r.Some? ==> r.value.decisions == Decisions(c) && Measured(Decisions(c), r.value.counts, r.value.rates)
  {
    hide *;
    AcceptableParts(ctx, c);
    var worksOk, workById, slots := CheckWorks(ctx, c.works);
    if !worksOk {
      return None;
    }
    WorksAreGood(ctx, c.works);
    var reviewsOk, recordsByWork, recordsById, outcomesByRecord := CheckReviews(ctx, c, workById);
    if !reviewsOk {
      return None;
    }
    PairsOfReviews(ctx, c);
    WorksApartSlots(ctx, c.works);
    var assistanceOk := CheckAssistance(ctx, c, workById, recordsById);
    if !assistanceOk {
      return None;
    }
    AdjudicationOrder();
    SortedFixed(c.adjudications, AdjudicationLe);
    if Sort(c.adjudications, AdjudicationLe) != c.adjudications {
      return None;
    }
    r := Conclude(ctx, c, slots, workById, recordsByWork, outcomesByRecord);
  }

  method Conclude(ctx: Context, c: Contract, slots: seq<Slot>, workById: map<string, nat>,
                  recordsByWork: map<string, seq<nat>>, outcomesByRecord: seq<map<string, Outcome>>)
    returns (r: Option<Measures>)
    requires WorksOk(ctx, c.works) && ReviewsOk(ctx, c) && AllPaired(c) && slots == Slots(c.works, |c.works|)
    requires Grouped(c, |c.reviews|, workById, recordsByWork)
    requires |outcomesByRecord| == |c.reviews| && OutcomesKept(c, outcomesByRecord)
    ensures r.Some? <==> OneToOne(ctx, c) && c.decisions == Decisions(c)
    ensures r.Some? ==> r.value.decisions == Decisions(c) && Measured(Decisions(c), r.value.counts, r.value.rates)
  {
    hide *;
    Gathered(ctx, c, workById, recordsByWork, outcomesByRecord);
    Visiting(ctx, c);
    var order := Sort(slots, ByTruth(c.works));
    AdjudicationsByCounting(ctx, c, order);
    var settled, decisions, metricsOutcomes :=
      DecideAll(ctx, c, order, workById, recordsByWork, outcomesByRecord);
    if !settled {
      return None;
    }
    DecisionListUnique(ctx, c, order, decisions);
    var ordered := Sort(decisions, DecisionLe);
    if c.decisions != ordered {
      return None;
    }
    TallyRearranged(metricsOutcomes, decisions, Decisions(c));
    var covered, counts, rates := Derive(ctx, c, metricsOutcomes);
    if !covered {
      return None;
    }
    r := Some(Measures(ordered, counts, rates));
  }

  lemma Gathered(ctx: Context, c: Contract, workById: map<string, nat>, recordsByWork: map<string, seq<nat>>,
                 outcomesByRecord: seq<map<string, Outcome>>)
    requires WorksOk(ctx, c.works) && ReviewsOk(ctx, c) && Grouped(c, |c.reviews|, workById, recordsByWork)
    requires |outcomesByRecord| == |c.reviews| && OutcomesKept(c, outcomesByRecord)
    ensures Collected(ctx, c, workById, recordsByWork, outcomesByRecord)
  {
    hide WorksOk, RecordsOk, AllPaired, Grouped, OutcomesKept, UniqueWorks;
    WorksApartSlots(ctx, c.works);
  }

  /** In an accepted contract each work unit was judged, truth unit by truth unit, by exactly two different people. */
  lemma TwoIndependentReviews(ctx: Context, c: Contract, w: nat) returns (i: nat, j: nat)
    requires Acceptable(ctx, c) && w < |c.works|
    ensures i < j < |c.reviews| && c.reviews[i].reviewer != c.reviews[j].reviewer
    ensures forall r | 0 <= r < |c.reviews| ::
              c.reviews[r].binding.workUnitId == c.works[w].workUnitId <==> r == i || r == j
    ensures Covers(c.reviews[i].outcomes, c.works[w].truths) && Covers(c.reviews[j].outcomes, c.works[w].truths)
  {
    hide WorksOk, RecordsOk, AssistanceOk, Covers, AdjudicationsOk, Decisions;
    WorksApartSlots(ctx, c.works);
    assert Paired(c, w);
    var found := ReviewsAt(c, w);
    i, j := found[0], found[1];
    CoversWork(ctx, c, w, i);
    CoversWork(ctx, c, w, j);
  }

  /** Two accepted contracts that agree on samples, reviews and adjudications have the same decisions. */
  lemma DecisionsDetermined(ctx: Context, c: Contract, d: Contract)
    requires Acceptable(ctx, c) && Acceptable(ctx, d)
    requires c.works == d.works && c.reviews == d.reviews && c.adjudications == d.adjudications
    ensures c.decisions == d.decisions
  {
    hide WorksOk, RecordsOk, AssistanceOk, AdjudicationsOk, Slots, Sorted, Paired, DecisionFor;
    var slots := Slots(c.works, |c.works|);
    forall k: nat | k < |slots|
      ensures Decisions(c)[k] == Decisions(d)[k]
    {
      assert slots[k] in slots;
      SameDecision(c, d, slots[k]);
    }
  }

  lemma SameDecision(c: Contract, d: Contract, s: Slot)
    requires c.works == d.works && c.reviews == d.reviews && c.adjudications == d.adjudications
    requires ValidSlot(c.works, s) && Paired(c, s.w) && Paired(d, s.w)
    ensures DecisionFor(c, s) == DecisionFor(d, s)
  {
  }
}

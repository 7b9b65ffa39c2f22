/**
 What an accepted review ledger says, on its own records: which decisions it lists, what decides them, and how often
 each outcome occurs.
 */
module BilingualMeaning {
  import opened Wrappers
  import opened Sorting
  import opened Collections
  import opened BilingualReview
  import opened BilingualAssistance
  import opened BilingualCounting
  import opened BilingualRecords
  import opened BilingualDecisions
  import opened BilingualChecker

  // ---------- decisions ----------

  /** The review judges the truth unit to be `o`. */
  ghost predicate Judges(review: Review, truthId: string, o: Outcome) {
    exists x | x in review.outcomes :: x.truthId == truthId && x.outcome == o
  }

  /** Two reviews of the work unit judge the truth unit `p` and `q`. */
  ghost predicate JudgedBoth(c: Contract, workUnitId: string, truthId: string, i: nat, j: nat, p: Outcome, q: Outcome) {
    && i < j < |c.reviews|
    && c.reviews[i].binding.workUnitId == workUnitId && c.reviews[j].binding.workUnitId == workUnitId
    && Judges(c.reviews[i], truthId, p) && Judges(c.reviews[j], truthId, q)
  }

  function Citing(c: Contract, i: nat, j: nat): seq<Ref>
    requires i < |c.reviews| && j < |c.reviews|
  {
    [Ref(c.reviews[i].mark.id, c.reviews[i].mark.digest), Ref(c.reviews[j].mark.id, c.reviews[j].mark.digest)]
  }

  /** An adjudication of the truth unit that cites both reviews gives the decision its outcome and its identity. */
  ghost predicate Resolves(c: Contract, a: Adjudication, refs: seq<Ref>, d: Decision) {
    && a in c.adjudications && a.truthId == d.truthId && a.refs == refs
    && d.adjudicationId == Some(a.mark.id) && d.outcome == a.resolution
  }

  /** A shared outcome counts; of two different ones neither does, but the resolution of a human adjudication. */
  ghost predicate Follows(c: Contract, d: Decision, i: nat, j: nat, p: Outcome, q: Outcome) {
    && JudgedBoth(c, d.workUnitId, d.truthId, i, j, p, q) && d.refs == Citing(c, i, j)
    && (d.agreement <==> p == q)
    && if p == q then d.outcome == p && d.adjudicationId == None
       else exists a :: Resolves(c, a, d.refs, d)
  }

  /** `d` is a decision about truth unit `t` of work unit `w`. */
  ghost predicate Decides(c: Contract, w: nat, t: nat, d: Decision) {
    && w < |c.works| && t < |c.works[w].truths|
    && d.itemId == c.works[w].itemId && d.workUnitId == c.works[w].workUnitId
    && d.truthId == c.works[w].truths[t].id && d.metric == c.works[w].truths[t].metric
    && exists i: nat, j: nat, p, q :: Follows(c, d, i, j, p, q)
  }

  lemma JudgesMeans(c: Contract, w: nat, t: nat, r: nat, o: Outcome)
    requires w < |c.works| && t < |c.works[w].truths| && r < |c.reviews|
    requires Listing(c.works, Slots(c.works, |c.works|)) && Covers(c.reviews[r].outcomes, c.works[w].truths)
    ensures Judges(c.reviews[r], c.works[w].truths[t].id, o) <==> o == OutcomeAt(c.reviews[r], t)
  {
    hide Slots, Listing;
    var outcomes, id := c.reviews[r].outcomes, c.works[w].truths[t].id;
    assert outcomes[t] in outcomes && outcomes[t].truthId == id;
    forall u: nat | u < |outcomes| && outcomes[u].truthId == id
      ensures u == t
    {
      SameTruthSameSlot(c.works, Slots(c.works, |c.works|), Slot(w, t), Slot(w, u));
    }
  }

  lemma TwoReviews(c: Contract, w: nat, i: nat, j: nat)
    requires w < |c.works| && Paired(c, w) && i < j < |c.reviews|
    ensures c.reviews[i].binding.workUnitId == c.works[w].workUnitId == c.reviews[j].binding.workUnitId <==>
            i == ReviewsAt(c, w)[0] && j == ReviewsAt(c, w)[1]
  {
    var found := ReviewsAt(c, w);
    if c.reviews[i].binding.workUnitId == c.works[w].workUnitId == c.reviews[j].binding.workUnitId {
      assert i in found && j in found;
    }
  }

  /** What the ledger part of an accepted contract gives. */
  ghost predicate SettledReviews(ctx: Context, c: Contract) {
    && WorksOk(ctx, c.works) && ReviewsOk(ctx, c) && OneToOne(ctx, c)
    && Listing(c.works, Slots(c.works, |c.works|)) && DistinctWorks(c)
  }

  ghost predicate DistinctWorks(c: Contract) {
    forall i, j | 0 <= i < j < |c.works| :: c.works[i].workUnitId != c.works[j].workUnitId
  }

  lemma AcceptedParts(ctx: Context, c: Contract)
    requires Acceptable(ctx, c)
    ensures SettledReviews(ctx, c) && c.decisions == (PairsOfReviews(ctx, c); Decisions(c))
  {
    hide WorkOk, Slots, TruthsApart, RecordsOk, AssistanceOk, Decisions, Listing, OneToOne;
    WorksApartSlots(ctx, c.works);
    SlotsListed(c.works);
  }

  lemma PairOutcomes(ctx: Context, c: Contract, w: nat, t: nat)
    requires SettledReviews(ctx, c) && w < |c.works| && t < |c.works[w].truths|
    ensures Paired(c, w)
    ensures var s, found, id := Slot(w, t), ReviewsAt(c, w), c.works[w].truths[t].id;
            forall i: nat, j: nat, p, q :: JudgedBoth(c, c.works[w].workUnitId, id, i, j, p, q) <==>
              && i == found[0] && j == found[1]
              && p == OutcomeAt(c.reviews[found[0]], t) && q == OutcomeAt(c.reviews[found[1]], t)
  {
    hide WorksOk, RecordsOk, OneToOne, Listing, Judges, Paired, ReviewsAt, Covers;
    var work, id := c.works[w], c.works[w].truths[t].id;
    PairOrder(c, w);
    var found := ReviewsAt(c, w);
    WorksApartSlots(ctx, c.works);
    PairsOfReviews(ctx, c);
    CoversWork(ctx, c, w, found[0]);
    CoversWork(ctx, c, w, found[1]);
    forall o
      ensures Judges(c.reviews[found[0]], id, o) <==> o == OutcomeAt(c.reviews[found[0]], t)
      ensures Judges(c.reviews[found[1]], id, o) <==> o == OutcomeAt(c.reviews[found[1]], t)
    {
      JudgesMeans(c, w, t, found[0], o);
      JudgesMeans(c, w, t, found[1], o);
    }
    forall i: nat, j: nat | i < j < |c.reviews|
      ensures c.reviews[i].binding.workUnitId == work.workUnitId == c.reviews[j].binding.workUnitId <==>
              i == found[0] && j == found[1]
    {
      TwoReviews(c, w, i, j);
    }
  }

  lemma PairOrder(c: Contract, w: nat)
    requires w < |c.works| && Paired(c, w)
    ensures var found := ReviewsAt(c, w);
            && |found| == 2 && found[0] < found[1] < |c.reviews|
            && c.reviews[found[0]].binding.workUnitId == c.works[w].workUnitId
            && c.reviews[found[1]].binding.workUnitId == c.works[w].workUnitId
  {
  }

  /** The adjudication that settles a disagreement is the only one that names its truth unit. */
  lemma Adjudicated(ctx: Context, c: Contract, s: Slot)
    requires SettledReviews(ctx, c) && ValidSlot(c.works, s) && Paired(c, s.w) && !Agree(c, s)
    ensures AdjudicationFor(c, s).Some? && AdjudicationFor(c, s).value < |c.adjudications|
    ensures var a := c.adjudications[AdjudicationFor(c, s).value];
            && a.truthId == TruthAt(c.works, s).id && a.refs == Refs(c, s)
            && forall b | b in c.adjudications && b.truthId == a.truthId :: b == a
  {
    hide WorksOk, RecordsOk, OneToOne, Listing, Paired, Agree, Refs;
    NamedBy(ctx, c, s);
    var k := AdjudicationFor(c, s).value;
    var u := SettledSlot(ctx, c, k);
    SameTruthSameSlot(c.works, Slots(c.works, |c.works|), s, u);
    forall b | b in c.adjudications && b.truthId == c.adjudications[k].truthId
      ensures b == c.adjudications[k]
    {
      var m :| 0 <= m < |c.adjudications| && c.adjudications[m] == b;
      SingleName(ctx, c, k, m);
    }
  }

  /** The decision about a truth unit is the one that follows from its two reviews and their adjudication. */
  lemma DecidesOne(ctx: Context, c: Contract, w: nat, t: nat, d: Decision)
    requires SettledReviews(ctx, c) && w < |c.works| && t < |c.works[w].truths|
    ensures Paired(c, w) && (Decides(c, w, t, d) <==> d == DecisionFor(c, Slot(w, t)))
  {
    hide WorksOk, ReviewsOk, OneToOne, Listing, JudgedBoth, Paired, ReviewsAt, Slots, DistinctWorks;
    var s, work := Slot(w, t), c.works[w];
    PairOutcomes(ctx, c, w, t);
    PairOrder(c, w);
    var found := ReviewsAt(c, w);
    var p, q := OutcomeAt(c.reviews[found[0]], t), OutcomeAt(c.reviews[found[1]], t);
    if !Agree(c, s) {
      Adjudicated(ctx, c, s);
      var a := c.adjudications[AdjudicationFor(c, s).value];
      assert a in c.adjudications;
      forall b | d.truthId == a.truthId
        ensures Resolves(c, b, Refs(c, s), d) <==>
                b == a && d.adjudicationId == Some(a.mark.id) && d.outcome == a.resolution
      {
      }
    }
    FollowsOne(ctx, c, s, d, found[0], found[1], p, q);
  }

  lemma FollowsOne(ctx: Context, c: Contract, s: Slot, d: Decision, i: nat, j: nat, p: Outcome, q: Outcome)
    requires ValidSlot(c.works, s) && Paired(c, s.w)
    requires var found := ReviewsAt(c, s.w);
             && |found| == 2 && i == found[0] && j == found[1] && i < |c.reviews| && j < |c.reviews|
             && p == OutcomeAt(c.reviews[i], s.t) && q == OutcomeAt(c.reviews[j], s.t)
    requires var truth := TruthAt(c.works, s);
             forall x: nat, y: nat, v, w :: JudgedBoth(c, c.works[s.w].workUnitId, truth.id, x, y, v, w) <==>
               x == i && y == j && v == p && w == q
    requires !Agree(c, s) ==>
               && AdjudicationFor(c, s).Some? && AdjudicationFor(c, s).value < |c.adjudications|
               && var a := c.adjudications[AdjudicationFor(c, s).value];
                  && a.truthId == TruthAt(c.works, s).id
                  && forall b | d.truthId == a.truthId :: Resolves(c, b, Refs(c, s), d) <==>
                       b == a && d.adjudicationId == Some(a.mark.id) && d.outcome == a.resolution
    ensures Decides(c, s.w, s.t, d) <==> d == DecisionFor(c, s)
  {
    hide JudgedBoth, Resolves, ReviewsAt, Paired;
    var truth := TruthAt(c.works, s);
    if d == DecisionFor(c, s) {
      assert JudgedBoth(c, d.workUnitId, d.truthId, i, j, p, q);
      if !Agree(c, s) {
        assert Resolves(c, c.adjudications[AdjudicationFor(c, s).value], Refs(c, s), d);
      }
      assert Follows(c, d, i, j, p, q);
    }
    if Decides(c, s.w, s.t, d) {
      var x: nat, y: nat, v, w :| Follows(c, d, x, y, v, w);
      assert JudgedBoth(c, c.works[s.w].workUnitId, truth.id, x, y, v, w);
    }
  }

  /**
   The decision list of an accepted contract: sorted, without repetition, and with exactly the decisions that follow
   from the reviews and adjudications of its truth units. No other list is accepted with the same records.
   */
  lemma DecisionList(ctx: Context, c: Contract)
    requires WorksOk(ctx, c.works) && ReviewsOk(ctx, c) && AssistanceOk(ctx, c)
    requires AllPaired(c) && AdjudicationsOk(ctx, c)
    ensures Acceptable(ctx, c) <==>
            && Sorted(c.decisions, DecisionLe) && Distinct(c.decisions)
            && forall d :: d in c.decisions <==> exists w: nat, t: nat :: Decides(c, w, t, d)
  {
    hide WorksOk, RecordsOk, AssistanceOk, OneToOne, Sorted, Decides, Distinct, Decisions, DecisionLe, AllPaired;
    SettleReviews(ctx, c);
    PairsOfReviews(ctx, c);
    var expected := Decisions(c);
    DecisionsSorted(ctx, c);
    ExpectedDecisions(ctx, c);
    if Sorted(c.decisions, DecisionLe) && Distinct(c.decisions)
       && forall d :: d in c.decisions <==> exists w: nat, t: nat :: Decides(c, w, t, d) {
      SameDecisions(ctx, c);
    }
  }

  lemma SettleReviews(ctx: Context, c: Contract)
    requires WorksOk(ctx, c.works) && ReviewsOk(ctx, c) && AllPaired(c) && OneToOne(ctx, c)
    ensures SettledReviews(ctx, c)
  {
    hide WorkOk, Slots, TruthsApart, RecordsOk, OneToOne, Listing;
    WorksApartSlots(ctx, c.works);
    SlotsListed(c.works);
  }

  lemma ExpectedDecisions(ctx: Context, c: Contract)
    requires SettledReviews(ctx, c) && AllPaired(c)
    ensures Distinct(Decisions(c))
    ensures forall d :: d in Decisions(c) <==> exists w: nat, t: nat :: Decides(c, w, t, d)
  {
    hide WorksOk, ReviewsOk, OneToOne, Listing, Decides, DecisionFor, Paired, AllPaired, DistinctWorks;
    var slots := Slots(c.works, |c.works|);
    forall d
      ensures d in Decisions(c) <==> exists w: nat, t: nat :: Decides(c, w, t, d)
    {
      if d in Decisions(c) {
        var k :| 0 <= k < |slots| && Decisions(c)[k] == d;
        assert slots[k] in slots;
        DecidesOne(ctx, c, slots[k].w, slots[k].t, d);
      }
      if w: nat, t: nat :| Decides(c, w, t, d) {
        DecidedSlot(c, w, t, d);
        DecidesOne(ctx, c, w, t, d);
        var k :| 0 <= k < |slots| && slots[k] == Slot(w, t);
        assert Decisions(c)[k] == d;
      }
    }
    forall i, j | 0 <= i < j < |slots|
      ensures Decisions(c)[i] != Decisions(c)[j]
    {
      DecisionsApart(c, slots, i, j);
    }
  }

  lemma DecidedSlot(c: Contract, w: nat, t: nat, d: Decision)
    requires Decides(c, w, t, d)
    ensures w < |c.works| && t < |c.works[w].truths| && ValidSlot(c.works, Slot(w, t))
  {
  }

  lemma DecisionsApart(c: Contract, slots: seq<Slot>, i: nat, j: nat)
    requires AllPaired(c) && slots == Slots(c.works, |c.works|) && Listing(c.works, slots) && i < j < |slots|
    ensures Decisions(c)[i] != Decisions(c)[j]
  {
    hide Slots, Paired;
    assert slots[i] in slots && slots[j] in slots;
    PairedAt(c, slots[i]);
    PairedAt(c, slots[j]);
  }

  lemma SameDecisions(ctx: Context, c: Contract)
    requires SettledReviews(ctx, c) && AllPaired(c)
    requires Sorted(c.decisions, DecisionLe) && Distinct(c.decisions)
    requires Sorted(Decisions(c), DecisionLe) && Distinct(Decisions(c))
    requires forall d :: d in c.decisions <==> d in Decisions(c)
    ensures c.decisions == Decisions(c)
  {
    hide WorksOk, ReviewsOk, OneToOne, Decisions, DecisionLe, Distinct, AllPaired, Sorted, DistinctWorks;
    var expected := Decisions(c);
    forall d
      ensures multiset(c.decisions)[d] == multiset(expected)[d]
    {
      MemberOnce(c.decisions, d);
      MemberOnce(expected, d);
    }
    assert multiset(c.decisions) == multiset(expected);
    DecisionOrder();
    forall x, y | x in c.decisions && y in c.decisions && DecisionLe(x, y) && DecisionLe(y, x)
      ensures x == y
    {
      SameTruthBothWays(x, y);
      OneDecisionEach(c, x, y);
    }
    SortedUnique(c.decisions, expected, DecisionLe);
  }

  /**
   In an accepted contract the outcome of a decision is the one its two reviews share; if they differ it is the
   resolution of the one adjudication that names the truth unit and cites both.
   */
  lemma DecisionMeaning(ctx: Context, c: Contract, d: Decision, i: nat, j: nat, p: Outcome, q: Outcome)
    requires Acceptable(ctx, c) && d in c.decisions && JudgedBoth(c, d.workUnitId, d.truthId, i, j, p, q)
    ensures d.refs == Citing(c, i, j) && (d.agreement <==> p == q)
    ensures p == q ==> d.outcome == p && d.adjudicationId == None
    ensures p != q ==> exists a :: Resolves(c, a, Citing(c, i, j), d)
  {
    hide WorksOk, ReviewsOk, OneToOne, Listing, Decides, JudgedBoth, DecisionFor, Decisions, Acceptable, DistinctWorks,
         Resolves;
    AcceptedParts(ctx, c);
    PairsOfReviews(ctx, c);
    ExpectedDecisions(ctx, c);
    var w: nat, t: nat :| Decides(c, w, t, d);
    DecidedFacts(c, w, t, d);
    PairOutcomes(ctx, c, w, t);
    var x: nat, y: nat, v, u :| Follows(c, d, x, y, v, u);
  }

  lemma DecidedFacts(c: Contract, w: nat, t: nat, d: Decision)
    requires Decides(c, w, t, d)
    ensures w < |c.works| && t < |c.works[w].truths|
    ensures d.workUnitId == c.works[w].workUnitId && d.truthId == c.works[w].truths[t].id
    ensures exists i: nat, j: nat, p, q :: Follows(c, d, i, j, p, q)
  {
    hide Follows;
  }

  // ---------- counts ----------

  /** The decisions of metric `m` with outcome `o`, by position. */
  ghost function Positions(decisions: seq<Decision>, m: Metric, o: Outcome): set<nat> {
    set k: nat | k < |decisions| && decisions[k].metric == m && decisions[k].outcome == o
  }

  lemma {:induction false} TallyCounts(decisions: seq<Decision>, m: Metric, o: Outcome)
    ensures Tally(decisions, m, o) == |Positions(decisions, m, o)|
  {
    hide Positions;
    if decisions == [] {
      assert Positions([], m, o) == {} by { NoPositions(m, o); }
    } else {
      var front, last := decisions[..|decisions| - 1], decisions[|decisions| - 1];
      TallyCounts(front, m, o);
      LastPosition(decisions, m, o);
      LastTally(decisions, m, o);
    }
  }

  lemma NoPositions(m: Metric, o: Outcome)
    ensures Positions([], m, o) == {}
  {
  }

  lemma LastPosition(decisions: seq<Decision>, m: Metric, o: Outcome)
    requires decisions != []
    ensures var front, last := decisions[..|decisions| - 1], decisions[|decisions| - 1];
            |Positions(decisions, m, o)| ==
            |Positions(front, m, o)| + if last.metric == m && last.outcome == o then 1 else 0
  {
    var front, last := decisions[..|decisions| - 1], decisions[|decisions| - 1];
    var n: nat := |front|;
    var before, after := Positions(front, m, o), Positions(decisions, m, o);
    forall k: nat
      ensures k in after <==> k in before || (k == n && last.metric == m && last.outcome == o)
    {
      LaterPosition(decisions, m, o, k);
    }
    assert n !in before;
    assert after == before + if last.metric == m && last.outcome == o then {n} else {};
  }

  lemma LaterPosition(decisions: seq<Decision>, m: Metric, o: Outcome, k: nat)
    requires decisions != []
    ensures var front, last := decisions[..|decisions| - 1], decisions[|decisions| - 1];
            k in Positions(decisions, m, o) <==>
            k in Positions(front, m, o) || (k == |front| && last.metric == m && last.outcome == o)
  {
  }

  lemma LastTally(decisions: seq<Decision>, m: Metric, o: Outcome)
    requires decisions != []
    ensures var front, last := decisions[..|decisions| - 1], decisions[|decisions| - 1];
            Tally(decisions, m, o) == Tally(front, m, o) + if last.metric == m && last.outcome == o then 1 else 0
  {
    var front, last := decisions[..|decisions| - 1], decisions[|decisions| - 1];
    assert Map(JudgedOf, decisions) == Map(JudgedOf, front) + [JudgedOf(last)];
  }

  lemma SixAndFour()
    ensures CriticalMetrics() ==
            {BusinessMeaning, NumericDateUnit, Modality, TableMapping, TrendReversal, ExecutiveClaim}
    ensures RateMetrics() == {SemanticFidelity, UnresolvedPrecision, UnresolvedRecall, LockedTerminology}
  {
  }

  /** `rate` times the number of all is the number of the correct ones. */
  ghost predicate IsShare(rate: real, correct: nat, wrong: nat) {
    correct + wrong > 0 && rate * (correct + wrong) as real == correct as real
  }

  lemma RateTimes(decisions: seq<Decision>, m: Metric)
    requires Tally(decisions, m, Correct) + Tally(decisions, m, Incorrect) > 0
    ensures IsShare(Rate(decisions, m), Tally(decisions, m, Correct), Tally(decisions, m, Incorrect))
  {
    hide Tally;
  }

  /**
   The six critical metrics are numbers of incorrect decisions; each of the other four is the share of the correct
   ones among the decisions of it.
   */
  lemma MeasuredCounts(decisions: seq<Decision>, counts: map<Metric, nat>, rates: map<Metric, real>)
    requires Measured(decisions, counts, rates)
    ensures counts.Keys ==
            {BusinessMeaning, NumericDateUnit, Modality, TableMapping, TrendReversal, ExecutiveClaim}
    ensures rates.Keys == {SemanticFidelity, UnresolvedPrecision, UnresolvedRecall, LockedTerminology}
    ensures forall m | m in counts :: counts[m] == |Positions(decisions, m, Incorrect)|
    ensures forall m | m in rates ::
              IsShare(rates[m], |Positions(decisions, m, Correct)|, |Positions(decisions, m, Incorrect)|)
  {
    hide Tally, Positions, CriticalMetrics, RateMetrics, Rate, IsShare;
    SixAndFour();
    forall m | m in counts
      ensures counts[m] == |Positions(decisions, m, Incorrect)|
    {
      TallyCounts(decisions, m, Incorrect);
    }
    forall m | m in rates
      ensures IsShare(rates[m], |Positions(decisions, m, Correct)|, |Positions(decisions, m, Incorrect)|)
    {
      TallyCounts(decisions, m, Correct);
      TallyCounts(decisions, m, Incorrect);
      RateTimes(decisions, m);
    }
  }

  // ---------- records ----------

  /** An accepted sample: at least 200 work units and 50 artifacts, bound to active items. */
  lemma AcceptedSample(ctx: Context, c: Contract)
    requires Acceptable(ctx, c)
    ensures |c.works| >= 200 && |set work | work in c.works :: work.artifactId| >= 50
    ensures |c.reviews| == 2 * |c.works|
    ensures forall work | work in c.works ::
              && work.itemId in ctx.active && ctx.active[work.itemId].0 == work.sourceSha
              && ctx.active[work.itemId].1 == work.goldSha && work.truths != []
  {
    hide Slots, TruthsApart, RecordsOk, AssistanceOk, AdjudicationsOk, Decisions, AllPaired, Sorted;
    ReviewTotal(ctx, c);
  }

  lemma ReviewTotal(ctx: Context, c: Contract)
    requires WorksOk(ctx, c.works) && ReviewsOk(ctx, c)
    ensures |c.reviews| == 2 * |c.works|
  {
    hide WorksOk, RecordsOk, AllPaired, CountedPairs, GoodWorks;
    WorksAreGood(ctx, c.works);
    OkMeansCounted(ctx, c);
    CountedParts(c);
  }

  /** What an accepted review is: human, independent, by direct comparison, bound to one work unit in every field. */
  lemma AcceptedReview(ctx: Context, c: Contract, review: Review)
    requires Acceptable(ctx, c) && review in c.reviews
    ensures review.standing.kind == "independent_bilingual_human" && review.standing.authority == "human_review"
    ensures review.basis == "direct_source_gold_comparison"
    ensures review.mark.digest == ctx.reviewDigest(review.(mark := review.mark.(digest := "")))
    ensures exists w: nat :: w < |c.works| && BoundTo(ctx, c, review.binding, c.works[w])
                             && |review.outcomes| == |c.works[w].truths|
                             && forall t | 0 <= t < |review.outcomes| ::
                                  && review.outcomes[t].truthId == c.works[w].truths[t].id
                                  && review.outcomes[t].metric == c.works[w].truths[t].metric
                                  && (review.outcomes[t].outcome == Correct || review.outcomes[t].outcome == Incorrect)
  {
    hide WorksOk, AssistanceOk, AdjudicationsOk, Decisions, AllPaired, NoReplay, Sorted, IsHash, Increasing;
    assert ReviewOk(ctx, c, review);
    var w: nat :| Reviews(ctx, c, review, w);
    assert BoundTo(ctx, c, review.binding, c.works[w]);
  }

  /** Candidate, corpus, purpose and policy of the contract, and item, unit and artifact of the work unit. */
  predicate BoundTo(ctx: Context, c: Contract, b: Binding, work: Work) {
    && b.header.subject == c.header.subject && b.header.deployment == c.header.deployment
    && b.header.corpusSet == c.header.corpusSet && b.header.purpose == c.header.purpose
    && b.header.policy == c.header.policy
    && b.itemId == work.itemId && b.itemIdentity == ctx.itemDigest(work.itemId, work.sourceSha, work.goldSha)
    && b.workUnitId == work.workUnitId && b.artifactId == work.artifactId && b.artifactSha == work.artifactSha
  }

  /** What an accepted adjudication is: human, of one truth unit on which two reviews differ, and citing them. */
  lemma AcceptedAdjudication(ctx: Context, c: Contract, a: Adjudication)
    requires Acceptable(ctx, c) && a in c.adjudications
    ensures a.standing.kind == "human_bilingual_adjudicator" && a.standing.authority == "human_adjudication"
    ensures a.mark.digest == ctx.adjudicationDigest(a.(mark := a.mark.(digest := "")))
    ensures a.resolution == Correct || a.resolution == Incorrect
    ensures exists w: nat, t: nat, i: nat, j: nat, p, q ::
              && w < |c.works| && t < |c.works[w].truths| && BoundTo(ctx, c, a.binding, c.works[w])
              && a.truthId == c.works[w].truths[t].id && a.metric == c.works[w].truths[t].metric
              && JudgedBoth(c, c.works[w].workUnitId, a.truthId, i, j, p, q) && p != q && a.refs == Citing(c, i, j)
  {
    hide WorksOk, ReviewsOk, OneToOne, Listing, JudgedBoth, Decisions, Acceptable, DistinctWorks, IsHash, Paired;
    AcceptedParts(ctx, c);
    PairsOfReviews(ctx, c);
    var k :| 0 <= k < |c.adjudications| && c.adjudications[k] == a;
    var s := SettledSlot(ctx, c, k);
    PairOutcomes(ctx, c, s.w, s.t);
    PairOrder(c, s.w);
    var found := ReviewsAt(c, s.w);
    var p, q := OutcomeAt(c.reviews[found[0]], s.t), OutcomeAt(c.reviews[found[1]], s.t);
    assert JudgedBoth(c, c.works[s.w].workUnitId, a.truthId, found[0], found[1], p, q);
    assert BoundTo(ctx, c, a.binding, c.works[s.w]);
    assert a.refs == Citing(c, found[0], found[1]);
  }

  /** What accepted assistance is: a suggestion without authority, bound to one review and to the work unit of it. */
  lemma AcceptedAssistance(ctx: Context, c: Contract, a: Assistance)
    requires Acceptable(ctx, c) && a in c.assistance
    ensures a.standing.authority == "non_authoritative_assistance"
    ensures a.standing.kind in {"translation_suggestion", "terminology_suggestion", "comparison_suggestion"}
    ensures a.mark.digest == ctx.assistanceDigest(a.(mark := a.mark.(digest := "")))
    ensures exists r: nat, w: nat ::
              && r < |c.reviews| && c.reviews[r].mark.id == a.reviewId && a.mark.id in c.reviews[r].assistance
              && w < |c.works| && BoundTo(ctx, c, c.reviews[r].binding, c.works[w])
              && BoundTo(ctx, c, a.binding, c.works[w])
  {
    hide WorksOk, AdjudicationsOk, Decisions, AllPaired, NoReplay, Sorted, IsHash, Increasing, Covers;
    assert AssistanceRecordOk(ctx, c, a);
    var r: nat :| Assists(c, a, r);
    assert ReviewOk(ctx, c, c.reviews[r]);
    var w: nat :| Reviews(ctx, c, c.reviews[r], w);
    var k: nat :| k < |c.assistance| && c.assistance[k] == a;
    AssistanceIsCited(ctx, c, k, r);
    assert BoundTo(ctx, c, a.binding, c.works[w]);
  }

  /** Two records with nothing in common. */
  predicate Different(a: Mark, b: Mark) {
    a.id != b.id && a.digest != b.digest && a.artifactId != b.artifactId && a.artifactSha != b.artifactSha
  }

  /**
   In an accepted contract no work unit, truth unit or record occurs twice, and no record copies identity, digest or
   artifact of another one; an artifact that several work units share has one item and one content.
   */
  lemma NothingTwice(ctx: Context, c: Contract)
    requires Acceptable(ctx, c)
    ensures forall i, j | 0 <= i < j < |c.works| ::
              && c.works[i].workUnitId != c.works[j].workUnitId
              && (c.works[i].artifactId == c.works[j].artifactId ==>
                    c.works[i].itemId == c.works[j].itemId && c.works[i].artifactSha == c.works[j].artifactSha)
    ensures forall i, j | 0 <= i < j < |c.reviews| :: Different(c.reviews[i].mark, c.reviews[j].mark)
    ensures forall i, j | 0 <= i < j < |c.assistance| :: Different(c.assistance[i].mark, c.assistance[j].mark)
    ensures forall i, j | 0 <= i < j < |c.adjudications| ::
              && Different(c.adjudications[i].mark, c.adjudications[j].mark)
              && c.adjudications[i].truthId != c.adjudications[j].truthId
  {
    hide Slots, TruthsApart, Decisions, AllPaired, Sorted, ReviewOk, AssistanceRecordOk, WorkOk, Needed, Names;
    var reviews, assistance := ReviewMarks(c.reviews), AssistanceMarks(c.assistance);
    var adjudications := AdjudicationMarks(c.adjudications);
    assert forall i, j | 0 <= i < j < |reviews| :: Apart(reviews[i], reviews[j]);
    assert forall i, j | 0 <= i < j < |assistance| :: Apart(assistance[i], assistance[j]);
    assert forall i, j | 0 <= i < j < |adjudications| :: Apart(adjudications[i], adjudications[j]);
  }

  /** A truth unit occurs at one place of the sample, and each of the ten metrics has one. */
  lemma TruthsOnce(ctx: Context, c: Contract, v: nat, t: nat, w: nat, u: nat)
    requires Acceptable(ctx, c) && v < |c.works| && t < |c.works[v].truths| && w < |c.works| && u < |c.works[w].truths|
    ensures c.works[v].truths[t].id == c.works[w].truths[u].id ==> v == w && t == u
  {
    hide WorkOk, Decisions, AllPaired, Sorted, ReviewsOk, AssistanceOk, AdjudicationsOk;
    var slots := Slots(c.works, |c.works|);
    var a, b := Slot(v, t), Slot(w, u);
    assert a in slots && b in slots;
    var i: nat :| i < |slots| && slots[i] == a;
    var j: nat :| j < |slots| && slots[j] == b;
  }

  lemma EveryMetric(ctx: Context, c: Contract, m: Metric) returns (w: nat, t: nat)
    requires Acceptable(ctx, c) && Supported(m)
    ensures w < |c.works| && t < |c.works[w].truths| && c.works[w].truths[t].metric == m
  {
    hide WorkOk, Decisions, AllPaired, Sorted, ReviewsOk, AssistanceOk, AdjudicationsOk, Slots, TruthsApart;
    var s :| s in Slots(c.works, |c.works|) && TruthAt(c.works, s).metric == m;
    w, t := s.w, s.t;
  }

  /** Each metric is decided at least once. */
  lemma EveryMetricDecided(ctx: Context, c: Contract, m: Metric)
    requires Acceptable(ctx, c)
    requires m in {BusinessMeaning, NumericDateUnit, Modality, TableMapping, TrendReversal, ExecutiveClaim,
                   SemanticFidelity, UnresolvedPrecision, UnresolvedRecall, LockedTerminology}
    ensures |Positions(c.decisions, m, Correct)| + |Positions(c.decisions, m, Incorrect)| > 0
  {
    hide Acceptable, SettledReviews, Decisions, Positions, Decides, AllPaired;
    var w, t := EveryMetric(ctx, c, m);
    var d := DecidedAt(ctx, c, w, t);
    DecidedMetric(c, w, t, d);
    Counted(c.decisions, d);
  }

  lemma DecidedAt(ctx: Context, c: Contract, w: nat, t: nat) returns (d: Decision)
    requires Acceptable(ctx, c) && w < |c.works| && t < |c.works[w].truths|
    ensures Decides(c, w, t, d) && d in c.decisions && (d.outcome == Correct || d.outcome == Incorrect)
  {
    hide WorkOk, Slots, TruthsApart, RecordsOk, AssistanceOk, Decisions, Decides, OneToOne, Paired, DecisionFor, Sorted;
    AcceptedParts(ctx, c);
    PairsOfReviews(ctx, c);
    PairedAt(c, Slot(w, t));
    d := DecisionFor(c, Slot(w, t));
    DecidesOne(ctx, c, w, t, d);
    ExpectedDecisions(ctx, c);
    OutcomesSettled(ctx, c, d);
  }

  lemma DecidedMetric(c: Contract, w: nat, t: nat, d: Decision)
    requires Decides(c, w, t, d)
    ensures w < |c.works| && t < |c.works[w].truths| && d.metric == c.works[w].truths[t].metric
  {
  }

  lemma Counted(decisions: seq<Decision>, d: Decision)
    requires d in decisions
    ensures |Positions(decisions, d.metric, d.outcome)| > 0
  {
    var k: nat :| k < |decisions| && decisions[k] == d;
    assert k in Positions(decisions, d.metric, d.outcome);
  }
}

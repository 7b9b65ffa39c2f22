/**
 The last loops of the ledger checker: truth units are visited by identity, each gets its authoritative outcome, and
 the decision list and the metrics follow.
 */
module BilingualDecisions {
  import opened Wrappers
  import opened Sorting
  import opened Collections
  import opened BilingualReview
  import opened BilingualCounting
  import opened BilingualRecords

  // ---------- visiting order ----------

  function TruthKey(works: seq<Work>, s: Slot): string {
    if ValidSlot(works, s) then TruthAt(works, s).id else ""
  }

  function ByTruth(works: seq<Work>): (Slot, Slot) -> bool {
    (a: Slot, b: Slot) => LexLe(TruthKey(works, a), TruthKey(works, b))
  }

  lemma ByTruthOrder(works: seq<Work>)
    ensures Preorder(ByTruth(works))
  {
    OrderByKey(ByTruth(works), (s: Slot) => TruthKey(works, s));
  }

  lemma DistinctRearranged<T>(a: seq<T>, b: seq<T>)
    requires Distinct(a) && multiset(a) == multiset(b)
    ensures Distinct(b)
  {
    forall i, j | 0 <= i < j < |b|
      ensures b[i] != b[j]
    {
      MemberOnce(a, b[j]);
      TwiceCounts(b, i, j);
    }
  }

  lemma TwiceCounts<T>(b: seq<T>, i: nat, j: nat)
    requires i < j < |b|
    ensures b[i] == b[j] ==> multiset(b)[b[j]] >= 2
  {
    assert b == b[..j] + b[j..];
    assert multiset(b) == multiset(b[..j]) + multiset(b[j..]);
    assert b[..j][i] == b[i] && b[j..][0] == b[j];
    assert b[i] in multiset(b[..j]) && b[j] in multiset(b[j..]);
  }

  lemma SlotsListed(works: seq<Work>)
    requires TruthsApart(works, Slots(works, |works|))
    ensures Listing(works, Slots(works, |works|)) && Distinct(Slots(works, |works|))
  {
    hide TruthAt;
  }

  lemma RearrangedListing(works: seq<Work>, slots: seq<Slot>, order: seq<Slot>)
    requires Listing(works, slots) && Distinct(slots) && multiset(order) == multiset(slots)
    ensures Listing(works, order)
  {
    hide TruthAt, ValidSlot;
    DistinctRearranged(slots, order);
    assert forall s :: s in order <==> s in multiset(order);
    assert forall s :: s in slots <==> s in multiset(slots);
    forall i, j | 0 <= i < j < |order|
      ensures TruthAt(works, order[i]).id != TruthAt(works, order[j]).id
    {
      assert order[i] in slots && order[j] in slots;
      var p :| 0 <= p < |slots| && slots[p] == order[i];
      var q :| 0 <= q < |slots| && slots[q] == order[j];
      assert p < q || q < p;
    }
  }

  // ---------- reading one truth unit ----------

  lemma CoversWork(ctx: Context, c: Contract, w: nat, r: nat)
    requires RecordsOk(ctx, c) && UniqueWorks(c.works) && w < |c.works| && r < |c.reviews|
    requires c.reviews[r].binding.workUnitId == c.works[w].workUnitId
    ensures Covers(c.reviews[r].outcomes, c.works[w].truths)
  {
    hide NoReplay, IsHash, MarkOk, Covers, Sorted;
    assert ReviewOk(ctx, c, c.reviews[r]);
    var v: nat :| Reviews(ctx, c, c.reviews[r], v);
    assert c.works[v].workUnitId == c.works[w].workUnitId;
  }

  ghost predicate Collected(ctx: Context, c: Contract, workById: map<string, nat>,
                            recordsByWork: map<string, seq<nat>>, outcomesByRecord: seq<map<string, Outcome>>) {
    && RecordsOk(ctx, c) && AllPaired(c) && UniqueWorks(c.works)
    && Grouped(c, |c.reviews|, workById, recordsByWork)
    && |outcomesByRecord| == |c.reviews| && OutcomesKept(c, outcomesByRecord)
  }

  /** What `records_for_truth` holds for the truth unit: the two records of its work unit with their outcomes. */
  lemma PairCollected(ctx: Context, c: Contract, workById: map<string, nat>, recordsByWork: map<string, seq<nat>>,
                      outcomesByRecord: seq<map<string, Outcome>>, s: Slot)
    requires Collected(ctx, c, workById, recordsByWork, outcomesByRecord) && ValidSlot(c.works, s)
    ensures c.works[s.w].workUnitId in recordsByWork
    ensures var found := recordsByWork[c.works[s.w].workUnitId];
            && found == ReviewsAt(c, s.w) && |found| == 2 && found[0] < found[1] < |c.reviews|
            && Paired(c, s.w) && Pair(c, s) == (c.reviews[found[0]], c.reviews[found[1]])
            && (forall i | 0 <= i < 2 :: Covers(c.reviews[found[i]].outcomes, c.works[s.w].truths))
  {
    hide RecordsOk, OutcomesKept, UniqueWorks, Covers, TruthAt;
    assert Paired(c, s.w);
    var id := c.works[s.w].workUnitId;
    var found := ReviewsAt(c, s.w);
    assert Lookup(recordsByWork, id) == found;
    CoversWork(ctx, c, s.w, found[0]);
    CoversWork(ctx, c, s.w, found[1]);
  }

  lemma KeptOutcome(c: Contract, outcomesByRecord: seq<map<string, Outcome>>, s: Slot, r: nat)
    requires OutcomesKept(c, outcomesByRecord) && r < |outcomesByRecord| && ValidSlot(c.works, s)
    requires Covers(c.reviews[r].outcomes, c.works[s.w].truths)
    ensures var id := TruthAt(c.works, s).id;
            id in outcomesByRecord[r] && outcomesByRecord[r][id] == OutcomeAt(c.reviews[r], s.t)
            && !OutcomeAt(c.reviews[r], s.t).OtherOutcome?
  {
    assert Holds(outcomesByRecord[r], c.reviews[r].outcomes);
    assert c.reviews[r].outcomes[s.t].truthId == TruthAt(c.works, s).id;
  }

  /** Records arrive in the order of their identities, so sorting the pair changes nothing. */
  lemma PairInOrder(ctx: Context, c: Contract, i: nat, j: nat)
    requires RecordsOk(ctx, c) && i < j < |c.reviews|
    ensures LexLe(c.reviews[i].mark.id, c.reviews[j].mark.id)
  {
    hide LexLe, NoReplay, ReviewOk;
    assert ReviewLe(c.reviews[i], c.reviews[j]);
  }

  /** The pair of records sorted by identity. */
  function InOrder(reviews: seq<Review>, i: nat, j: nat): (nat, nat)
    requires i < |reviews| && j < |reviews|
  {
    if LexLe(reviews[i].mark.id, reviews[j].mark.id) then (i, j) else (j, i)
  }

  method ReadSlot(ctx: Context, c: Contract, s: Slot, workById: map<string, nat>,
                  recordsByWork: map<string, seq<nat>>, outcomesByRecord: seq<map<string, Outcome>>)
    returns (refs: seq<Ref>, agreement: bool, first: Outcome)
    requires Collected(ctx, c, workById, recordsByWork, outcomesByRecord) && ValidSlot(c.works, s)
    ensures Paired(c, s.w)
    ensures refs == Refs(c, s) && (agreement <==> Agree(c, s)) && first == OutcomeAt(Pair(c, s).0, s.t)
    ensures !first.OtherOutcome?
  {
    hide RecordsOk, OutcomesKept, UniqueWorks, Covers, AllPaired, Grouped, LexLe, OutcomeAt, Paired, ReviewsAt;
    PairCollected(ctx, c, workById, recordsByWork, outcomesByRecord, s);
    var truthId := TruthAt(c.works, s).id;
    var records := recordsByWork[c.works[s.w].workUnitId];
    KeptOutcome(c, outcomesByRecord, s, records[0]);
    KeptOutcome(c, outcomesByRecord, s, records[1]);
    PairInOrder(ctx, c, records[0], records[1]);
    var (a, b) := InOrder(c.reviews, records[0], records[1]);
    refs := [RefTo(c.reviews[a]), RefTo(c.reviews[b])];
    agreement := outcomesByRecord[a][truthId] == outcomesByRecord[b][truthId];
    first := outcomesByRecord[a][truthId];
  }

  // ---------- settling one truth unit ----------

  method CheckAdjudication(ctx: Context, c: Contract, s: Slot, refs: seq<Ref>, a: Adjudication, seen: Seen)
    returns (ok: bool)
    requires ValidSlot(c.works, s) && Paired(c, s.w) && refs == Refs(c, s) && a.truthId == TruthAt(c.works, s).id
    ensures ok <==> Settles(ctx, c, s, a) && Fresh(seen, a.mark)
  {
    hide IsHash, MarkOk, Fresh, Refs, Paired;
    if !MarkOk(a.mark, AdjudicationDigest(ctx, a)) || !Fresh(seen, a.mark) {
      return false;
    }
    if !IsHash(a.adjudicator) || a.standing != HumanAdjudication() {
      return false;
    }
    if a.binding != BindingFor(ctx, c.header, c.works[s.w]) {
      return false;
    }
    ok := a.metric == TruthAt(c.works, s).metric && a.refs == refs && !a.resolution.OtherOutcome?;
  }

  /** The state of the loop after `k` truth units. */
  ghost predicate Progress(ctx: Context, c: Contract, order: seq<Slot>, k: nat, expected: set<string>, seen: Seen)
    requires Ready(c, order) && k <= |order|
  {
    && Settled(ctx, c, order, k) && NoReplay(UsedMarks(c, Used(c, order, k)))
    && seen == SeenIn(UsedMarks(c, Used(c, order, k)))
    && |expected| == |Used(c, order, k)|
    && forall id | id in expected :: exists i: nat :: i < k && IdAt(c, order, i) == id
  }

  ghost function IdAt(c: Contract, order: seq<Slot>, i: nat): string
    requires Ready(c, order)
  {
    if i < |order| then ListingMember(c.works, order, i); TruthAt(c.works, order[i]).id else ""
  }

  lemma UsedStep(c: Contract, order: seq<Slot>, k: nat)
    requires Ready(c, order) && k < |order|
    ensures Used(c, order, k + 1) ==
            Used(c, order, k) + if NeedsAdjudication(c, order, k) && Adjudicator(c, order, k).Some?
                                then [Adjudicator(c, order, k).value] else []
  {
    hide Ready, NeedsAdjudication, Adjudicator;
  }

  lemma ProgressAgree(ctx: Context, c: Contract, order: seq<Slot>, k: nat, expected: set<string>, seen: Seen)
    requires Ready(c, order) && k < |order| && Progress(ctx, c, order, k, expected, seen)
    requires !NeedsAdjudication(c, order, k)
    ensures Progress(ctx, c, order, k + 1, expected, seen)
  {
    hide Ready, NeedsAdjudication, Adjudicator, SettledBy, IdAt, NoReplay, SeenIn, Used;
    UsedStep(c, order, k);
    assert Used(c, order, k + 1) == Used(c, order, k);
    SettledStep(ctx, c, order, k);
    forall id | id in expected
      ensures exists i: nat :: i < k + 1 && IdAt(c, order, i) == id
    {
      var i: nat :| i < k && IdAt(c, order, i) == id;
    }
  }

  lemma SettledStep(ctx: Context, c: Contract, order: seq<Slot>, k: nat)
    requires Ready(c, order) && k < |order|
    ensures Settled(ctx, c, order, k + 1) <==>
            && Settled(ctx, c, order, k)
            && (NeedsAdjudication(c, order, k) ==>
                  Adjudicator(c, order, k).Some? && SettledBy(ctx, c, order, k, Adjudicator(c, order, k).value))
  {
    hide Ready, NeedsAdjudication, Adjudicator, SettledBy;
  }

  lemma MarksStep(c: Contract, order: seq<Slot>, k: nat)
    requires Ready(c, order) && k < |order| && NeedsAdjudication(c, order, k) && Adjudicator(c, order, k).Some?
    ensures UsedMarks(c, Used(c, order, k + 1)) ==
            UsedMarks(c, Used(c, order, k)) + [c.adjudications[Adjudicator(c, order, k).value].mark]
  {
    hide Ready, NeedsAdjudication, Adjudicator, Used;
    UsedStep(c, order, k);
  }

  lemma NewId(c: Contract, order: seq<Slot>, k: nat, expected: set<string>)
    requires Ready(c, order) && k < |order|
    requires forall id | id in expected :: exists i: nat :: i < k && IdAt(c, order, i) == id
    ensures IdAt(c, order, k) !in expected
  {
    hide AllPaired;
    forall i: nat | i < k
      ensures IdAt(c, order, i) != IdAt(c, order, k)
    {
      ListingMember(c.works, order, i);
      ListingMember(c.works, order, k);
    }
  }

  lemma ProgressSettle(ctx: Context, c: Contract, order: seq<Slot>, k: nat, expected: set<string>, seen: Seen)
    requires Ready(c, order) && k < |order| && Progress(ctx, c, order, k, expected, seen)
    requires NeedsAdjudication(c, order, k) && Adjudicator(c, order, k).Some?
    requires SettledBy(ctx, c, order, k, Adjudicator(c, order, k).value)
    requires Fresh(seen, c.adjudications[Adjudicator(c, order, k).value].mark)
    ensures Progress(ctx, c, order, k + 1, expected + {IdAt(c, order, k)},
                     Note(seen, c.adjudications[Adjudicator(c, order, k).value].mark))
  {
    hide Ready, NeedsAdjudication, Adjudicator, SettledBy, IdAt, NoReplay, SeenIn, Used, Settled, Fresh, Note;
    UsedStep(c, order, k);
    SettledStep(ctx, c, order, k);
    MarksStep(c, order, k);
    var mark := c.adjudications[Adjudicator(c, order, k).value].mark;
    ReplayStep(UsedMarks(c, Used(c, order, k)), mark);
    SeenStep(UsedMarks(c, Used(c, order, k)), mark);
    NewId(c, order, k, expected);
    forall id | id in expected + {IdAt(c, order, k)}
      ensures exists i: nat :: i < k + 1 && IdAt(c, order, i) == id
    {
      if id in expected {
        var i: nat :| i < k && IdAt(c, order, i) == id;
      }
    }
  }

  lemma {:induction false} UsedPrefix(c: Contract, order: seq<Slot>, k: nat)
    requires Ready(c, order) && k <= |order|
    ensures |Used(c, order, k)| <= |Used(c, order, |order|)|
    ensures Used(c, order, k) == Used(c, order, |order|)[..|Used(c, order, k)|]
    decreases |order| - k
  {
    hide Ready, NeedsAdjudication, Adjudicator, Used;
    if k < |order| {
      UsedPrefix(c, order, k + 1);
      UsedStep(c, order, k);
    }
  }

  lemma MarksPrefix(c: Contract, order: seq<Slot>, k: nat)
    requires Ready(c, order) && k <= |order| && NoReplay(UsedMarks(c, Used(c, order, |order|)))
    ensures NoReplay(UsedMarks(c, Used(c, order, k)))
  {
    hide Ready, Used;
    UsedPrefix(c, order, k);
    var all := UsedMarks(c, Used(c, order, |order|));
    ReplayPrefix(all, |Used(c, order, k)|);
    assert UsedMarks(c, Used(c, order, k)) == all[..|Used(c, order, k)|];
  }

  /** An accepted contract passes every test of the loop. */
  lemma AcceptedStep(ctx: Context, c: Contract, order: seq<Slot>, k: nat, expected: set<string>, seen: Seen)
    requires Ready(c, order) && CountedAdjudications(ctx, c, order) && k < |order|
    requires Progress(ctx, c, order, k, expected, seen) && NeedsAdjudication(c, order, k)
    ensures Adjudicator(c, order, k).Some?
    ensures SettledBy(ctx, c, order, k, Adjudicator(c, order, k).value)
    ensures Fresh(seen, c.adjudications[Adjudicator(c, order, k).value].mark)
  {
    hide Ready, NeedsAdjudication, Adjudicator, SettledBy, IdAt, NoReplay, SeenIn, Used, Fresh;
    assert Adjudicator(c, order, k).Some? && SettledBy(ctx, c, order, k, Adjudicator(c, order, k).value);
    MarksPrefix(c, order, k + 1);
    MarksStep(c, order, k);
    ReplayStep(UsedMarks(c, Used(c, order, k)), c.adjudications[Adjudicator(c, order, k).value].mark);
  }

  // ---------- decisions ----------

  ghost function DecisionAt(c: Contract, order: seq<Slot>, i: nat): Decision
    requires Ready(c, order) && i < |order|
  {
    ListingMember(c.works, order, i);
    DecisionFor(c, order[i])
  }

  ghost predicate Decided(c: Contract, order: seq<Slot>, decisions: seq<Decision>)
    requires Ready(c, order)
  {
    |decisions| <= |order| && forall i: nat | i < |decisions| :: decisions[i] == DecisionAt(c, order, i)
  }

  /** The outcomes of the decisions, by metric. */
  ghost predicate Tallied(metricsOutcomes: map<Metric, seq<Outcome>>, decisions: seq<Decision>) {
    && (forall m, o :: multiset(Lookup(metricsOutcomes, m))[o] == Tally(decisions, m, o))
    && (forall m | m in metricsOutcomes :: metricsOutcomes[m] != [])
  }

  lemma TallyStep(decisions: seq<Decision>, d: Decision, m: Metric, o: Outcome)
    ensures Tally(decisions + [d], m, o) ==
            Tally(decisions, m, o) + if d.metric == m && d.outcome == o then 1 else 0
  {
    assert Map(JudgedOf, decisions + [d]) == Map(JudgedOf, decisions) + [JudgedOf(d)];
    assert multiset([JudgedOf(d)])[Judged(m, o)] == if d.metric == m && d.outcome == o then 1 else 0;
  }

  lemma TalliedStep(metricsOutcomes: map<Metric, seq<Outcome>>, decisions: seq<Decision>, d: Decision)
    requires Tallied(metricsOutcomes, decisions)
    ensures Tallied(metricsOutcomes[d.metric := Lookup(metricsOutcomes, d.metric) + [d.outcome]], decisions + [d])
  {
    hide Tally;
    var updated := metricsOutcomes[d.metric := Lookup(metricsOutcomes, d.metric) + [d.outcome]];
    forall m, o
      ensures multiset(Lookup(updated, m))[o] == Tally(decisions + [d], m, o)
    {
      TallyStep(decisions, d, m, o);
      assert multiset(Lookup(metricsOutcomes, m))[o] == Tally(decisions, m, o);
    }
  }

  method DecideSlot(ctx: Context, c: Contract, ghost order: seq<Slot>, ghost k: nat, s: Slot,
                    workById: map<string, nat>, recordsByWork: map<string, seq<nat>>,
                    outcomesByRecord: seq<map<string, Outcome>>, ghost expected: set<string>, seen: Seen)
    returns (ok: bool, decision: Decision, used: Option<nat>)
    requires Collected(ctx, c, workById, recordsByWork, outcomesByRecord)
    requires Ready(c, order) && k < |order| && order[k] == s && ValidSlot(c.works, s)
    requires Progress(ctx, c, order, k, expected, seen)
    ensures CountedAdjudications(ctx, c, order) ==> ok
    ensures ok ==> decision == DecisionAt(c, order, k)
    ensures ok ==> (used.Some? <==> NeedsAdjudication(c, order, k))
    ensures ok && used.Some? ==>
              && used == Adjudicator(c, order, k) && SettledBy(ctx, c, order, k, used.value)
              && Fresh(seen, c.adjudications[used.value].mark)
  {
    hide Collected, Progress, CountedAdjudications, Refs, Agree, Paired, Pair, OutcomeAt, Settles, Fresh, FirstFor,
         AllPaired, Listing, TruthAt;
    var refs, agreement, resolution := ReadSlot(ctx, c, s, workById, recordsByWork, outcomesByRecord);
    var work, truth := c.works[s.w], TruthAt(c.works, s);
    used := None;
    var adjudicationId: Option<string> := None;
    if !agreement {
      if CountedAdjudications(ctx, c, order) {
        AcceptedStep(ctx, c, order, k, expected, seen);
      }
      used := FirstFor(c.adjudications, truth.id, 0);
      if used.None? {
        return false, Decision("", "", "", truth.metric, [], false, None, resolution), used;
      }
      var adjudication := c.adjudications[used.value];
      var settled := CheckAdjudication(ctx, c, s, refs, adjudication, seen);
      if !settled {
        return false, Decision("", "", "", truth.metric, [], false, None, resolution), used;
      }
      resolution := adjudication.resolution;
      adjudicationId := Some(adjudication.mark.id);
    }
    ok := true;
    decision := Decision(work.itemId, work.workUnitId, truth.id, truth.metric, refs, agreement, adjudicationId,
                         resolution);
  }

  lemma NothingDecided(ctx: Context, c: Contract, order: seq<Slot>)
    requires Ready(c, order)
    ensures Progress(ctx, c, order, 0, {}, Seen({}, {}, {}, {})) && Decided(c, order, []) && Tallied(map[], [])
  {
    hide Ready;
    assert Map(JudgedOf, []) == [];
  }

  lemma DecidedStep(c: Contract, order: seq<Slot>, decisions: seq<Decision>, d: Decision)
    requires Ready(c, order) && Decided(c, order, decisions) && |decisions| < |order|
    requires d == DecisionAt(c, order, |decisions|)
    ensures Decided(c, order, decisions + [d])
  {
    hide Ready, DecisionAt;
  }

  lemma ProgressCount(ctx: Context, c: Contract, order: seq<Slot>, expected: set<string>, seen: Seen)
    requires Ready(c, order) && Progress(ctx, c, order, |order|, expected, seen)
    ensures CountedAdjudications(ctx, c, order) <==> |c.adjudications| == |expected|
  {
    hide Ready, Settled, NoReplay, SeenIn, IdAt, Used;
  }

  lemma MemberValid(c: Contract, order: seq<Slot>, k: nat)
    requires Ready(c, order) && k < |order|
    ensures ValidSlot(c.works, order[k]) && IdAt(c, order, k) == TruthAt(c.works, order[k]).id
  {
    hide AllPaired;
    ListingMember(c.works, order, k);
  }

  /** The loop over the truth units, and the count of the adjudications after it. */
  method DecideAll(ctx: Context, c: Contract, order: seq<Slot>, workById: map<string, nat>,
                   recordsByWork: map<string, seq<nat>>, outcomesByRecord: seq<map<string, Outcome>>)
    returns (ok: bool, decisions: seq<Decision>, metricsOutcomes: map<Metric, seq<Outcome>>)
    requires Collected(ctx, c, workById, recordsByWork, outcomesByRecord) && Ready(c, order)
    ensures ok <==> CountedAdjudications(ctx, c, order)
    ensures ok ==> |decisions| == |order| && Decided(c, order, decisions) && Tallied(metricsOutcomes, decisions)
  {
    hide *;
    decisions, metricsOutcomes := [], map[];
    var expectedAdjudications: set<string> := {};
    var seen := Seen({}, {}, {}, {});
    NothingDecided(ctx, c, order);
    for k := 0 to |order|
      invariant Progress(ctx, c, order, k, expectedAdjudications, seen)
      invariant |decisions| == k && Decided(c, order, decisions) && Tallied(metricsOutcomes, decisions)
    {
      var slot := order[k];
      MemberValid(c, order, k);
      var settled, decision, used := DecideSlot(ctx, c, order, k, slot, workById, recordsByWork, outcomesByRecord,
                                                expectedAdjudications, seen);
      if !settled {
        return false, decisions, metricsOutcomes;
      }
      if used.Some? {
        ProgressSettle(ctx, c, order, k, expectedAdjudications, seen);
        expectedAdjudications := expectedAdjudications + {TruthAt(c.works, slot).id};
        seen := Note(seen, c.adjudications[used.value].mark);
      } else {
        ProgressAgree(ctx, c, order, k, expectedAdjudications, seen);
      }
      DecidedStep(c, order, decisions, decision);
      TalliedStep(metricsOutcomes, decisions, decision);
      decisions := decisions + [decision];
      var outcomes := Lookup(metricsOutcomes, decision.metric) + [decision.outcome];
      metricsOutcomes := metricsOutcomes[decision.metric := outcomes];
    }
    ProgressCount(ctx, c, order, expectedAdjudications, seen);
    ok := |c.adjudications| == |expectedAdjudications|;
  }
}

/**
 The second loop of the ledger checker: review records, their outcomes, and the pair of each work unit.
 */
module BilingualRecords {
  import opened Sorting
  import opened Collections
  import opened BilingualReview
  import opened BilingualCounting
  import opened BilingualWorks

  // ---------- outcomes of one review ----------

  ghost predicate GoodTruths(truths: seq<Truth>) {
    && Sorted(truths, TruthLe) && Distinct(IdsOf(truths))
    && forall truth | truth in truths :: TruthOk(truth)
  }

  function JudgedIds(outcomes: seq<Judgement>): (ids: seq<string>)
    ensures |ids| == |outcomes| && forall t | 0 <= t < |outcomes| :: ids[t] == outcomes[t].truthId
  {
    seq(|outcomes|, t requires 0 <= t < |outcomes| => outcomes[t].truthId)
  }

  /** The metric expected for each truth unit; the last one counts, as in a dictionary. */
  function Expected(truths: seq<Truth>, n: nat): (expected: map<string, Metric>)
    requires n <= |truths|
    ensures expected.Keys == set t | 0 <= t < n :: truths[t].id
  {
    if n == 0 then map[] else Expected(truths, n - 1)[truths[n - 1].id := truths[n - 1].metric]
  }

  lemma {:induction false} ExpectedAt(truths: seq<Truth>, n: nat, t: nat)
    requires t < n <= |truths| && Distinct(IdsOf(truths))
    ensures truths[t].id in Expected(truths, n) && Expected(truths, n)[truths[t].id] == truths[t].metric
  {
    if t < n - 1 {
      ExpectedAt(truths, n - 1, t);
      assert IdsOf(truths)[t] != IdsOf(truths)[n - 1];
    }
  }

  lemma {:induction false} MemberOnce<T>(s: seq<T>, x: T)
    requires Distinct(s)
    ensures multiset(s)[x] == if x in s then 1 else 0
  {
    if s != [] {
      var last := |s| - 1;
      MemberOnce(s[..last], x);
      assert s == s[..last] + [s[last]];
    }
  }

  lemma LexAntisymmetry()
    ensures Preorder(LexLe)
    ensures forall x, y | LexLe(x, y) && LexLe(y, x) :: x == y
  {
    hide LexLe;
    forall x, y, z
      ensures LexLe(x, y) || LexLe(y, x)
      ensures LexLe(x, y) && LexLe(y, z) ==> LexLe(x, z)
    {
      LexPreorder(x, y, z);
    }
    forall x, y | LexLe(x, y) && LexLe(y, x)
      ensures x == y
    {
      LexAntisymmetric(x, y);
    }
  }

  /** Two increasing lists with the same members are the same list. */
  lemma SameMembersSameList(a: seq<string>, b: seq<string>)
    requires Sorted(a, LexLe) && Sorted(b, LexLe) && Distinct(a) && Distinct(b) && Members(a) == Members(b)
    ensures a == b
  {
    hide LexLe, Sorted, Preorder, Distinct;
    LexAntisymmetry();
    forall x
      ensures multiset(a)[x] == multiset(b)[x]
    {
      MemberOnce(a, x);
      MemberOnce(b, x);
      assert x in Members(a) <==> x in Members(b);
    }
    assert multiset(a) == multiset(b);
    SortedUnique(a, b, LexLe);
  }

  lemma JudgementOrder()
    ensures Preorder(JudgementLe)
  {
    OrderByKey(JudgementLe, (j: Judgement) => j.truthId);
  }

  /** The outcome recorded for each truth unit. */
  ghost predicate Holds(actual: map<string, Outcome>, outcomes: seq<Judgement>) {
    && actual.Keys == Members(JudgedIds(outcomes))
    && forall t | 0 <= t < |outcomes| :: outcomes[t].truthId in actual
                                         && actual[outcomes[t].truthId] == outcomes[t].outcome
  }

  ghost predicate JudgementOk(truths: seq<Truth>, j: Judgement) {
    exists t | 0 <= t < |truths| :: truths[t].id == j.truthId && truths[t].metric == j.metric
                                    && !j.outcome.OtherOutcome?
  }

  method CheckJudgement(truths: seq<Truth>, expected: map<string, Metric>, j: Judgement) returns (ok: bool)
    requires GoodTruths(truths) && expected == Expected(truths, |truths|)
    ensures ok <==> JudgementOk(truths, j)
  {
    hide IsHash, TruthLe, Sorted;
    forall t: nat | t < |truths|
      ensures truths[t].id in expected && expected[truths[t].id] == truths[t].metric && IsHash(truths[t].id)
    {
      ExpectedAt(truths, |truths|, t);
      assert truths[t] in truths;
    }
    ok := IsHash(j.truthId) && j.truthId in expected && expected[j.truthId] == j.metric && !j.outcome.OtherOutcome?;
  }

  lemma CoversMembers(outcomes: seq<Judgement>, truths: seq<Truth>)
    requires GoodTruths(truths) && Covers(outcomes, truths)
    ensures Sorted(outcomes, JudgementLe) && Distinct(JudgedIds(outcomes))
    ensures forall j | j in outcomes :: JudgementOk(truths, j)
    ensures Members(JudgedIds(outcomes)) == Expected(truths, |truths|).Keys
  {
    hide LexLe, TruthOk;
    assert JudgedIds(outcomes) == IdsOf(truths);
    forall i, j | 0 <= i < j < |outcomes|
      ensures JudgementLe(outcomes[i], outcomes[j])
    {
      assert TruthLe(truths[i], truths[j]);
    }
    forall x
      ensures x in IdsOf(truths) <==> x in Expected(truths, |truths|).Keys
    {
      if x in IdsOf(truths) {
        var t :| 0 <= t < |truths| && IdsOf(truths)[t] == x;
        assert truths[t].id == x;
      }
      if t :| 0 <= t < |truths| && truths[t].id == x {
        assert IdsOf(truths)[t] == x;
      }
    }
  }

  lemma IdsSorted(outcomes: seq<Judgement>, truths: seq<Truth>)
    requires Sorted(outcomes, JudgementLe) && Sorted(truths, TruthLe)
    ensures Sorted(JudgedIds(outcomes), LexLe) && Sorted(IdsOf(truths), LexLe)
  {
    hide LexLe;
    assert forall i, j | 0 <= i < j < |outcomes| :: JudgementLe(outcomes[i], outcomes[j]);
    assert forall i, j | 0 <= i < j < |truths| :: TruthLe(truths[i], truths[j]);
  }

  /** Sorted, distinct, and over the same identities: the review judges the truth units one by one, in order. */
  lemma MembersCover(outcomes: seq<Judgement>, truths: seq<Truth>)
    requires GoodTruths(truths) && Sorted(outcomes, JudgementLe) && Distinct(JudgedIds(outcomes))
    requires forall j | j in outcomes :: JudgementOk(truths, j)
    requires Members(JudgedIds(outcomes)) == Members(IdsOf(truths))
    ensures Covers(outcomes, truths)
  {
    hide LexLe, TruthOk, Sorted, TruthLe, JudgementLe;
    IdsSorted(outcomes, truths);
    SameMembersSameList(JudgedIds(outcomes), IdsOf(truths));
    forall t | 0 <= t < |truths|
      ensures outcomes[t].metric == truths[t].metric && !outcomes[t].outcome.OtherOutcome?
    {
      assert JudgedIds(outcomes)[t] == IdsOf(truths)[t];
      assert JudgementOk(truths, outcomes[t]);
      var u :| 0 <= u < |truths| && truths[u].id == outcomes[t].truthId && truths[u].metric == outcomes[t].metric
               && !outcomes[t].outcome.OtherOutcome?;
      assert IdsOf(truths)[u] == IdsOf(truths)[t];
    }
  }

  lemma ExpectedKeys(truths: seq<Truth>)
    ensures Expected(truths, |truths|).Keys == Members(IdsOf(truths))
  {
    forall x
      ensures x in IdsOf(truths) <==> x in Expected(truths, |truths|).Keys
    {
      if x in IdsOf(truths) {
        var t :| 0 <= t < |truths| && IdsOf(truths)[t] == x;
        assert truths[t].id == x;
      }
      if t :| 0 <= t < |truths| && truths[t].id == x {
        assert IdsOf(truths)[t] == x;
      }
    }
  }

  /** The outcomes read so far, each for a truth unit of the work unit, none twice. */
  ghost predicate ActualSoFar(actual: map<string, Outcome>, outcomes: seq<Judgement>, truths: seq<Truth>) {
    && Holds(actual, outcomes) && Distinct(JudgedIds(outcomes))
    && forall j | j in outcomes :: JudgementOk(truths, j)
  }

  lemma ActualStep(actual: map<string, Outcome>, outcomes: seq<Judgement>, truths: seq<Truth>, j: Judgement)
    requires ActualSoFar(actual, outcomes, truths) && j.truthId !in actual && JudgementOk(truths, j)
    ensures ActualSoFar(actual[j.truthId := j.outcome], outcomes + [j], truths)
  {
    hide JudgementOk;
    var updated := actual[j.truthId := j.outcome];
    assert JudgedIds(outcomes + [j]) == JudgedIds(outcomes) + [j.truthId];
    assert forall t | 0 <= t < |outcomes| :: JudgedIds(outcomes)[t] == outcomes[t].truthId;
    assert updated.Keys == Members(JudgedIds(outcomes + [j]));
  }

  lemma UsedTwice(actual: map<string, Outcome>, outcomes: seq<Judgement>, n: nat)
    requires n < |outcomes| && Holds(actual, outcomes[..n]) && outcomes[n].truthId in actual
    ensures !Distinct(JudgedIds(outcomes))
  {
    var t :| 0 <= t < n && JudgedIds(outcomes[..n])[t] == outcomes[n].truthId;
    assert JudgedIds(outcomes)[t] == JudgedIds(outcomes)[n];
  }

  /** The set tests on the outcomes amount to judging each truth unit once, in order. */
  method CheckOutcomes(outcomes: seq<Judgement>, truths: seq<Truth>) returns (ok: bool, actual: map<string, Outcome>)
    requires GoodTruths(truths)
    ensures ok <==> Covers(outcomes, truths)
    ensures ok ==> Holds(actual, outcomes)
  {
    hide *;
    JudgementOrder();
    SortedFixed(outcomes, JudgementLe);
    if Covers(outcomes, truths) {
      CoversMembers(outcomes, truths);
    }
    actual := map[];
    if Sort(outcomes, JudgementLe) != outcomes {
      return false, actual;
    }
    var expected := Expected(truths, |truths|);
    NoOutcomes(truths, outcomes);
    for n := 0 to |outcomes|
      invariant ActualSoFar(actual, outcomes[..n], truths)
    {
      var outcome := outcomes[n];
      var valid := CheckJudgement(truths, expected, outcome);
      HoldsSoFar(actual, outcomes[..n], truths);
      if outcome.truthId in actual || !valid {
        if outcome.truthId in actual {
          UsedTwice(actual, outcomes, n);
        }
        return false, actual;
      }
      ActualStep(actual, outcomes[..n], truths, outcome);
      assert outcomes[..n + 1] == outcomes[..n] + [outcome];
      actual := actual[outcome.truthId := outcome.outcome];
    }
    assert outcomes[..|outcomes|] == outcomes;
    HoldsSoFar(actual, outcomes, truths);
    ExpectedKeys(truths);
    ok := actual.Keys == expected.Keys;
    if ok {
      MembersCover(outcomes, truths);
    }
  }

  lemma NoOutcomes(truths: seq<Truth>, outcomes: seq<Judgement>)
    ensures ActualSoFar(map[], outcomes[..0], truths)
  {
  }

  lemma HoldsSoFar(actual: map<string, Outcome>, outcomes: seq<Judgement>, truths: seq<Truth>)
    requires ActualSoFar(actual, outcomes, truths)
    ensures Holds(actual, outcomes) && Distinct(JudgedIds(outcomes)) && actual.Keys == Members(JudgedIds(outcomes))
    ensures forall j | j in outcomes :: JudgementOk(truths, j)
  {
  }

  // ---------- identities used once ----------

  datatype Seen = Seen(ids: set<string>, digests: set<string>, artifactIds: set<string>, artifactShas: set<string>)

  predicate Fresh(seen: Seen, m: Mark) {
    && m.id !in seen.ids && m.digest !in seen.digests
    && m.artifactId !in seen.artifactIds && m.artifactSha !in seen.artifactShas
  }

  function Note(seen: Seen, m: Mark): Seen {
    Seen(seen.ids + {m.id}, seen.digests + {m.digest}, seen.artifactIds + {m.artifactId},
         seen.artifactShas + {m.artifactSha})
  }

  function SeenIn(marks: seq<Mark>): Seen {
    Seen(set m | m in marks :: m.id, set m | m in marks :: m.digest, set m | m in marks :: m.artifactId,
         set m | m in marks :: m.artifactSha)
  }

  lemma SeenStep(marks: seq<Mark>, m: Mark)
    ensures SeenIn(marks + [m]) == Note(SeenIn(marks), m)
  {
    var a, b := SeenIn(marks + [m]), Note(SeenIn(marks), m);
    assert forall x :: x in marks + [m] <==> x in marks || x == m;
    assert a.ids == b.ids && a.digests == b.digests;
    assert a.artifactIds == b.artifactIds && a.artifactShas == b.artifactShas;
  }

  lemma FreshMeansApart(marks: seq<Mark>, m: Mark)
    ensures Fresh(SeenIn(marks), m) <==> forall x | x in marks :: Apart(x, m)
  {
  }

  lemma ReplayStep(marks: seq<Mark>, m: Mark)
    requires NoReplay(marks)
    ensures NoReplay(marks + [m]) <==> Fresh(SeenIn(marks), m)
  {
    hide Apart, Fresh, SeenIn;
    FreshMeansApart(marks, m);
    var all := marks + [m];
    if NoReplay(all) {
      forall x | x in marks
        ensures Apart(x, m)
      {
        var i :| 0 <= i < |marks| && marks[i] == x;
        assert Apart(all[i], all[|marks|]);
      }
    }
  }

  lemma ReplayPrefix(marks: seq<Mark>, n: nat)
    requires n <= |marks| && NoReplay(marks)
    ensures NoReplay(marks[..n])
  {
    hide Apart;
  }

  // ---------- one review record ----------

  ghost predicate GoodWorks(works: seq<Work>) {
    UniqueWorks(works) && forall w | 0 <= w < |works| :: GoodTruths(works[w].truths)
  }

  lemma {:induction false} WorkTruthsDistinct(works: seq<Work>, n: nat, w: nat)
    requires w < n <= |works| && Distinct(TruthIds(works, n))
    ensures Distinct(IdsOf(works[w].truths))
  {
    hide Distinct;
    DistinctPrefix(TruthIds(works, n - 1), IdsOf(works[n - 1].truths));
    DistinctConcat(TruthIds(works, n - 1), IdsOf(works[n - 1].truths));
    if w < n - 1 {
      WorkTruthsDistinct(works, n - 1, w);
    }
  }

  lemma WorksAreGood(ctx: Context, works: seq<Work>)
    requires WorksOk(ctx, works)
    ensures GoodWorks(works)
  {
    hide IsHash, TruthOk, TruthLe, Sorted, Slots, TruthIds, Distinct;
    ApartMeansDistinct(works, |works|);
    forall w | 0 <= w < |works|
      ensures GoodTruths(works[w].truths)
    {
      assert works[w] in works;
      WorkTruthsDistinct(works, |works|, w);
    }
  }

  predicate AllDifferent(ids: seq<string>) {
    forall i, j | 0 <= i < j < |ids| :: ids[i] != ids[j]
  }

  /** The test against the sorted set of references. */
  lemma IncreasingTest(ids: seq<string>)
    ensures Increasing(ids) <==>
            (forall id | id in ids :: IsHash(id)) && Sort(ids, LexLe) == ids && AllDifferent(ids)
  {
    hide LexLe, IsHash;
    LexAntisymmetry();
    SortedFixed(ids, LexLe);
  }

  method CheckRecord(ctx: Context, c: Contract, review: Review, workById: map<string, nat>)
    returns (ok: bool, actual: map<string, Outcome>)
    requires Indexed(workById, c.works, |c.works|) && GoodWorks(c.works)
    ensures ok <==> ReviewOk(ctx, c, review)
    ensures ok ==> Holds(actual, review.outcomes) && review.binding.workUnitId in workById
  {
    hide IsHash, MarkOk, Covers, GoodTruths, Holds, UniqueWorks, Increasing, AllDifferent;
    actual := map[];
    if !MarkOk(review.mark, ReviewDigest(ctx, review)) || !IsHash(review.reviewer) {
      return false, actual;
    }
    if review.standing != HumanReview() || review.basis != DirectComparison() {
      return false, actual;
    }
    IncreasingTest(review.assistance);
    if exists id | id in review.assistance :: !IsHash(id) {
      return false, actual;
    }
    if Sort(review.assistance, LexLe) != review.assistance || !AllDifferent(review.assistance) {
      return false, actual;
    }
    if review.binding.workUnitId !in workById {
      assert forall w | 0 <= w < |c.works| :: c.works[w].workUnitId in workById;
      return false, actual;
    }
    var w := workById[review.binding.workUnitId];
    assert forall v: nat :: Reviews(ctx, c, review, v) ==> v == w;
    if review.binding != BindingFor(ctx, c.header, c.works[w]) {
      return false, actual;
    }
    ok, actual := CheckOutcomes(review.outcomes, c.works[w].truths);
    assert ok <==> Reviews(ctx, c, review, w);
  }

  // ---------- all of them ----------

  ghost predicate RecordsSoFar(ctx: Context, c: Contract, n: nat)
    requires n <= |c.reviews|
  {
    && (forall k | 0 <= k < n :: ReviewOk(ctx, c, c.reviews[k]))
    && NoReplay(ReviewMarks(c.reviews)[..n])
  }

  function Lookup<K, T>(m: map<K, seq<T>>, key: K): seq<T> {
    if key in m then m[key] else []
  }

  /** The reviews collected for each work unit, and the outcomes of each review. */
  ghost predicate Grouped(c: Contract, n: nat, workById: map<string, nat>, recordsByWork: map<string, seq<nat>>)
    requires n <= |c.reviews|
  {
    && (forall id :: Lookup(recordsByWork, id) == ReviewsOf(c.reviews, id, n))
    && (forall id | id in recordsByWork :: recordsByWork[id] != [] && id in workById)
  }

  /** The position of each review, by its identity. */
  ghost predicate Recorded(c: Contract, n: nat, recordsById: map<string, nat>)
    requires n <= |c.reviews|
  {
    && (forall id | id in recordsById :: recordsById[id] < n && c.reviews[recordsById[id]].mark.id == id)
    && (forall r | 0 <= r < n :: c.reviews[r].mark.id in recordsById && recordsById[c.reviews[r].mark.id] == r)
  }

  lemma RecordedStep(c: Contract, n: nat, recordsById: map<string, nat>)
    requires n < |c.reviews| && Recorded(c, n, recordsById)
    requires Fresh(SeenIn(ReviewMarks(c.reviews)[..n]), c.reviews[n].mark)
    ensures Recorded(c, n + 1, recordsById[c.reviews[n].mark.id := n])
  {
    var marks := ReviewMarks(c.reviews)[..n];
    FreshMeansApart(marks, c.reviews[n].mark);
    forall r | 0 <= r < n
      ensures c.reviews[r].mark.id != c.reviews[n].mark.id
    {
      assert marks[r] in marks && Apart(marks[r], c.reviews[n].mark);
    }
  }

  ghost predicate OutcomesKept(c: Contract, outcomesByRecord: seq<map<string, Outcome>>) {
    && |outcomesByRecord| <= |c.reviews|
    && forall k | 0 <= k < |outcomesByRecord| :: Holds(outcomesByRecord[k], c.reviews[k].outcomes)
  }

  lemma RecordStep(ctx: Context, c: Contract, n: nat)
    requires n < |c.reviews| && RecordsSoFar(ctx, c, n)
    ensures RecordsSoFar(ctx, c, n + 1) <==>
            ReviewOk(ctx, c, c.reviews[n]) && Fresh(SeenIn(ReviewMarks(c.reviews)[..n]), c.reviews[n].mark)
    ensures SeenIn(ReviewMarks(c.reviews)[..n + 1]) == Note(SeenIn(ReviewMarks(c.reviews)[..n]), c.reviews[n].mark)
  {
    hide ReviewOk, NoReplay, Fresh, SeenIn, Note;
    var marks := ReviewMarks(c.reviews);
    assert marks[..n + 1] == marks[..n] + [c.reviews[n].mark];
    ReplayStep(marks[..n], c.reviews[n].mark);
    SeenStep(marks[..n], c.reviews[n].mark);
  }

  lemma RecordsPrefix(ctx: Context, c: Contract, n: nat)
    requires n <= |c.reviews| && RecordsOk(ctx, c)
    ensures RecordsSoFar(ctx, c, n)
  {
    hide ReviewOk, NoReplay;
    forall k | 0 <= k < n
      ensures ReviewOk(ctx, c, c.reviews[k])
    {
      assert c.reviews[k] in c.reviews;
    }
    ReplayPrefix(ReviewMarks(c.reviews), n);
  }

  lemma RecordsEnd(ctx: Context, c: Contract)
    requires RecordsSoFar(ctx, c, |c.reviews|) && Sorted(c.reviews, ReviewLe)
    ensures RecordsOk(ctx, c)
  {
    hide ReviewOk, NoReplay;
    assert ReviewMarks(c.reviews)[..|c.reviews|] == ReviewMarks(c.reviews);
  }

  lemma GroupStep(c: Contract, n: nat, workById: map<string, nat>, recordsByWork: map<string, seq<nat>>)
    requires n < |c.reviews| && Grouped(c, n, workById, recordsByWork)
    requires c.reviews[n].binding.workUnitId in workById
    ensures var id := c.reviews[n].binding.workUnitId;
            Grouped(c, n + 1, workById, recordsByWork[id := Lookup(recordsByWork, id) + [n]])
  {
    hide ReviewsOf;
    var id := c.reviews[n].binding.workUnitId;
    var updated := recordsByWork[id := Lookup(recordsByWork, id) + [n]];
    forall other
      ensures Lookup(updated, other) == ReviewsOf(c.reviews, other, n + 1)
    {
      FoundStep(c.reviews, other, n);
      assert Lookup(recordsByWork, other) == ReviewsOf(c.reviews, other, n);
    }
  }

  lemma FoundStep(reviews: seq<Review>, id: string, n: nat)
    requires n < |reviews|
    ensures ReviewsOf(reviews, id, n + 1) ==
            ReviewsOf(reviews, id, n) + if reviews[n].binding.workUnitId == id then [n] else []
  {
  }

  lemma NoRecords(ctx: Context, c: Contract, workById: map<string, nat>)
    ensures RecordsSoFar(ctx, c, 0) && Grouped(c, 0, workById, map[]) && OutcomesKept(c, [])
    ensures Recorded(c, 0, map[])
    ensures SeenIn(ReviewMarks(c.reviews)[..0]) == Seen({}, {}, {}, {})
  {
  }

  lemma KeptStep(c: Contract, outcomesByRecord: seq<map<string, Outcome>>, actual: map<string, Outcome>)
    requires OutcomesKept(c, outcomesByRecord) && |outcomesByRecord| < |c.reviews|
    requires Holds(actual, c.reviews[|outcomesByRecord|].outcomes)
    ensures OutcomesKept(c, outcomesByRecord + [actual])
  {
    hide Holds;
  }

  /** The loop over the review records. */
  method CheckEachRecord(ctx: Context, c: Contract, workById: map<string, nat>)
    returns (ok: bool, recordsByWork: map<string, seq<nat>>, recordsById: map<string, nat>,
             outcomesByRecord: seq<map<string, Outcome>>)
    requires Indexed(workById, c.works, |c.works|) && GoodWorks(c.works)
    ensures RecordsOk(ctx, c) ==> ok
    ensures ok ==> RecordsSoFar(ctx, c, |c.reviews|) && Grouped(c, |c.reviews|, workById, recordsByWork)
    ensures ok ==> Recorded(c, |c.reviews|, recordsById)
    ensures ok ==> |outcomesByRecord| == |c.reviews| && OutcomesKept(c, outcomesByRecord)
  {
    hide *;
    recordsByWork, recordsById, outcomesByRecord := map[], map[], [];
    var seen := Seen({}, {}, {}, {});
    NoRecords(ctx, c, workById);
    for n := 0 to |c.reviews|
      invariant RecordsSoFar(ctx, c, n) && Grouped(c, n, workById, recordsByWork)
      invariant Recorded(c, n, recordsById)
      invariant |outcomesByRecord| == n && OutcomesKept(c, outcomesByRecord)
      invariant seen == SeenIn(ReviewMarks(c.reviews)[..n])
    {
      var record := c.reviews[n];
      RecordStep(ctx, c, n);
      if RecordsOk(ctx, c) {
        RecordsPrefix(ctx, c, n + 1);
      }
      var recordOk, actual := CheckRecord(ctx, c, record, workById);
      if !recordOk || !Fresh(seen, record.mark) {
        return false, recordsByWork, recordsById, outcomesByRecord;
      }
      GroupStep(c, n, workById, recordsByWork);
      KeptStep(c, outcomesByRecord, actual);
      RecordedStep(c, n, recordsById);
      var workId := record.binding.workUnitId;
      recordsByWork := recordsByWork[workId := Lookup(recordsByWork, workId) + [n]];
      recordsById := recordsById[record.mark.id := n];
      outcomesByRecord := outcomesByRecord + [actual];
      seen := Note(seen, record.mark);
    }
    return true, recordsByWork, recordsById, outcomesByRecord;
  }

  /** The test on one list of records. */
  predicate IsPair(reviews: seq<Review>, found: seq<nat>) {
    && |found| == 2 && found[0] < |reviews| && found[1] < |reviews|
    && reviews[found[0]].reviewer != reviews[found[1]].reviewer
    && reviews[found[0]].mark.id != reviews[found[1]].mark.id
  }

  lemma PairTest(ctx: Context, c: Contract, workById: map<string, nat>, recordsByWork: map<string, seq<nat>>, w: nat)
    requires Grouped(c, |c.reviews|, workById, recordsByWork) && RecordsSoFar(ctx, c, |c.reviews|) && w < |c.works|
    ensures var id := c.works[w].workUnitId;
            && (id in recordsByWork <==> ReviewsAt(c, w) != [])
            && (id in recordsByWork ==> (IsPair(c.reviews, recordsByWork[id]) <==> Paired(c, w)))
  {
    hide ReviewOk;
    var id := c.works[w].workUnitId;
    var found := ReviewsAt(c, w);
    assert Lookup(recordsByWork, id) == found;
    if |found| == 2 {
      assert found[0] < found[1] < |c.reviews|;
      var marks := ReviewMarks(c.reviews)[..|c.reviews|];
      assert Apart(marks[found[0]], marks[found[1]]);
    }
  }

  lemma PairTests(ctx: Context, c: Contract, workById: map<string, nat>, recordsByWork: map<string, seq<nat>>)
    requires Grouped(c, |c.reviews|, workById, recordsByWork) && RecordsSoFar(ctx, c, |c.reviews|)
    requires Indexed(workById, c.works, |c.works|)
    ensures (forall id | id in recordsByWork :: IsPair(c.reviews, recordsByWork[id])) <==>
            forall w: nat | w < |c.works| && ReviewsAt(c, w) != [] :: Paired(c, w)
  {
    hide RecordsSoFar, IsPair, Paired, ReviewsAt, ReviewsOf;
    forall w: nat | w < |c.works|
      ensures var id := c.works[w].workUnitId;
              && (id in recordsByWork <==> ReviewsAt(c, w) != [])
              && (id in recordsByWork ==> (IsPair(c.reviews, recordsByWork[id]) <==> Paired(c, w)))
    {
      PairTest(ctx, c, workById, recordsByWork, w);
    }
    forall id | id in recordsByWork
      ensures id in workById && workById[id] < |c.works| && c.works[workById[id]].workUnitId == id
    {
    }
  }

  lemma EachOwned(ctx: Context, c: Contract)
    requires RecordsSoFar(ctx, c, |c.reviews|)
    ensures Owned(c.works, c.reviews)
  {
    hide NoReplay, ReviewOk;
    forall r | 0 <= r < |c.reviews|
      ensures HasWork(c.works, c.reviews[r].binding.workUnitId)
    {
      assert ReviewOk(ctx, c, c.reviews[r]);
      OwnerOf(ctx, c, c.reviews[r]);
    }
  }

  lemma OwnerOf(ctx: Context, c: Contract, review: Review)
    requires ReviewOk(ctx, c, review)
    ensures HasWork(c.works, review.binding.workUnitId)
  {
    hide IsHash, MarkOk, Covers;
    var w: nat :| Reviews(ctx, c, review, w);
    assert c.works[w].workUnitId == review.binding.workUnitId;
  }

  lemma ReviewOrder()
    ensures Preorder(ReviewLe)
  {
    OrderByKey(ReviewLe, (review: Review) => review.mark.id);
  }

  lemma OkMeansCounted(ctx: Context, c: Contract)
    requires ReviewsOk(ctx, c) && GoodWorks(c.works)
    ensures CountedPairs(c) && RecordsOk(ctx, c) && Sorted(c.reviews, ReviewLe)
  {
    hide RecordsSoFar, UniqueWorks, CountedPairs, AllPaired, NoReplay, GoodTruths;
    RecordsPrefix(ctx, c, |c.reviews|);
    EachOwned(ctx, c);
    CoverageByCounting(c);
  }

  lemma CountedMeansOk(ctx: Context, c: Contract)
    requires RecordsSoFar(ctx, c, |c.reviews|) && Sorted(c.reviews, ReviewLe) && CountedPairs(c) && GoodWorks(c.works)
    ensures ReviewsOk(ctx, c)
  {
    hide RecordsSoFar, UniqueWorks, CountedPairs, AllPaired, RecordsOk, GoodTruths;
    RecordsEnd(ctx, c);
    EachOwned(ctx, c);
    CoverageByCounting(c);
  }

  lemma CountedParts(c: Contract)
    ensures CountedPairs(c) <==>
            |c.reviews| == 2 * |c.works| && forall w: nat | w < |c.works| && ReviewsAt(c, w) != [] :: Paired(c, w)
  {
    hide Paired, ReviewsAt;
  }

  /** `_validate_contract` on the review records: accepted exactly when every work unit has its two reviewers. */
  method CheckReviews(ctx: Context, c: Contract, workById: map<string, nat>)
    returns (ok: bool, recordsByWork: map<string, seq<nat>>, recordsById: map<string, nat>,
             outcomesByRecord: seq<map<string, Outcome>>)
    requires Indexed(workById, c.works, |c.works|) && GoodWorks(c.works)
    ensures ok <==> ReviewsOk(ctx, c)
    ensures ok ==> Grouped(c, |c.reviews|, workById, recordsByWork)
    ensures ok ==> Recorded(c, |c.reviews|, recordsById)
    ensures ok ==> |outcomesByRecord| == |c.reviews| && OutcomesKept(c, outcomesByRecord)
  {
    hide *;
    ReviewOrder();
    SortedFixed(c.reviews, ReviewLe);
    CountedParts(c);
    if ReviewsOk(ctx, c) {
      OkMeansCounted(ctx, c);
    }
    recordsByWork, recordsById, outcomesByRecord := map[], map[], [];
    if Sort(c.reviews, ReviewLe) != c.reviews || |c.reviews| != |c.works| * 2 {
      return false, recordsByWork, recordsById, outcomesByRecord;
    }
    ok, recordsByWork, recordsById, outcomesByRecord := CheckEachRecord(ctx, c, workById);
    if !ok {
      return;
    }
    PairTests(ctx, c, workById, recordsByWork);
    ok := forall id | id in recordsByWork :: IsPair(c.reviews, recordsByWork[id]);
    if ok {
      CountedMeansOk(ctx, c);
    }
  }
}

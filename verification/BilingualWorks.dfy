/**
 The first loop of the ledger checker: work units, their artifacts and their truth units.
 */
module BilingualWorks {
  import opened Sorting
  import opened Collections
  import opened BilingualReview

  // ---------- the sort keys are orders ----------

  lemma PairLePreorder(a0: string, a1: string, b0: string, b1: string, c0: string, c1: string)
    ensures PairLe(a0, a1, b0, b1) || PairLe(b0, b1, a0, a1)
    ensures PairLe(a0, a1, b0, b1) && PairLe(b0, b1, c0, c1) ==> PairLe(a0, a1, c0, c1)
  {
    hide LexLe;
    LexTotal(a0, b0);
    LexTotal(a1, b1);
    if PairLe(a0, a1, b0, b1) && PairLe(b0, b1, c0, c1) {
      if a0 == b0 == c0 {
        LexTransitive(a1, b1, c1);
      } else if a0 != b0 && b0 != c0 {
        LexTransitive(a0, b0, c0);
        if a0 == c0 {
          LexAntisymmetric(a0, b0);
        }
      }
    }
  }

  lemma LexPreorder(a: string, b: string, c: string)
    ensures LexLe(a, b) || LexLe(b, a)
    ensures LexLe(a, b) && LexLe(b, c) ==> LexLe(a, c)
  {
    hide LexLe;
    LexTotal(a, b);
    if LexLe(a, b) && LexLe(b, c) {
      LexTransitive(a, b, c);
    }
  }

  lemma WorkOrder()
    ensures Preorder(WorkLe)
  {
    hide PairLe;
    forall a: Work, b: Work, c: Work
      ensures WorkLe(a, b) || WorkLe(b, a)
      ensures WorkLe(a, b) && WorkLe(b, c) ==> WorkLe(a, c)
    {
      PairLePreorder(a.itemId, a.workUnitId, b.itemId, b.workUnitId, c.itemId, c.workUnitId);
    }
  }

  // ---------- truth units of one work unit ----------

  ghost predicate TruthsFresh(truths: seq<Truth>, known: set<string>) {
    && (forall t | 0 <= t < |truths| :: TruthOk(truths[t]) && truths[t].id !in known)
    && (forall t, u | 0 <= t < u < |truths| :: truths[t].id != truths[u].id)
  }

  method CheckTruths(truths: seq<Truth>, known: set<string>) returns (ok: bool, truthIds: set<string>)
    ensures ok <==> TruthsFresh(truths, known)
    ensures ok ==> truthIds == known + set truth | truth in truths :: truth.id
  {
    hide TruthOk;
    truthIds := known;
    for t := 0 to |truths|
      invariant TruthsFresh(truths[..t], known)
      invariant truthIds == known + set truth | truth in truths[..t] :: truth.id
    {
      var truth := truths[t];
      assert truths[..t + 1] == truths[..t] + [truth];
      if !TruthOk(truth) || truth.id in truthIds {
        if truth.id in truthIds && truth.id !in known {
          var u :| 0 <= u < t && truths[..t][u].id == truth.id;
          assert truths[u].id == truths[t].id;
        }
        return false, truthIds;
      }
      truthIds := truthIds + {truth.id};
    }
    assert truths[..|truths|] == truths;
    return true, truthIds;
  }

  // ---------- the whole sample ----------

  ghost predicate WorksSoFar(ctx: Context, works: seq<Work>, n: nat)
    requires n <= |works|
  {
    && (forall k | 0 <= k < n :: WorkOk(ctx, works[k]))
    && WorksApart(works, n) && TruthsApart(works, Slots(works, n))
  }

  /** The dictionary of work units by identity. */
  ghost predicate Indexed(workById: map<string, nat>, works: seq<Work>, n: nat)
    requires n <= |works|
  {
    && (forall id | id in workById :: workById[id] < n && works[workById[id]].workUnitId == id)
    && (forall w: nat | w < n :: works[w].workUnitId in workById && workById[works[w].workUnitId] == w)
  }

  ghost predicate Bound(artifacts: map<string, (string, string)>, works: seq<Work>, n: nat)
    requires n <= |works|
  {
    && artifacts.Keys == (set w | 0 <= w < n :: works[w].artifactId)
    && (forall w | 0 <= w < n ::
          works[w].artifactId in artifacts && artifacts[works[w].artifactId] == (works[w].itemId, works[w].artifactSha))
  }

  function IdsOf(truths: seq<Truth>): (ids: seq<string>)
    ensures |ids| == |truths| && forall t | 0 <= t < |truths| :: ids[t] == truths[t].id
  {
    seq(|truths|, t requires 0 <= t < |truths| => truths[t].id)
  }

  /** The truth identities of the first `n` work units, in document order. */
  function TruthIds(works: seq<Work>, n: nat): seq<string>
    requires n <= |works|
  {
    if n == 0 then [] else TruthIds(works, n - 1) + IdsOf(works[n - 1].truths)
  }

  ghost predicate Known(truthIds: set<string>, works: seq<Work>, n: nat)
    requires n <= |works|
  {
    truthIds == Members(TruthIds(works, n))
  }

  lemma {:induction false} SlotIds(works: seq<Work>, n: nat)
    requires n <= |works|
    ensures |Slots(works, n)| == |TruthIds(works, n)|
    ensures forall i | 0 <= i < |Slots(works, n)| ::
              ValidSlot(works, Slots(works, n)[i]) && TruthAt(works, Slots(works, n)[i]).id == TruthIds(works, n)[i]
  {
    if n > 0 {
      SlotIds(works, n - 1);
    }
  }

  lemma ApartMeansDistinct(works: seq<Work>, n: nat)
    requires n <= |works|
    ensures TruthsApart(works, Slots(works, n)) <==> Distinct(TruthIds(works, n))
  {
    hide Slots, TruthIds, ValidSlot, TruthAt;
    SlotIds(works, n);
  }

  lemma DistinctPrefix<T>(a: seq<T>, b: seq<T>)
    requires Distinct(a + b)
    ensures Distinct(a)
  {
    assert forall i | 0 <= i < |a| :: (a + b)[i] == a[i];
  }

  lemma DistinctConcat<T>(a: seq<T>, b: seq<T>)
    requires Distinct(a)
    ensures Distinct(a + b) <==> Distinct(b) && forall x | x in b :: x !in Members(a)
  {
    var all := a + b;
    assert forall i | 0 <= i < |b| :: all[|a| + i] == b[i];
    if Distinct(all) {
      forall i, j | 0 <= i < |a| && 0 <= j < |b|
        ensures a[i] != b[j]
      {
        assert all[i] != all[|a| + j];
      }
      forall i, j | 0 <= i < j < |b|
        ensures b[i] != b[j]
      {
        assert all[|a| + i] != all[|a| + j];
      }
    }
    if Distinct(b) && forall x | x in b :: x !in Members(a) {
      forall i, j | 0 <= i < j < |all|
        ensures all[i] != all[j]
      {
        if i < |a| && j >= |a| {
          assert all[j] in b;
        }
      }
    }
  }

  lemma SlotsPrefix(works: seq<Work>, n: nat)
    requires n < |works|
    ensures Slots(works, n + 1) == Slots(works, n) + SlotsOf(works, n)
  {
  }

  lemma TruthsStep(works: seq<Work>, n: nat, truthIds: set<string>)
    requires n < |works| && TruthsApart(works, Slots(works, n)) && Known(truthIds, works, n)
    requires forall truth | truth in works[n].truths :: TruthOk(truth)
    ensures TruthsApart(works, Slots(works, n + 1)) <==> TruthsFresh(works[n].truths, truthIds)
  {
    hide TruthOk, Slots, TruthsApart, Members;
    ApartMeansDistinct(works, n);
    ApartMeansDistinct(works, n + 1);
    DistinctConcat(TruthIds(works, n), IdsOf(works[n].truths));
    assert TruthIds(works, n + 1) == TruthIds(works, n) + IdsOf(works[n].truths);
    assert forall t | 0 <= t < |works[n].truths| :: works[n].truths[t] in works[n].truths;
    assert forall x :: x in IdsOf(works[n].truths) <==>
                       exists t :: 0 <= t < |works[n].truths| && works[n].truths[t].id == x;
  }

  ghost predicate UniqueUpTo(works: seq<Work>, n: nat)
    requires n <= |works|
  {
    forall i, j | 0 <= i < j < n :: works[i].workUnitId != works[j].workUnitId
  }

  ghost predicate ArtifactsUpTo(works: seq<Work>, n: nat)
    requires n <= |works|
  {
    forall i, j | 0 <= i < j < n && works[i].artifactId == works[j].artifactId ::
      works[i].itemId == works[j].itemId && works[i].artifactSha == works[j].artifactSha
  }

  lemma UniqueStep(works: seq<Work>, n: nat, workById: map<string, nat>)
    requires n < |works| && UniqueUpTo(works, n) && Indexed(workById, works, n)
    ensures UniqueUpTo(works, n + 1) <==> works[n].workUnitId !in workById
  {
  }

  lemma ArtifactStep(works: seq<Work>, n: nat, artifacts: map<string, (string, string)>)
    requires n < |works| && ArtifactsUpTo(works, n) && Bound(artifacts, works, n)
    ensures ArtifactsUpTo(works, n + 1) <==>
            (works[n].artifactId in artifacts ==>
               artifacts[works[n].artifactId] == (works[n].itemId, works[n].artifactSha))
  {
    if works[n].artifactId in artifacts {
      var w :| 0 <= w < n && works[w].artifactId == works[n].artifactId;
    }
  }

  lemma ApartStep(works: seq<Work>, n: nat, workById: map<string, nat>, artifacts: map<string, (string, string)>)
    requires n < |works| && WorksApart(works, n) && Indexed(workById, works, n) && Bound(artifacts, works, n)
    ensures WorksApart(works, n + 1) <==>
            && works[n].workUnitId !in workById
            && (works[n].artifactId in artifacts ==>
                  artifacts[works[n].artifactId] == (works[n].itemId, works[n].artifactSha))
  {
    hide Indexed, Bound, UniqueUpTo, ArtifactsUpTo, WorksApart;
    TwoHalves(works, n);
    TwoHalves(works, n + 1);
    UniqueStep(works, n, workById);
    ArtifactStep(works, n, artifacts);
  }

  lemma TwoHalves(works: seq<Work>, n: nat)
    requires n <= |works|
    ensures WorksApart(works, n) <==> UniqueUpTo(works, n) && ArtifactsUpTo(works, n)
  {
  }

  lemma SoFarStep(ctx: Context, works: seq<Work>, n: nat, workById: map<string, nat>,
                  artifacts: map<string, (string, string)>, truthIds: set<string>)
    requires n < |works| && WorksSoFar(ctx, works, n)
    requires Indexed(workById, works, n) && Bound(artifacts, works, n) && Known(truthIds, works, n)
    ensures WorksSoFar(ctx, works, n + 1) <==>
            && WorkOk(ctx, works[n]) && works[n].workUnitId !in workById
            && (works[n].artifactId in artifacts ==>
                  artifacts[works[n].artifactId] == (works[n].itemId, works[n].artifactSha))
            && TruthsFresh(works[n].truths, truthIds)
  {
    hide WorksApart, TruthsApart, TruthsFresh, Indexed, Bound, Known, Slots, IsHash, TruthOk;
    ApartStep(works, n, workById, artifacts);
    if WorkOk(ctx, works[n]) {
      TruthsStep(works, n, truthIds);
    }
  }

  lemma {:induction false} TruthsPrefix(works: seq<Work>, n: nat)
    requires n <= |works| && TruthsApart(works, Slots(works, |works|))
    ensures TruthsApart(works, Slots(works, n))
    decreases |works| - n
  {
    hide Slots, TruthsApart, Distinct;
    if n < |works| {
      TruthsPrefix(works, n + 1);
      ApartMeansDistinct(works, n);
      ApartMeansDistinct(works, n + 1);
      DistinctPrefix(TruthIds(works, n), IdsOf(works[n].truths));
    }
  }

  lemma KnownStep(works: seq<Work>, n: nat, truthIds: set<string>)
    requires n < |works| && Known(truthIds, works, n)
    ensures Known(truthIds + set truth | truth in works[n].truths :: truth.id, works, n + 1)
  {
    var ids := IdsOf(works[n].truths);
    var added := set truth | truth in works[n].truths :: truth.id;
    forall id
      ensures id in added <==> id in ids
    {
      if id in added {
        var t :| 0 <= t < |works[n].truths| && works[n].truths[t].id == id;
        assert ids[t] == id;
      }
      if id in ids {
        var t :| 0 <= t < |ids| && ids[t] == id;
        assert works[n].truths[t] in works[n].truths;
      }
    }
  }

  /** The item, the identities and the truth list of a work unit, each taken alone. */
  method CheckWork(ctx: Context, work: Work, truthsOk: bool) returns (ok: bool)
    requires truthsOk ==> forall truth | truth in work.truths :: TruthOk(truth)
    ensures ok <==> WorkOk(ctx, work) && truthsOk
  {
    hide IsHash, TruthOk, Sort, Sorted, LexLe;
    OrderByKey(TruthLe, (truth: Truth) => truth.id);
    SortedFixed(work.truths, TruthLe);
    if work.itemId !in ctx.active || ctx.active[work.itemId] != (work.sourceSha, work.goldSha) {
      return false;
    }
    if !IsHash(work.workUnitId) || !IsHash(work.artifactId) || !IsHash(work.artifactSha) {
      return false;
    }
    if Sort(work.truths, TruthLe) != work.truths || work.truths == [] {
      return false;
    }
    return truthsOk;
  }

  ghost predicate Dictionaries(works: seq<Work>, n: nat, workById: map<string, nat>,
                               artifacts: map<string, (string, string)>, truthIds: set<string>)
    requires n <= |works|
  {
    Indexed(workById, works, n) && Bound(artifacts, works, n) && Known(truthIds, works, n)
  }

  lemma DictionariesStep(works: seq<Work>, n: nat, workById: map<string, nat>,
                         artifacts: map<string, (string, string)>, truthIds: set<string>)
    requires n < |works| && Dictionaries(works, n, workById, artifacts, truthIds)
    requires works[n].workUnitId !in workById
    requires works[n].artifactId in artifacts ==>
               artifacts[works[n].artifactId] == (works[n].itemId, works[n].artifactSha)
    ensures Dictionaries(works, n + 1, workById[works[n].workUnitId := n],
                         artifacts[works[n].artifactId := (works[n].itemId, works[n].artifactSha)],
                         truthIds + set truth | truth in works[n].truths :: truth.id)
  {
    hide Known;
    KnownStep(works, n, truthIds);
    BoundStep(works, n, artifacts);
  }

  lemma BoundStep(works: seq<Work>, n: nat, artifacts: map<string, (string, string)>)
    requires n < |works| && Bound(artifacts, works, n)
    requires works[n].artifactId in artifacts ==>
               artifacts[works[n].artifactId] == (works[n].itemId, works[n].artifactSha)
    ensures Bound(artifacts[works[n].artifactId := (works[n].itemId, works[n].artifactSha)], works, n + 1)
  {
    var updated := artifacts[works[n].artifactId := (works[n].itemId, works[n].artifactSha)];
    assert updated.Keys == artifacts.Keys + {works[n].artifactId};
  }

  /** The loop over the work units accepts exactly when none of them clashes with another. */
  method CheckEachWork(ctx: Context, works: seq<Work>)
    returns (ok: bool, workById: map<string, nat>, slots: seq<Slot>, artifacts: map<string, (string, string)>)
    ensures ok <==> WorksSoFar(ctx, works, |works|)
    ensures ok ==>
              && slots == Slots(works, |works|) && Indexed(workById, works, |works|)
              && Bound(artifacts, works, |works|)
  {
    hide *;
    workById, slots, artifacts := map[], [], map[];
    var truthIds: set<string> := {};
    Nothing(ctx, works);
    for n := 0 to |works|
      invariant WorksSoFar(ctx, works, n) && Dictionaries(works, n, workById, artifacts, truthIds)
      invariant slots == Slots(works, n)
    {
      var work := works[n];
      Unpack(works, n, workById, artifacts, truthIds);
      SoFarStep(ctx, works, n, workById, artifacts, truthIds);
      SoFarPrefix(ctx, works, n + 1);
      var truthsOk, known := CheckTruths(work.truths, truthIds);
      FreshMeansOk(work.truths, truthIds);
      var workOk := CheckWork(ctx, work, truthsOk);
      if !workOk || work.workUnitId in workById {
        return false, workById, slots, artifacts;
      }
      var artifactBinding := (work.itemId, work.artifactSha);
      if work.artifactId in artifacts && artifacts[work.artifactId] != artifactBinding {
        return false, workById, slots, artifacts;
      }
      DictionariesStep(works, n, workById, artifacts, truthIds);
      SlotsPrefix(works, n);
      workById := workById[work.workUnitId := n];
      artifacts := artifacts[work.artifactId := artifactBinding];
      truthIds := known;
      slots := slots + SlotsOf(works, n);
    }
    Unpack(works, |works|, workById, artifacts, truthIds);
    return true, workById, slots, artifacts;
  }

  lemma Nothing(ctx: Context, works: seq<Work>)
    ensures WorksSoFar(ctx, works, 0) && Dictionaries(works, 0, map[], map[], {}) && Slots(works, 0) == []
  {
  }

  lemma Unpack(works: seq<Work>, n: nat, workById: map<string, nat>, artifacts: map<string, (string, string)>,
               truthIds: set<string>)
    requires n <= |works| && Dictionaries(works, n, workById, artifacts, truthIds)
    ensures Indexed(workById, works, n) && Bound(artifacts, works, n) && Known(truthIds, works, n)
  {
    hide Indexed, Bound, Known;
  }

  lemma FreshMeansOk(truths: seq<Truth>, known: set<string>)
    ensures TruthsFresh(truths, known) ==> forall truth | truth in truths :: TruthOk(truth)
  {
    hide TruthOk;
  }

  lemma SoFarPrefix(ctx: Context, works: seq<Work>, n: nat)
    requires n <= |works|
    ensures WorksSoFar(ctx, works, |works|) ==> WorksSoFar(ctx, works, n)
  {
    hide WorkOk, Slots, TruthsApart;
    if WorksSoFar(ctx, works, |works|) {
      TruthsPrefix(works, n);
    }
  }

  predicate CoversMetrics(works: seq<Work>, slots: seq<Slot>)
    requires forall s | s in slots :: ValidSlot(works, s)
  {
    AllMetrics() == MetricsIn(works, slots)
  }

  function MetricsIn(works: seq<Work>, slots: seq<Slot>): set<Metric>
    requires forall s | s in slots :: ValidSlot(works, s)
  {
    set s | s in slots :: TruthAt(works, s).metric
  }

  function AllMetrics(): (metrics: set<Metric>)
    ensures forall m :: m in metrics <==> Supported(m)
  {
    {BusinessMeaning, NumericDateUnit, Modality, TableMapping, TrendReversal, ExecutiveClaim, SemanticFidelity,
     UnresolvedPrecision, UnresolvedRecall, LockedTerminology}
  }

  /** `_validate_contract` on the work units: accepted exactly when the sample is. */
  method CheckWorks(ctx: Context, works: seq<Work>) returns (ok: bool, workById: map<string, nat>, slots: seq<Slot>)
    ensures ok <==> WorksOk(ctx, works)
    ensures ok ==> slots == Slots(works, |works|) && Indexed(workById, works, |works|)
  {
    hide *;
    WorkOrder();
    SortedFixed(works, WorkLe);
    SamplePieces(ctx, works);
    workById, slots := map[], [];
    if Sort(works, WorkLe) != works || |works| < MINIMUM_WORK_UNITS {
      return false, workById, slots;
    }
    var artifacts: map<string, (string, string)>;
    ok, workById, slots, artifacts := CheckEachWork(ctx, works);
    if !ok {
      return;
    }
    ArtifactCount(works, artifacts);
    SlotsValid(works);
    ok := |artifacts| >= MINIMUM_ARTIFACTS && CoversMetrics(works, slots);
  }

  lemma SlotsValid(works: seq<Work>)
    ensures forall s | s in Slots(works, |works|) :: ValidSlot(works, s)
  {
  }

  lemma ArtifactCount(works: seq<Work>, artifacts: map<string, (string, string)>)
    requires Bound(artifacts, works, |works|)
    ensures |artifacts| == |set work | work in works :: work.artifactId|
  {
    assert artifacts.Keys == set work | work in works :: work.artifactId;
    assert |artifacts| == |artifacts.Keys|;
  }

  lemma SamplePieces(ctx: Context, works: seq<Work>)
    ensures WorksOk(ctx, works) <==>
            && Sorted(works, WorkLe) && |works| >= MINIMUM_WORK_UNITS && WorksSoFar(ctx, works, |works|)
            && |set work | work in works :: work.artifactId| >= MINIMUM_ARTIFACTS
            && CoversMetrics(works, Slots(works, |works|))
  {
    hide WorkOk, WorksApart, TruthsApart, Slots, TruthAt, ValidSlot, Sorted, CoversMetrics, Supported;
    AllWorks(ctx, works);
    if forall work | work in works :: WorkOk(ctx, work) {
      MetricsMeaning(ctx, works);
    }
  }

  lemma AllWorks(ctx: Context, works: seq<Work>)
    ensures (forall work | work in works :: WorkOk(ctx, work)) <==> forall k | 0 <= k < |works| :: WorkOk(ctx, works[k])
  {
    hide WorkOk;
  }

  lemma MetricsSupported(ctx: Context, works: seq<Work>, m: Metric)
    requires forall work | work in works :: WorkOk(ctx, work)
    requires m in MetricsIn(works, Slots(works, |works|))
    ensures Supported(m)
  {
    hide Slots, Sorted, IsHash;
    var s :| s in Slots(works, |works|) && TruthAt(works, s).metric == m;
    assert works[s.w] in works && TruthAt(works, s) in works[s.w].truths;
  }

  lemma MetricsMeaning(ctx: Context, works: seq<Work>)
    requires forall work | work in works :: WorkOk(ctx, work)
    ensures CoversMetrics(works, Slots(works, |works|)) <==>
            forall m: Metric | Supported(m) :: exists s | s in Slots(works, |works|) :: TruthAt(works, s).metric == m
  {
    hide Slots, WorkOk, TruthAt, ValidSlot, Supported;
    var found := MetricsIn(works, Slots(works, |works|));
    forall m | m in found
      ensures Supported(m)
    {
      MetricsSupported(ctx, works, m);
    }
    assert forall m :: m in found <==> exists s | s in Slots(works, |works|) :: TruthAt(works, s).metric == m;
    assert found == AllMetrics() <==> forall m: Metric | Supported(m) :: m in found;
  }
}

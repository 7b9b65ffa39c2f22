/**
 The third loop of the ledger checker: records of AI assistance, each for one review, and the references of the
 reviews to them.
 */
module BilingualAssistance {
  import opened Sorting
  import opened BilingualReview
  import opened BilingualCounting
  import opened BilingualWorks
  import opened BilingualRecords

  // ---------- one record ----------

  lemma AssistedReview(ctx: Context, c: Contract, workById: map<string, nat>, r: nat)
    requires RecordsOk(ctx, c) && UniqueWorks(c.works) && Indexed(workById, c.works, |c.works|) && r < |c.reviews|
    ensures var review := c.reviews[r];
            && review.binding.workUnitId in workById
            && review.binding == BindingFor(ctx, c.header, c.works[workById[review.binding.workUnitId]])
  {
    hide MarkOk, Covers, IsHash, Increasing;
    var review := c.reviews[r];
    assert review in c.reviews;
    var w: nat :| Reviews(ctx, c, review, w);
    assert c.works[w].workUnitId == review.binding.workUnitId;
  }

  method CheckAssistanceRecord(ctx: Context, c: Contract, a: Assistance, workById: map<string, nat>,
                               recordsById: map<string, nat>)
    returns (ok: bool)
    requires RecordsOk(ctx, c) && UniqueWorks(c.works) && Indexed(workById, c.works, |c.works|)
    requires Recorded(c, |c.reviews|, recordsById)
    ensures ok <==> AssistanceRecordOk(ctx, c, a)
  {
    hide MarkOk, Suggests, RecordsOk, UniqueWorks, BindingFor;
    if !MarkOk(a.mark, AssistanceDigest(ctx, a)) || !Suggests(a.standing) {
      return false;
    }
    if a.reviewId !in recordsById {
      assert forall r: nat :: !Assists(c, a, r);
      return false;
    }
    var r := recordsById[a.reviewId];
    var review := c.reviews[r];
    AssistedReview(ctx, c, workById, r);
    var work := c.works[workById[review.binding.workUnitId]];
    ok := a.binding == BindingFor(ctx, c.header, work);
    assert forall q: nat :: Assists(c, a, q) ==> q == r;
    assert ok <==> Assists(c, a, r);
  }

  // ---------- all of them ----------

  ghost predicate AssistanceSoFar(ctx: Context, c: Contract, n: nat)
    requires n <= |c.assistance|
  {
    && (forall k | 0 <= k < n :: AssistanceRecordOk(ctx, c, c.assistance[k]))
    && NoReplay(AssistanceMarks(c.assistance)[..n])
  }

  lemma AssistanceStep(ctx: Context, c: Contract, n: nat)
    requires n < |c.assistance| && AssistanceSoFar(ctx, c, n)
    ensures AssistanceSoFar(ctx, c, n + 1) <==>
            && AssistanceRecordOk(ctx, c, c.assistance[n])
            && Fresh(SeenIn(AssistanceMarks(c.assistance)[..n]), c.assistance[n].mark)
    ensures SeenIn(AssistanceMarks(c.assistance)[..n + 1])
         == Note(SeenIn(AssistanceMarks(c.assistance)[..n]), c.assistance[n].mark)
  {
    hide AssistanceRecordOk, NoReplay, Fresh, SeenIn, Note;
    var marks := AssistanceMarks(c.assistance);
    assert marks[..n + 1] == marks[..n] + [c.assistance[n].mark];
    ReplayStep(marks[..n], c.assistance[n].mark);
    SeenStep(marks[..n], c.assistance[n].mark);
  }

  lemma AssistancePrefix(ctx: Context, c: Contract, n: nat)
    requires n <= |c.assistance| && AssistanceOk(ctx, c)
    ensures AssistanceSoFar(ctx, c, n)
  {
    hide AssistanceRecordOk, NoReplay;
    forall k | 0 <= k < n
      ensures AssistanceRecordOk(ctx, c, c.assistance[k])
    {
      assert c.assistance[k] in c.assistance;
    }
    ReplayPrefix(AssistanceMarks(c.assistance), n);
  }

  /** The identities collected for each review. */
  ghost predicate Gathers(c: Contract, n: nat, byReview: map<string, seq<string>>)
    requires n <= |c.assistance|
  {
    forall id :: Lookup(byReview, id) == AssistedBy(c.assistance, id, n)
  }

  lemma GathersStep(c: Contract, n: nat, byReview: map<string, seq<string>>)
    requires n < |c.assistance| && Gathers(c, n, byReview)
    ensures var a := c.assistance[n];
            Gathers(c, n + 1, byReview[a.reviewId := Lookup(byReview, a.reviewId) + [a.mark.id]])
  {
    hide AssistedBy;
    var a := c.assistance[n];
    var updated := byReview[a.reviewId := Lookup(byReview, a.reviewId) + [a.mark.id]];
    forall id
      ensures Lookup(updated, id) == AssistedBy(c.assistance, id, n + 1)
    {
      AssistedStep(c.assistance, id, n);
      assert Lookup(byReview, id) == AssistedBy(c.assistance, id, n);
    }
  }

  lemma AssistedStep(assistance: seq<Assistance>, id: string, n: nat)
    requires n < |assistance|
    ensures AssistedBy(assistance, id, n + 1) ==
            AssistedBy(assistance, id, n) + if assistance[n].reviewId == id then [assistance[n].mark.id] else []
  {
  }

  lemma NoAssistance(ctx: Context, c: Contract)
    ensures AssistanceSoFar(ctx, c, 0) && Gathers(c, 0, map[])
    ensures SeenIn(AssistanceMarks(c.assistance)[..0]) == Seen({}, {}, {}, {})
  {
  }

  lemma AssistanceOrder()
    ensures Preorder(AssistanceLe)
  {
    OrderByKey(AssistanceLe, (a: Assistance) => a.mark.id);
  }

  lemma {:induction false} AssistedMembers(assistance: seq<Assistance>, reviewId: string, n: nat, id: string)
    requires n <= |assistance|
    ensures id in AssistedBy(assistance, reviewId, n) <==>
            exists a | 0 <= a < n :: assistance[a].reviewId == reviewId && assistance[a].mark.id == id
  {
    if n > 0 {
      AssistedMembers(assistance, reviewId, n - 1, id);
    }
  }

  /** From sorted records the identities come sorted, so that sorting them changes nothing. */
  lemma {:induction false} AssistedSorted(assistance: seq<Assistance>, reviewId: string, n: nat)
    requires Sorted(assistance, AssistanceLe) && n <= |assistance|
    ensures Sorted(AssistedBy(assistance, reviewId, n), LexLe)
  {
    hide LexLe;
    if n > 0 {
      AssistedSorted(assistance, reviewId, n - 1);
      var before := AssistedBy(assistance, reviewId, n - 1);
      forall i | 0 <= i < |before|
        ensures LexLe(before[i], assistance[n - 1].mark.id)
      {
        assert before[i] in before;
        AssistedMembers(assistance, reviewId, n - 1, before[i]);
        var a :| 0 <= a < n - 1 && assistance[a].reviewId == reviewId && assistance[a].mark.id == before[i];
        assert AssistanceLe(assistance[a], assistance[n - 1]);
      }
    }
  }

  lemma ReferencesTest(c: Contract, byReview: map<string, seq<string>>, r: nat)
    requires Sorted(c.assistance, AssistanceLe) && Gathers(c, |c.assistance|, byReview) && r < |c.reviews|
    ensures Sort(Lookup(byReview, c.reviews[r].mark.id), LexLe)
         == AssistedBy(c.assistance, c.reviews[r].mark.id, |c.assistance|)
  {
    hide LexLe, AssistedBy;
    var id := c.reviews[r].mark.id;
    AssistedSorted(c.assistance, id, |c.assistance|);
    LexAntisymmetry();
    SortOfSorted(AssistedBy(c.assistance, id, |c.assistance|), LexLe);
  }

  lemma AssistanceEnd(ctx: Context, c: Contract)
    requires AssistanceSoFar(ctx, c, |c.assistance|) && Sorted(c.assistance, AssistanceLe)
    requires forall r | 0 <= r < |c.reviews| ::
               c.reviews[r].assistance == AssistedBy(c.assistance, c.reviews[r].mark.id, |c.assistance|)
    ensures AssistanceOk(ctx, c)
  {
    hide AssistanceRecordOk, NoReplay, AssistedBy;
    assert AssistanceMarks(c.assistance)[..|c.assistance|] == AssistanceMarks(c.assistance);
  }

  lemma AssistanceParts(ctx: Context, c: Contract)
    requires AssistanceOk(ctx, c)
    ensures Sorted(c.assistance, AssistanceLe)
    ensures forall r | 0 <= r < |c.reviews| ::
              c.reviews[r].assistance == AssistedBy(c.assistance, c.reviews[r].mark.id, |c.assistance|)
  {
    hide AssistanceRecordOk, NoReplay, AssistedBy;
  }

  /** The loop over the records of assistance. */
  method CollectAssistance(ctx: Context, c: Contract, workById: map<string, nat>, recordsById: map<string, nat>)
    returns (ok: bool, byReview: map<string, seq<string>>)
    requires RecordsOk(ctx, c) && UniqueWorks(c.works) && Indexed(workById, c.works, |c.works|)
    requires Recorded(c, |c.reviews|, recordsById)
    ensures AssistanceOk(ctx, c) ==> ok
    ensures ok ==> AssistanceSoFar(ctx, c, |c.assistance|) && Gathers(c, |c.assistance|, byReview)
  {
    hide *;
    byReview := map[];
    var seen := Seen({}, {}, {}, {});
    NoAssistance(ctx, c);
    for n := 0 to |c.assistance|
      invariant AssistanceSoFar(ctx, c, n) && Gathers(c, n, byReview)
      invariant seen == SeenIn(AssistanceMarks(c.assistance)[..n])
    {
      var a := c.assistance[n];
      AssistanceStep(ctx, c, n);
      if AssistanceOk(ctx, c) {
        AssistancePrefix(ctx, c, n + 1);
      }
      var recordOk := CheckAssistanceRecord(ctx, c, a, workById, recordsById);
      if !recordOk || !Fresh(seen, a.mark) {
        return false, byReview;
      }
      GathersStep(c, n, byReview);
      byReview := byReview[a.reviewId := Lookup(byReview, a.reviewId) + [a.mark.id]];
      seen := Note(seen, a.mark);
    }
    ok := true;
  }

  /** `_validate_contract` on the records of assistance. */
  method CheckAssistance(ctx: Context, c: Contract, workById: map<string, nat>, recordsById: map<string, nat>)
    returns (ok: bool)
    requires RecordsOk(ctx, c) && UniqueWorks(c.works) && Indexed(workById, c.works, |c.works|)
    requires Recorded(c, |c.reviews|, recordsById)
    ensures ok <==> AssistanceOk(ctx, c)
  {
    hide *;
    AssistanceOrder();
    SortedFixed(c.assistance, AssistanceLe);
    if AssistanceOk(ctx, c) {
      AssistanceParts(ctx, c);
    }
    if Sort(c.assistance, AssistanceLe) != c.assistance {
      return false;
    }
    var collected, byReview := CollectAssistance(ctx, c, workById, recordsById);
    if !collected {
      return false;
    }
    for r := 0 to |c.reviews|
      invariant forall k | 0 <= k < r ::
                  c.reviews[k].assistance == AssistedBy(c.assistance, c.reviews[k].mark.id, |c.assistance|)
    {
      ReferencesTest(c, byReview, r);
      if c.reviews[r].assistance != Sort(Lookup(byReview, c.reviews[r].mark.id), LexLe) {
        return false;
      }
    }
    AssistanceEnd(ctx, c);
    ok := true;
  }

  // ---------- what an accepted contract says ----------

  /** Each record of assistance is cited by exactly one review, the one it names; and nothing else is cited. */
  lemma AssistanceIsCited(ctx: Context, c: Contract, a: nat, r: nat)
    requires RecordsOk(ctx, c) && AssistanceOk(ctx, c) && a < |c.assistance| && r < |c.reviews|
    ensures c.assistance[a].mark.id in c.reviews[r].assistance <==> c.assistance[a].reviewId == c.reviews[r].mark.id
    ensures exists q | 0 <= q < |c.reviews| :: c.reviews[q].mark.id == c.assistance[a].reviewId
    ensures forall id | id in c.reviews[r].assistance ::
              exists b | 0 <= b < |c.assistance| :: c.assistance[b].mark.id == id
  {
    hide MarkOk, Suggests, IsHash, AssistedBy, RecordsOk;
    var assistance := c.assistance;
    forall id
      ensures id in c.reviews[r].assistance <==>
              exists b | 0 <= b < |assistance| ::
                assistance[b].reviewId == c.reviews[r].mark.id && assistance[b].mark.id == id
    {
      AssistedMembers(assistance, c.reviews[r].mark.id, |assistance|, id);
    }
    var marks := AssistanceMarks(assistance);
    forall b | 0 <= b < |assistance| && assistance[b].mark.id == assistance[a].mark.id
      ensures b == a
    {
      assert b < a ==> Apart(marks[b], marks[a]);
      assert a < b ==> Apart(marks[a], marks[b]);
    }
    assert AssistanceRecordOk(ctx, c, assistance[a]);
    var q: nat :| Assists(c, assistance[a], q);
  }
}

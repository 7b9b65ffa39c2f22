/**
 Why the counts taken by the ledger checker are enough: two reviews for each work unit on average, and none or two
 for each, leave no work unit without its pair; as many adjudications as disagreements, with one found for each,
 leave no adjudication over.
 */
module BilingualCounting {
  import opened Wrappers
  import opened Collections
  import opened BilingualReview

  // ---------- sets of indices ----------

  lemma {:induction false} DistinctCount<T>(s: seq<T>)
    requires Distinct(s)
    ensures |Members(s)| == |s|
  {
    if s == [] {
      assert Members(s) == {};
    } else {
      var last := |s| - 1;
      DistinctCount(s[..last]);
      assert s == s[..last] + [s[last]];
      assert s[last] !in s[..last];
      assert Members(s) == Members(s[..last]) + {s[last]};
    }
  }

  ghost function Below(n: nat): (below: set<nat>)
    ensures forall i: nat :: i in below <==> i < n
  {
    if n == 0 then {} else Below(n - 1) + {n - 1}
  }

  lemma {:induction false} BelowCount(n: nat)
    ensures |Below(n)| == n
  {
    if n > 0 {
      BelowCount(n - 1);
    }
  }

  lemma SubsetCount<T>(a: set<T>, b: set<T>)
    requires a <= b
    ensures |a| == |b| <==> a == b
  {
    assert b == a + (b - a);
    assert |b| == |a| + |b - a|;
    if |a| == |b| {
      assert b - a == {};
    }
  }

  /** Distinct indices below `n` are all of them exactly when there are `n`. */
  lemma Pigeonhole(s: seq<nat>, n: nat)
    requires Distinct(s) && forall x | x in s :: x < n
    ensures |s| == n <==> forall x: nat | x < n :: x in s
  {
    DistinctCount(s);
    BelowCount(n);
    SubsetCount(Members(s), Below(n));
    assert forall x: nat :: x in Members(s) <==> x in s;
    if forall x: nat | x < n :: x in s {
      assert Members(s) == Below(n);
    }
    if Members(s) == Below(n) {
      forall x: nat | x < n
        ensures x in s
      {
        assert x in Below(n);
      }
    }
  }

  // ---------- reviews ----------

  ghost predicate UniqueWorks(works: seq<Work>) {
    forall i, j | 0 <= i < j < |works| :: works[i].workUnitId != works[j].workUnitId
  }

  ghost predicate Owned(works: seq<Work>, reviews: seq<Review>) {
    forall r | 0 <= r < |reviews| :: HasWork(works, reviews[r].binding.workUnitId)
  }

  ghost predicate HasWork(works: seq<Work>, id: string) {
    exists w | 0 <= w < |works| :: works[w].workUnitId == id
  }

  /** The number of reviews among the first `n` that belong to one of the first `m` work units. */
  ghost function ReviewSum(works: seq<Work>, reviews: seq<Review>, m: nat, n: nat): nat
    requires m <= |works| && n <= |reviews|
  {
    if m == 0 then 0
    else ReviewSum(works, reviews, m - 1, n) + |ReviewsOf(reviews, works[m - 1].workUnitId, n)|
  }

  lemma {:induction false} SumAtStart(works: seq<Work>, reviews: seq<Review>, m: nat)
    requires m <= |works|
    ensures ReviewSum(works, reviews, m, 0) == 0
  {
    if m > 0 {
      SumAtStart(works, reviews, m - 1);
    }
  }

  lemma ReviewStep(reviews: seq<Review>, id: string, n: nat)
    requires n < |reviews|
    ensures |ReviewsOf(reviews, id, n + 1)| ==
            |ReviewsOf(reviews, id, n)| + if reviews[n].binding.workUnitId == id then 1 else 0
  {
  }

  /** One more review adds one to the count of the work unit it names, and to no other. */
  lemma {:induction false} SumStep(works: seq<Work>, reviews: seq<Review>, m: nat, n: nat, w: nat)
    requires m <= |works| && n < |reviews| && UniqueWorks(works)
    requires w < |works| && works[w].workUnitId == reviews[n].binding.workUnitId
    ensures ReviewSum(works, reviews, m, n + 1) == ReviewSum(works, reviews, m, n) + if w < m then 1 else 0
  {
    hide ReviewsOf;
    if m > 0 {
      SumStep(works, reviews, m - 1, n, w);
      ReviewStep(reviews, works[m - 1].workUnitId, n);
      assert w == m - 1 <==> works[w].workUnitId == works[m - 1].workUnitId;
    }
  }

  lemma {:induction false} SumIsLength(works: seq<Work>, reviews: seq<Review>, n: nat)
    requires n <= |reviews| && UniqueWorks(works) && Owned(works, reviews)
    ensures ReviewSum(works, reviews, |works|, n) == n
  {
    hide ReviewSum;
    if n == 0 {
      SumAtStart(works, reviews, |works|);
    } else {
      SumIsLength(works, reviews, n - 1);
      assert HasWork(works, reviews[n - 1].binding.workUnitId);
      var w :| 0 <= w < |works| && works[w].workUnitId == reviews[n - 1].binding.workUnitId;
      SumStep(works, reviews, |works|, n - 1, w);
    }
  }

  /** Counts of at most two add up to twice their number exactly when each is two. */
  lemma {:induction false} SumOfTwos(works: seq<Work>, reviews: seq<Review>, m: nat)
    requires m <= |works|
    requires forall w | 0 <= w < m :: |ReviewsOf(reviews, works[w].workUnitId, |reviews|)| <= 2
    ensures ReviewSum(works, reviews, m, |reviews|) <= 2 * m
    ensures ReviewSum(works, reviews, m, |reviews|) == 2 * m <==>
            forall w | 0 <= w < m :: |ReviewsOf(reviews, works[w].workUnitId, |reviews|)| == 2
  {
    hide ReviewsOf;
    if m > 0 {
      SumOfTwos(works, reviews, m - 1);
    }
  }

  /** What the checker tests: the total, and the pair of each work unit that has reviews. */
  ghost predicate CountedPairs(c: Contract) {
    && |c.reviews| == 2 * |c.works|
    && forall w: nat | w < |c.works| && ReviewsAt(c, w) != [] :: Paired(c, w)
  }

  lemma AtMostTwo(c: Contract)
    requires forall w: nat | w < |c.works| && ReviewsAt(c, w) != [] :: Paired(c, w)
    ensures forall w | 0 <= w < |c.works| :: |ReviewsOf(c.reviews, c.works[w].workUnitId, |c.reviews|)| <= 2
  {
    hide ReviewsOf;
    forall w | 0 <= w < |c.works|
      ensures |ReviewsOf(c.reviews, c.works[w].workUnitId, |c.reviews|)| <= 2
    {
      assert ReviewsAt(c, w) == [] || Paired(c, w);
    }
  }

  lemma TwoMeansPaired(c: Contract)
    requires forall w: nat | w < |c.works| && ReviewsAt(c, w) != [] :: Paired(c, w)
    ensures AllPaired(c) <==>
            forall w | 0 <= w < |c.works| :: |ReviewsOf(c.reviews, c.works[w].workUnitId, |c.reviews|)| == 2
  {
    hide ReviewsOf;
    if AllPaired(c) {
      forall w | 0 <= w < |c.works|
        ensures |ReviewsOf(c.reviews, c.works[w].workUnitId, |c.reviews|)| == 2
      {
        assert Paired(c, w);
      }
    }
    if forall w | 0 <= w < |c.works| :: |ReviewsOf(c.reviews, c.works[w].workUnitId, |c.reviews|)| == 2 {
      forall w: nat | w < |c.works|
        ensures Paired(c, w)
      {
        assert |ReviewsOf(c.reviews, c.works[w].workUnitId, |c.reviews|)| == 2;
        assert ReviewsAt(c, w) != [];
      }
    }
  }

  /** Although only work units with reviews are visited, every work unit has its two reviewers. */
  lemma CoverageByCounting(c: Contract)
    requires UniqueWorks(c.works) && Owned(c.works, c.reviews)
    ensures CountedPairs(c) <==> AllPaired(c)
  {
    hide ReviewsOf, ReviewSum, Owned, UniqueWorks, Paired, ReviewsAt;
    if CountedPairs(c) || AllPaired(c) {
      AtMostTwo(c);
      SumIsLength(c.works, c.reviews, |c.reviews|);
      SumOfTwos(c.works, c.reviews, |c.works|);
      TwoMeansPaired(c);
    }
  }

  // ---------- adjudications ----------

  /** The truth units in some order, each once. */
  ghost predicate Listing(works: seq<Work>, order: seq<Slot>) {
    && (forall s :: s in order <==> ValidSlot(works, s))
    && (forall i, j | 0 <= i < j < |order| :: TruthAt(works, order[i]).id != TruthAt(works, order[j]).id)
  }

  ghost predicate Ready(c: Contract, order: seq<Slot>) {
    AllPaired(c) && Listing(c.works, order)
  }

  lemma ListingMember(works: seq<Work>, order: seq<Slot>, i: nat)
    requires Listing(works, order) && i < |order|
    ensures ValidSlot(works, order[i])
  {
    assert order[i] in order;
  }

  lemma SameTruthSameSlot(works: seq<Work>, order: seq<Slot>, s: Slot, t: Slot)
    requires Listing(works, order) && ValidSlot(works, s) && ValidSlot(works, t)
    requires TruthAt(works, s).id == TruthAt(works, t).id
    ensures s == t
  {
    hide TruthAt, ValidSlot;
    var i :| 0 <= i < |order| && order[i] == s;
    var j :| 0 <= j < |order| && order[j] == t;
  }

  ghost predicate NeedsAdjudication(c: Contract, order: seq<Slot>, i: nat)
    requires Ready(c, order)
  {
    i < |order| && (ListingMember(c.works, order, i); !Agree(c, order[i]))
  }

  ghost function Adjudicator(c: Contract, order: seq<Slot>, i: nat): (a: Option<nat>)
    requires Ready(c, order)
    ensures a.Some? ==> i < |order| && a.value < |c.adjudications|
  {
    if i < |order| then ListingMember(c.works, order, i); AdjudicationFor(c, order[i]) else None
  }

  /** The adjudications used for the first `k` truth units. */
  ghost function Used(c: Contract, order: seq<Slot>, k: nat): (used: seq<nat>)
    requires Ready(c, order) && k <= |order|
    ensures forall i | 0 <= i < |used| :: used[i] < |c.adjudications|
  {
    if k == 0 then []
    else Used(c, order, k - 1) +
         if NeedsAdjudication(c, order, k - 1) && Adjudicator(c, order, k - 1).Some? then
           [Adjudicator(c, order, k - 1).value]
         else []
  }

  /** The first `k` truth units are agreed upon, or settled by the first adjudication that names them. */
  ghost predicate Settled(ctx: Context, c: Contract, order: seq<Slot>, k: nat)
    requires Ready(c, order) && k <= |order|
  {
    forall i: nat | i < k && NeedsAdjudication(c, order, i) ::
      Adjudicator(c, order, i).Some? && SettledBy(ctx, c, order, i, Adjudicator(c, order, i).value)
  }

  ghost predicate SettledBy(ctx: Context, c: Contract, order: seq<Slot>, i: nat, a: nat)
    requires Ready(c, order) && i < |order|
  {
    a < |c.adjudications| && (ListingMember(c.works, order, i); Settles(ctx, c, order[i], c.adjudications[a]))
  }

  ghost function UsedMarks(c: Contract, used: seq<nat>): (marks: seq<Mark>)
    requires forall i | 0 <= i < |used| :: used[i] < |c.adjudications|
    ensures |marks| == |used| && forall i | 0 <= i < |used| :: marks[i] == c.adjudications[used[i]].mark
  {
    seq(|used|, i requires 0 <= i < |used| => c.adjudications[used[i]].mark)
  }

  /** What the checker tests. */
  ghost predicate CountedAdjudications(ctx: Context, c: Contract, order: seq<Slot>)
    requires Ready(c, order)
  {
    && Settled(ctx, c, order, |order|) && NoReplay(UsedMarks(c, Used(c, order, |order|)))
    && |c.adjudications| == |Used(c, order, |order|)|
  }

  lemma {:induction false} UsedMembers(c: Contract, order: seq<Slot>, k: nat, a: nat)
    requires Ready(c, order) && k <= |order|
    ensures a in Used(c, order, k) <==>
            exists i: nat :: i < k && NeedsAdjudication(c, order, i) && Adjudicator(c, order, i) == Some(a)
  {
    hide Ready, NeedsAdjudication, Adjudicator;
    if k > 0 {
      UsedMembers(c, order, k - 1, a);
    }
  }

  /** An adjudication serves one truth unit only. */
  lemma AdjudicatorsDiffer(c: Contract, order: seq<Slot>, i: nat, j: nat)
    requires Ready(c, order) && i < j < |order|
    ensures Adjudicator(c, order, i).Some? ==> Adjudicator(c, order, i) != Adjudicator(c, order, j)
  {
    ListingMember(c.works, order, i);
    ListingMember(c.works, order, j);
  }

  lemma {:induction false} UsedDistinct(c: Contract, order: seq<Slot>, k: nat)
    requires Ready(c, order) && k <= |order|
    ensures Distinct(Used(c, order, k))
  {
    hide Ready, NeedsAdjudication, Adjudicator;
    if k > 0 {
      UsedDistinct(c, order, k - 1);
      if NeedsAdjudication(c, order, k - 1) && Adjudicator(c, order, k - 1).Some? {
        var a := Adjudicator(c, order, k - 1).value;
        if a in Used(c, order, k - 1) {
          UsedMembers(c, order, k - 1, a);
          var i: nat :| i < k - 1 && NeedsAdjudication(c, order, i) && Adjudicator(c, order, i) == Some(a);
          AdjudicatorsDiffer(c, order, i, k - 1);
        }
      }
    }
  }

  /** Adjudication `a` settles the disagreement on the `i`-th truth unit. */
  ghost predicate Serves(ctx: Context, c: Contract, order: seq<Slot>, i: nat, a: nat)
    requires Ready(c, order)
  {
    NeedsAdjudication(c, order, i) && Adjudicator(c, order, i) == Some(a) && SettledBy(ctx, c, order, i, a)
  }

  /** As many adjudications as disagreements: none is left over. */
  lemma EachServes(ctx: Context, c: Contract, order: seq<Slot>, a: nat) returns (i: nat)
    requires Ready(c, order) && CountedAdjudications(ctx, c, order) && a < |c.adjudications|
    ensures Serves(ctx, c, order, i, a)
  {
    hide Ready, NeedsAdjudication, Adjudicator, SettledBy, NoReplay, UsedMarks, Used;
    var used := Used(c, order, |order|);
    UsedDistinct(c, order, |order|);
    Pigeonhole(used, |c.adjudications|);
    UsedMembers(c, order, |order|, a);
    i :| i < |order| && NeedsAdjudication(c, order, i) && Adjudicator(c, order, i) == Some(a);
  }

  lemma ServedTruth(ctx: Context, c: Contract, order: seq<Slot>, i: nat, a: nat)
    requires Ready(c, order) && Serves(ctx, c, order, i, a)
    ensures i < |order| && SettlesDispute(ctx, c, order[i], a)
    ensures Names(c, a, order[i])
  {
    hide Slots, Agree, Paired;
    ListingMember(c.works, order, i);
  }

  lemma ServedApart(ctx: Context, c: Contract, order: seq<Slot>, i: nat, a: nat, j: nat, b: nat)
    requires Ready(c, order) && Serves(ctx, c, order, i, a) && Serves(ctx, c, order, j, b) && a != b
    ensures a < |c.adjudications| && b < |c.adjudications|
    ensures c.adjudications[a].truthId != c.adjudications[b].truthId
  {
    hide Slots, Agree, Paired, Settles, TruthAt, ValidSlot, SettlesDispute;
    ServedTruth(ctx, c, order, i, a);
    ServedTruth(ctx, c, order, j, b);
  }

  lemma UsedApart(ctx: Context, c: Contract, order: seq<Slot>, a: nat, b: nat)
    requires Ready(c, order) && CountedAdjudications(ctx, c, order) && a < b < |c.adjudications|
    ensures Apart(c.adjudications[a].mark, c.adjudications[b].mark)
  {
    hide Ready, NeedsAdjudication, Adjudicator, SettledBy, Used, Settled;
    var used := Used(c, order, |order|);
    UsedDistinct(c, order, |order|);
    Pigeonhole(used, |c.adjudications|);
    assert a in used && b in used;
    var p :| 0 <= p < |used| && used[p] == a;
    var q :| 0 <= q < |used| && used[q] == b;
    assert UsedMarks(c, used)[p] == c.adjudications[a].mark && UsedMarks(c, used)[q] == c.adjudications[b].mark;
  }

  lemma EachDisagreementNamed(ctx: Context, c: Contract, order: seq<Slot>, s: Slot)
    requires Ready(c, order) && Settled(ctx, c, order, |order|) && Disputed(c, s)
    ensures exists a: nat :: Names(c, a, s)
  {
    hide Agree, Paired, Settles;
    assert s in order;
    var i: nat :| i < |order| && order[i] == s;
    assert NeedsAdjudication(c, order, i);
    assert Names(c, Adjudicator(c, order, i).value, s);
  }

  lemma CountedMeansOneToOne(ctx: Context, c: Contract, order: seq<Slot>)
    requires Ready(c, order) && CountedAdjudications(ctx, c, order)
    ensures OneToOne(ctx, c)
  {
    hide Listing, CountedAdjudications, AllPaired, Disputed, Names, SettlesDispute, Serves, Apart, Settled;
    Counted(ctx, c, order);
    forall a: nat | a < |c.adjudications|
      ensures Needed(ctx, c, a)
    {
      var i := EachServes(ctx, c, order, a);
      ServedTruth(ctx, c, order, i, a);
    }
    forall a, b | 0 <= a < b < |c.adjudications|
      ensures c.adjudications[a].truthId != c.adjudications[b].truthId
      ensures Apart(c.adjudications[a].mark, c.adjudications[b].mark)
    {
      var i := EachServes(ctx, c, order, a);
      var j := EachServes(ctx, c, order, b);
      ServedApart(ctx, c, order, i, a, j, b);
      UsedApart(ctx, c, order, a, b);
    }
    forall s | Disputed(c, s)
      ensures exists a: nat :: Names(c, a, s)
    {
      EachDisagreementNamed(ctx, c, order, s);
    }
  }

  lemma Counted(ctx: Context, c: Contract, order: seq<Slot>)
    requires Ready(c, order) && CountedAdjudications(ctx, c, order)
    ensures Settled(ctx, c, order, |order|)
  {
    hide Ready, Settled;
  }

  lemma SettledSlot(ctx: Context, c: Contract, a: nat) returns (t: Slot)
    requires AllPaired(c) && OneToOne(ctx, c) && a < |c.adjudications|
    ensures SettlesDispute(ctx, c, t, a) && Names(c, a, t)
  {
    t := DisputeOf(ctx, c, a);
    SettlesNames(ctx, c, t, c.adjudications[a]);
  }

  lemma DisputeOf(ctx: Context, c: Contract, a: nat) returns (t: Slot)
    requires AllPaired(c) && OneToOne(ctx, c) && a < |c.adjudications|
    ensures SettlesDispute(ctx, c, t, a)
  {
    hide AllPaired, SettlesDispute, NoReplay, Disputed, Names;
    assert Needed(ctx, c, a);
    t :| SettlesDispute(ctx, c, t, a);
  }

  lemma NamedBy(ctx: Context, c: Contract, s: Slot)
    requires AllPaired(c) && OneToOne(ctx, c) && Disputed(c, s)
    ensures AdjudicationFor(c, s).Some? && Names(c, AdjudicationFor(c, s).value, s)
  {
    hide AllPaired, Agree, SettlesDispute, NoReplay, TruthAt;
    var a: nat :| Names(c, a, s);
  }

  lemma SingleName(ctx: Context, c: Contract, a: nat, b: nat)
    requires AllPaired(c) && OneToOne(ctx, c) && a < |c.adjudications| && b < |c.adjudications|
    requires c.adjudications[a].truthId == c.adjudications[b].truthId
    ensures a == b
  {
    hide AllPaired, SettlesDispute, NoReplay, Disputed, Names;
  }

  /** With one adjudication for each disagreement, the first one found is the one that settles it. */
  lemma OneToOneSettles(ctx: Context, c: Contract, order: seq<Slot>, i: nat)
    requires Ready(c, order) && OneToOne(ctx, c) && NeedsAdjudication(c, order, i)
    ensures Adjudicator(c, order, i).Some? && Serves(ctx, c, order, i, Adjudicator(c, order, i).value)
  {
    hide Agree, Paired, Settles, OneToOne, TruthAt;
    var s := order[i];
    ListingMember(c.works, order, i);
    NamedBy(ctx, c, s);
    var t := SettledSlot(ctx, c, AdjudicationFor(c, s).value);
    SameTruthSameSlot(c.works, order, s, t);
  }

  lemma SettlesNames(ctx: Context, c: Contract, s: Slot, a: Adjudication)
    requires ValidSlot(c.works, s) && Paired(c, s.w) && Settles(ctx, c, s, a)
    ensures a.truthId == TruthAt(c.works, s).id
  {
  }

  lemma EachUsed(ctx: Context, c: Contract, order: seq<Slot>, a: nat)
    requires Ready(c, order) && OneToOne(ctx, c) && a < |c.adjudications|
    ensures a in Used(c, order, |order|)
  {
    hide Agree, Paired, Settles, OneToOne, TruthAt, Used, Serves, Adjudicator;
    var t := SettledSlot(ctx, c, a);
    assert t in order;
    var i: nat :| i < |order| && order[i] == t;
    assert NeedsAdjudication(c, order, i);
    OneToOneSettles(ctx, c, order, i);
    var b := Adjudicator(c, order, i).value;
    ServedTruth(ctx, c, order, i, b);
    SingleName(ctx, c, a, b);
    UsedMembers(c, order, |order|, a);
  }

  lemma OneToOneMeansCounted(ctx: Context, c: Contract, order: seq<Slot>)
    requires Ready(c, order) && OneToOne(ctx, c)
    ensures CountedAdjudications(ctx, c, order)
  {
    hide Ready, NeedsAdjudication, Adjudicator, SettledBy, Used, OneToOne;
    assert AllPaired(c) by { PairsReady(c, order); }
    var used := Used(c, order, |order|);
    forall i: nat | i < |order| && NeedsAdjudication(c, order, i)
      ensures Adjudicator(c, order, i).Some? && SettledBy(ctx, c, order, i, Adjudicator(c, order, i).value)
    {
      OneToOneSettles(ctx, c, order, i);
    }
    UsedDistinct(c, order, |order|);
    forall a: nat | a < |c.adjudications|
      ensures a in used
    {
      EachUsed(ctx, c, order, a);
    }
    Pigeonhole(used, |c.adjudications|);
    AllApart(ctx, c);
    ReplayOfUsed(c, used);
  }

  lemma PairsReady(c: Contract, order: seq<Slot>)
    requires Ready(c, order)
    ensures AllPaired(c)
  {
    hide AllPaired, Listing;
  }

  lemma AllApart(ctx: Context, c: Contract)
    requires AllPaired(c) && OneToOne(ctx, c)
    ensures NoReplay(AdjudicationMarks(c.adjudications))
  {
    hide AllPaired, NoReplay;
  }

  lemma ReplayOfUsed(c: Contract, used: seq<nat>)
    requires NoReplay(AdjudicationMarks(c.adjudications)) && Distinct(used)
    requires forall i | 0 <= i < |used| :: used[i] < |c.adjudications|
    ensures NoReplay(UsedMarks(c, used))
  {
    var marks := UsedMarks(c, used);
    var all := AdjudicationMarks(c.adjudications);
    forall i, j | 0 <= i < j < |marks|
      ensures Apart(marks[i], marks[j])
    {
      assert marks[i] == all[used[i]] && marks[j] == all[used[j]] && used[i] != used[j];
      assert used[i] < used[j] || used[j] < used[i];
    }
  }

  /**
   Finding one adjudication for each disagreement, and counting as many adjudications as disagreements, is the same
   as a one-to-one correspondence: no record is missing, spare, or used for another truth unit.
   */
  lemma AdjudicationsByCounting(ctx: Context, c: Contract, order: seq<Slot>)
    requires Ready(c, order)
    ensures CountedAdjudications(ctx, c, order) <==> OneToOne(ctx, c)
  {
    hide AllPaired, Listing, CountedAdjudications, OneToOne;
    if CountedAdjudications(ctx, c, order) {
      CountedMeansOneToOne(ctx, c, order);
    }
    if OneToOne(ctx, c) {
      OneToOneMeansCounted(ctx, c, order);
    }
  }
}

/**
 Which candidates have identity factors that survive their own canonicalisation. The conditions are about the
 candidate: its version, and the four behavior fields that have a second name, at the top level and in the behavior
 configuration that the candidate gives.
 */
module CandidateSurvival {
  import opened Wrappers
  import opened Collections
  import opened CandidateFactors
  import opened CandidateFingerprint

  // ---------- what is asked, and the conditions ----------

  /** Canonicalising `f` gives `f`, whatever the order of its fields and of the behavior names. */
  ghost predicate Survives(p: Policies, f: map<Key, Value>) {
    forall again | Visits(f, again) :: FixedBy(p, f, again)
  }

  ghost predicate FixedBy(p: Policies, f: map<Key, Value>, o: Visit) {
    exists r :: IsRun(p, f, o, r) && r.factors == f
  }

  /** The version that is stored: the given one, then the outer `schema_version`, then the current one. */
  predicate CurrentVersion(p: Policies, c: map<Key, Value>) {
    p.text(VersionValue(p, c, Source(c))) == p.current
  }

  predicate IsAlias(a: Key) {
    BehaviorAlias(a) != a
  }

  /** `x` is visited before `y`. */
  predicate Before(order: seq<Key>, x: Key, y: Key) {
    order != [] &&
    var front, last := order[..|order| - 1], order[|order| - 1];
    if last == y then x in front else Before(front, x, y)
  }

  /** Both names of a field are given, with different values that merging accepts: both unset, or equal numbers. */
  predicate Twins(p: Policies, source: map<Key, Value>, a: Key) {
    var k := BehaviorAlias(a);
    a in source && k in source && source[a] != source[k] && (Unset(p, source[a]) <==> Unset(p, source[k]))
  }

  /** The given configuration does not settle which of two values of a field is kept. */
  predicate Undecided(p: Policies, c: map<Key, Value>, a: Key) {
    var source, given, k := Source(c), Configured(c), BehaviorAlias(a);
    Twins(p, source, a) && !(Unset(p, source[k]) && k in given && !Unset(p, given[k]))
  }

  /** The given configuration has the alias, and it is unset or comes after the field itself. */
  predicate AliasDecides(p: Policies, c: map<Key, Value>, config: seq<Key>, a: Key) {
    var given, k := Configured(c), BehaviorAlias(a);
    a in given && (Unset(p, given[a]) || (k in given && Before(config, k, a)))
  }

  function Later(p: Policies, v: Value, w: Value): Value {
    if Unset(p, w) && !Unset(p, v) then v else w
  }

  /** Of the values that two names of a field have: the last one, or the one that is set. */
  function Winner(p: Policies, source: map<Key, Value>, order: seq<Key>, a: Key): Value
    requires a in source || BehaviorAlias(a) in source
  {
    var k := BehaviorAlias(a);
    if a !in source then source[k]
    else if k !in source then source[a]
    else if Before(order, a, k) then Later(p, source[a], source[k]) else Later(p, source[k], source[a])
  }

  predicate Given(c: map<Key, Value>, a: Key) {
    a in Source(c) || BehaviorAlias(a) in Source(c)
  }

  /** The alias in the configuration says what the top level says, or the top level says nothing. */
  predicate AliasAgrees(p: Policies, c: map<Key, Value>, order: seq<Key>, a: Key)
    requires Given(c, a) && a in Configured(c)
  {
    var top := Winner(p, Source(c), order, a);
    top == Configured(c)[a] || (Unset(p, top) && !Unset(p, Configured(c)[a]))
  }

  /** The field with alias `a` is stored alike at the top level and in the behavior configuration. */
  predicate PairStable(p: Policies, c: map<Key, Value>, o: Visit, a: Key) {
    Given(c, a) ==>
      if AliasDecides(p, c, o.config, a) then AliasAgrees(p, c, o.order, a)
      else Undecided(p, c, a) ==> (Before(o.order, a, BehaviorAlias(a)) <==> Before(o.names, a, BehaviorAlias(a)))
  }

  /** The same, for every order in which the set of behavior names may be visited. */
  predicate PairSafe(p: Policies, c: map<Key, Value>, o: Visit, a: Key) {
    Given(c, a) ==>
      if AliasDecides(p, c, o.config, a) then AliasAgrees(p, c, o.order, a) else !Undecided(p, c, a)
  }

  // ---------- names ----------

  lemma AliasNames(a: Key)
    requires IsAlias(a)
    ensures var k := BehaviorAlias(a);
            && IsInput(k) && IsBehavior(k) && BehaviorAlias(k) == k && !k.Experiment? && !a.Experiment?
            && TopTarget(a) == Some(k) == TopTarget(k) && BehaviorTarget(a) == Some(k) == BehaviorTarget(k)
            && !k.Model? && !k.OcrProvider? && !a.Model? && !a.OcrProvider?
  {
  }

  lemma AliasInverse(a: Key, r: Key)
    requires IsAlias(a)
    ensures BehaviorAlias(r) == BehaviorAlias(a) ==> r == a || r == BehaviorAlias(a)
    ensures BehaviorAlias(r) != a
  {
  }

  lemma AliasFeeds(a: Key, r: Key)
    requires IsAlias(a)
    ensures TopTarget(r) == Some(BehaviorAlias(a)) ==> r == a || r == BehaviorAlias(a)
    ensures BehaviorTarget(r) == Some(BehaviorAlias(a)) ==> r == a || r == BehaviorAlias(a)
    ensures BehaviorAlias(r) == BehaviorAlias(a) ==> r == a || r == BehaviorAlias(a)
    ensures BehaviorTarget(r) != Some(a)
  {
    hide TopTarget, BehaviorTarget, BehaviorAlias, Alias, IsInput;
    AliasInverse(a, r);
    TargetIsInput(r);
    OtherField(a);
    BehaviorNamesTarget(r);
    if TopTarget(r) == Some(BehaviorAlias(a)) {
      AliasOfField(r);
    }
  }

  lemma AliasOfField(r: Key)
    requires Alias(r) != RequestedModel && Alias(r) != InferenceDataUsePolicy
    ensures Alias(r) == BehaviorAlias(r)
  {
    hide BehaviorAlias;
  }

  lemma BehaviorNamesTarget(r: Key)
    ensures BehaviorTarget(r).Some? ==> BehaviorTarget(r).value == BehaviorAlias(r)
  {
    hide BehaviorAlias, IsBehavior;
  }

  lemma OtherField(a: Key)
    requires IsAlias(a)
    ensures BehaviorAlias(a) != RequestedModel && BehaviorAlias(a) != InferenceDataUsePolicy
  {
  }

  /** The other name of a field, or the field itself. */
  function AliasOf(k: Key): Key {
    if k.GenerationSettings? then Generation
    else if k.RepairPolicy? then Repair
    else if k.NormalizationBehavior? then Normalization
    else if k.VisionSettings? then Vision
    else k
  }

  lemma AliasOfNames(k: Key)
    ensures AliasOf(k) != k ==> IsAlias(AliasOf(k)) && BehaviorAlias(AliasOf(k)) == k
    ensures AliasOf(k) == k ==> forall r | BehaviorTarget(r) == Some(k) || BehaviorAlias(r) == k :: r == k
    ensures AliasOf(k) == k && IsInput(k) && IsBehavior(k) ==> forall r | TopTarget(r) == Some(k) :: r == k
    ensures IsAlias(k) ==> AliasOf(BehaviorAlias(k)) == k
  {
  }

  // ---------- orders ----------

  lemma {:induction false} BeforeTotal(order: seq<Key>, x: Key, y: Key)
    requires Distinct(order) && x in order && y in order && x != y
    ensures Before(order, x, y) <==> !Before(order, y, x)
  {
    var front, last := order[..|order| - 1], order[|order| - 1];
    assert order == front + [last];
    if last == x {
      NeverBefore(front, x, y);
    } else if last == y {
      NeverBefore(front, y, x);
    } else {
      BeforeTotal(front, x, y);
    }
  }

  lemma {:induction false} NeverBefore(order: seq<Key>, x: Key, y: Key)
    requires x !in order
    ensures !Before(order, x, y)
  {
    if order != [] {
      assert order == order[..|order| - 1] + [order[|order| - 1]];
      NeverBefore(order[..|order| - 1], x, y);
    }
  }

  // ---------- values of a field with two names ----------

  lemma DistinctFront(order: seq<Key>)
    requires order != [] && Distinct(order)
    ensures Distinct(order[..|order| - 1]) && order[|order| - 1] !in order[..|order| - 1]
    ensures forall x :: x in order <==> x in order[..|order| - 1] || x == order[|order| - 1]
  {
    assert order == order[..|order| - 1] + [order[|order| - 1]];
  }

  lemma BeforeLast(order: seq<Key>, x: Key, y: Key)
    requires order != []
    ensures var front, last := order[..|order| - 1], order[|order| - 1];
            Before(order, x, y) <==> if last == y then x in front else Before(front, x, y)
  {
  }

  /** Nothing but `a` and `k` itself feeds `k`. */
  ghost predicate OnlyTwo(source: map<Key, Value>, target: Key -> Option<Key>, a: Key, k: Key) {
    forall r | r in source && target(r) == Some(k) :: r == a || r == k
  }

  /** The values of a field that both its names give. */
  lemma {:induction false} PairValues(source: map<Key, Value>, order: seq<Key>, target: Key -> Option<Key>, a: Key,
                                      k: Key)
    requires a != k && Distinct(order) && target(a) == Some(k) == target(k) && OnlyTwo(source, target, a, k)
    requires a in order && a in source && k in order && k in source
    ensures Values(source, order, target, k) ==
            if Before(order, a, k) then [source[a], source[k]] else [source[k], source[a]]
    decreases |order|
  {
    hide Values, Before, Distinct, OnlyTwo;
    var front, last := order[..|order| - 1], order[|order| - 1];
    InFront(order, a);
    InFront(order, k);
    BeforeLast(order, a, k);
    if last == a {
      NeverBefore(front, a, k);
      OneLeft(source, front, target, k, a, a, k);
      OneMore(source, order, target, k, source[k]);
    } else if last == k {
      OneLeft(source, front, target, a, k, a, k);
      OneMore(source, order, target, k, source[a]);
    } else {
      PairValues(source, front, target, a, k);
      NoMore(source, order, target, a, k);
    }
  }

  lemma OneMore(source: map<Key, Value>, order: seq<Key>, target: Key -> Option<Key>, k: Key, v: Value)
    requires order != [] && Values(source, order[..|order| - 1], target, k) == [v]
    requires order[|order| - 1] in source && target(order[|order| - 1]) == Some(k)
    ensures Values(source, order, target, k) == [v, source[order[|order| - 1]]]
  {
  }

  lemma NoMore(source: map<Key, Value>, order: seq<Key>, target: Key -> Option<Key>, a: Key, k: Key)
    requires order != [] && order[|order| - 1] != a && order[|order| - 1] != k && OnlyTwo(source, target, a, k)
    ensures Values(source, order, target, k) == Values(source, order[..|order| - 1], target, k)
  {
  }

  /** Of the two names of field `k` only `x` is visited. */
  lemma OneLeft(source: map<Key, Value>, order: seq<Key>, target: Key -> Option<Key>, x: Key, y: Key, a: Key, k: Key)
    requires Distinct(order) && y !in order && x in order && x in source && target(x) == Some(k)
    requires OnlyTwo(source, target, a, k) && ((x == a && y == k) || (x == k && y == a))
    ensures Values(source, order, target, k) == [source[x]]
  {
    hide Values, Distinct;
    OnlyValue(source, order, target, x, k);
  }

  lemma InFront(order: seq<Key>, x: Key)
    requires order != [] && Distinct(order)
    ensures Distinct(order[..|order| - 1])
    ensures x in order[..|order| - 1] <==> x in order && x != order[|order| - 1]
  {
    hide Distinct;
    DistinctFront(order);
  }

  lemma {:induction false} PairLatest(b: map<Key, Value>, fields: seq<Key>, a: Key)
    requires IsAlias(a) && Distinct(fields) && BehaviorAlias(a) in b
    requires forall r | r in fields :: r in b
    ensures var k := BehaviorAlias(a);
            Latest(b, fields, k) ==
            if k in fields && (a !in fields || Before(fields, a, k)) then Some(b[k])
            else if a in fields then Some(b[a]) else None
  {
    hide BehaviorAlias, Before, Distinct, Latest;
    AliasNames(a);
    LatestLast(b, fields, BehaviorAlias(a));
    if fields != [] {
      var k, front, last := BehaviorAlias(a), fields[..|fields| - 1], fields[|fields| - 1];
      DistinctFront(fields);
      BeforeLast(fields, a, k);
      PairLatest(b, front, a);
      AliasFeeds(a, last);
      if last == a {
        NeverBefore(front, a, k);
      }
    }
  }

  /** Merging after a first value. */
  lemma {:induction false} LaterMerged(p: Policies, v: Value, values: seq<Value>)
    requires Equality(p) && values != [] && Merged(p, [v] + values).Some?
    ensures Merged(p, values).Some? && Merged(p, [v] + values).value == Later(p, v, Merged(p, values).value)
  {
    var front, last := values[..|values| - 1], values[|values| - 1];
    assert values == front + [last];
    if front == [] {
      assert [v] + values == [v, last];
      MergedTwo(p, v, last);
      LaterMerge(p, v, last);
    } else {
      assert [v] + values == ([v] + front) + [last];
      MergedAppend(p, [v] + front, last);
      MergedAppend(p, front, last);
      LaterMerged(p, v, front);
      var known := Merged(p, front).value;
      LaterMerge(p, known, last);
      LaterMerge(p, Later(p, v, known), last);
    }
  }

  lemma LaterMerge(p: Policies, v: Value, w: Value)
    requires Equality(p)
    ensures Merge(p, v, w).Some? ==> Merge(p, v, w).value == Later(p, v, w)
    ensures Unset(p, v) || Unset(p, w) ==> Merge(p, v, w).Some?
  {
    if p.same(v, w) && Unset(p, w) {
      UnsetSame(p, v, w);
    }
  }

  /** What the names of a field say in some order, merged. */
  lemma PairMerged(p: Policies, source: map<Key, Value>, order: seq<Key>, target: Key -> Option<Key>, a: Key)
    requires IsAlias(a) && Equality(p) && Distinct(order)
    requires target(a) == Some(BehaviorAlias(a)) == target(BehaviorAlias(a))
    requires forall r | target(r) == Some(BehaviorAlias(a)) :: r == a || r == BehaviorAlias(a)
    requires forall x | x == a || x == BehaviorAlias(a) :: x in source ==> x in order
    ensures var values := Values(source, order, target, BehaviorAlias(a));
            && (values == [] <==> a !in source && BehaviorAlias(a) !in source)
            && (values != [] && Merged(p, values).Some? ==> Merged(p, values).value == Winner(p, source, order, a))
            && (forall v :: v in values <==> (a in source && v == source[a])
                                             || (BehaviorAlias(a) in source && v == source[BehaviorAlias(a)]))
  {
    hide Values, Merged, BehaviorAlias, Unset;
    var k := BehaviorAlias(a);
    if a in source && k in source {
      PairValues(source, order, target, a, k);
      var first := if Before(order, a, k) then source[a] else source[k];
      var last := if Before(order, a, k) then source[k] else source[a];
      assert Values(source, order, target, k) == [first, last];
      MergedTwo(p, first, last);
      LaterMerge(p, first, last);
    } else {
      var x := if a in source then a else k;
      OnlyValue(source, order, target, x, k);
      if x in source {
        MergedOne(p, source[x]);
      }
    }
  }

  // ---------- a field with two names in one run ----------

  lemma RunTop(p: Policies, c: map<Key, Value>, o: Visit, run: Run, a: Key)
    requires IsRun(p, c, o, run) && Visits(c, o) && Equality(p) && IsAlias(a)
    ensures BehaviorAlias(a) in run.top <==> Given(c, a)
    ensures Given(c, a) ==> run.top[BehaviorAlias(a)] == Winner(p, Source(c), o.order, a)
  {
    hide Polish, Factors, Admitted, BehaviorInit, WithDefaults, BehaviorOk, IsBehaviorOf, BehaviorAlias, IsMerge,
         TopTarget, Configured, BehaviorOrder, Source, Winner, Equality, Each, Before, Unset, IsAlias;
    PairTop(p, Source(c), o.order, run.top, a);
  }

  lemma PairTop(p: Policies, source: map<Key, Value>, order: seq<Key>, top: map<Key, Value>, a: Key)
    requires IsMerge(p, map[], source, order, TopTarget, top) && Each(order, source.Keys)
    requires Equality(p) && IsAlias(a)
    ensures BehaviorAlias(a) in top <==> a in source || BehaviorAlias(a) in source
    ensures BehaviorAlias(a) in top ==> top[BehaviorAlias(a)] == Winner(p, source, order, a)
  {
    hide BehaviorAlias, Values, Merged, TopTarget, Winner, Equality;
    var k := BehaviorAlias(a);
    AliasNames(a);
    forall r | TopTarget(r) == Some(k)
      ensures r == a || r == k
    {
      AliasFeeds(a, r);
    }
    PairMerged(p, source, order, TopTarget, a);
    assert HoldsMerge(p, AllValues(map[], source, order, TopTarget, k), top, k);
    assert AllValues(map[], source, order, TopTarget, k) == Values(source, order, TopTarget, k);
  }

  /** The values of the merged configuration of a field. */
  lemma PairBehavior(p: Policies, init: map<Key, Value>, source: map<Key, Value>, names: seq<Key>, a: Key)
    requires BehaviorOrder(names) && Equality(p) && IsAlias(a)
    ensures var k := BehaviorAlias(a);
            var values := AllValues(init, source, names, BehaviorTarget, k);
            && (values == [] <==> a !in source && k !in source && k !in init)
            && (forall v :: v in values <==> || (k in init && v == init[k]) || (a in source && v == source[a])
                                             || (k in source && v == source[k]))
            && ((a in source || k in source) && Merged(p, values).Some? ==>
                  Merged(p, values).value ==
                  if k in init then Later(p, init[k], Winner(p, source, names, a)) else Winner(p, source, names, a))
  {
    hide BehaviorAlias, Values, Merged, BehaviorTarget, Winner, Later, Equality;
    var k := BehaviorAlias(a);
    AliasNames(a);
    forall r | BehaviorTarget(r) == Some(k)
      ensures r == a || r == k
    {
      AliasFeeds(a, r);
    }
    PairMerged(p, source, names, BehaviorTarget, a);
    var given, values := Values(source, names, BehaviorTarget, k), AllValues(init, source, names, BehaviorTarget, k);
    if k in init {
      assert values == [init[k]] + given;
      if given != [] && Merged(p, values).Some? {
        LaterMerged(p, init[k], given);
      }
    } else {
      assert values == given;
    }
  }

  lemma RunMerged(p: Policies, c: map<Key, Value>, o: Visit, run: Run, a: Key)
    requires IsRun(p, c, o, run) && Visits(c, o) && Equality(p) && IsAlias(a) && Given(c, a)
    ensures BehaviorInit(run.top) == Some(Configured(c))
    ensures var k, winner := BehaviorAlias(a), Winner(p, Source(c), o.names, a);
            && k in run.merged
            && run.merged[k] == if k in Configured(c) then Later(p, Configured(c)[k], winner) else winner
    ensures a in run.merged <==> a in Configured(c)
    ensures a in run.merged ==> run.merged[a] == Configured(c)[a]
  {
    hide Polish, Factors, Admitted, BehaviorInit, WithDefaults, BehaviorOk, IsBehaviorOf, BehaviorAlias, Values, Merged,
         TopTarget, BehaviorTarget, Configured, BehaviorOrder, Source, Winner, Equality, Later, Each;
    var k, given := BehaviorAlias(a), Configured(c);
    GivenConfiguration(p, c, o.order, run.top);
    PairBehavior(p, given, Source(c), o.names, a);
    assert HoldsMerge(p, AllValues(given, Source(c), o.names, BehaviorTarget, k), run.merged, k);
    assert HoldsMerge(p, AllValues(given, Source(c), o.names, BehaviorTarget, a), run.merged, a);
    forall r
      ensures BehaviorTarget(r) != Some(a)
    {
      AliasFeeds(a, r);
    }
    NoValues(Source(c), o.names, BehaviorTarget, a);
    if a in given {
      MergedOne(p, given[a]);
      assert AllValues(given, Source(c), o.names, BehaviorTarget, a) == [given[a]];
    }
  }

  lemma PairNewest(b: map<Key, Value>, config: seq<Key>, a: Key)
    requires IsAlias(a) && Distinct(config) && BehaviorAlias(a) in b
    requires forall r | r in config :: r in b
    ensures var k := BehaviorAlias(a);
            Newest(b, config, k) == Some(if a in config && k in config && Before(config, k, a) then b[a] else b[k])
  {
    hide BehaviorAlias, Latest;
    var k := BehaviorAlias(a);
    AliasNames(a);
    PairLatest(b, config, a);
    if a in config && k in config {
      BeforeTotal(config, a, k);
    }
  }

  lemma RunCanonical(p: Policies, c: map<Key, Value>, o: Visit, run: Run, a: Key)
    requires IsRun(p, c, o, run) && Visits(c, o) && Equality(p) && IsAlias(a) && Given(c, a)
    ensures var k := BehaviorAlias(a);
            && k in run.canonical && k in run.merged
            && run.canonical[k] == if AliasDecides(p, c, o.config, a) then Configured(c)[a] else run.merged[k]
    ensures a in Configured(c) ==> p.same(Configured(c)[a], run.merged[BehaviorAlias(a)])
  {
    hide IsMerge, Polish, Factors, Admitted, BehaviorInit, WithDefaults, BehaviorAlias, Configured, BehaviorOrder,
         Source, Winner, Later, Newest, IsBehavior, Unset, Before, Equality, BehaviorOk, Given;
    var k, given, b := BehaviorAlias(a), Configured(c), WithDefaults(run.merged, run.top);
    RunMerged(p, c, o, run, a);
    DefaultsKeep(run.merged, run.top);
    BehaviorKeys(p, given, Source(c), o.names, run.merged, run.top, o.config);
    AliasNames(a);
    PairNewest(b, o.config, a);
    assert HoldsNewest(Newest(b, o.config, k), run.canonical, k);
    if a in given {
      AliasSame(p, b, a);
      if Unset(p, given[a]) {
        UnsetSame(p, given[a], run.merged[k]);
      }
    }
  }

  lemma AliasSame(p: Policies, b: map<Key, Value>, a: Key)
    requires BehaviorOk(p, b) && IsAlias(a) && a in b && BehaviorAlias(a) in b
    ensures p.same(b[a], b[BehaviorAlias(a)])
  {
    hide BehaviorAlias, IsBehavior;
    AliasNames(a);
  }

  // ---------- a field with one name in one run ----------

  lemma SingleRun(p: Policies, c: map<Key, Value>, o: Visit, run: Run, k: Key)
    requires IsRun(p, c, o, run) && Visits(c, o) && Equality(p)
    requires IsInput(k) && IsBehavior(k) && AliasOf(k) == k && k in run.top
    ensures k in run.merged && k in run.canonical && run.canonical[k] == run.merged[k]
    ensures run.merged[k] == if k in Configured(c) then Later(p, Configured(c)[k], run.top[k]) else run.top[k]
  {
    hide Polish, Factors, Admitted, BehaviorInit, BehaviorOk, BehaviorAlias, Values, Merged, TopTarget,
         BehaviorTarget, Configured, BehaviorOrder, Source, Equality, Later, Each, IsBehavior, IsInput, AliasOf,
         IsMerge, WithDefaults, Newest;
    var given, b := Configured(c), WithDefaults(run.merged, run.top);
    GivenConfiguration(p, c, o.order, run.top);
    AliasOfNames(k);
    InputNames(k);
    SingleMerged(p, given, Source(c), o, run.top, run.merged, k);
    DefaultsKeep(run.merged, run.top);
    BehaviorKeys(p, given, Source(c), o.names, run.merged, run.top, o.config);
    SingleNewest(b, o.config, k);
    assert HoldsNewest(Newest(b, o.config, k), run.canonical, k);
  }

  lemma SingleMerged(p: Policies, given: map<Key, Value>, source: map<Key, Value>, o: Visit, top: map<Key, Value>,
                     merged: map<Key, Value>, k: Key)
    requires IsMerge(p, map[], source, o.order, TopTarget, top) && Each(o.order, source.Keys) && BehaviorOrder(o.names)
    requires IsMerge(p, given, source, o.names, BehaviorTarget, merged) && Equality(p)
    requires TopTarget(k) == Some(k) == BehaviorTarget(k) && k in top
    requires forall r | TopTarget(r) == Some(k) || BehaviorTarget(r) == Some(k) :: r == k
    ensures k in merged && merged[k] == if k in given then Later(p, given[k], top[k]) else top[k]
  {
    hide Values, Merged, TopTarget, BehaviorTarget, Equality, Later;
    OwnTop(p, source, o.order, top, k);
    OnlyValue(source, o.names, BehaviorTarget, k, k);
    var values := AllValues(given, source, o.names, BehaviorTarget, k);
    assert HoldsMerge(p, values, merged, k);
    MergedOne(p, top[k]);
    if k in given {
      assert values == [given[k]] + [top[k]];
      LaterMerged(p, given[k], [top[k]]);
    } else {
      assert values == [top[k]];
    }
  }

  lemma SingleNewest(b: map<Key, Value>, config: seq<Key>, k: Key)
    requires k in b && BehaviorAlias(k) == k && !k.Experiment? && forall r | BehaviorAlias(r) == k :: r == k
    ensures Newest(b, config, k) == Some(b[k])
  {
    hide BehaviorAlias, Latest;
    if k in config {
      SingleLatest(b, config, k);
    }
  }

  lemma {:induction false} SingleLatest(b: map<Key, Value>, config: seq<Key>, k: Key)
    requires k in config && k in b && BehaviorAlias(k) == k && !k.Experiment?
    requires forall r | BehaviorAlias(r) == k :: r == k
    ensures Latest(b, config, k) == Some(b[k])
  {
    hide BehaviorAlias;
    var front, last := config[..|config| - 1], config[|config| - 1];
    assert config == front + [last];
    if last != k {
      SingleLatest(b, front, k);
    }
  }

  // ---------- agreement of the stored factors ----------

  lemma StoredField(p: Policies, c: map<Key, Value>, o: Visit, run: Run, k: Key)
    requires IsRun(p, c, o, run) && IsBehavior(k)
    ensures k in run.factors <==> k in run.top
    ensures k in run.factors ==> run.factors[k] == run.top[k]
  {
    hide IsRun, Polish, Factors, PolicyKey, IsBehavior;
    BehaviorNames(k);
    RunParts(p, c, o, run);
    FactorField(p, c, run.polished, k);
    PolishKeeps(p, run.top[BehaviorConfiguration := Object(run.canonical)]);
    OtherNames(k);
  }

  lemma OtherNames(k: Key)
    requires IsBehavior(k)
    ensures k != OcrAssetManifestSha256 && k != CandidateSpecVersion && k != BehaviorConfiguration
  {
  }

  /** A field with one name is always stored alike. */
  lemma SingleAgrees(p: Policies, c: map<Key, Value>, o: Visit, run: Run, k: Key)
    requires IsRun(p, c, o, run) && Visits(c, o) && Equality(p)
    requires k in run.factors && k in run.canonical && IsInput(k) && IsBehavior(k) && AliasOf(k) == k
    ensures AgreesAt(p, run.factors, run.canonical, k)
  {
    hide IsRun, Visits, Equality, IsInput, IsBehavior, AliasOf, Configured, Unset;
    StoredField(p, c, o, run, k);
    SingleRun(p, c, o, run, k);
  }

  /** Without twins, or if both orders agree, the winner is the same. */
  lemma WinnerSame(p: Policies, source: map<Key, Value>, order: seq<Key>, names: seq<Key>, a: Key)
    requires a in source || BehaviorAlias(a) in source
    ensures var v, w := Winner(p, source, order, a), Winner(p, source, names, a);
            v != w <==>
            Twins(p, source, a) && (Before(order, a, BehaviorAlias(a)) <==> !Before(names, a, BehaviorAlias(a)))
    ensures Unset(p, Winner(p, source, order, a)) <==> Unset(p, Winner(p, source, names, a))
    ensures Twins(p, source, a) ==> (Unset(p, Winner(p, source, order, a)) <==> Unset(p, source[BehaviorAlias(a)]))
  {
    hide BehaviorAlias, Before, Unset;
  }

  /** A field with two names is stored alike exactly on the stated condition. */
  lemma PairAgrees(p: Policies, c: map<Key, Value>, o: Visit, run: Run, a: Key)
    requires IsRun(p, c, o, run) && Visits(c, o) && Equality(p) && IsAlias(a)
    ensures var k := BehaviorAlias(a);
            && (k in run.factors <==> Given(c, a)) && (Given(c, a) ==> k in run.canonical)
            && (Given(c, a) ==> (AgreesAt(p, run.factors, run.canonical, k) <==> PairStable(p, c, o, a)))
  {
    hide IsRun, Visits, Equality, BehaviorAlias, Configured, Unset, Source, Winner, AliasDecides, Given, Before,
         Twins, Later, IsAlias;
    var k := BehaviorAlias(a);
    AliasIsBehavior(a);
    StoredField(p, c, o, run, k);
    RunTop(p, c, o, run, a);
    if Given(c, a) {
      RunMerged(p, c, o, run, a);
      RunCanonical(p, c, o, run, a);
      PairDecides(p, c, o, a);
      if AliasDecides(p, c, o.config, a) {
        DecidingAlias(p, c, o.config, a);
      }
    }
  }

  lemma AliasIsBehavior(a: Key)
    requires IsAlias(a)
    ensures IsBehavior(BehaviorAlias(a)) && IsInput(BehaviorAlias(a))
  {
    AliasNames(a);
  }

  lemma DecidingAlias(p: Policies, c: map<Key, Value>, config: seq<Key>, a: Key)
    requires AliasDecides(p, c, config, a)
    ensures a in Configured(c)
  {
  }

  /** What the merged configuration and the top level keep of a field, compared. */
  lemma PairDecides(p: Policies, c: map<Key, Value>, o: Visit, a: Key)
    requires Given(c, a)
    ensures var k, top, winner := BehaviorAlias(a), Winner(p, Source(c), o.order, a), Winner(p, Source(c), o.names, a);
            var known := if k in Configured(c) then Later(p, Configured(c)[k], winner) else winner;
            (top == known || (Unset(p, top) && !Unset(p, known))) <==>
            (Undecided(p, c, a) ==> (Before(o.order, a, k) <==> Before(o.names, a, k)))
  {
    hide BehaviorAlias, Configured, Unset, Source, Winner, Before, Twins;
    WinnerSame(p, Source(c), o.order, o.names, a);
    var k := BehaviorAlias(a);
    if Twins(p, Source(c), a) {
      TwinsGiven(p, Source(c), a);
    }
  }

  lemma TwinsGiven(p: Policies, source: map<Key, Value>, a: Key)
    requires Twins(p, source, a)
    ensures a in source && BehaviorAlias(a) in source && source[a] != source[BehaviorAlias(a)]
    ensures Unset(p, source[a]) <==> Unset(p, source[BehaviorAlias(a)])
  {
  }

  lemma AllAgree(p: Policies, c: map<Key, Value>, o: Visit, run: Run)
    requires IsRun(p, c, o, run) && Visits(c, o) && Equality(p) && Stable(p)
    ensures Agrees(p, run.factors, run.canonical) <==> forall a | IsAlias(a) :: PairStable(p, c, o, a)
  {
    hide IsRun, Equality, BehaviorAlias, PairStable, Each, AgreesAt, IsAlias, Given, AliasOf, Stored, BehaviorOrder,
         Stable;
    var f, b := run.factors, run.canonical;
    FactorsStored(p, c, o, run);
    forall a | IsAlias(a)
      ensures BehaviorAlias(a) in f && BehaviorAlias(a) in b ==>
                (AgreesAt(p, f, b, BehaviorAlias(a)) <==> PairStable(p, c, o, a))
      ensures (BehaviorAlias(a) in f && BehaviorAlias(a) in b) || PairStable(p, c, o, a)
    {
      PairAgrees(p, c, o, run, a);
      NotGivenStable(p, c, o, a);
    }
    forall k | k in f && k in b
      ensures AliasOf(k) == k ==> AgreesAt(p, f, b, k)
      ensures AliasOf(k) != k ==> IsAlias(AliasOf(k)) && BehaviorAlias(AliasOf(k)) == k
    {
      StoredNames(p, f, b, k);
      AliasOfNames(k);
      if AliasOf(k) == k {
        SingleAgrees(p, c, o, run, k);
      }
    }
  }

  lemma NotGivenStable(p: Policies, c: map<Key, Value>, o: Visit, a: Key)
    ensures !Given(c, a) ==> PairStable(p, c, o, a)
  {
  }

  lemma StoredNames(p: Policies, f: map<Key, Value>, b: map<Key, Value>, k: Key)
    requires Stored(p, f, b)
    ensures k in f ==> IsInput(k)
    ensures k in b ==> IsBehavior(k)
  {
  }

  // ---------- the version ----------

  lemma StoredVersion(p: Policies, c: map<Key, Value>, o: Visit, run: Run)
    requires IsRun(p, c, o, run) && Visits(c, o)
    ensures VersionStable(p, run.factors) <==> CurrentVersion(p, c)
  {
    hide IsMerge, Polish, Factors, BehaviorInit, WithDefaults, BehaviorOk, IsBehaviorOf, TopTarget, Admitted, Source,
         Configured, BehaviorOrder, Each;
    RunParts(p, c, o, run);
    PolishKeeps(p, run.top[BehaviorConfiguration := Object(run.canonical)]);
    FactorField(p, c, run.polished, CandidateSpecVersion);
    OnlyItself(CandidateSpecVersion);
    OwnTop(p, Source(c), o.order, run.top, CandidateSpecVersion);
  }

  // ---------- the theorems ----------

  lemma {:induction false} Enumerate(keys: set<Key>) returns (order: seq<Key>)
    ensures Each(order, keys)
    decreases keys
  {
    if keys == {} {
      order := [];
    } else {
      var k :| k in keys;
      var rest := Enumerate(keys - {k});
      order := rest + [k];
    }
  }

  lemma SomeVisit(f: map<Key, Value>, names: seq<Key>) returns (o: Visit)
    requires BehaviorOrder(names)
    ensures Visits(f, o)
  {
    var order := Enumerate(Source(f).Keys);
    var config := Enumerate(Configured(f).Keys);
    o := Visit(order, config, names);
  }

  /** Stored factors are accepted again exactly when the stored version is the current one. */
  lemma AcceptedAgain(p: Policies, c: map<Key, Value>, o: Visit, run: Run, again: Visit)
    requires Stable(p) && Equality(p) && IsRun(p, c, o, run) && Visits(c, o) && Visits(run.factors, again)
    ensures (exists r :: IsRun(p, run.factors, again, r)) <==> CurrentVersion(p, c)
  {
    hide IsRun, Stable, Equality, CurrentVersion, Each, BehaviorOrder;
    StoredAgain(p, c, o, run, again);
    StoredVersion(p, c, o, run);
  }

  /**
   The factors of an accepted candidate survive their own canonicalisation exactly when its version is the current
   one and the four fields with a second name are stored alike.
   */
  lemma CanonicalAgain(p: Policies, c: map<Key, Value>, o: Visit, run: Run)
    requires Stable(p) && Equality(p) && IsRun(p, c, o, run) && Visits(c, o)
    ensures Survives(p, run.factors) <==> CurrentVersion(p, c) && forall a | IsAlias(a) :: PairStable(p, c, o, a)
  {
    hide IsRun, Stable, Equality, CurrentVersion, Each, BehaviorOrder, PairStable, IsAlias, Agrees, VersionStable;
    var f := run.factors;
    AllAgree(p, c, o, run);
    StoredVersion(p, c, o, run);
    forall again | Visits(f, again)
      ensures FixedBy(p, f, again) <==> VersionStable(p, f) && Agrees(p, f, run.canonical)
    {
      StoredAgain(p, c, o, run, again);
    }
    var some := SomeVisit(f, o.names);
  }
}

/**
 The set of behavior names is visited in an order that nobody chooses. When the identity factors of a candidate depend
 on it, and when they survive their own canonicalisation whatever it is.
 */
module CandidateOrders {
  import opened Wrappers
  import opened Collections
  import opened CandidateFactors
  import opened CandidateFingerprint
  import opened CandidateSurvival

  // ---------- moving one name ----------

  function Without(order: seq<Key>, a: Key): seq<Key> {
    if order == [] then []
    else Without(order[..|order| - 1], a) + if order[|order| - 1] == a then [] else [order[|order| - 1]]
  }

  lemma {:induction false} WithoutMembers(order: seq<Key>, a: Key)
    requires Distinct(order)
    ensures forall x :: x in Without(order, a) <==> x in order && x != a
    ensures Distinct(Without(order, a))
  {
    hide Distinct;
    if order == [] {
      assert Distinct(Without(order, a)) by { NothingDistinct(); }
    } else {
      var front, last := order[..|order| - 1], order[|order| - 1];
      DistinctFront(order);
      WithoutMembers(front, a);
      if last == a {
        assert Without(order, a) == Without(front, a);
      } else {
        DistinctMore(Without(front, a), last);
      }
    }
  }

  lemma NothingDistinct()
    ensures Distinct<Key>([])
  {
  }

  lemma DistinctMore(order: seq<Key>, x: Key)
    requires Distinct(order) && x !in order
    ensures Distinct(order + [x]) && Distinct([x] + order)
  {
  }

  lemma WithoutLast(order: seq<Key>, a: Key)
    requires order != []
    ensures var front, last := order[..|order| - 1], order[|order| - 1];
            Without(order, a) == if last == a then Without(front, a) else Without(front, a) + [last]
  {
  }

  lemma {:induction false} WithoutBefore(order: seq<Key>, a: Key, x: Key, y: Key)
    requires Distinct(order) && x != a && y != a
    ensures Before(Without(order, a), x, y) <==> Before(order, x, y)
  {
    hide Distinct, Without, Before;
    if order == [] {
      assert Without([], a) == [] by { WithoutNothing(a); }
    } else {
      var front, last := order[..|order| - 1], order[|order| - 1];
      DistinctFront(order);
      WithoutBefore(front, a, x, y);
      WithoutMembers(front, a);
      WithoutLast(order, a);
      BeforeLast(order, x, y);
      var rest := Without(order, a);
      if last != a {
        assert rest[..|rest| - 1] == Without(front, a);
        BeforeLast(rest, x, y);
      }
    }
  }

  lemma WithoutNothing(a: Key)
    ensures Without([], a) == []
  {
  }

  lemma {:induction false} AfterFirst(order: seq<Key>, a: Key, x: Key, y: Key)
    requires y != a
    ensures Before([a] + order, x, y) <==> if x == a then y in order else Before(order, x, y)
  {
    var longer := [a] + order;
    if order == [] {
      assert longer[..|longer| - 1] == [];
    } else {
      var front, last := order[..|order| - 1], order[|order| - 1];
      assert longer[..|longer| - 1] == [a] + front;
      assert order == front + [last];
      AfterFirst(front, a, x, y);
    }
  }

  lemma BeforeEnd(order: seq<Key>, a: Key, x: Key, y: Key)
    requires y != a
    ensures Before(order + [a], x, y) <==> Before(order, x, y)
  {
    assert (order + [a])[..|order|] == order;
  }

  /** The names with `a` moved to one end. */
  function Moved(names: seq<Key>, a: Key, first: bool): seq<Key> {
    if first then [a] + Without(names, a) else Without(names, a) + [a]
  }

  lemma MovedOrder(names: seq<Key>, a: Key, first: bool)
    requires BehaviorOrder(names) && BehaviorTarget(a).Some?
    ensures BehaviorOrder(Moved(names, a, first))
  {
    hide BehaviorTarget;
    WithoutMembers(names, a);
    DistinctMore(Without(names, a), a);
  }

  lemma MovedBefore(names: seq<Key>, a: Key, first: bool, x: Key, y: Key)
    requires BehaviorOrder(names) && y != a && y in names
    ensures Before(Moved(names, a, first), x, y) <==> if x == a then first else Before(names, x, y)
  {
    hide BehaviorTarget;
    WithoutMembers(names, a);
    AfterFirst(Without(names, a), a, x, y);
    BeforeEnd(Without(names, a), a, x, y);
    if x == a {
      NeverBefore(Without(names, a), a, y);
    } else {
      WithoutBefore(names, a, x, y);
    }
  }

  // ---------- what does not depend on the order of the names ----------

  /** The two orders visit the names of field `k` alike, or it does not matter for `source`. */
  ghost predicate Alike(source: map<Key, Value>, names: seq<Key>, other: seq<Key>, k: Key) {
    var a := AliasOf(k);
    a != k && a in source && k in source ==> (Before(names, a, k) <==> Before(other, a, k))
  }

  lemma SameNamedValues(source: map<Key, Value>, names: seq<Key>, other: seq<Key>, k: Key)
    requires BehaviorOrder(names) && BehaviorOrder(other) && Alike(source, names, other, k)
    ensures Values(source, names, BehaviorTarget, k) == Values(source, other, BehaviorTarget, k)
  {
    hide Values, AliasOf, BehaviorTarget, BehaviorAlias, Before;
    var a := AliasOf(k);
    AliasOfNames(k);
    if a == k {
      OnlyValue(source, names, BehaviorTarget, k, k);
      OnlyValue(source, other, BehaviorTarget, k, k);
    } else {
      AliasNames(a);
      forall r | BehaviorTarget(r) == Some(k)
        ensures r == a || r == k
      {
        AliasFeeds(a, r);
      }
      if a in source && k in source {
        PairValues(source, names, BehaviorTarget, a, k);
        PairValues(source, other, BehaviorTarget, a, k);
      } else {
        var x := if a in source then a else k;
        OnlyValue(source, names, BehaviorTarget, x, k);
        OnlyValue(source, other, BehaviorTarget, x, k);
      }
    }
  }

  lemma SameMerged(p: Policies, init: map<Key, Value>, source: map<Key, Value>, names: seq<Key>, other: seq<Key>,
                   m: map<Key, Value>, n: map<Key, Value>, k: Key)
    requires BehaviorOrder(names) && BehaviorOrder(other) && Alike(source, names, other, k)
    requires IsMerge(p, init, source, names, BehaviorTarget, m) && IsMerge(p, init, source, other, BehaviorTarget, n)
    ensures k in m <==> k in n
    ensures k in m ==> m[k] == n[k]
  {
    hide Values, Merged, Alike, BehaviorOrder;
    SameNamedValues(source, names, other, k);
    assert HoldsMerge(p, AllValues(init, source, names, BehaviorTarget, k), m, k);
    assert HoldsMerge(p, AllValues(init, source, other, BehaviorTarget, k), n, k);
  }

  /** `a` and `b` agree on all names of field `k`. */
  ghost predicate AgreeOn(a: map<Key, Value>, b: map<Key, Value>, k: Key) {
    forall r | BehaviorAlias(r) == k :: (r in a <==> r in b) && (r in a ==> a[r] == b[r])
  }

  lemma {:induction false} SameLatest(a: map<Key, Value>, b: map<Key, Value>, fields: seq<Key>, k: Key)
    requires AgreeOn(a, b, k)
    ensures Latest(a, fields, k) == Latest(b, fields, k)
  {
    hide BehaviorAlias;
    if fields != [] {
      SameLatest(a, b, fields[..|fields| - 1], k);
    }
  }

  lemma SameNewest(a: map<Key, Value>, b: map<Key, Value>, config: seq<Key>, k: Key)
    requires AgreeOn(a, b, k)
    ensures Newest(a, config, k) == Newest(b, config, k)
  {
    hide BehaviorAlias, Latest;
    SameLatest(a, b, config, k);
  }

  // ---------- another order of the names ----------

  lemma UndecidedTwins(p: Policies, c: map<Key, Value>, a: Key)
    requires Undecided(p, c, a)
    ensures Twins(p, Source(c), a) && Given(c, a)
    ensures var k := BehaviorAlias(a);
            a in Source(c) && k in Source(c)
            && !(Unset(p, Source(c)[k]) && k in Configured(c) && !Unset(p, Configured(c)[k]))
  {
    hide Configured, Unset, Source, BehaviorAlias;
  }

  /** An undecided field has the value that the order of the names picks. */
  lemma UndecidedMerged(p: Policies, c: map<Key, Value>, names: seq<Key>, a: Key)
    requires Undecided(p, c, a)
    ensures var k, winner := BehaviorAlias(a), Winner(p, Source(c), names, a);
            (if k in Configured(c) then Later(p, Configured(c)[k], winner) else winner) == winner
  {
    hide Configured, Unset, Source, BehaviorAlias, Before;
  }

  lemma OtherMerged(p: Policies, c: map<Key, Value>, names: seq<Key>, other: seq<Key>, merged: map<Key, Value>, a: Key)
    requires Equality(p) && IsAlias(a) && Undecided(p, c, a) && BehaviorOrder(names) && BehaviorOrder(other)
    requires IsMerge(p, Configured(c), Source(c), names, BehaviorTarget, merged)
    requires forall k | k != BehaviorAlias(a) :: Alike(Source(c), names, other, k)
    ensures IsMerge(p, Configured(c), Source(c), other, BehaviorTarget,
                    merged[BehaviorAlias(a) := Winner(p, Source(c), other, a)])
  {
    hide BehaviorAlias, Values, Merged, BehaviorTarget, Winner, Equality, Configured, Source, Alike, BehaviorOrder,
         Undecided, IsAlias;
    var field, init, source := BehaviorAlias(a), Configured(c), Source(c);
    UndecidedTwins(p, c, a);
    var updated := merged[field := Winner(p, source, other, a)];
    forall k
      ensures HoldsMerge(p, AllValues(init, source, other, BehaviorTarget, k), updated, k)
    {
      var before := AllValues(init, source, names, BehaviorTarget, k);
      assert HoldsMerge(p, before, merged, k);
      if k == field {
        OtherWinner(p, c, names, other, a);
      } else {
        SameNamedValues(source, names, other, k);
      }
    }
  }

  lemma OtherWinner(p: Policies, c: map<Key, Value>, names: seq<Key>, other: seq<Key>, a: Key)
    requires Equality(p) && IsAlias(a) && Undecided(p, c, a) && BehaviorOrder(names) && BehaviorOrder(other)
    requires var before := AllValues(Configured(c), Source(c), names, BehaviorTarget, BehaviorAlias(a));
             before != [] ==> Merged(p, before).Some?
    ensures var after := AllValues(Configured(c), Source(c), other, BehaviorTarget, BehaviorAlias(a));
            after != [] && Merged(p, after) == Some(Winner(p, Source(c), other, a))
  {
    hide BehaviorAlias, AllValues, Merged, BehaviorTarget, Winner, Equality, Configured, Source, BehaviorOrder,
         Undecided, IsAlias, Unset, Later;
    UndecidedTwins(p, c, a);
    UndecidedMerged(p, c, other, a);
    var before := AllValues(Configured(c), Source(c), names, BehaviorTarget, BehaviorAlias(a));
    var after := AllValues(Configured(c), Source(c), other, BehaviorTarget, BehaviorAlias(a));
    PairBehavior(p, Configured(c), Source(c), names, a);
    PairBehavior(p, Configured(c), Source(c), other, a);
    MergedMeaning(p, before);
    MergedMeaning(p, after);
  }

  lemma PolishWith(p: Policies, top: map<Key, Value>, v: Value, w: Value)
    requires Polish(p, top[BehaviorConfiguration := v]).Some?
    ensures Polish(p, top[BehaviorConfiguration := w]).Some?
  {
  }

  /** The behavior configuration with another value of an undecided field is as acceptable. */
  lemma OtherBehavior(p: Policies, c: map<Key, Value>, o: Visit, run: Run, a: Key, winner: Value)
    requires Equality(p) && IsAlias(a) && IsRun(p, c, o, run) && Visits(c, o)
    requires Undecided(p, c, a) && !AliasDecides(p, c, o.config, a)
    requires winner == Source(c)[a] || winner == Source(c)[BehaviorAlias(a)]
    ensures var k, b := BehaviorAlias(a), WithDefaults(run.merged, run.top);
            && WithDefaults(run.merged[k := winner], run.top) == b[k := winner]
            && BehaviorOk(p, b[k := winner])
            && IsBehaviorOf(b[k := winner], o.config, run.canonical[k := winner])
  {
    hide IsMerge, Polish, Factors, Admitted, BehaviorInit, BehaviorAlias, Configured, BehaviorOrder, Source, Winner,
         Later, Newest, IsBehavior, Unset, Before, Equality, Undecided, AliasDecides, BehaviorOk, WithDefaults;
    var k, b := BehaviorAlias(a), WithDefaults(run.merged, run.top);
    UndecidedTwins(p, c, a);
    RunMerged(p, c, o, run, a);
    AliasNames(a);
    DefaultsKeep(run.merged, run.top);
    BehaviorKeys(p, Configured(c), Source(c), o.names, run.merged, run.top, o.config);
    DefaultsWith(run.merged, run.top, k, winner);
    if a in b {
      AliasAccepts(p, c, o, run, a, winner);
    }
    OtherAccepted(p, b, a, winner);
    OrderDecides(p, c, o.config, a);
    OtherNewest(b, o.config, run.canonical, a, winner);
  }

  lemma OtherNewest(b: map<Key, Value>, config: seq<Key>, canonical: map<Key, Value>, a: Key, v: Value)
    requires IsAlias(a) && Distinct(config) && BehaviorAlias(a) in b && forall r | r in config :: r in b
    requires a in config && BehaviorAlias(a) in config ==> !Before(config, BehaviorAlias(a), a)
    requires IsBehaviorOf(b, config, canonical)
    ensures IsBehaviorOf(b[BehaviorAlias(a) := v], config, canonical[BehaviorAlias(a) := v])
  {
    hide Newest, BehaviorAlias, Before, IsAlias;
    var k, after := BehaviorAlias(a), b[BehaviorAlias(a) := v];
    PairNewest(after, config, a);
    AliasCanonical(a);
    forall j
      ensures HoldsNewest(Newest(after, config, j), canonical[k := v], j)
    {
      assert HoldsNewest(Newest(b, config, j), canonical, j);
      if j != k {
        SameNewest(b, after, config, j);
      }
    }
  }

  lemma OrderDecides(p: Policies, c: map<Key, Value>, config: seq<Key>, a: Key)
    requires !AliasDecides(p, c, config, a)
    ensures a in Configured(c) && BehaviorAlias(a) in Configured(c) ==> !Before(config, BehaviorAlias(a), a)
    ensures a in Configured(c) ==> !Unset(p, Configured(c)[a])
  {
    hide Configured, BehaviorAlias, Before, Unset;
  }

  lemma DefaultsWith(merged: map<Key, Value>, top: map<Key, Value>, k: Key, v: Value)
    requires !k.Model? && !k.OcrProvider? && k in merged
    ensures WithDefaults(merged[k := v], top) == WithDefaults(merged, top)[k := v]
  {
  }

  lemma OtherAccepted(p: Policies, b: map<Key, Value>, a: Key, v: Value)
    requires Equality(p) && IsAlias(a) && BehaviorOk(p, b) && (a in b ==> p.same(b[a], v))
    ensures BehaviorOk(p, b[BehaviorAlias(a) := v])
  {
    hide BehaviorAlias, IsBehavior, IsAlias, Equality;
    var k := BehaviorAlias(a);
    var after := b[k := v];
    AliasIsBehavior(a);
    AliasCanonical(a);
    forall r, s | r in after && s in after && !r.Experiment? && !s.Experiment? && BehaviorAlias(r) == BehaviorAlias(s)
      ensures p.same(after[r], after[s])
    {
      if BehaviorAlias(r) == k {
        OtherSame(p, b, a, v, r, s);
      }
    }
  }

  lemma OtherSame(p: Policies, b: map<Key, Value>, a: Key, v: Value, r: Key, s: Key)
    requires Equality(p) && IsAlias(a) && (a in b ==> p.same(b[a], v))
    requires BehaviorAlias(r) == BehaviorAlias(a) == BehaviorAlias(s)
    requires r in b[BehaviorAlias(a) := v] && s in b[BehaviorAlias(a) := v]
    ensures p.same(b[BehaviorAlias(a) := v][r], b[BehaviorAlias(a) := v][s])
  {
    hide BehaviorAlias, Equality, IsAlias;
    AliasFeeds(a, r);
    AliasFeeds(a, s);
    AliasCanonical(a);
    SamePair(p, b, a, BehaviorAlias(a), v, r, s);
  }

  lemma SamePair(p: Policies, b: map<Key, Value>, a: Key, k: Key, v: Value, r: Key, s: Key)
    requires Equality(p) && a != k && (a in b ==> p.same(b[a], v))
    requires r in b[k := v] && s in b[k := v] && (r == a || r == k) && (s == a || s == k)
    ensures p.same(b[k := v][r], b[k := v][s])
  {
    hide Equality;
    SameBoth(p, v, v);
    if a in b {
      SameBoth(p, b[a], v);
    }
  }

  lemma AliasCanonical(a: Key)
    requires IsAlias(a)
    ensures BehaviorAlias(BehaviorAlias(a)) == BehaviorAlias(a) && BehaviorAlias(a) != a
  {
    AliasNames(a);
  }

  lemma SameBoth(p: Policies, v: Value, w: Value)
    requires Equality(p)
    ensures p.same(v, v) && p.same(w, w) && (p.same(v, w) <==> p.same(w, v))
  {
  }

  /** An alias of the given configuration that does not decide has a value equal to both of the twins. */
  lemma AliasAccepts(p: Policies, c: map<Key, Value>, o: Visit, run: Run, a: Key, winner: Value)
    requires Equality(p) && IsAlias(a) && IsRun(p, c, o, run) && Visits(c, o) && a in Configured(c)
    requires Undecided(p, c, a) && !AliasDecides(p, c, o.config, a)
    requires winner == Source(c)[a] || winner == Source(c)[BehaviorAlias(a)]
    ensures p.same(Configured(c)[a], winner)
  {
    hide IsRun, BehaviorAlias, Configured, BehaviorOrder, Source, Winner, Later, Unset, Before, Undecided,
         AliasDecides, IsAlias, Each, Twins;
    UndecidedTwins(p, c, a);
    UndecidedMerged(p, c, o.names, a);
    RunMerged(p, c, o, run, a);
    RunCanonical(p, c, o, run, a);
    OrderDecides(p, c, o.config, a);
    WinnerOne(p, Source(c), o.names, a);
    TwinsGiven(p, Source(c), a);
    var kept := Winner(p, Source(c), o.names, a);
    if Unset(p, kept) {
      UnsetSame(p, Configured(c)[a], kept);
      assert false;
    }
    RunTwins(p, c, o, run, a);
  }

  lemma WinnerOne(p: Policies, source: map<Key, Value>, names: seq<Key>, a: Key)
    requires a in source && BehaviorAlias(a) in source
    ensures Winner(p, source, names, a) == source[a] || Winner(p, source, names, a) == source[BehaviorAlias(a)]
  {
  }

  lemma RunTwins(p: Policies, c: map<Key, Value>, o: Visit, run: Run, a: Key)
    requires Equality(p) && IsAlias(a) && IsRun(p, c, o, run) && Visits(c, o)
    requires a in Source(c) && BehaviorAlias(a) in Source(c)
    requires !Unset(p, Source(c)[a]) && !Unset(p, Source(c)[BehaviorAlias(a)])
    ensures p.same(Source(c)[a], Source(c)[BehaviorAlias(a)]) && p.same(Source(c)[BehaviorAlias(a)], Source(c)[a])
  {
    hide Polish, Factors, Admitted, BehaviorInit, WithDefaults, BehaviorOk, IsBehaviorOf, BehaviorAlias, AllValues,
         Merged, TopTarget, BehaviorTarget, Configured, BehaviorOrder, Source, Winner, Equality, Later, Each, Unset;
    var k := BehaviorAlias(a);
    GivenConfiguration(p, c, o.order, run.top);
    var values := AllValues(Configured(c), Source(c), o.names, BehaviorTarget, k);
    PairBehavior(p, Configured(c), Source(c), o.names, a);
    assert HoldsMerge(p, values, run.merged, k);
    MergedMeaning(p, values);
  }

  /** The run with another value of field `k` in the behavior configuration. */
  function Replaced(p: Policies, c: map<Key, Value>, run: Run, k: Key, v: Value): Run
    requires Polish(p, run.top[BehaviorConfiguration := Object(run.canonical[k := v])]).Some?
  {
    var polished := Polish(p, run.top[BehaviorConfiguration := Object(run.canonical[k := v])]).value;
    Run(run.top, run.merged[k := v], run.canonical[k := v], polished, Factors(p, c, polished))
  }

  lemma RunPolishes(p: Policies, c: map<Key, Value>, o: Visit, run: Run, k: Key, v: Value)
    requires IsRun(p, c, o, run)
    ensures Polish(p, run.top[BehaviorConfiguration := Object(run.canonical[k := v])]).Some?
  {
    hide IsRun, Polish, Factors;
    RunParts(p, c, o, run);
    PolishWith(p, run.top, Object(run.canonical), Object(run.canonical[k := v]));
  }

  lemma ReplacedRun(p: Policies, c: map<Key, Value>, o: Visit, run: Run, a: Key, names: seq<Key>, winner: Value)
    requires Equality(p) && IsAlias(a) && IsRun(p, c, o, run) && Visits(c, o) && BehaviorOrder(names)
    requires Undecided(p, c, a) && !AliasDecides(p, c, o.config, a)
    requires Given(c, a) && winner == Winner(p, Source(c), names, a)
    requires forall k | k != BehaviorAlias(a) :: Alike(Source(c), o.names, names, k)
    requires Polish(p, run.top[BehaviorConfiguration := Object(run.canonical[BehaviorAlias(a) := winner])]).Some?
    ensures IsRun(p, c, o.(names := names), Replaced(p, c, run, BehaviorAlias(a), winner))
  {
    hide IsMerge, BehaviorAlias, BehaviorOrder, Configured, Source, Winner, Undecided, AliasDecides, IsAlias, Polish,
         Factors, Admitted, BehaviorInit, WithDefaults, BehaviorOk, IsBehaviorOf, Alike, Equality, Each;
    UndecidedTwins(p, c, a);
    WinnerOne(p, Source(c), names, a);
    GivenConfiguration(p, c, o.order, run.top);
    OtherMerged(p, c, o.names, names, run.merged, a);
    OtherBehavior(p, c, o, run, a, winner);
  }

  /** Moving the alias of an undecided field gives another accepted run, with the other value of the field. */
  lemma OtherRun(p: Policies, c: map<Key, Value>, o: Visit, run: Run, a: Key) returns (names: seq<Key>, other: Run)
    requires Equality(p) && IsAlias(a) && IsRun(p, c, o, run) && Visits(c, o)
    requires Undecided(p, c, a) && !AliasDecides(p, c, o.config, a)
    ensures BehaviorOrder(names) && IsRun(p, c, o.(names := names), other)
    ensures Before(names, a, BehaviorAlias(a)) <==> !Before(o.names, a, BehaviorAlias(a))
    ensures BehaviorAlias(a) in run.canonical && BehaviorAlias(a) in other.canonical
    ensures other.canonical[BehaviorAlias(a)] != run.canonical[BehaviorAlias(a)]
  {
    hide IsRun, BehaviorAlias, BehaviorOrder, Configured, Source, Winner, Undecided, AliasDecides, IsAlias, Polish,
         Factors, Before, Later, Alike, Twins, Equality, Each, Moved;
    var k := BehaviorAlias(a);
    names := Moved(o.names, a, !Before(o.names, a, k));
    OtherOrder(Source(c), o.names, a);
    UndecidedTwins(p, c, a);
    WinnerSame(p, Source(c), o.names, names, a);
    var winner := Winner(p, Source(c), names, a);
    RunPolishes(p, c, o, run, k, winner);
    ReplacedRun(p, c, o, run, a, names, winner);
    other := Replaced(p, c, run, k, winner);
    RunMerged(p, c, o, run, a);
    RunCanonical(p, c, o, run, a);
    UndecidedMerged(p, c, o.names, a);
  }

  lemma OtherOrder(source: map<Key, Value>, names: seq<Key>, a: Key)
    requires IsAlias(a) && BehaviorOrder(names)
    ensures var k := BehaviorAlias(a);
            var other := Moved(names, a, !Before(names, a, k));
            && BehaviorOrder(other) && (Before(other, a, k) <==> !Before(names, a, k))
            && forall j | j != k :: Alike(source, names, other, j)
  {
    hide BehaviorAlias, Before, Moved, AliasOf, BehaviorTarget, IsAlias;
    var k := BehaviorAlias(a);
    var first := !Before(names, a, k);
    AliasTargets(a);
    MovedOrder(names, a, first);
    MovedBefore(names, a, first, a, k);
    forall j | j != k
      ensures Alike(source, names, Moved(names, a, first), j)
    {
      AliasOfNames(j);
      if AliasOf(j) != j {
        AliasTargets(AliasOf(j));
        OneAliasOf(a, AliasOf(j));
        MovedBefore(names, a, first, AliasOf(j), j);
      }
    }
  }

  lemma AliasTargets(a: Key)
    requires IsAlias(a)
    ensures BehaviorTarget(a).Some? && BehaviorTarget(BehaviorAlias(a)).Some? && BehaviorAlias(a) != a
  {
    AliasNames(a);
  }

  lemma OneAliasOf(a: Key, b: Key)
    requires IsAlias(a) && IsAlias(b) && BehaviorAlias(a) != BehaviorAlias(b)
    ensures a != b && BehaviorAlias(b) != a
  {
    AliasNames(b);
  }

  // ---------- the theorems ----------

  /** The configuration settles every field with a second name, so that the order of the names does not matter. */
  ghost predicate Settled(p: Policies, c: map<Key, Value>, config: seq<Key>) {
    forall a | IsAlias(a) :: AliasDecides(p, c, config, a) || !Undecided(p, c, a)
  }

  /** In every order of the names the canonical configuration has the same value of a settled field. */
  lemma SettledField(p: Policies, c: map<Key, Value>, o: Visit, names: seq<Key>, run: Run, other: Run, a: Key)
    requires Equality(p) && IsAlias(a) && Visits(c, o) && BehaviorOrder(names)
    requires IsRun(p, c, o, run) && IsRun(p, c, o.(names := names), other)
    requires AliasDecides(p, c, o.config, a) || !Undecided(p, c, a)
    requires Given(c, a)
    ensures var k := BehaviorAlias(a);
            k in run.canonical && k in other.canonical && run.canonical[k] == other.canonical[k]
  {
    hide IsRun, BehaviorAlias, Configured, Source, Winner, Later, Unset, Before, AliasDecides, IsAlias, Each,
         BehaviorOrder, Twins, Undecided;
    RunMerged(p, c, o, run, a);
    RunMerged(p, c, o.(names := names), other, a);
    RunCanonical(p, c, o, run, a);
    RunCanonical(p, c, o.(names := names), other, a);
    WinnerSame(p, Source(c), o.names, names, a);
    if !Undecided(p, c, a) {
      DecidedWinner(p, c, o.names, names, a);
    }
  }

  lemma DecidedWinner(p: Policies, c: map<Key, Value>, names: seq<Key>, other: seq<Key>, a: Key)
    requires !Undecided(p, c, a) && Given(c, a)
    ensures var k, v, w := BehaviorAlias(a), Winner(p, Source(c), names, a), Winner(p, Source(c), other, a);
            v == w || (k in Configured(c) && Later(p, Configured(c)[k], v) == Later(p, Configured(c)[k], w))
  {
    hide BehaviorAlias, Configured, Source, Winner, Before, Twins, Unset;
    WinnerSame(p, Source(c), names, other, a);
  }

  lemma SettledCanonical(p: Policies, c: map<Key, Value>, o: Visit, names: seq<Key>, run: Run, other: Run)
    requires Equality(p) && Visits(c, o) && BehaviorOrder(names)
    requires IsRun(p, c, o, run) && IsRun(p, c, o.(names := names), other) && Settled(p, c, o.config)
    ensures run == other || (run.top == other.top && run.canonical == other.canonical)
  {
    hide IsMerge, BehaviorAlias, Configured, Source, Undecided, AliasDecides, IsAlias, Polish, Factors, Admitted,
         BehaviorInit, WithDefaults, BehaviorOk, Before, Each, Equality, BehaviorOrder, AliasOf, Newest;
    MergeUnique(p, map[], Source(c), o.order, TopTarget, run.top, other.top);
    GivenConfiguration(p, c, o.order, run.top);
    var b, d := WithDefaults(run.merged, run.top), WithDefaults(other.merged, run.top);
    forall k
      ensures k in run.canonical <==> k in other.canonical
      ensures k in run.canonical ==> run.canonical[k] == other.canonical[k]
    {
      assert HoldsNewest(Newest(b, o.config, k), run.canonical, k);
      assert HoldsNewest(Newest(d, o.config, k), other.canonical, k);
      AliasOfNames(k);
      var a := AliasOf(k);
      if a != k && Given(c, a) {
        SettledField(p, c, o, names, run, other, a);
      } else {
        SameElsewhere(p, Configured(c), Source(c), o.names, names, run.merged, other.merged, run.top, k);
        SameNewest(b, d, o.config, k);
      }
    }
  }

  lemma SameElsewhere(p: Policies, init: map<Key, Value>, source: map<Key, Value>, names: seq<Key>, other: seq<Key>,
                      m: map<Key, Value>, n: map<Key, Value>, top: map<Key, Value>, k: Key)
    requires BehaviorOrder(names) && BehaviorOrder(other)
    requires IsMerge(p, init, source, names, BehaviorTarget, m) && IsMerge(p, init, source, other, BehaviorTarget, n)
    requires AliasOf(k) == k || (AliasOf(k) !in source && k !in source)
    ensures AgreeOn(WithDefaults(m, top), WithDefaults(n, top), k)
  {
    hide IsMerge, BehaviorAlias, AliasOf, Before, BehaviorOrder, WithDefaults;
    AliasOfNames(k);
    forall r | BehaviorAlias(r) == k
      ensures r in WithDefaults(m, top) <==> r in WithDefaults(n, top)
      ensures r in WithDefaults(m, top) ==> WithDefaults(m, top)[r] == WithDefaults(n, top)[r]
    {
      NamesOf(k, r);
      SameMerged(p, init, source, names, other, m, n, r);
      DefaultsSame(m, n, top, r);
    }
  }

  lemma NamesOf(k: Key, r: Key)
    requires BehaviorAlias(r) == k
    ensures r == k || (r == AliasOf(k) && AliasOf(r) == r)
  {
  }

  lemma DefaultsSame(m: map<Key, Value>, n: map<Key, Value>, top: map<Key, Value>, r: Key)
    requires (r in m <==> r in n) && (r in m ==> m[r] == n[r])
    ensures r in WithDefaults(m, top) <==> r in WithDefaults(n, top)
    ensures r in WithDefaults(m, top) ==> WithDefaults(m, top)[r] == WithDefaults(n, top)[r]
  {
  }

  lemma ConfigurationStored(p: Policies, c: map<Key, Value>, o: Visit, run: Run, other: Run, names: seq<Key>)
    requires IsRun(p, c, o, run) && IsRun(p, c, o.(names := names), other)
    ensures run.factors == other.factors ==> run.canonical == other.canonical
    ensures run.top == other.top && run.canonical == other.canonical ==> run.factors == other.factors
  {
    hide IsRun, Polish, Factors;
    RunConfiguration(p, c, o, run);
    RunConfiguration(p, c, o.(names := names), other);
    RunParts(p, c, o, run);
    RunParts(p, c, o.(names := names), other);
  }

  /** The identity factors are the same for every order of the behavior names exactly when all fields are settled. */
  lemma SameForEveryOrder(p: Policies, c: map<Key, Value>, o: Visit, run: Run)
    requires Equality(p) && IsRun(p, c, o, run) && Visits(c, o)
    ensures (forall names, other | BehaviorOrder(names) && IsRun(p, c, o.(names := names), other) ::
               other.factors == run.factors)
            <==> Settled(p, c, o.config)
  {
    hide IsRun, Equality, BehaviorAlias, IsAlias, Undecided, AliasDecides, BehaviorOrder, Each, Configured, Source;
    if Settled(p, c, o.config) {
      forall names, other | BehaviorOrder(names) && IsRun(p, c, o.(names := names), other)
        ensures other.factors == run.factors
      {
        SettledCanonical(p, c, o, names, run, other);
        ConfigurationStored(p, c, o, run, other, names);
      }
    } else {
      var a :| IsAlias(a) && !AliasDecides(p, c, o.config, a) && Undecided(p, c, a);
      var names, other := OtherRun(p, c, o, run, a);
      ConfigurationStored(p, c, o, run, other, names);
      assert other.factors != run.factors;
    }
  }

  lemma SafeMeansStable(p: Policies, c: map<Key, Value>, o: Visit, names: seq<Key>, a: Key)
    ensures PairSafe(p, c, o, a) ==> PairStable(p, c, o.(names := names), a)
    ensures !PairSafe(p, c, o, a) && PairStable(p, c, o, a) ==>
              && Undecided(p, c, a) && !AliasDecides(p, c, o.config, a)
              && (Before(o.order, a, BehaviorAlias(a)) <==> Before(o.names, a, BehaviorAlias(a)))
    ensures !PairSafe(p, c, o, a) && PairStable(p, c, o.(names := names), a) ==>
              (Before(o.order, a, BehaviorAlias(a)) <==> Before(names, a, BehaviorAlias(a)))
  {
    hide BehaviorAlias, Before, AliasDecides, Undecided, AliasAgrees, Given;
  }

  /**
   Whatever the order of the behavior names, the factors of an accepted candidate survive their own canonicalisation:
   exactly when its version is the current one, no field has two different values of which the configuration settles
   none, and a deciding alias of the configuration says what the top level says.
   */
  lemma SurvivesAlways(p: Policies, c: map<Key, Value>, o: Visit, run: Run)
    requires Stable(p) && Equality(p) && IsRun(p, c, o, run) && Visits(c, o)
    ensures (forall names, other | BehaviorOrder(names) && IsRun(p, c, o.(names := names), other) ::
               Survives(p, other.factors))
            <==> CurrentVersion(p, c) && forall a | IsAlias(a) :: PairSafe(p, c, o, a)
  {
    hide IsRun, Stable, Equality, CurrentVersion, Each, BehaviorOrder, PairStable, PairSafe, IsAlias, BehaviorAlias,
         AliasDecides, Undecided, Before, Survives, Configured, Source;
    if CurrentVersion(p, c) && forall a | IsAlias(a) :: PairSafe(p, c, o, a) {
      forall names, other | BehaviorOrder(names) && IsRun(p, c, o.(names := names), other)
        ensures Survives(p, other.factors)
      {
        CanonicalAgain(p, c, o.(names := names), other);
        forall a | IsAlias(a)
          ensures PairStable(p, c, o.(names := names), a)
        {
          SafeMeansStable(p, c, o, names, a);
        }
      }
    } else {
      CanonicalAgain(p, c, o, run);
      assert IsRun(p, c, o.(names := o.names), run);
      if Survives(p, run.factors) {
        var a :| IsAlias(a) && !PairSafe(p, c, o, a);
        SafeMeansStable(p, c, o, o.names, a);
        var names, other := OtherRun(p, c, o, run, a);
        SafeMeansStable(p, c, o, names, a);
        CanonicalAgain(p, c, o.(names := names), other);
        assert !Survives(p, other.factors);
      }
    }
  }

  /**
   Without second names in the configuration, and without two values of one field, only the version counts: unset
   markers of different kinds at the top level and in the configuration do no harm.
   */
  lemma WithoutAliases(p: Policies, c: map<Key, Value>, o: Visit, run: Run)
    requires Stable(p) && Equality(p) && IsRun(p, c, o, run) && Visits(c, o)
    requires forall a | IsAlias(a) :: a !in Configured(c) && !Twins(p, Source(c), a)
    ensures Survives(p, run.factors) <==> CurrentVersion(p, c)
  {
    hide IsRun, Stable, Equality, CurrentVersion, Visits, IsAlias, Survives, Configured, Source, Winner, BehaviorAlias,
         Unset, Twins;
    CanonicalAgain(p, c, o, run);
    assert forall a | IsAlias(a) :: PairStable(p, c, o, a);
  }
}

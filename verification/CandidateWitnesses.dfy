/**
 Accepted candidates whose identity factors do not survive their own canonicalisation, one for each way to fail.
 */
module CandidateWitnesses {
  import opened Wrappers
  import opened Collections
  import opened CandidateFactors
  import opened CandidateFingerprint
  import opened CandidateSurvival
  import opened CandidateOrders

  // ---------- versions ----------

  predicate VersionField(k: Key) {
    k.CandidateSpec? || k.CandidateSpecVersion? || k.SchemaVersion?
  }

  lemma VersionTargets(k: Key)
    requires VersionField(k)
    ensures BehaviorTarget(k).None? && TopTarget(k) == if k.CandidateSpecVersion? then Some(k) else None
    ensures !Refused(k) && !k.RetentionDays? && !k.BehaviorConfiguration?
  {
  }

  function BareTop(c: map<Key, Value>): map<Key, Value> {
    if CandidateSpecVersion in Source(c) then map[CandidateSpecVersion := Source(c)[CandidateSpecVersion]] else map[]
  }

  lemma BareMerge(p: Policies, c: map<Key, Value>, o: Visit)
    requires Visits(c, o) && forall k | k in Source(c) :: VersionField(k)
    ensures IsMerge(p, map[], Source(c), o.order, TopTarget, BareTop(c))
    ensures IsMerge(p, map[], Source(c), o.names, BehaviorTarget, map[])
  {
    hide VersionField, TopTarget, BehaviorTarget, Source, Values, Merged, Configured;
    var source := Source(c);
    forall r | r in source
      ensures BehaviorTarget(r).None? && TopTarget(r) == if r.CandidateSpecVersion? then Some(r) else None
    {
      VersionTargets(r);
    }
    forall k
      ensures HoldsMerge(p, AllValues(map[], source, o.order, TopTarget, k), BareTop(c), k)
    {
      if k in BareTop(c) {
        OnlyValue(source, o.order, TopTarget, k, k);
        MergedOne(p, source[k]);
        assert AllValues(map[], source, o.order, TopTarget, k) == [source[k]];
      } else {
        NoValues(source, o.order, TopTarget, k);
      }
    }
    forall k
      ensures HoldsMerge(p, AllValues(map[], source, o.names, BehaviorTarget, k), map[], k)
    {
      NoValues(source, o.names, BehaviorTarget, k);
    }
  }

  /** A candidate that says nothing but versions. */
  lemma BareRun(p: Policies, c: map<Key, Value>, o: Visit) returns (run: Run)
    requires Admitted(p, c) && Visits(c, o) && forall k | k in Source(c) :: VersionField(k)
    ensures IsRun(p, c, o, run)
  {
    hide Admitted, IsMerge, VersionField, Source, Configured, Newest, Factors, BehaviorOk, WithDefaults,
         Polish, IsBehaviorOf;
    var top, n := BareTop(c), BareTop(c)[BehaviorConfiguration := Object(map[])];
    BareMerge(p, c, o);
    NothingConfigured(p, top, o.config);
    BarePolish(p, top, n);
    run := Run(top, map[], map[], n, Factors(p, c, n));
  }

  lemma BarePolish(p: Policies, top: map<Key, Value>, n: map<Key, Value>)
    requires forall k | k in top :: k.CandidateSpecVersion?
    requires n == top[BehaviorConfiguration := Object(map[])]
    ensures BehaviorInit(top) == Some(map[]) && Polish(p, n) == Some(n)
  {
  }

  lemma NothingConfigured(p: Policies, top: map<Key, Value>, config: seq<Key>)
    requires RequestedModel !in top && OcrProvider !in top
    ensures WithDefaults(map[], top) == map[] && BehaviorOk(p, map[]) && IsBehaviorOf(map[], config, map[])
  {
    forall k
      ensures HoldsNewest(Newest(map[], config, k), map[], k)
    {
      LatestFrom(map[], config, k);
    }
  }

  /** A version hidden in the embedded candidate, which the outer `schema_version` keeps from being checked. */
  function HiddenVersion(): map<Key, Value> {
    map[CandidateSpec := Object(map[CandidateSpecVersion := Text("0.9")]), SchemaVersion := Text("1.1")]
  }

  lemma HiddenSource()
    ensures Source(HiddenVersion()) == HiddenVersion()[CandidateSpecVersion := Text("0.9")]
  {
    var c, nested := HiddenVersion(), map[CandidateSpecVersion := Text("0.9")];
    assert Source(c) == nested + c;
  }

  lemma HiddenFails(p: Policies, o: Visit) returns (run: Run)
    requires p.current == "1.1" && Stable(p) && Equality(p) && Visits(HiddenVersion(), o)
    ensures IsRun(p, HiddenVersion(), o, run) && !Survives(p, run.factors)
  {
    hide IsRun, Survives, Visits, Source, IsAlias, PairStable;
    HiddenSource();
    run := BareRun(p, HiddenVersion(), o);
    CanonicalAgain(p, HiddenVersion(), o, run);
  }

  /** An explicit null counts as no version, but is stored as a text. */
  function NullVersion(): map<Key, Value> {
    map[CandidateSpecVersion := Null]
  }

  lemma NullFails(p: Policies, o: Visit) returns (run: Run)
    requires p.text(Null) != p.current && Stable(p) && Equality(p) && Visits(NullVersion(), o)
    ensures IsRun(p, NullVersion(), o, run) && !Survives(p, run.factors)
  {
    hide IsRun, Survives, Visits, Source;
    assert Source(NullVersion()) == NullVersion() by { NullSource(); }
    run := BareRun(p, NullVersion(), o);
    CanonicalAgain(p, NullVersion(), o, run);
  }

  lemma NullSource()
    ensures Source(NullVersion()) == NullVersion()
  {
  }

  // ---------- two values of one field ----------

  /** The field `generation_settings` under both its names. */
  function TwoNames(v: Value, w: Value): map<Key, Value> {
    map[Generation := v, GenerationSettings := w]
  }

  function OneName(v: Value): map<Key, Value> {
    map[GenerationSettings := v]
  }

  lemma TwoNamesSource(v: Value, w: Value)
    ensures Source(TwoNames(v, w)) == TwoNames(v, w) && Configured(TwoNames(v, w)) == map[]
    ensures BehaviorAlias(Generation) == GenerationSettings && IsAlias(Generation)
  {
    assert Source(TwoNames(v, w)) == map[] + TwoNames(v, w);
  }

  lemma TwoNamesAdmitted(p: Policies, v: Value, w: Value)
    ensures Admitted(p, TwoNames(v, w))
  {
    TwoNamesSource(v, w);
  }

  lemma NamesTargets()
    ensures TopTarget(Generation) == Some(GenerationSettings) == TopTarget(GenerationSettings)
    ensures BehaviorTarget(Generation) == Some(GenerationSettings) == BehaviorTarget(GenerationSettings)
  {
  }

  lemma TwoNamesMerge(p: Policies, v: Value, w: Value, order: seq<Key>, target: Key -> Option<Key>)
    requires Equality(p) && Distinct(order) && Generation in order && GenerationSettings in order
    requires (Unset(p, v) && Unset(p, w)) || p.same(v, w)
    requires target(Generation) == Some(GenerationSettings) == target(GenerationSettings)
    ensures IsMerge(p, map[], TwoNames(v, w), order, target,
                    OneName(if Before(order, Generation, GenerationSettings) then w else v))
  {
    hide Values, Merged, Before, Unset, Equality;
    var c, m := TwoNames(v, w), OneName(if Before(order, Generation, GenerationSettings) then w else v);
    forall k
      ensures HoldsMerge(p, AllValues(map[], c, order, target, k), m, k)
    {
      if k == GenerationSettings {
        PairValues(c, order, target, Generation, k);
        var first, last := if Before(order, Generation, k) then v else w, if Before(order, Generation, k) then w else v;
        assert AllValues(map[], c, order, target, k) == [first, last];
        MergedTwo(p, first, last);
        SameBoth(p, v, w);
        SecondWins(p, first, last);
      } else {
        NoValues(c, order, target, k);
      }
    }
  }

  lemma SecondWins(p: Policies, v: Value, w: Value)
    requires Unset(p, v) || p.same(v, w)
    ensures Merge(p, v, w) == Some(w)
  {
  }

  lemma OneNameNewest(v: Value, config: seq<Key>)
    requires config == []
    ensures BehaviorInit(OneName(v)) == Some(map[]) && WithDefaults(OneName(v), OneName(v)) == OneName(v)
    ensures IsBehaviorOf(OneName(v), config, OneName(v))
  {
  }

  lemma OneNameOk(p: Policies, v: Value)
    requires Equality(p)
    ensures BehaviorOk(p, OneName(v))
  {
  }

  lemma OneNamePolish(p: Policies, v: Value, w: Value)
    ensures var n := OneName(v)[BehaviorConfiguration := Object(OneName(w))]; Polish(p, n) == Some(n)
  {
  }

  lemma OneNameDefaults(v: Value, w: Value)
    ensures BehaviorInit(OneName(v)) == Some(map[]) && WithDefaults(OneName(w), OneName(v)) == OneName(w)
  {
  }

  /** Such a candidate is accepted in every order, and each of the two merges keeps the value that it sees last. */
  lemma TwoNamesRun(p: Policies, v: Value, w: Value, o: Visit) returns (run: Run)
    requires Equality(p) && Visits(TwoNames(v, w), o) && ((Unset(p, v) && Unset(p, w)) || p.same(v, w))
    ensures IsRun(p, TwoNames(v, w), o, run)
  {
    hide IsMerge, Admitted, BehaviorOk, IsBehaviorOf, Polish, Factors, BehaviorInit, WithDefaults, Before, TopTarget,
         BehaviorTarget, Source, Configured, OneName, TwoNames, Unset, Equality;
    TwoNamesSource(v, w);
    TwoNamesAdmitted(p, v, w);
    NamesTargets();
    TwoNamesKeys(v, w);
    TwoNamesMerge(p, v, w, o.order, TopTarget);
    TwoNamesMerge(p, v, w, o.names, BehaviorTarget);
    var x, y := if Before(o.order, Generation, GenerationSettings) then w else v,
                if Before(o.names, Generation, GenerationSettings) then w else v;
    OneNameDefaults(x, y);
    OneNameOk(p, y);
    NoFields(o.config, {});
    OneNameNewest(y, o.config);
    OneNamePolish(p, x, y);
    var n := OneName(x)[BehaviorConfiguration := Object(OneName(y))];
    run := Run(OneName(x), OneName(y), OneName(y), n, Factors(p, TwoNames(v, w), n));
  }

  lemma TwoNamesKeys(v: Value, w: Value)
    ensures Generation in TwoNames(v, w) && GenerationSettings in TwoNames(v, w)
  {
  }

  lemma NoFields(config: seq<Key>, keys: set<Key>)
    requires Each(config, keys)
    ensures keys == {} ==> config == []
  {
    if config != [] {
      assert config[0] in keys;
    }
  }

  /** Two different values, both unset or equal without being written alike, do not survive every order of the names. */
  lemma TwinsFail(p: Policies, v: Value, w: Value, o: Visit) returns (names: seq<Key>, run: Run)
    requires Stable(p) && Equality(p) && Visits(TwoNames(v, w), o)
    requires v != w && ((Unset(p, v) && Unset(p, w)) || p.same(v, w))
    ensures BehaviorOrder(names) && IsRun(p, TwoNames(v, w), o.(names := names), run) && !Survives(p, run.factors)
  {
    hide IsRun, Survives, Each, BehaviorOrder, Stable, Equality, Before, CurrentVersion, PairSafe, IsAlias;
    var first := TwoNamesRun(p, v, w, o);
    SurvivesAlways(p, TwoNames(v, w), o, first);
    TwinsUnsafe(p, v, w, o);
    names, run :|
      BehaviorOrder(names) && IsRun(p, TwoNames(v, w), o.(names := names), run) && !Survives(p, run.factors);
  }

  lemma TwinsUnsafe(p: Policies, v: Value, w: Value, o: Visit)
    requires Equality(p) && v != w && ((Unset(p, v) && Unset(p, w)) || p.same(v, w))
    ensures IsAlias(Generation) && !PairSafe(p, TwoNames(v, w), o, Generation)
  {
    hide Source, Configured, BehaviorAlias, Unset;
    TwoNamesSource(v, w);
    if p.same(v, w) && (Unset(p, v) || Unset(p, w)) {
      UnsetSame(p, v, w);
    }
  }

  /** `generation` is null and `generation_settings` says UNSET. */
  lemma MixedMarkers(p: Policies, o: Visit) returns (names: seq<Key>, run: Run)
    requires Stable(p) && Equality(p) && p.marker("UNSET") && Visits(TwoNames(Null, Text("UNSET")), o)
    ensures BehaviorOrder(names) && IsRun(p, TwoNames(Null, Text("UNSET")), o.(names := names), run)
    ensures !Survives(p, run.factors)
  {
    hide IsRun, Survives, Visits, Stable, Equality;
    names, run := TwinsFail(p, Null, Text("UNSET"), o);
  }

  /** The same temperature, written in two ways. */
  function Temperatures(zero: int, zeroPointZero: int): (Value, Value) {
    (Object(map[Temperature := Opaque(zero, true)]), Object(map[Temperature := Opaque(zeroPointZero, true)]))
  }

  lemma EqualNumbers(p: Policies, zero: int, zeroPointZero: int, o: Visit) returns (names: seq<Key>, run: Run)
    requires Stable(p) && Equality(p) && zero != zeroPointZero
    requires var (v, w) := Temperatures(zero, zeroPointZero); p.same(v, w) && Visits(TwoNames(v, w), o)
    ensures var (v, w) := Temperatures(zero, zeroPointZero);
            BehaviorOrder(names) && IsRun(p, TwoNames(v, w), o.(names := names), run)
    ensures !Survives(p, run.factors)
  {
    hide IsRun, Survives, Visits, Stable, Equality;
    var (v, w) := Temperatures(zero, zeroPointZero);
    assert v.fields[Temperature] != w.fields[Temperature];
    names, run := TwinsFail(p, v, w, o);
  }

  // ---------- what the theorems assume ----------

  /** One of the two spellings stands for both. */
  function Spelling(zero: int, zeroPointZero: int, v: Value): Value {
    if v == Temperatures(zero, zeroPointZero).1 then Temperatures(zero, zeroPointZero).0 else v
  }

  /** Policies that leave mappings as they are and know the marker UNSET and two spellings of one temperature. */
  function PlainPolicies(zero: int, zeroPointZero: int): Policies {
    Policies(
      (s: string) => s == "UNSET",
      (v: Value, w: Value) => Spelling(zero, zeroPointZero, v) == Spelling(zero, zeroPointZero, w),
      (v: Value) => if v.Text? then v.text else "None",
      (v: Value) => Some(v), (v: Value) => if v.Object? then Some(v) else None,
      (v: Value) => if v.Object? then Some(v) else None, (v: Value) => Null,
      (v: Value) => if v.Object? then Some(v) else None, "1.1")
  }

  /** The assumptions about policies can be met, together with those of the candidates above. */
  lemma AssumptionsHold(zero: int, zeroPointZero: int)
    ensures var p := PlainPolicies(zero, zeroPointZero);
            && Stable(p) && Equality(p) && p.marker("UNSET") && p.current == "1.1" && p.text(Null) != p.current
            && var (v, w) := Temperatures(zero, zeroPointZero); p.same(v, w)
  {
    var p := PlainPolicies(zero, zeroPointZero);
    assert p.text(Null) == "None";
  }
}

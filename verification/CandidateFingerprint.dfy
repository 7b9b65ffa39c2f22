/**
 Canonicalising identity factors again. Evidence stores the factors and its reader fingerprints them a second time.
 What the first canonicalisation leaves, and what the second one makes of it; module CandidateSurvival says for which
 candidates the two are the same.
 */
module CandidateFingerprint {
  import opened Wrappers
  import opened CandidateFactors

  // ---------- facts about the field names ----------

  lemma InputNames(k: Key)
    requires IsInput(k)
    ensures Alias(k) == k && BehaviorAlias(k) == k && !Skipped(k) && !Refused(k) && TopTarget(k) == Some(k)
    ensures BehaviorTarget(k) == if IsBehavior(k) then Some(k) else None
  {
  }

  lemma TargetIsInput(r: Key)
    ensures TopTarget(r).Some? ==> IsInput(TopTarget(r).value) && TopTarget(r).value == Alias(r)
  {
  }

  /** A key that feeds a behavior field at the top level feeds the same field of the behavior configuration. */
  lemma SameField(r: Key, k: Key)
    requires TopTarget(r) == Some(k) && IsBehavior(k)
    ensures BehaviorTarget(r) == Some(k)
  {
    hide TopTarget, Alias, IsBehavior, BehaviorTarget;
    TargetIsInput(r);
    AliasedField(r);
  }

  lemma AliasedField(r: Key)
    requires IsBehavior(Alias(r))
    ensures BehaviorTarget(r) == Some(Alias(r))
  {
    assert !IsBehavior(RequestedModel) && !IsBehavior(InferenceDataUsePolicy);
  }

  lemma CanonicalNames(r: Key)
    requires !r.Experiment? && IsBehavior(BehaviorAlias(r))
    ensures BehaviorAlias(BehaviorAlias(r)) == BehaviorAlias(r) && !BehaviorAlias(r).Experiment?
    ensures BehaviorTarget(BehaviorAlias(r)) == Some(BehaviorAlias(r))
  {
  }

  // ---------- what the first canonicalisation leaves ----------

  lemma TopKeys(p: Policies, source: map<Key, Value>, order: seq<Key>, top: map<Key, Value>, k: Key)
    requires IsMerge(p, map[], source, order, TopTarget, top) && k in top && Equality(p)
    ensures IsInput(k)
    ensures top[k] in Values(source, order, TopTarget, k)
    ensures exists r | r in order :: r in source && TopTarget(r) == Some(k)
  {
    hide IsInput, TopTarget;
    var values := AllValues(map[], source, order, TopTarget, k);
    assert HoldsMerge(p, values, top, k);
    assert values == Values(source, order, TopTarget, k);
    MergedMeaning(p, values);
    ValueMembers(source, order, TopTarget, k, top[k]);
    var r :| r in order && r in source && TopTarget(r) == Some(k) && source[r] == top[k];
    TargetIsInput(r);
  }

  /** A behavior field of the top level is in the merged configuration, where a set value is the same one. */
  lemma SharedField(p: Policies, source: map<Key, Value>, order: seq<Key>, names: seq<Key>, init: map<Key, Value>,
                    top: map<Key, Value>, merged: map<Key, Value>, k: Key)
    requires IsMerge(p, map[], source, order, TopTarget, top) && IsMerge(p, init, source, names, BehaviorTarget, merged)
    requires BehaviorOrder(names) && k in top && IsBehavior(k) && Equality(p)
    ensures k in merged
    ensures !Unset(p, top[k]) ==> p.same(merged[k], top[k])
  {
    hide IsInput, TopTarget, BehaviorTarget, IsBehavior, Unset;
    TopKeys(p, source, order, top, k);
    ValueMembers(source, order, TopTarget, k, top[k]);
    var r :| r in order && r in source && TopTarget(r) == Some(k) && source[r] == top[k];
    SameField(r, k);
    assert r in names;
    ValueMembers(source, names, BehaviorTarget, k, top[k]);
    var values := AllValues(init, source, names, BehaviorTarget, k);
    assert top[k] in values;
    assert HoldsMerge(p, values, merged, k);
    MergedMeaning(p, values);
  }

  lemma LatestLast(b: map<Key, Value>, fields: seq<Key>, k: Key)
    ensures fields == [] ==> Latest(b, fields, k) == None
    ensures fields != [] ==>
              var front, last := fields[..|fields| - 1], fields[|fields| - 1];
              Latest(b, fields, k) ==
              if last in b && !last.Experiment? && BehaviorAlias(last) == k then Some(b[last]) else Latest(b, front, k)
  {
  }

  lemma {:induction false} LatestFrom(b: map<Key, Value>, fields: seq<Key>, k: Key)
    ensures Latest(b, fields, k).Some? <==> exists r | r in fields :: r in b && !r.Experiment? && BehaviorAlias(r) == k
    ensures Latest(b, fields, k).Some? ==>
              exists r | r in fields ::
                r in b && !r.Experiment? && BehaviorAlias(r) == k && b[r] == Latest(b, fields, k).value
  {
    hide BehaviorAlias;
    if fields != [] {
      LatestFrom(b, fields[..|fields| - 1], k);
      assert fields == fields[..|fields| - 1] + [fields[|fields| - 1]];
    }
  }

  lemma NewestFrom(b: map<Key, Value>, config: seq<Key>, k: Key)
    ensures Newest(b, config, k).Some? ==>
              exists r | r in b :: !r.Experiment? && BehaviorAlias(r) == k && b[r] == Newest(b, config, k).value
    ensures k in b && BehaviorAlias(k) == k && !k.Experiment? ==> Newest(b, config, k).Some?
  {
    hide BehaviorAlias, Latest;
    LatestFrom(b, config, k);
  }

  /** The canonical configuration has the fields of the given one, each with the value of one of its names. */
  lemma CanonicalKeys(p: Policies, b: map<Key, Value>, config: seq<Key>, canonical: map<Key, Value>, k: Key)
    requires BehaviorOk(p, b) && IsBehaviorOf(b, config, canonical)
    ensures k in canonical ==> IsBehavior(k) && BehaviorAlias(k) == k && !k.Experiment? && BehaviorTarget(k) == Some(k)
    ensures k in b && BehaviorAlias(k) == k && !k.Experiment? ==> k in canonical && p.same(canonical[k], b[k])
  {
    hide IsBehavior, BehaviorTarget, BehaviorAlias, Newest;
    assert HoldsNewest(Newest(b, config, k), canonical, k);
    NewestFrom(b, config, k);
    if k in canonical {
      var r :| r in b && !r.Experiment? && BehaviorAlias(r) == k && b[r] == canonical[k];
      CanonicalNames(r);
    }
  }

  predicate PolicyKey(k: Key) {
    k.RetentionPolicy? || k.ModelPolicy? || k.InferenceDataUsePolicy? || k.CorpusIdentity?
  }

  lemma PolishKeeps(p: Policies, n: map<Key, Value>)
    requires Polish(p, n).Some?
    ensures Polish(p, n).value.Keys == n.Keys
    ensures forall k | k in n && !PolicyKey(k) :: Polish(p, n).value[k] == n[k]
  {
  }

  /** Polishing polished fields changes nothing. */
  lemma PolishAgain(p: Policies, n: map<Key, Value>, m: map<Key, Value>)
    requires Stable(p) && Polish(p, n).Some?
    requires forall k | PolicyKey(k) || k.InferenceRouteIdentity? ::
               (k in m <==> k in n) && (k in m ==> m[k] == Polish(p, n).value[k])
    ensures Polish(p, m) == Some(m)
  {
    PolishKeeps(p, n);
    var q := Polish(p, n).value;
    PolishedField(p, n);
    assert Refine(m, RetentionPolicy, true, p.retention) == Some(m) by { SameField4(m, RetentionPolicy); }
    assert Refine(m, ModelPolicy, Get(m, ModelPolicy).Object?, p.model) == Some(m) by { SameField4(m, ModelPolicy); }
    assert Refine(m, InferenceDataUsePolicy, Get(m, InferenceDataUsePolicy).Object?, p.dataUse) == Some(m)
      by { SameField4(m, InferenceDataUsePolicy); }
    assert Refine(m, CorpusIdentity, Get(m, CorpusIdentity).Object?, p.corpus) == Some(m)
      by { SameField4(m, CorpusIdentity); }
  }

  lemma SameField4(m: map<Key, Value>, k: Key)
    ensures k in m ==> m[k := m[k]] == m
  {
  }

  lemma PolishedField(p: Policies, n: map<Key, Value>)
    requires Stable(p) && Polish(p, n).Some?
    ensures var q := Polish(p, n).value;
            && (RetentionPolicy in q ==> p.retention(q[RetentionPolicy]) == Some(q[RetentionPolicy]))
            && (Get(q, ModelPolicy).Object? ==> p.model(q[ModelPolicy]) == Some(q[ModelPolicy]))
            && (Get(q, InferenceDataUsePolicy).Object? ==>
                  && p.dataUse(q[InferenceDataUsePolicy]) == Some(q[InferenceDataUsePolicy])
                  && p.same(Get(q, InferenceRouteIdentity), p.route(q[InferenceDataUsePolicy])))
            && (Get(q, CorpusIdentity).Object? ==> p.corpus(q[CorpusIdentity]) == Some(q[CorpusIdentity]))
  {
  }

  /** What is true of stored factors `f` with behavior configuration `b`. */
  ghost predicate Stored(p: Policies, f: map<Key, Value>, b: map<Key, Value>) {
    && (forall k | k in f :: IsInput(k))
    && BehaviorConfiguration in f && f[BehaviorConfiguration] == Object(b)
    && CandidateSpecVersion in f && f[CandidateSpecVersion].Text?
    && OcrAssetManifestSha256 in f && OcrAssetManifest !in f && TermbaseGovernance !in f
    && (forall k | k in f && IsBehavior(k) :: k in b && (!Unset(p, f[k]) ==> p.same(b[k], f[k])))
    && (RequestedModel in f ==> Model in b)
    && (forall k | k in b :: IsBehavior(k) && BehaviorAlias(k) == k && !k.Experiment? && BehaviorTarget(k) == Some(k))
    && Polish(p, f) == Some(f)
  }

  lemma FactorField(p: Policies, c: map<Key, Value>, n: map<Key, Value>, k: Key)
    ensures k in Factors(p, c, n) <==>
            (k in n && !NotAFactor(k)) || k == OcrAssetManifestSha256 || k == CandidateSpecVersion
    ensures k in n && !NotAFactor(k) && k != CandidateSpecVersion ==> Factors(p, c, n)[k] == n[k]
    ensures k == CandidateSpecVersion ==> Factors(p, c, n)[k] == Text(p.text(VersionValue(p, c, n)))
  {
    hide VersionValue;
  }

  lemma RunParts(p: Policies, c: map<Key, Value>, o: Visit, run: Run)
    requires IsRun(p, c, o, run)
    ensures run.factors == Factors(p, c, run.polished)
    ensures Polish(p, run.top[BehaviorConfiguration := Object(run.canonical)]) == Some(run.polished)
  {
    hide IsMerge, Polish, Factors, Admitted, BehaviorInit, WithDefaults, BehaviorOk, IsBehaviorOf;
  }

  lemma BehaviorStored(p: Policies, c: map<Key, Value>, o: Visit, run: Run, k: Key)
    requires IsRun(p, c, o, run) && BehaviorOrder(o.names) && Equality(p)
    ensures k in run.top && IsBehavior(k) && BehaviorAlias(k) == k && !k.Experiment? ==>
              k in run.canonical && (!Unset(p, run.top[k]) ==> p.same(run.canonical[k], run.top[k]))
    ensures k in run.canonical ==>
              IsBehavior(k) && BehaviorAlias(k) == k && !k.Experiment? && BehaviorTarget(k) == Some(k)
    ensures RequestedModel in run.top ==> Model in run.canonical
  {
    hide IsMerge, Polish, Factors, Admitted, BehaviorInit, WithDefaults, BehaviorOk, IsBehaviorOf, IsBehavior, Unset;
    var behavior := WithDefaults(run.merged, run.top);
    DefaultsKeep(run.merged, run.top);
    CanonicalKeys(p, behavior, o.config, run.canonical, k);
    CanonicalKeys(p, behavior, o.config, run.canonical, Model);
    if k in run.top && IsBehavior(k) && BehaviorAlias(k) == k {
      SharedField(p, Source(c), o.order, o.names, BehaviorInit(run.top).value, run.top, run.merged, k);
    }
  }

  lemma RunFields(p: Policies, c: map<Key, Value>, o: Visit, run: Run, k: Key)
    requires IsRun(p, c, o, run)
    ensures k in run.factors ==>
              k in run.top || k == OcrAssetManifestSha256 || k == CandidateSpecVersion || k == BehaviorConfiguration
    ensures NotAFactor(k) && k != OcrAssetManifestSha256 ==> k !in run.factors
    ensures k in run.factors && !PolicyKey(k) && !NotAFactor(k) && k != CandidateSpecVersion
            && k != BehaviorConfiguration ==>
              k in run.top && run.factors[k] == run.top[k]
  {
    hide IsRun, Polish, Factors, PolicyKey;
    RunParts(p, c, o, run);
    FactorField(p, c, run.polished, k);
    PolishKeeps(p, run.top[BehaviorConfiguration := Object(run.canonical)]);
  }

  lemma RunConfiguration(p: Policies, c: map<Key, Value>, o: Visit, run: Run)
    requires IsRun(p, c, o, run)
    ensures var f := run.factors;
            && BehaviorConfiguration in f && f[BehaviorConfiguration] == Object(run.canonical)
            && CandidateSpecVersion in f && f[CandidateSpecVersion].Text?
            && OcrAssetManifestSha256 in f && OcrAssetManifest !in f && TermbaseGovernance !in f
    ensures RequestedModel in run.factors ==> RequestedModel in run.top
  {
    hide IsRun, Polish, Factors, PolicyKey;
    RunParts(p, c, o, run);
    ConfigurationKept();
    PolishKeeps(p, run.top[BehaviorConfiguration := Object(run.canonical)]);
    FactorField(p, c, run.polished, BehaviorConfiguration);
    FactorField(p, c, run.polished, CandidateSpecVersion);
    FactorField(p, c, run.polished, OcrAssetManifestSha256);
    RunFields(p, c, o, run, OcrAssetManifest);
    RunFields(p, c, o, run, TermbaseGovernance);
    RunFields(p, c, o, run, RequestedModel);
  }

  lemma ConfigurationKept()
    ensures !PolicyKey(BehaviorConfiguration) && !NotAFactor(BehaviorConfiguration) && NotAFactor(OcrAssetManifest)
    ensures !PolicyKey(RequestedModel) && !NotAFactor(RequestedModel) && NotAFactor(TermbaseGovernance)
  {
  }

  lemma RunPolished(p: Policies, c: map<Key, Value>, o: Visit, run: Run)
    requires Stable(p) && IsRun(p, c, o, run)
    ensures Polish(p, run.factors) == Some(run.factors)
  {
    hide IsRun, Polish, Factors, Stable;
    var n := run.top[BehaviorConfiguration := Object(run.canonical)];
    RunParts(p, c, o, run);
    PolishKeeps(p, n);
    forall k | PolicyKey(k) || k.InferenceRouteIdentity?
      ensures (k in run.factors <==> k in n) && (k in run.factors ==> run.factors[k] == run.polished[k])
    {
      FactorField(p, c, run.polished, k);
    }
    PolishAgain(p, n, run.factors);
  }

  lemma StoredInput(p: Policies, c: map<Key, Value>, o: Visit, run: Run, k: Key)
    requires IsRun(p, c, o, run) && k in run.factors && Equality(p)
    ensures IsInput(k)
  {
    hide IsMerge, Polish, Factors, Admitted, BehaviorInit, WithDefaults, BehaviorOk, IsBehaviorOf, IsInput;
    RunFields(p, c, o, run, k);
    InputConstants();
    if k in run.top {
      TopKeys(p, Source(c), o.order, run.top, k);
    }
  }

  lemma StoredShared(p: Policies, c: map<Key, Value>, o: Visit, run: Run, k: Key)
    requires IsRun(p, c, o, run) && BehaviorOrder(o.names) && k in run.factors && IsBehavior(k) && Equality(p)
    ensures k in run.canonical && (!Unset(p, run.factors[k]) ==> p.same(run.canonical[k], run.factors[k]))
  {
    hide IsRun, IsBehavior, Unset, BehaviorOrder, Equality, IsInput, BehaviorAlias;
    StoredInput(p, c, o, run, k);
    InputNames(k);
    BehaviorNames(k);
    RunFields(p, c, o, run, k);
    BehaviorStored(p, c, o, run, k);
  }

  lemma FactorsStored(p: Policies, c: map<Key, Value>, o: Visit, run: Run)
    requires Stable(p) && Equality(p) && IsRun(p, c, o, run) && BehaviorOrder(o.names)
    ensures Stored(p, run.factors, run.canonical)
  {
    hide IsRun, IsBehavior, Unset, BehaviorOrder, Stable, IsInput, Polish, BehaviorAlias, BehaviorTarget;
    RunConfiguration(p, c, o, run);
    RunPolished(p, c, o, run);
    forall k | k in run.factors
      ensures IsInput(k)
    {
      StoredInput(p, c, o, run, k);
    }
    forall k | k in run.factors && IsBehavior(k)
      ensures k in run.canonical && (!Unset(p, run.factors[k]) ==> p.same(run.canonical[k], run.factors[k]))
    {
      StoredShared(p, c, o, run, k);
    }
    forall k | k in run.canonical
      ensures IsBehavior(k) && BehaviorAlias(k) == k && !k.Experiment? && BehaviorTarget(k) == Some(k)
    {
      BehaviorStored(p, c, o, run, k);
    }
    BehaviorStored(p, c, o, run, Model);
  }

  lemma InputConstants()
    ensures IsInput(BehaviorConfiguration) && IsInput(OcrAssetManifestSha256) && IsInput(CandidateSpecVersion)
  {
  }

  lemma BehaviorNames(k: Key)
    requires IsBehavior(k)
    ensures !PolicyKey(k) && !NotAFactor(k) && k != CandidateSpecVersion && k != BehaviorConfiguration
    ensures !k.Experiment?
  {
  }

  // ---------- the second canonicalisation ----------

  predicate VersionStable(p: Policies, f: map<Key, Value>) {
    Get(f, CandidateSpecVersion) == Text(p.current)
  }

  /** The stored top level and the stored configuration say the same, or only the configuration says something. */
  predicate Agrees(p: Policies, f: map<Key, Value>, b: map<Key, Value>) {
    forall k | k in f && k in b :: AgreesAt(p, f, b, k)
  }

  predicate AgreesAt(p: Policies, f: map<Key, Value>, b: map<Key, Value>, k: Key)
    requires k in f && k in b
  {
    f[k] == b[k] || (Unset(p, f[k]) && !Unset(p, b[k]))
  }

  /** The behavior configuration after merging the stored top-level fields into it. */
  function Remerged(p: Policies, f: map<Key, Value>, b: map<Key, Value>): map<Key, Value> {
    map k | k in b :: if k in f && (Unset(p, b[k]) || p.same(b[k], f[k])) then f[k] else b[k]
  }

  lemma RemergedSame(p: Policies, f: map<Key, Value>, b: map<Key, Value>)
    requires Stored(p, f, b) && Equality(p)
    ensures Remerged(p, f, b) == b <==> Agrees(p, f, b)
  {
    hide IsBehavior, Polish, IsInput, BehaviorAlias, BehaviorTarget;
    var m := Remerged(p, f, b);
    forall k | k in f && k in b
      ensures m[k] == b[k] <==> AgreesAt(p, f, b, k)
    {
      StoredAgrees(p, f, b, k);
      if p.same(b[k], f[k]) && Unset(p, f[k]) {
        UnsetSame(p, b[k], f[k]);
      }
    }
    if m == b {
      assert forall k | k in b :: m[k] == b[k];
    } else {
      assert exists k | k in b :: m[k] != b[k];
    }
  }

  lemma TopFieldAgain(p: Policies, f: map<Key, Value>, order: seq<Key>, k: Key)
    requires (forall r | r in f :: IsInput(r)) && Each(order, f.Keys)
    ensures HoldsMerge(p, AllValues(map[], f, order, TopTarget, k), f, k)
  {
    hide IsInput, TopTarget, Values, Merged;
    forall r | r in order && r in f && TopTarget(r) == Some(k)
      ensures r == k
    {
      InputNames(r);
    }
    OnlyValue(f, order, TopTarget, k, k);
    if k in f {
      InputNames(k);
      MergedOne(p, f[k]);
    }
    assert AllValues(map[], f, order, TopTarget, k) == if k in f then [f[k]] else [];
  }

  lemma TopAgain(p: Policies, f: map<Key, Value>, b: map<Key, Value>, order: seq<Key>)
    requires Stored(p, f, b) && Each(order, f.Keys)
    ensures Source(f) == f
    ensures IsMerge(p, map[], f, order, TopTarget, f)
  {
    hide Unset, IsBehavior, Polish, IsInput, BehaviorAlias, BehaviorTarget, TopTarget, AllValues, HoldsMerge, Each;
    NoNested(p, f, b);
    forall k
      ensures HoldsMerge(p, AllValues(map[], f, order, TopTarget, k), f, k)
    {
      TopFieldAgain(p, f, order, k);
    }
  }

  lemma NoNested(p: Policies, f: map<Key, Value>, b: map<Key, Value>)
    requires Stored(p, f, b)
    ensures CandidateSpec !in f && RetentionDays !in f
  {
    hide Unset, IsBehavior, Polish, BehaviorAlias, BehaviorTarget;
    assert CandidateSpec in f ==> IsInput(CandidateSpec);
    assert RetentionDays in f ==> IsInput(RetentionDays);
  }

  lemma BehaviorAgain(p: Policies, f: map<Key, Value>, b: map<Key, Value>, names: seq<Key>)
    requires Stored(p, f, b) && BehaviorOrder(names)
    ensures BehaviorInit(f) == Some(b)
    ensures IsMerge(p, b, f, names, BehaviorTarget, Remerged(p, f, b))
  {
    hide Unset, IsBehavior, Polish, IsInput, BehaviorAlias, BehaviorTarget, AllValues, HoldsMerge, Remerged,
         BehaviorOrder;
    var m := Remerged(p, f, b);
    forall k
      ensures HoldsMerge(p, AllValues(b, f, names, BehaviorTarget, k), m, k)
    {
      FieldAgain(p, f, b, names, k);
    }
  }

  lemma AgainValues(p: Policies, f: map<Key, Value>, b: map<Key, Value>, names: seq<Key>, k: Key)
    requires Stored(p, f, b) && BehaviorOrder(names)
    ensures AllValues(b, f, names, BehaviorTarget, k) ==
            if k in b then [b[k]] + (if k in f then [f[k]] else []) else []
  {
    hide Unset, Polish, IsInput, BehaviorAlias, BehaviorTarget, IsBehavior, Values;
    forall r | r in names && r in f && BehaviorTarget(r) == Some(k)
      ensures r == k && k in b
    {
      InputNames(r);
    }
    OnlyValue(f, names, BehaviorTarget, k, k);
  }

  lemma FieldAgain(p: Policies, f: map<Key, Value>, b: map<Key, Value>, names: seq<Key>, k: Key)
    requires Stored(p, f, b) && BehaviorOrder(names)
    ensures HoldsMerge(p, AllValues(b, f, names, BehaviorTarget, k), Remerged(p, f, b), k)
  {
    hide Stored, BehaviorTarget, AllValues, BehaviorOrder, HoldsMerge, Remerged;
    AgainValues(p, f, b, names, k);
    if k in b && k in f {
      assert [b[k]] + [f[k]] == [b[k], f[k]];
      StoredAgrees(p, f, b, k);
      HoldsTwo(p, f, b, k);
    } else {
      HoldsOne(p, f, b, k);
    }
  }

  lemma StoredAgrees(p: Policies, f: map<Key, Value>, b: map<Key, Value>, k: Key)
    requires Stored(p, f, b) && k in f && k in b
    ensures !Unset(p, f[k]) ==> p.same(b[k], f[k])
  {
    hide Unset, IsBehavior, Polish, IsInput, BehaviorAlias, BehaviorTarget;
  }

  lemma HoldsTwo(p: Policies, f: map<Key, Value>, b: map<Key, Value>, k: Key)
    requires k in b && k in f && (!Unset(p, f[k]) ==> p.same(b[k], f[k]))
    ensures HoldsMerge(p, [b[k], f[k]], Remerged(p, f, b), k)
  {
    hide Unset, Merged;
    MergedTwo(p, b[k], f[k]);
  }

  lemma HoldsOne(p: Policies, f: map<Key, Value>, b: map<Key, Value>, k: Key)
    requires k !in b || k !in f
    ensures HoldsMerge(p, if k in b then [b[k]] + [] else [], Remerged(p, f, b), k)
  {
    hide Unset, Merged;
    if k in b {
      assert [b[k]] + [] == [b[k]];
      MergedOne(p, b[k]);
    }
  }

  lemma MergedTwo(p: Policies, v: Value, w: Value)
    ensures Merged(p, [v, w]) == Merge(p, v, w)
  {
    assert [v, w][..1] == [v];
  }

  lemma {:induction false} LatestOwn(b: map<Key, Value>, fields: seq<Key>, k: Key)
    requires forall r | r in b :: BehaviorAlias(r) == r && !r.Experiment?
    ensures Latest(b, fields, k) == if k in b && k in fields then Some(b[k]) else None
  {
    hide BehaviorAlias;
    if fields != [] {
      LatestOwn(b, fields[..|fields| - 1], k);
      assert fields == fields[..|fields| - 1] + [fields[|fields| - 1]];
    }
  }

  lemma CanonicalAlready(p: Policies, f: map<Key, Value>, b: map<Key, Value>, config: seq<Key>)
    requires Stored(p, f, b) && Equality(p)
    ensures var m := Remerged(p, f, b);
            WithDefaults(m, f) == m && BehaviorOk(p, m) && IsBehaviorOf(m, config, m)
  {
    hide Unset, Polish, IsInput, BehaviorTarget, IsBehavior, Latest, BehaviorAlias;
    OcrIsBehavior();
    var m := Remerged(p, f, b);
    forall k
      ensures HoldsNewest(Newest(m, config, k), m, k)
    {
      LatestOwn(m, config, k);
    }
  }

  lemma OcrIsBehavior()
    ensures IsBehavior(OcrProvider)
  {
  }

  lemma PolishedAgain(p: Policies, f: map<Key, Value>, b: map<Key, Value>)
    requires Stable(p) && Stored(p, f, b)
    ensures var g := f[BehaviorConfiguration := Object(Remerged(p, f, b))];
            Polish(p, g) == Some(g) && (p.text(f[CandidateSpecVersion]) == p.current ==> Factors(p, f, g) == g)
  {
    hide Unset, Polish, IsInput, BehaviorTarget, IsBehavior, BehaviorAlias;
    var g := f[BehaviorConfiguration := Object(Remerged(p, f, b))];
    PolishAgain(p, f, g);
  }

  function SecondRun(p: Policies, f: map<Key, Value>, b: map<Key, Value>): Run {
    var m := Remerged(p, f, b);
    var g := f[BehaviorConfiguration := Object(m)];
    Run(f, m, m, g, g)
  }

  lemma RunsAgain(p: Policies, f: map<Key, Value>, b: map<Key, Value>, o: Visit)
    requires Stable(p) && Equality(p) && Stored(p, f, b) && VersionStable(p, f)
    requires Each(o.order, f.Keys) && BehaviorOrder(o.names)
    ensures IsRun(p, f, o, SecondRun(p, f, b))
  {
    hide Unset, Polish, IsInput, BehaviorTarget, IsBehavior, BehaviorAlias, IsMerge, BehaviorInit, BehaviorOk,
         IsBehaviorOf, WithDefaults, Factors, Remerged, Source, TopTarget, Refused;
    TopAgain(p, f, b, o.order);
    BehaviorAgain(p, f, b, o.names);
    CanonicalAlready(p, f, b, o.config);
    PolishedAgain(p, f, b);
    NoNested(p, f, b);
    forall k | k in f
      ensures !Refused(k)
    {
      InputNames(k);
    }
  }

  lemma VersionNeeded(p: Policies, f: map<Key, Value>, b: map<Key, Value>, o: Visit, again: Run)
    requires Stable(p) && Stored(p, f, b) && IsRun(p, f, o, again)
    ensures VersionStable(p, f)
  {
    hide Unset, Polish, IsInput, BehaviorTarget, IsBehavior, BehaviorAlias, IsMerge, BehaviorInit, BehaviorOk,
         IsBehaviorOf, WithDefaults, Factors, TopTarget, Refused;
  }

  lemma StoredConfiguration(p: Policies, f: map<Key, Value>, b: map<Key, Value>)
    requires Stored(p, f, b)
    ensures SecondRun(p, f, b).factors == f <==> Remerged(p, f, b) == b
  {
    hide Unset, Polish, IsInput, BehaviorTarget, IsBehavior, BehaviorAlias, Remerged;
    var g := SecondRun(p, f, b).factors;
    assert g[BehaviorConfiguration] == Object(Remerged(p, f, b)) && f[BehaviorConfiguration] == Object(b);
    if Remerged(p, f, b) == b {
      assert g == f;
    }
  }

  /** In whatever order stored factors are visited again, the result is the one of `SecondRun`. */
  lemma StoredAgain(p: Policies, c: map<Key, Value>, o: Visit, run: Run, again: Visit)
    requires Stable(p) && Equality(p) && IsRun(p, c, o, run) && BehaviorOrder(o.names) && Visits(run.factors, again)
    ensures (exists r :: IsRun(p, run.factors, again, r)) <==> VersionStable(p, run.factors)
    ensures forall r | IsRun(p, run.factors, again, r) ::
              r.factors == run.factors <==> Agrees(p, run.factors, run.canonical)
  {
    hide IsRun, Stored, Remerged, Agrees, VersionStable, Stable, Each, BehaviorOrder, Equality;
    var f, b := run.factors, run.canonical;
    FactorsStored(p, c, o, run);
    TopAgainSource(p, f, b);
    if VersionStable(p, f) {
      RunsAgain(p, f, b, again);
    }
    forall r | IsRun(p, f, again, r)
      ensures VersionStable(p, f)
      ensures r.factors == f <==> Agrees(p, f, b)
    {
      VersionNeeded(p, f, b, again, r);
      RunsAgain(p, f, b, again);
      RunUnique(p, f, again, r, SecondRun(p, f, b));
      RemergedSame(p, f, b);
      StoredConfiguration(p, f, b);
    }
  }

  lemma TopAgainSource(p: Policies, f: map<Key, Value>, b: map<Key, Value>)
    requires Stored(p, f, b)
    ensures Source(f) == f
  {
    hide Unset, IsBehavior, Polish, IsInput, BehaviorAlias, BehaviorTarget;
    NoNested(p, f, b);
  }
}

/**
 Fields that never change the identity factors: manifest paths, termbase governance, certification outputs and
 experiment-only fields, at the top level, in an embedded candidate and in the behavior configuration.
 */
module CandidateIgnored {
  import opened Wrappers
  import opened CandidateFactors
  import opened CandidateFingerprint

  predicate Ignored(k: Key) {
    || k.Experiment? || k.Output? || k.Status? || k.Certification? || k.Note? || k.OcrAssetManifest?
    || k.TermbaseGovernance?
  }

  /** Fields that may differ, or hold mappings in which ignored fields may differ. */
  predicate Free(k: Key) {
    Ignored(k) || k.CandidateSpec? || k.BehaviorConfiguration?
  }

  predicate SameAt(a: map<Key, Value>, b: map<Key, Value>, k: Key) {
    (k in a <==> k in b) && (k in a ==> a[k] == b[k])
  }

  ghost predicate SameCounted(a: map<Key, Value>, b: map<Key, Value>) {
    forall k | !Ignored(k) :: SameAt(a, b, k)
  }

  ghost predicate SameStrict(a: map<Key, Value>, b: map<Key, Value>) {
    forall k | !Free(k) :: SameAt(a, b, k)
  }

  ghost predicate SamePlain(a: map<Key, Value>, b: map<Key, Value>) {
    forall k: Key | !k.Experiment? :: SameAt(a, b, k)
  }

  /** Behavior configurations that differ in experiment-only fields; any other field outside of them is refused. */
  ghost predicate SameConfiguration(v: Value, w: Value) {
    v == w || (Mapping(v).Some? && Mapping(w).Some? && SamePlain(Mapping(v).value, Mapping(w).value))
  }

  ghost predicate SameFields(a: map<Key, Value>, b: map<Key, Value>) {
    && SameStrict(a, b)
    && (BehaviorConfiguration in a <==> BehaviorConfiguration in b)
    && (BehaviorConfiguration in a ==> SameConfiguration(a[BehaviorConfiguration], b[BehaviorConfiguration]))
  }

  ghost predicate SameEmbedded(v: Value, w: Value) {
    v == w || (v.Object? && w.Object? && SameFields(v.fields, w.fields))
  }

  /** Two candidates that differ in ignored fields only, wherever these are. */
  ghost predicate SameCandidate(c: map<Key, Value>, d: map<Key, Value>) {
    && SameFields(c, d)
    && (CandidateSpec in c <==> CandidateSpec in d)
    && (CandidateSpec in c ==> SameEmbedded(c[CandidateSpec], d[CandidateSpec]))
  }

  /** The fields that count, in the order in which they come. */
  function Counted(order: seq<Key>): seq<Key> {
    if order == [] then []
    else Counted(order[..|order| - 1]) + if Free(order[|order| - 1]) then [] else [order[|order| - 1]]
  }

  function Plain(config: seq<Key>): seq<Key> {
    if config == [] then []
    else Plain(config[..|config| - 1]) + if config[|config| - 1].Experiment? then [] else [config[|config| - 1]]
  }

  // ---------- merging ----------

  lemma {:induction false} ValuesCounted(source: map<Key, Value>, order: seq<Key>, target: Key -> Option<Key>, k: Key)
    requires forall r | Free(r) :: target(r) != Some(k)
    ensures Values(source, Counted(order), target, k) == Values(source, order, target, k)
  {
    hide Free, Values;
    ValuesLast(source, order, target, k);
    if order != [] {
      var front, last := order[..|order| - 1], order[|order| - 1];
      ValuesCounted(source, front, target, k);
      if Free(last) {
        assert Counted(order) == Counted(front);
      } else {
        var counted := Counted(front) + [last];
        ValuesLast(source, counted, target, k);
        assert counted[..|counted| - 1] == Counted(front);
      }
    }
  }

  lemma {:induction false} ValuesAgree(a: map<Key, Value>, b: map<Key, Value>, order: seq<Key>,
                                       target: Key -> Option<Key>, k: Key)
    requires SameStrict(a, b) && forall r | Free(r) :: target(r) != Some(k)
    ensures Values(a, order, target, k) == Values(b, order, target, k)
  {
    hide Free, Values;
    ValuesLast(a, order, target, k);
    ValuesLast(b, order, target, k);
    if order != [] {
      ValuesAgree(a, b, order[..|order| - 1], target, k);
      assert !Free(order[|order| - 1]) ==> SameAt(a, b, order[|order| - 1]);
    }
  }

  lemma FreeTargets(r: Key)
    requires Free(r)
    ensures BehaviorTarget(r) == None
    ensures TopTarget(r).Some? ==> TopTarget(r) == Some(r) && Own(r)
  {
  }

  lemma SameValues(a: map<Key, Value>, b: map<Key, Value>, orderA: seq<Key>, orderB: seq<Key>,
                   target: Key -> Option<Key>, k: Key)
    requires SameStrict(a, b) && Counted(orderA) == Counted(orderB) && forall r | Free(r) :: target(r) != Some(k)
    ensures Values(a, orderA, target, k) == Values(b, orderB, target, k)
  {
    hide Free, Values, Counted, SameStrict;
    ValuesCounted(a, orderA, target, k);
    ValuesCounted(b, orderB, target, k);
    ValuesAgree(a, b, Counted(orderA), target, k);
  }

  // ---------- the top level ----------

  /** Free fields that the top level keeps. */
  predicate Own(k: Key) {
    k.OcrAssetManifest? || k.TermbaseGovernance? || k.BehaviorConfiguration?
  }

  /** The top level of a candidate that differs in free fields only. */
  function OtherTop(top: map<Key, Value>, source: map<Key, Value>): map<Key, Value> {
    (map k | k in top && !Free(k) :: top[k]) + (map k | k in source && Own(k) :: source[k])
  }

  lemma OwnFree(k: Key)
    ensures Own(k) ==> Free(k) && TopTarget(k) == Some(k) && forall r | TopTarget(r) == Some(k) :: r == k
    ensures Own(k) && !Ignored(k) ==> k == BehaviorConfiguration
  {
  }

  lemma NotOwn(r: Key, k: Key)
    requires Free(k) && !Own(k)
    ensures TopTarget(r) != Some(k)
  {
  }

  lemma OtherTopMerges(p: Policies, a: map<Key, Value>, b: map<Key, Value>, orderA: seq<Key>, orderB: seq<Key>,
                       top: map<Key, Value>)
    requires SameStrict(a, b) && Counted(orderA) == Counted(orderB) && Each(orderB, b.Keys)
    requires IsMerge(p, map[], a, orderA, TopTarget, top)
    ensures IsMerge(p, map[], b, orderB, TopTarget, OtherTop(top, b))
  {
    hide Free, TopTarget, Values, Merged, Counted, Own, SameStrict;
    var other := OtherTop(top, b);
    forall k
      ensures HoldsMerge(p, AllValues(map[], b, orderB, TopTarget, k), other, k)
    {
      OwnFree(k);
      if Own(k) {
        OnlyValue(b, orderB, TopTarget, k, k);
        if k in b {
          MergedOne(p, b[k]);
          assert AllValues(map[], b, orderB, TopTarget, k) == [b[k]];
        }
      } else if Free(k) {
        forall r
          ensures TopTarget(r) != Some(k)
        {
          NotOwn(r, k);
        }
        NoValues(b, orderB, TopTarget, k);
      } else {
        forall r | Free(r)
          ensures TopTarget(r) != Some(k)
        {
          FreeTargets(r);
        }
        SameValues(a, b, orderA, orderB, TopTarget, k);
        assert HoldsMerge(p, AllValues(map[], a, orderA, TopTarget, k), top, k);
      }
    }
  }

  lemma SourceSame(c: map<Key, Value>, d: map<Key, Value>)
    requires SameCandidate(c, d)
    ensures SameFields(Source(c), Source(d))
  {
    hide Free, SameConfiguration, SameEmbedded;
    if CandidateSpec in c && c[CandidateSpec].Object? {
      EmbeddedConfiguration(c[CandidateSpec], d[CandidateSpec]);
    } else if CandidateSpec in c {
      EmbeddedKind(c[CandidateSpec], d[CandidateSpec]);
    }
    forall k | !Free(k)
      ensures SameAt(Source(c), Source(d), k)
    {
      assert SameAt(c, d, k);
      if CandidateSpec in c && c[CandidateSpec].Object? {
        EmbeddedAt(c[CandidateSpec], d[CandidateSpec], k);
      }
    }
  }

  lemma EmbeddedKind(v: Value, w: Value)
    requires SameEmbedded(v, w)
    ensures v.Object? <==> w.Object?
  {
  }

  lemma EmbeddedConfiguration(v: Value, w: Value)
    requires SameEmbedded(v, w) && v.Object?
    ensures w.Object? && (BehaviorConfiguration in v.fields <==> BehaviorConfiguration in w.fields)
    ensures BehaviorConfiguration in v.fields ==>
              SameConfiguration(v.fields[BehaviorConfiguration], w.fields[BehaviorConfiguration])
  {
  }

  lemma EmbeddedAt(v: Value, w: Value, k: Key)
    requires SameEmbedded(v, w) && v.Object? && !Free(k)
    ensures w.Object? && SameAt(v.fields, w.fields, k)
  {
    hide Free;
  }

  lemma VersionFieldsCount()
    ensures !Free(CandidateSpecVersion) && !Free(SchemaVersion) && !Free(RetentionDays) && !Free(RequestedModel)
    ensures !Free(OcrProvider)
  {
  }

  lemma VersionSame(p: Policies, c: map<Key, Value>, d: map<Key, Value>)
    requires SameCandidate(c, d)
    ensures VersionAccepted(p, c) <==> VersionAccepted(p, d)
  {
    hide Free, SameConfiguration;
    VersionFieldsCount();
    assert SameAt(c, d, CandidateSpecVersion) && SameAt(c, d, SchemaVersion);
    if CandidateSpec in c && c[CandidateSpec].Object? {
      EmbeddedAt(c[CandidateSpec], d[CandidateSpec], CandidateSpecVersion);
      EmbeddedAt(c[CandidateSpec], d[CandidateSpec], SchemaVersion);
    }
  }

  lemma AdmittedSame(p: Policies, c: map<Key, Value>, d: map<Key, Value>)
    requires SameCandidate(c, d) && Admitted(p, c)
    ensures Admitted(p, d)
  {
    hide Free, Refused, Source, SameConfiguration, VersionAccepted, SameCandidate;
    SourceSame(c, d);
    VersionSame(p, c, d);
    VersionFieldsCount();
    assert SameAt(Source(c), Source(d), RetentionDays);
    forall k | k in Source(d)
      ensures !Refused(k)
    {
      FreeAccepted(k);
      assert !Free(k) ==> SameAt(Source(c), Source(d), k);
    }
  }

  lemma FreeAccepted(k: Key)
    ensures Free(k) ==> !Refused(k)
  {
  }

  // ---------- the behavior configuration ----------

  function OtherMerged(merged: map<Key, Value>, init: map<Key, Value>): map<Key, Value> {
    (map k: Key | k in merged && !k.Experiment? :: merged[k]) + (map k: Key | k in init && k.Experiment? :: init[k])
  }

  lemma PlainTargets(r: Key, k: Key)
    requires k.Experiment?
    ensures BehaviorTarget(r) != Some(k)
  {
  }

  lemma OtherMerges(p: Policies, init: map<Key, Value>, other: map<Key, Value>, a: map<Key, Value>, b: map<Key, Value>,
                    names: seq<Key>, merged: map<Key, Value>)
    requires SamePlain(init, other) && SameStrict(a, b) && IsMerge(p, init, a, names, BehaviorTarget, merged)
    ensures IsMerge(p, other, b, names, BehaviorTarget, OtherMerged(merged, other))
  {
    hide BehaviorTarget, Values, Merged, SameStrict, Free;
    forall k
      ensures HoldsMerge(p, AllValues(other, b, names, BehaviorTarget, k), OtherMerged(merged, other), k)
    {
      if k.Experiment? {
        forall r
          ensures BehaviorTarget(r) != Some(k)
        {
          PlainTargets(r, k);
        }
        NoValues(b, names, BehaviorTarget, k);
        if k in other {
          MergedOne(p, other[k]);
          assert AllValues(other, b, names, BehaviorTarget, k) == [other[k]];
        }
      } else {
        forall r | Free(r)
          ensures BehaviorTarget(r) != Some(k)
        {
          FreeTargets(r);
        }
        ValuesAgree(a, b, names, BehaviorTarget, k);
        assert SameAt(init, other, k);
        assert HoldsMerge(p, AllValues(init, a, names, BehaviorTarget, k), merged, k);
      }
    }
  }

  lemma InitSame(top: map<Key, Value>, other: map<Key, Value>)
    requires BehaviorConfiguration in top <==> BehaviorConfiguration in other
    requires BehaviorConfiguration in top ==>
               SameConfiguration(top[BehaviorConfiguration], other[BehaviorConfiguration])
    requires BehaviorInit(top).Some?
    ensures BehaviorInit(other).Some? && SamePlain(BehaviorInit(top).value, BehaviorInit(other).value)
  {
  }

  lemma BehaviorSame(p: Policies, b: map<Key, Value>, d: map<Key, Value>)
    requires SamePlain(b, d) && BehaviorOk(p, b)
    ensures BehaviorOk(p, d)
  {
    hide IsBehavior, BehaviorAlias;
    forall r | r in d && !r.Experiment?
      ensures r in b && b[r] == d[r]
    {
      assert SameAt(b, d, r);
    }
  }

  lemma DefaultsPlain(merged: map<Key, Value>, other: map<Key, Value>, top: map<Key, Value>, otherTop: map<Key, Value>)
    requires SamePlain(merged, other) && SameAt(top, otherTop, RequestedModel) && SameAt(top, otherTop, OcrProvider)
    ensures SamePlain(WithDefaults(merged, top), WithDefaults(other, otherTop))
  {
    assert SameAt(merged, other, Model) && SameAt(merged, other, OcrProvider);
  }

  lemma PlainLast(config: seq<Key>)
    requires config != []
    ensures var front, last := config[..|config| - 1], config[|config| - 1];
            Plain(config) == if last.Experiment? then Plain(front) else Plain(front) + [last]
  {
  }

  lemma {:induction false} PlainMembers(config: seq<Key>, k: Key)
    requires !k.Experiment?
    ensures k in config <==> k in Plain(config)
  {
    if config != [] {
      PlainMembers(config[..|config| - 1], k);
      assert config == config[..|config| - 1] + [config[|config| - 1]];
    }
  }

  lemma {:induction false} LatestPlain(b: map<Key, Value>, d: map<Key, Value>, config: seq<Key>, k: Key)
    requires SamePlain(b, d)
    ensures Latest(b, config, k) == Latest(d, Plain(config), k)
  {
    hide BehaviorAlias, Latest, Plain;
    LatestLast(b, config, k);
    LatestLast(d, Plain(config), k);
    if config == [] {
      PlainNothing();
    } else {
      var front, last := config[..|config| - 1], config[|config| - 1];
      LatestPlain(b, d, front, k);
      PlainLast(config);
      if !last.Experiment? {
        assert Plain(config)[..|Plain(config)| - 1] == Plain(front);
        assert SameAt(b, d, last);
      }
    }
  }

  lemma PlainNothing()
    ensures Plain([]) == []
  {
  }

  lemma NewestSame(b: map<Key, Value>, d: map<Key, Value>, config: seq<Key>, other: seq<Key>, k: Key)
    requires SamePlain(b, d) && Plain(config) == Plain(other)
    ensures Newest(b, config, k) == Newest(d, other, k)
  {
    hide BehaviorAlias, Latest, Plain;
    PlainSame(d);
    LatestPlain(b, d, config, k);
    LatestPlain(d, d, other, k);
    if !k.Experiment? {
      PlainMembers(config, k);
      PlainMembers(other, k);
      assert SameAt(b, d, k);
    }
  }

  lemma PlainSame(d: map<Key, Value>)
    ensures SamePlain(d, d)
  {
  }

  lemma CanonicalSame(b: map<Key, Value>, d: map<Key, Value>, config: seq<Key>, other: seq<Key>,
                      canonical: map<Key, Value>)
    requires SamePlain(b, d) && Plain(config) == Plain(other) && IsBehaviorOf(b, config, canonical)
    ensures IsBehaviorOf(d, other, canonical)
  {
    hide Newest, Plain, SamePlain;
    forall k
      ensures HoldsNewest(Newest(d, other, k), canonical, k)
    {
      NewestSame(b, d, config, other, k);
      assert HoldsNewest(Newest(b, config, k), canonical, k);
    }
  }

  // ---------- nested policies and factors ----------

  lemma PolishIgnores(p: Policies, a: map<Key, Value>, b: map<Key, Value>)
    requires SameCounted(a, b) && Polish(p, a).Some? && Polish(p, b).Some?
    ensures SameCounted(Polish(p, a).value, Polish(p, b).value)
  {
    hide Ignored, Polish, PolicyKey;
    PolicyFieldsCount();
    PolishKeeps(p, a);
    PolishKeeps(p, b);
    forall k | !Ignored(k)
      ensures SameAt(Polish(p, a).value, Polish(p, b).value, k)
    {
      assert SameAt(a, b, k);
      if PolicyKey(k) && k in a {
        PolishPolicy(p, a, k);
        PolishPolicy(p, b, k);
      }
    }
  }

  lemma PolishAccepts(p: Policies, n: map<Key, Value>)
    ensures Polish(p, n).Some? <==>
            && (RetentionPolicy in n ==> p.retention(n[RetentionPolicy]).Some?)
            && (Get(n, ModelPolicy).Object? ==> p.model(n[ModelPolicy]).Some?)
            && (Get(n, InferenceDataUsePolicy).Object? ==>
                  && p.dataUse(n[InferenceDataUsePolicy]).Some?
                  && p.same(Get(n, InferenceRouteIdentity), p.route(n[InferenceDataUsePolicy])))
            && (Get(n, CorpusIdentity).Object? ==> p.corpus(n[CorpusIdentity]).Some?)
  {
  }

  lemma PolishAcceptsSame(p: Policies, a: map<Key, Value>, b: map<Key, Value>)
    requires SameCounted(a, b)
    ensures Polish(p, a).Some? <==> Polish(p, b).Some?
  {
    hide Polish, Ignored;
    PolishAccepts(p, a);
    PolishAccepts(p, b);
    PolicyFieldsCount();
    assert SameAt(a, b, RetentionPolicy) && SameAt(a, b, ModelPolicy) && SameAt(a, b, InferenceDataUsePolicy);
    assert SameAt(a, b, CorpusIdentity) && SameAt(a, b, InferenceRouteIdentity);
  }

  lemma PolicyFieldsCount()
    ensures forall k | PolicyKey(k) || k.InferenceRouteIdentity? :: !Ignored(k)
  {
  }

  lemma PolishPolicy(p: Policies, n: map<Key, Value>, k: Key)
    requires PolicyKey(k) && k in n && Polish(p, n).Some?
    ensures Polish(p, n).value.Keys == n.Keys
    ensures Polish(p, n).value[k] ==
            if k.RetentionPolicy? then p.retention(n[k]).value
            else if !n[k].Object? then n[k]
            else if k.ModelPolicy? then p.model(n[k]).value
            else if k.InferenceDataUsePolicy? then p.dataUse(n[k]).value
            else p.corpus(n[k]).value
  {
  }

  lemma SameFactors(p: Policies, c: map<Key, Value>, d: map<Key, Value>, n: map<Key, Value>, m: map<Key, Value>)
    requires SameAt(c, d, SchemaVersion) && SameCounted(n, m)
    requires forall k | k in n || k in m :: Ignored(k) ==> NotAFactor(k)
    ensures Factors(p, c, n) == Factors(p, d, m)
  {
    hide Ignored;
    FactorFieldsCount();
    assert SameAt(n, m, CandidateSpecVersion) && SameAt(n, m, OcrAssetManifestSha256);
    forall k | !NotAFactor(k)
      ensures SameAt(n, m, k)
    {
    }
  }

  lemma FactorFieldsCount()
    ensures !Ignored(CandidateSpecVersion) && !Ignored(OcrAssetManifestSha256)
    ensures forall k | NotAFactor(k) :: Ignored(k) || k == OcrAssetManifestSha256
  {
  }

  lemma IgnoredInputs(p: Policies, c: map<Key, Value>, o: Visit, run: Run)
    requires IsRun(p, c, o, run) && Equality(p)
    ensures forall k | k in run.polished && Ignored(k) :: NotAFactor(k)
    ensures CandidateSpec !in run.top
  {
    hide IsRun, Polish, Ignored, NotAFactor, IsInput;
    RunParts(p, c, o, run);
    PolishKeeps(p, run.top[BehaviorConfiguration := Object(run.canonical)]);
    TopOfRun(p, c, o, run);
    assert !IsInput(CandidateSpec) by { EmbeddedIsNoInput(); }
    if CandidateSpec in run.top {
      TopKeys(p, Source(c), o.order, run.top, CandidateSpec);
    }
    forall k | k in run.polished && Ignored(k)
      ensures NotAFactor(k)
    {
      if k in run.top {
        TopKeys(p, Source(c), o.order, run.top, k);
      }
      IgnoredInput(k);
    }
  }

  lemma EmbeddedIsNoInput()
    ensures !IsInput(CandidateSpec)
  {
  }

  lemma TopOfRun(p: Policies, c: map<Key, Value>, o: Visit, run: Run)
    requires IsRun(p, c, o, run)
    ensures IsMerge(p, map[], Source(c), o.order, TopTarget, run.top)
  {
  }

  lemma IgnoredInput(k: Key)
    ensures Ignored(k) && (IsInput(k) || k == BehaviorConfiguration) ==> NotAFactor(k)
  {
  }

  // ---------- the theorem ----------

  lemma OtherTopSame(top: map<Key, Value>, source: map<Key, Value>, v: Value)
    requires CandidateSpec !in top
    ensures SameStrict(top, OtherTop(top, source))
    ensures SameCounted(top[BehaviorConfiguration := v], OtherTop(top, source)[BehaviorConfiguration := v])
  {
    hide Own, Ignored;
    forall k
      ensures Own(k) ==> Free(k)
    {
      OwnFree(k);
    }
    assert !Own(CandidateSpec) by { EmbeddedNotOwn(); }
  }

  lemma EmbeddedNotOwn()
    ensures !Own(CandidateSpec)
  {
  }

  lemma OtherConfiguration(p: Policies, c: map<Key, Value>, d: map<Key, Value>, o: Visit, e: Visit, run: Run)
    requires IsRun(p, c, o, run) && Visits(c, o) && Visits(d, e) && SameFields(Source(c), Source(d))
    ensures var top := OtherTop(run.top, Source(d));
            BehaviorInit(top).Some? && SamePlain(BehaviorInit(run.top).value, BehaviorInit(top).value)
  {
    hide IsMerge, Polish, Factors, Admitted, BehaviorInit, WithDefaults, BehaviorOk, IsBehaviorOf, Source, TopTarget,
         BehaviorOrder, Configured, SameConfiguration, SamePlain, SameStrict, Free;
    OnlyItself(BehaviorConfiguration);
    OwnTop(p, Source(c), o.order, run.top, BehaviorConfiguration);
    InitSame(run.top, OtherTop(run.top, Source(d)));
  }

  /** The second candidate's run. */
  lemma OtherBehavior(p: Policies, c: map<Key, Value>, d: map<Key, Value>, o: Visit, e: Visit, run: Run)
    requires IsRun(p, c, o, run) && SameFields(Source(c), Source(d)) && Plain(o.config) == Plain(e.config)
    requires o.names == e.names && CandidateSpec !in run.top
    requires var top := OtherTop(run.top, Source(d));
             BehaviorInit(top).Some? && SamePlain(BehaviorInit(run.top).value, BehaviorInit(top).value)
    ensures var top := OtherTop(run.top, Source(d));
            var merged := OtherMerged(run.merged, BehaviorInit(top).value);
            && IsMerge(p, BehaviorInit(top).value, Source(d), e.names, BehaviorTarget, merged)
            && BehaviorOk(p, WithDefaults(merged, top))
            && IsBehaviorOf(WithDefaults(merged, top), e.config, run.canonical)
  {
    hide IsMerge, Polish, Factors, Admitted, BehaviorInit, WithDefaults, BehaviorOk, IsBehaviorOf, Source, Free,
         OtherTop, OtherMerged, Plain, SameConfiguration, SamePlain;
    var top := OtherTop(run.top, Source(d));
    var init := BehaviorInit(top).value;
    OtherMerges(p, BehaviorInit(run.top).value, init, Source(c), Source(d), o.names, run.merged);
    OtherTopSame(run.top, Source(d), Null);
    VersionFieldsCount();
    assert SameAt(run.top, top, RequestedModel) && SameAt(run.top, top, OcrProvider);
    OtherMergedPlain(run.merged, init);
    DefaultsPlain(run.merged, OtherMerged(run.merged, init), run.top, top);
    var b, a := WithDefaults(run.merged, run.top), WithDefaults(OtherMerged(run.merged, init), top);
    BehaviorSame(p, b, a);
    CanonicalSame(b, a, o.config, e.config, run.canonical);
  }

  lemma OtherMergedPlain(merged: map<Key, Value>, init: map<Key, Value>)
    ensures SamePlain(merged, OtherMerged(merged, init))
  {
  }

  /**
   Manifest paths, termbase governance, certification outputs and experiment-only fields never change the factors,
   and never make a candidate acceptable or unacceptable, also inside an embedded candidate and a configuration.
   */
  lemma IgnoredFields(p: Policies, c: map<Key, Value>, d: map<Key, Value>, o: Visit, e: Visit, run: Run)
    returns (other: Run)
    requires Equality(p) && SameCandidate(c, d) && Visits(c, o) && Visits(d, e)
    requires Counted(o.order) == Counted(e.order) && Plain(o.config) == Plain(e.config) && o.names == e.names
    requires IsRun(p, c, o, run)
    ensures IsRun(p, d, e, other) && other.factors == run.factors
  {
    hide IsMerge, Polish, Factors, Admitted, BehaviorInit, WithDefaults, BehaviorOk, IsBehaviorOf, Free, Source,
         Ignored, Each, Counted, Plain, OtherTop, OtherMerged, NotAFactor, SameCounted, SamePlain, SameStrict,
         SameConfiguration, Configured, BehaviorOrder, Equality, SameEmbedded;
    var top := OtherTop(run.top, Source(d));
    SourceSame(c, d);
    AdmittedSame(p, c, d);
    IgnoredInputs(p, c, o, run);
    OtherTopMerges(p, Source(c), Source(d), o.order, e.order, run.top);
    OtherConfiguration(p, c, d, o, e, run);
    OtherBehavior(p, c, d, o, e, run);
    var configuration := Object(run.canonical);
    var n, m := run.top[BehaviorConfiguration := configuration], top[BehaviorConfiguration := configuration];
    OtherTopSame(run.top, Source(d), configuration);
    PolishAcceptsSame(p, n, m);
    PolishIgnores(p, n, m);
    var merged, polished := OtherMerged(run.merged, BehaviorInit(top).value), Polish(p, m).value;
    other := Run(top, merged, run.canonical, polished, Factors(p, d, polished));
    IgnoredInputs(p, d, e, other);
    SchemaSame(c, d);
    SameFactors(p, c, d, run.polished, polished);
  }

  lemma SchemaSame(c: map<Key, Value>, d: map<Key, Value>)
    requires SameStrict(c, d)
    ensures SameAt(c, d, SchemaVersion)
  {
    VersionFieldsCount();
  }
}

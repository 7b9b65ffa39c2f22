/**
 The canonicalisation of identity factors, field by field: which fields are kept, renamed, ignored or refused, which
 version is demanded, and what each factor is.
 */
module CandidateMeaning {
  import opened Wrappers
  import opened CandidateFactors
  import opened CandidateFingerprint

  // ---------- field names ----------

  /** The identity factors under their own names. */
  predicate IsFactor(k: Key) {
    || k.CandidateSpecVersion? || k.SubjectGitSha? || k.KslideVersion? || k.OpencodeVersion? || k.RequestedModel?
    || k.EffectiveModel? || k.Provider? || k.ProviderBackend? || k.ModelRevision? || k.QuantizationOrDtype?
    || k.VisionSettings? || k.ContextConfiguration? || k.ImagePreprocessingSettings? || k.PromptIdentity?
    || k.PromptVersion? || k.PromptHash? || k.GenerationSettings? || k.OcrProvider? || k.OcrAssetManifest?
    || k.OcrAssetManifestSha256? || k.NormalizationBehavior? || k.RepairPolicy? || k.PythonVersion?
    || k.PaddleVersion? || k.PaddleocrVersion? || k.LibreofficeVersion? || k.TermbaseIdentity?
    || k.TermbaseGovernance? || k.TermbaseVersion? || k.TermbaseHash? || k.ModelPolicy?
    || k.InferenceRouteIdentity? || k.InferenceEndpointIdentity? || k.InferenceDataUsePolicy?
    || k.EgressPolicyVersion? || k.EgressPolicyHash? || k.EgressPolicyIdentity? || k.SchemaVersions?
    || k.RetentionPolicy? || k.ResourceBudget? || k.TenantIsolation? || k.NetworkEgress? || k.CorpusIdentity?
    || k.ConstraintsSha256? || k.ResolvedDependencySetSha256? || k.RuntimeArtifactIdentity?
    || k.RuntimeArtifactManifestSha256? || k.RuntimeSbomSha256? || k.OpencodeBootstrapIdentity?
    || k.OpencodeModelsIdentity? || k.BehaviorConfiguration?
  }

  /** Other names of identity factors. */
  function OtherName(k: Key): Option<Key> {
    if k.Model? || k.ModelId? then Some(RequestedModel)
    else if k.InferenceDataPolicy? then Some(InferenceDataUsePolicy)
    else if k.Generation? then Some(GenerationSettings)
    else if k.Repair? then Some(RepairPolicy)
    else if k.Normalization? then Some(NormalizationBehavior)
    else if k.Vision? then Some(VisionSettings)
    else None
  }

  /** Fields that are passed over. */
  predicate PassedOver(k: Key) {
    || k.Experiment? || k.Output? || k.SchemaVersion? || k.Status? || k.Certification? || k.Note? || k.CandidateSpec?
  }

  lemma FactorNames(k: Key)
    ensures IsInput(k) <==> IsFactor(k)
  {
  }

  /** A top-level field is an identity factor under its own or another name, is passed over, or is refused. */
  lemma FieldMeaning(k: Key)
    ensures IsFactor(k) ==> TopTarget(k) == Some(k)
    ensures OtherName(k).Some? ==> TopTarget(k) == OtherName(k)
    ensures !IsFactor(k) && OtherName(k).None? ==> TopTarget(k) == None && (Refused(k) <==> !PassedOver(k))
    ensures IsFactor(k) || OtherName(k).Some? ==> !Refused(k)
  {
    hide IsInput;
    FactorNames(k);
    FactorNames(Alias(k));
    if OtherName(k).Some? {
      FactorNames(OtherName(k).value);
      RenamedField(k);
    } else {
      OwnName(k);
    }
    NotPassed(k);
  }

  lemma RenamedField(k: Key)
    requires OtherName(k).Some?
    ensures Alias(k) == OtherName(k).value && !Skipped(k) && IsFactor(OtherName(k).value)
  {
  }

  lemma OwnName(k: Key)
    requires OtherName(k).None?
    ensures Alias(k) == k && (Skipped(k) <==> PassedOver(k))
  {
    UnchangedName(k);
  }

  lemma UnchangedName(k: Key)
    requires OtherName(k).None?
    ensures Alias(k) == k
  {
  }

  lemma NotPassed(k: Key)
    ensures IsFactor(k) ==> !PassedOver(k) && OtherName(k).None?
  {
  }

  // ---------- admission ----------

  function Embedded(c: map<Key, Value>): map<Key, Value> {
    if CandidateSpec in c && c[CandidateSpec].Object? then c[CandidateSpec].fields else map[]
  }

  /** What the embedded candidate says counts where the outer mapping does not have the field. */
  lemma SourceMeaning(c: map<Key, Value>, k: Key)
    ensures k in Source(c) <==> k in c || k in Embedded(c)
    ensures k in c ==> Source(c)[k] == c[k]
    ensures k in Embedded(c) && k !in c ==> Source(c)[k] == Embedded(c)[k]
  {
  }

  /** The version that is checked: the outer one if there is any, else that of the embedded candidate. */
  lemma CheckedVersion(p: Policies, c: map<Key, Value>)
    ensures CandidateSpecVersion in c && !c[CandidateSpecVersion].Null? ==>
              (VersionAccepted(p, c) <==> p.text(c[CandidateSpecVersion]) == p.current)
    ensures Get(c, CandidateSpecVersion).Null? && SchemaVersion in c && !c[SchemaVersion].Null? ==>
              (VersionAccepted(p, c) <==> p.text(c[SchemaVersion]) == p.current)
    ensures Get(c, CandidateSpecVersion).Null? && Get(c, SchemaVersion).Null? ==>
              var nested := Embedded(c);
              && (!Falsy(Get(nested, CandidateSpecVersion)) ==>
                    (VersionAccepted(p, c) <==> p.text(nested[CandidateSpecVersion]) == p.current))
              && (Falsy(Get(nested, CandidateSpecVersion)) && Get(nested, SchemaVersion).Null? ==>
                    VersionAccepted(p, c))
              && (Falsy(Get(nested, CandidateSpecVersion)) && !Get(nested, SchemaVersion).Null? ==>
                    (VersionAccepted(p, c) <==> p.text(nested[SchemaVersion]) == p.current))
  {
  }

  /** An accepted candidate has known fields only, no `retention_days`, and an accepted version. */
  lemma AcceptedFields(p: Policies, c: map<Key, Value>, o: Visit, run: Run)
    requires IsRun(p, c, o, run)
    ensures VersionAccepted(p, c) && RetentionDays !in c && RetentionDays !in Embedded(c)
    ensures forall k | k in c || k in Embedded(c) :: IsFactor(k) || OtherName(k).Some? || PassedOver(k)
  {
    hide IsMerge, BehaviorInit, WithDefaults, BehaviorOk, IsBehaviorOf, Polish, Factors, VersionAccepted, Refused;
    hide Source;
    SourceMeaning(c, RetentionDays);
    forall k | k in c || k in Embedded(c)
      ensures IsFactor(k) || OtherName(k).Some? || PassedOver(k)
    {
      SourceMeaning(c, k);
      FieldMeaning(k);
    }
  }

  // ---------- factors ----------

  predicate FedByOthers(k: Key) {
    || k.RequestedModel? || k.InferenceDataUsePolicy? || k.GenerationSettings? || k.RepairPolicy?
    || k.NormalizationBehavior? || k.VisionSettings?
  }

  /** Manifest paths and termbase governance are left out of the factors. */
  predicate LeftOutOfFactors(k: Key) {
    k.OcrAssetManifest? || k.TermbaseGovernance?
  }

  lemma OnlyOwnName(k: Key, r: Key)
    requires IsFactor(k) && !FedByOthers(k)
    ensures TopTarget(r) == Some(k) <==> r == k
  {
    FieldMeaning(r);
  }

  /** A factor with one name is what the candidate says, and is absent exactly when the candidate does not say it. */
  lemma PlainFactor(p: Policies, c: map<Key, Value>, o: Visit, run: Run, k: Key)
    requires IsRun(p, c, o, run) && Visits(c, o) && IsFactor(k) && !FedByOthers(k) && !LeftOutOfFactors(k)
    requires !k.OcrAssetManifestSha256? && !k.CandidateSpecVersion? && !k.BehaviorConfiguration? && !PolicyKey(k)
    ensures k in run.factors <==> k in Source(c)
    ensures k in run.factors ==> run.factors[k] == Source(c)[k]
  {
    hide IsRun, Polish, Factors, Each, Source, Configured, TopTarget;
    RunParts(p, c, o, run);
    TopMerge(p, c, o, run);
    forall r
      ensures TopTarget(r) == Some(k) <==> r == k
    {
      OnlyOwnName(k, r);
    }
    OwnTop(p, Source(c), o.order, run.top, k);
    FactorField(p, c, run.polished, k);
    PolishKeeps(p, run.top[BehaviorConfiguration := Object(run.canonical)]);
  }

  lemma TopMerge(p: Policies, c: map<Key, Value>, o: Visit, run: Run)
    requires IsRun(p, c, o, run) && Visits(c, o)
    ensures IsMerge(p, map[], Source(c), o.order, TopTarget, run.top) && Each(o.order, Source(c).Keys)
  {
  }

  /**
   Manifest paths and governance are left out of the factors, the manifest hash is null unless given, the version is a
   text, and the configuration is the canonical one.
   */
  lemma OtherFactors(p: Policies, c: map<Key, Value>, o: Visit, run: Run)
    requires IsRun(p, c, o, run) && Visits(c, o)
    ensures OcrAssetManifest !in run.factors && TermbaseGovernance !in run.factors
    ensures OcrAssetManifestSha256 in run.factors
    ensures run.factors[OcrAssetManifestSha256] ==
            if OcrAssetManifestSha256 in Source(c) then Source(c)[OcrAssetManifestSha256] else Null
    ensures CandidateSpecVersion in run.factors
    ensures run.factors[CandidateSpecVersion] == Text(p.text(
              if CandidateSpecVersion in Source(c) then Source(c)[CandidateSpecVersion]
              else if SchemaVersion in c then c[SchemaVersion] else Text(p.current)))
    ensures BehaviorConfiguration in run.factors && run.factors[BehaviorConfiguration] == Object(run.canonical)
  {
    hide IsRun, Polish, Factors, Each, Source, Configured, TopTarget, BehaviorOrder, IsMerge;
    RunParts(p, c, o, run);
    TopMerge(p, c, o, run);
    RunConfiguration(p, c, o, run);
    PolishKeeps(p, run.top[BehaviorConfiguration := Object(run.canonical)]);
    OwnFactor(p, c, o, run, OcrAssetManifestSha256);
    OwnFactor(p, c, o, run, CandidateSpecVersion);
    ManifestFactor(p, c, run);
    FactorField(p, c, run.polished, CandidateSpecVersion);
  }

  /** Each nested policy is in its canonical form. */
  lemma PolicyFactor(p: Policies, c: map<Key, Value>, o: Visit, run: Run, k: Key)
    requires IsRun(p, c, o, run) && Visits(c, o) && k in Source(c)
    requires k.RetentionPolicy? || ((k.ModelPolicy? || k.CorpusIdentity?) && Source(c)[k].Object?)
    ensures k in run.factors
    ensures k.RetentionPolicy? ==> p.retention(Source(c)[k]) == Some(run.factors[k])
    ensures k.ModelPolicy? ==> p.model(Source(c)[k]) == Some(run.factors[k])
    ensures k.CorpusIdentity? ==> p.corpus(Source(c)[k]) == Some(run.factors[k])
  {
    hide IsRun, Polish, Factors, Each, Source, Configured, TopTarget, BehaviorOrder, IsMerge, IsFactor;
    RunParts(p, c, o, run);
    TopMerge(p, c, o, run);
    var n := run.top[BehaviorConfiguration := Object(run.canonical)];
    PolishKeeps(p, n);
    PolicyIsFactor(k);
    OwnFactor(p, c, o, run, k);
    FactorField(p, c, run.polished, k);
    PolishedPolicies(p, n);
  }

  lemma PolicyIsFactor(k: Key)
    ensures k.RetentionPolicy? || k.ModelPolicy? || k.CorpusIdentity? ==> IsFactor(k) && !FedByOthers(k)
  {
  }

  lemma OwnFactor(p: Policies, c: map<Key, Value>, o: Visit, run: Run, k: Key)
    requires IsMerge(p, map[], Source(c), o.order, TopTarget, run.top) && Each(o.order, Source(c).Keys)
    requires IsFactor(k) && !FedByOthers(k)
    ensures k in run.top <==> k in Source(c)
    ensures k in run.top ==> run.top[k] == Source(c)[k]
  {
    hide Each, Source, TopTarget;
    forall r
      ensures TopTarget(r) == Some(k) <==> r == k
    {
      OnlyOwnName(k, r);
    }
    OwnTop(p, Source(c), o.order, run.top, k);
  }

  lemma ManifestFactor(p: Policies, c: map<Key, Value>, run: Run)
    requires run.factors == Factors(p, c, run.polished)
    requires Polish(p, run.top[BehaviorConfiguration := Object(run.canonical)]) == Some(run.polished)
    ensures OcrAssetManifestSha256 in run.factors
    ensures run.factors[OcrAssetManifestSha256] ==
            if OcrAssetManifestSha256 in run.top then run.top[OcrAssetManifestSha256] else Null
  {
    hide Polish;
    PolishKeeps(p, run.top[BehaviorConfiguration := Object(run.canonical)]);
  }

  lemma PolishedPolicies(p: Policies, n: map<Key, Value>)
    requires Polish(p, n).Some?
    ensures var q := Polish(p, n).value;
            && (RetentionPolicy in n ==> p.retention(n[RetentionPolicy]) == Some(q[RetentionPolicy]))
            && (ModelPolicy in n && n[ModelPolicy].Object? ==> p.model(n[ModelPolicy]) == Some(q[ModelPolicy]))
            && (CorpusIdentity in n && n[CorpusIdentity].Object? ==>
                  p.corpus(n[CorpusIdentity]) == Some(q[CorpusIdentity]))
            && (InferenceDataUsePolicy in n && n[InferenceDataUsePolicy].Object? ==>
                  && p.dataUse(n[InferenceDataUsePolicy]) == Some(q[InferenceDataUsePolicy])
                  && p.same(Get(n, InferenceRouteIdentity), p.route(n[InferenceDataUsePolicy])))
  {
  }

  /** The requested model is one that the candidate gives under some name, and a set one if it gives any. */
  lemma RequestedModelFactor(p: Policies, c: map<Key, Value>, o: Visit, run: Run)
    requires IsRun(p, c, o, run) && Visits(c, o) && Equality(p)
    ensures RequestedModel in run.factors <==> exists r | r in Source(c) :: r.Model? || r.ModelId? || r.RequestedModel?
    ensures RequestedModel in run.factors ==>
              exists r | r in Source(c) ::
                (r.Model? || r.ModelId? || r.RequestedModel?) && Source(c)[r] == run.factors[RequestedModel]
    ensures RequestedModel in run.factors && Unset(p, run.factors[RequestedModel]) ==>
              forall r | r in Source(c) && (r.Model? || r.ModelId? || r.RequestedModel?) :: Unset(p, Source(c)[r])
  {
    hide IsRun, Polish, Factors, Source, Configured, TopTarget, Unset, BehaviorOrder, Values, Merged;
    RunParts(p, c, o, run);
    TopMerge(p, c, o, run);
    FactorField(p, c, run.polished, RequestedModel);
    PolishKeeps(p, run.top[BehaviorConfiguration := Object(run.canonical)]);
    var source := Source(c);
    var values := AllValues(map[], source, o.order, TopTarget, RequestedModel);
    assert HoldsMerge(p, values, run.top, RequestedModel);
    assert values == Values(source, o.order, TopTarget, RequestedModel);
    forall v
      ensures v in values <==> exists r | r in source :: (r.Model? || r.ModelId? || r.RequestedModel?) && source[r] == v
    {
      ValueMembers(source, o.order, TopTarget, RequestedModel, v);
      forall r
        ensures TopTarget(r) == Some(RequestedModel) <==> r.Model? || r.ModelId? || r.RequestedModel?
      {
        ModelNames(r);
      }
    }
    if values != [] {
      assert values[0] in values;
      MergedMeaning(p, values);
    }
    if r :| r in source && (r.Model? || r.ModelId? || r.RequestedModel?) {
      assert source[r] in values;
    }
  }

  lemma ModelNames(r: Key)
    ensures TopTarget(r) == Some(RequestedModel) <==> r.Model? || r.ModelId? || r.RequestedModel?
  {
    FieldMeaning(r);
  }

  /** Model and OCR provider of the configuration come from the top level when the configuration does not have them. */
  lemma DefaultsMeaning(merged: map<Key, Value>, top: map<Key, Value>, k: Key)
    ensures var b := WithDefaults(merged, top);
            && (k in merged ==> k in b && b[k] == merged[k])
            && (k !in merged ==>
                  if k.Model? && RequestedModel in top then k in b && b[k] == top[RequestedModel]
                  else if k.OcrProvider? && OcrProvider in top then k in b && b[k] == top[OcrProvider]
                  else k !in b)
  {
  }
}

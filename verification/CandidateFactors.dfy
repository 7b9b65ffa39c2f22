/**
 Candidate canonicalisation (src/k_slide/certification.py): aliases and unset values are merged, nested policies are
 put into canonical form, and identity factors are taken.
 */
module CandidateFactors {
  import opened Wrappers
  import opened Collections

  // ---------- field names ----------

  datatype Key =
    // the identity factors
    | CandidateSpecVersion | SubjectGitSha | KslideVersion | OpencodeVersion | RequestedModel | EffectiveModel
    | Provider | ProviderBackend | ModelRevision | QuantizationOrDtype | VisionSettings | ContextConfiguration
    | ImagePreprocessingSettings | PromptIdentity | PromptVersion | PromptHash | GenerationSettings | OcrProvider
    | OcrAssetManifest | OcrAssetManifestSha256 | NormalizationBehavior | RepairPolicy | PythonVersion | PaddleVersion
    | PaddleocrVersion | LibreofficeVersion | TermbaseIdentity | TermbaseGovernance | TermbaseVersion | TermbaseHash
    | ModelPolicy | InferenceRouteIdentity | InferenceEndpointIdentity | InferenceDataUsePolicy | EgressPolicyVersion
    | EgressPolicyHash | EgressPolicyIdentity | SchemaVersions | RetentionPolicy | ResourceBudget | TenantIsolation
    | NetworkEgress | CorpusIdentity | ConstraintsSha256 | ResolvedDependencySetSha256 | RuntimeArtifactIdentity
    | RuntimeArtifactManifestSha256 | RuntimeSbomSha256 | OpencodeBootstrapIdentity | OpencodeModelsIdentity
    | BehaviorConfiguration
    // behavior only, and aliases
    | Model | ModelId | InferenceDataPolicy | Generation | Temperature | TopP | TopK | Thinking | Reasoning
    | VisualBudget | VisualDetail | Vision | Normalization | Repair | EvidenceIrSchema | TranslationPatchSchema
    | SlideIrSchema
    // experiment only: split, scenario_ids, formats and the like
    | Experiment(name: string)
    // outputs of certification: release_state, attestations and the like
    | Output(name: string)
    | SchemaVersion | Status | Certification | Note | CandidateSpec | RetentionDays
    | Unknown(name: string)

  predicate IsInput(k: Key) {
    !k.Model? && !k.ModelId? && !k.InferenceDataPolicy? && !k.Generation? && !k.Temperature? && !k.TopP? && !k.TopK?
    && !k.Thinking? && !k.Reasoning? && !k.VisualBudget? && !k.VisualDetail? && !k.Vision? && !k.Normalization?
    && !k.Repair? && !k.EvidenceIrSchema? && !k.TranslationPatchSchema? && !k.SlideIrSchema? && !k.Experiment?
    && !k.Output? && !k.SchemaVersion? && !k.Status? && !k.Certification? && !k.Note? && !k.CandidateSpec?
    && !k.RetentionDays? && !k.Unknown?
  }

  predicate IsBehavior(k: Key) {
    || k.Model? || k.Provider? || k.PromptVersion? || k.PromptHash? || k.PromptIdentity? || k.Generation?
    || k.GenerationSettings? || k.Temperature? || k.TopP? || k.TopK? || k.Thinking? || k.Reasoning?
    || k.VisualBudget? || k.VisualDetail? || k.Vision? || k.VisionSettings? || k.ContextConfiguration?
    || k.ImagePreprocessingSettings? || k.OcrProvider? || k.Normalization? || k.NormalizationBehavior?
    || k.RepairPolicy? || k.TermbaseVersion? || k.TermbaseHash? || k.EvidenceIrSchema? || k.TranslationPatchSchema?
    || k.SlideIrSchema?
  }

  function BehaviorAlias(k: Key): Key {
    if k.Generation? then GenerationSettings
    else if k.Repair? then RepairPolicy
    else if k.Normalization? then NormalizationBehavior
    else if k.Vision? then VisionSettings
    else k
  }

  function Alias(k: Key): Key {
    if k.Model? || k.ModelId? then RequestedModel
    else if k.InferenceDataPolicy? then InferenceDataUsePolicy
    else BehaviorAlias(k)
  }

  // ---------- values ----------

  /** `Pairs` is any other value that `dict` accepts, such as a list of pairs. */
  datatype Value =
    | Null | Text(text: string) | Object(fields: map<Key, Value>) | Pairs(items: seq<(Key, Value)>)
    | Opaque(id: int, falsy: bool)

  /** What the nested canonicalisers, `str`, `==` and the unset markers do is left open. */
  datatype Policies = Policies(
    marker: string -> bool, same: (Value, Value) -> bool, text: Value -> string, retention: Value -> Option<Value>,
    model: Value -> Option<Value>, dataUse: Value -> Option<Value>, route: Value -> Value,
    corpus: Value -> Option<Value>, current: string)

  predicate Unset(p: Policies, v: Value) {
    v.Null? || (v.Text? && p.marker(v.text))
  }

  predicate Falsy(v: Value) {
    v.Null? || v == Text("") || v == Object(map[]) || v == Pairs([]) || (v.Opaque? && v.falsy)
  }

  /** The nested canonicalisers accept their own results unchanged, and `str` keeps strings. */
  ghost predicate Stable(p: Policies) {
    && (forall v | p.retention(v).Some? :: p.retention(p.retention(v).value) == p.retention(v))
    && (forall v | p.model(v).Some? :: p.model(v).value.Object? && p.model(p.model(v).value) == p.model(v))
    && (forall v | p.dataUse(v).Some? ::
          && p.dataUse(v).value.Object? && p.dataUse(p.dataUse(v).value) == p.dataUse(v)
          && p.route(p.dataUse(v).value) == p.route(v))
    && (forall v | p.corpus(v).Some? :: p.corpus(v).value.Object? && p.corpus(p.corpus(v).value) == p.corpus(v))
    && (forall s :: p.text(Text(s)) == s)
  }

  /** `==` may hold of values that are written differently, like 0 and 0.0, but not of different strings. */
  ghost predicate Equality(p: Policies) {
    && (forall v :: p.same(v, v))
    && (forall v, w :: p.same(v, w) ==> p.same(w, v))
    && (forall v, w, x :: p.same(v, w) && p.same(w, x) ==> p.same(v, x))
    && (forall v, w :: p.same(v, w) && (v.Null? || v.Text?) ==> v == w)
  }

  lemma UnsetSame(p: Policies, v: Value, w: Value)
    requires Equality(p) && p.same(v, w) && (Unset(p, v) || Unset(p, w))
    ensures v == w
  {
    assert p.same(w, v);
  }

  // ---------- merging the values of one field ----------

  /**
   A later value replaces an unset or an equal one; an unset value never replaces a set one; two set values must be
   equal.
   */
  function Merge(p: Policies, known: Value, next: Value): Option<Value> {
    if p.same(known, next) || Unset(p, known) then Some(next) else if Unset(p, next) then Some(known) else None
  }

  /** The values of one field, merged in order. */
  function Merged(p: Policies, values: seq<Value>): Option<Value>
    requires values != []
  {
    var last := values[|values| - 1];
    if |values| == 1 then Some(last)
    else
      var before := Merged(p, values[..|values| - 1]);
      if before.None? then None else Merge(p, before.value, last)
  }

  /** Merging succeeds exactly when the set values agree; it gives one of them, or the last unset one. */
  lemma {:induction false} MergedMeaning(p: Policies, values: seq<Value>)
    requires values != [] && Equality(p)
    ensures Merged(p, values).Some? <==>
            forall v, w | v in values && w in values && !Unset(p, v) && !Unset(p, w) :: p.same(v, w)
    ensures Merged(p, values).Some? ==> Merged(p, values).value in values
    ensures Merged(p, values).Some? && Unset(p, Merged(p, values).value) ==>
              (forall v | v in values :: Unset(p, v)) && Merged(p, values).value == values[|values| - 1]
  {
    var last := |values| - 1;
    assert values == values[..last] + [values[last]];
    if last > 0 {
      MergedMeaning(p, values[..last]);
      assert values[last] in values;
      MergedLast(p, values);
    }
  }

  lemma MergedLast(p: Policies, values: seq<Value>)
    requires |values| > 1 && Equality(p)
    requires var before := values[..|values| - 1];
             && (Merged(p, before).Some? <==>
                 forall v, w | v in before && w in before && !Unset(p, v) && !Unset(p, w) :: p.same(v, w))
             && (Merged(p, before).Some? ==> Merged(p, before).value in before)
             && (Merged(p, before).Some? && Unset(p, Merged(p, before).value) ==> forall v | v in before :: Unset(p, v))
    ensures Merged(p, values).Some? <==>
            forall v, w | v in values && w in values && !Unset(p, v) && !Unset(p, w) :: p.same(v, w)
  {
    var before, last := values[..|values| - 1], values[|values| - 1];
    assert forall v :: v in values <==> v in before || v == last;
    if Merged(p, before).Some? {
      var known := Merged(p, before).value;
      if p.same(known, last) && Unset(p, known) {
        UnsetSame(p, known, last);
      }
      if p.same(known, last) && Unset(p, last) {
        UnsetSame(p, known, last);
      }
    }
  }

  /** The values that the keys of `order` give to field `k`, in that order. */
  function Values(source: map<Key, Value>, order: seq<Key>, target: Key -> Option<Key>, k: Key): seq<Value> {
    if order == [] then []
    else
      var last := order[|order| - 1];
      Values(source, order[..|order| - 1], target, k)
      + if last in source && target(last) == Some(k) then [source[last]] else []
  }

  function AllValues(init: map<Key, Value>, source: map<Key, Value>, order: seq<Key>, target: Key -> Option<Key>,
                     k: Key)
    : seq<Value>
  {
    (if k in init then [init[k]] else []) + Values(source, order, target, k)
  }

  /** No field has two different set values. */
  ghost predicate Mergeable(p: Policies, init: map<Key, Value>, source: map<Key, Value>, order: seq<Key>,
                            target: Key -> Option<Key>) {
    forall k | AllValues(init, source, order, target, k) != [] ::
      Merged(p, AllValues(init, source, order, target, k)).Some?
  }

  /** Each field holds the merged value of all that was said about it. */
  ghost predicate IsMerge(p: Policies, init: map<Key, Value>, source: map<Key, Value>, order: seq<Key>,
                          target: Key -> Option<Key>, m: map<Key, Value>) {
    forall k :: HoldsMerge(p, AllValues(init, source, order, target, k), m, k)
  }

  ghost predicate HoldsMerge(p: Policies, values: seq<Value>, m: map<Key, Value>, k: Key) {
    && (k in m <==> values != [])
    && (k in m ==> Merged(p, values) == Some(m[k]))
  }

  lemma ValuesStep(init: map<Key, Value>, source: map<Key, Value>, order: seq<Key>, n: nat, target: Key -> Option<Key>,
                   k: Key)
    requires n < |order|
    ensures AllValues(init, source, order[..n + 1], target, k) ==
            AllValues(init, source, order[..n], target, k)
            + if order[n] in source && target(order[n]) == Some(k) then [source[order[n]]] else []
  {
    assert order[..n + 1][..n] == order[..n];
  }

  lemma {:induction false} ValuesPrefix(init: map<Key, Value>, source: map<Key, Value>, order: seq<Key>, n: nat,
                                        target: Key -> Option<Key>, k: Key)
    requires n <= |order|
    ensures AllValues(init, source, order[..n], target, k) <= AllValues(init, source, order, target, k)
    decreases |order| - n
  {
    hide AllValues;
    if n == |order| {
      assert order[..n] == order;
    } else {
      ValuesPrefix(init, source, order, n + 1, target, k);
      ValuesStep(init, source, order, n, target, k);
    }
  }

  lemma {:induction false} MergedPrefix(p: Policies, values: seq<Value>, n: nat)
    requires 0 < n <= |values| && Merged(p, values).Some?
    ensures Merged(p, values[..n]).Some?
  {
    if n == |values| {
      assert values[..n] == values;
    } else {
      MergedPrefix(p, values[..|values| - 1], n);
      assert values[..|values| - 1][..n] == values[..n];
    }
  }

  lemma MergeablePrefix(p: Policies, init: map<Key, Value>, source: map<Key, Value>, order: seq<Key>, n: nat,
                        target: Key -> Option<Key>)
    requires n <= |order| && Mergeable(p, init, source, order, target)
    ensures Mergeable(p, init, source, order[..n], target)
  {
    hide AllValues, Merged;
    forall k | AllValues(init, source, order[..n], target, k) != []
      ensures Merged(p, AllValues(init, source, order[..n], target, k)).Some?
    {
      ValuesPrefix(init, source, order, n, target, k);
      var part, all := AllValues(init, source, order[..n], target, k), AllValues(init, source, order, target, k);
      assert part == all[..|part|];
      MergedPrefix(p, all, |part|);
    }
  }

  lemma {:induction false} MergedAppend(p: Policies, values: seq<Value>, v: Value)
    requires values != []
    ensures Merged(p, values + [v]) ==
            if Merged(p, values).None? then None else Merge(p, Merged(p, values).value, v)
  {
    assert (values + [v])[..|values|] == values;
  }

  /** One more key: its field takes the merged value, or the two set values clash. */
  lemma MergeStep(p: Policies, init: map<Key, Value>, source: map<Key, Value>, order: seq<Key>, n: nat,
                  target: Key -> Option<Key>, m: map<Key, Value>, k: Key)
    requires n < |order| && IsMerge(p, init, source, order[..n], target, m)
    requires order[n] in source && target(order[n]) == Some(k)
    ensures k !in m ==> IsMerge(p, init, source, order[..n + 1], target, m[k := source[order[n]]])
    ensures k in m ==>
              var merged := Merge(p, m[k], source[order[n]]);
              && (merged.Some? ==> IsMerge(p, init, source, order[..n + 1], target, m[k := merged.value]))
              && (merged.None? ==> !Mergeable(p, init, source, order[..n + 1], target))
  {
    hide Merge, AllValues, Merged;
    var v := source[order[n]];
    var before := AllValues(init, source, order[..n], target, k);
    var after := AllValues(init, source, order[..n + 1], target, k);
    ValuesStep(init, source, order, n, target, k);
    assert HoldsMerge(p, before, m, k);
    if k in m {
      MergedAppend(p, before, v);
      var merged := Merge(p, m[k], v);
      if merged.Some? {
        StoreMerged(p, init, source, order, n, target, m, k, merged.value);
      } else {
        assert after != [] && Merged(p, after).None?;
      }
    } else {
      MergedOne(p, v);
      assert after == [v];
      StoreMerged(p, init, source, order, n, target, m, k, v);
    }
  }

  lemma StoreMerged(p: Policies, init: map<Key, Value>, source: map<Key, Value>, order: seq<Key>, n: nat,
                    target: Key -> Option<Key>, m: map<Key, Value>, k: Key, merged: Value)
    requires n < |order| && IsMerge(p, init, source, order[..n], target, m)
    requires order[n] in source && target(order[n]) == Some(k)
    requires AllValues(init, source, order[..n + 1], target, k) != []
    requires Merged(p, AllValues(init, source, order[..n + 1], target, k)) == Some(merged)
    ensures IsMerge(p, init, source, order[..n + 1], target, m[k := merged])
  {
    hide AllValues, Merged;
    var shorter, longer, updated := order[..n], order[..n + 1], m[k := merged];
    forall j
      ensures HoldsMerge(p, AllValues(init, source, longer, target, j), updated, j)
    {
      ValuesStep(init, source, order, n, target, j);
      var before := AllValues(init, source, shorter, target, j);
      assert HoldsMerge(p, before, m, j);
      assert before + [] == before;
    }
  }

  lemma MergedOne(p: Policies, v: Value)
    ensures Merged(p, [v]) == Some(v)
  {
  }

  lemma MergeSkip(p: Policies, init: map<Key, Value>, source: map<Key, Value>, order: seq<Key>, n: nat,
                  target: Key -> Option<Key>, m: map<Key, Value>)
    requires n < |order| && IsMerge(p, init, source, order[..n], target, m)
    requires order[n] !in source || target(order[n]).None?
    ensures IsMerge(p, init, source, order[..n + 1], target, m)
  {
    hide AllValues, Merged;
    var shorter, longer := order[..n], order[..n + 1];
    forall k
      ensures HoldsMerge(p, AllValues(init, source, longer, target, k), m, k)
    {
      ValuesStep(init, source, order, n, target, k);
      var before := AllValues(init, source, shorter, target, k);
      assert HoldsMerge(p, before, m, k);
      assert before + [] == before;
    }
  }

  lemma MergeStart(p: Policies, init: map<Key, Value>, source: map<Key, Value>, order: seq<Key>,
                   target: Key -> Option<Key>)
    ensures IsMerge(p, init, source, order[..0], target, init)
  {
    hide Unset;
    forall k
      ensures HoldsMerge(p, AllValues(init, source, order[..0], target, k), init, k)
    {
      assert AllValues(init, source, order[..0], target, k) == if k in init then [init[k]] else [];
    }
  }

  lemma MergeDone(p: Policies, init: map<Key, Value>, source: map<Key, Value>, order: seq<Key>,
                  target: Key -> Option<Key>, m: map<Key, Value>)
    requires IsMerge(p, init, source, order, target, m)
    ensures Mergeable(p, init, source, order, target)
  {
    hide AllValues, Merged;
    forall k | AllValues(init, source, order, target, k) != []
      ensures Merged(p, AllValues(init, source, order, target, k)).Some?
    {
      assert HoldsMerge(p, AllValues(init, source, order, target, k), m, k);
    }
  }

  /** The loops that fill a dictionary field by field. */
  method MergeAll(p: Policies, init: map<Key, Value>, source: map<Key, Value>, order: seq<Key>,
                  target: Key -> Option<Key>)
    returns (r: Option<map<Key, Value>>)
    ensures r.Some? <==> Mergeable(p, init, source, order, target)
    ensures r.Some? ==> IsMerge(p, init, source, order, target, r.value)
  {
    hide IsMerge, Mergeable, Unset;
    var merged := init;
    MergeStart(p, init, source, order, target);
    for n := 0 to |order|
      invariant IsMerge(p, init, source, order[..n], target, merged)
    {
      var key := order[n];
      if key in source && target(key).Some? {
        var field := target(key).value;
        MergeStep(p, init, source, order, n, target, merged, field);
        if Mergeable(p, init, source, order, target) {
          MergeablePrefix(p, init, source, order, n + 1, target);
        }
        if field in merged && !p.same(merged[field], source[key]) {
          if Unset(p, merged[field]) {
            merged := merged[field := source[key]];
          } else if !Unset(p, source[key]) {
            return None;
          } else {
            assert merged == merged[field := merged[field]];
          }
        } else {
          merged := merged[field := source[key]];
        }
      } else {
        MergeSkip(p, init, source, order, n, target, merged);
      }
    }
    assert order[..|order|] == order;
    MergeDone(p, init, source, order, target, merged);
    r := Some(merged);
  }

  // ---------- one canonicalisation ----------

  function Get(m: map<Key, Value>, k: Key): Value {
    if k in m then m[k] else Null
  }

  /** An embedded candidate specification supplies what the outer mapping does not say. */
  function Source(c: map<Key, Value>): map<Key, Value> {
    (if CandidateSpec in c && c[CandidateSpec].Object? then c[CandidateSpec].fields else map[]) + c
  }

  predicate VersionAccepted(p: Policies, c: map<Key, Value>) {
    var outer := if Get(c, CandidateSpecVersion).Null? then Get(c, SchemaVersion) else Get(c, CandidateSpecVersion);
    var declared :=
      if outer.Null? && CandidateSpec in c && c[CandidateSpec].Object? then
        var nested := c[CandidateSpec].fields;
        if Falsy(Get(nested, CandidateSpecVersion)) then Get(nested, SchemaVersion)
        else Get(nested, CandidateSpecVersion)
      else outer;
    declared.Null? || p.text(declared) == p.current
  }

  predicate Skipped(k: Key) {
    k.CandidateSpec? || Alias(k).Experiment? || Alias(k).Output? || Alias(k).SchemaVersion? || Alias(k).Status?
    || Alias(k).Certification? || Alias(k).Note?
  }

  /** A field that is neither an input nor ignored is refused. */
  predicate Refused(k: Key) {
    !Skipped(k) && !IsInput(Alias(k))
  }

  function TopTarget(k: Key): Option<Key> {
    if Skipped(k) || Refused(k) then None else Some(Alias(k))
  }

  function BehaviorTarget(k: Key): Option<Key> {
    if IsBehavior(k) || k.Repair? then Some(BehaviorAlias(k)) else None
  }

  /** `dict` of a list of pairs: a later pair wins. */
  function FromPairs(items: seq<(Key, Value)>): map<Key, Value> {
    if items == [] then map[] else FromPairs(items[..|items| - 1])[items[|items| - 1].0 := items[|items| - 1].1]
  }

  /** `dict(v or {})`, which fails for what is neither a mapping nor a list of pairs. */
  function Mapping(v: Value): Option<map<Key, Value>> {
    if Falsy(v) then Some(map[])
    else if v.Object? then Some(v.fields)
    else if v.Pairs? then Some(FromPairs(v.items)) else None
  }

  function BehaviorInit(top: map<Key, Value>): Option<map<Key, Value>> {
    Mapping(Get(top, BehaviorConfiguration))
  }

  function SetDefault(m: map<Key, Value>, k: Key, top: map<Key, Value>, from: Key): map<Key, Value> {
    if from in top && k !in m then m[k := top[from]] else m
  }

  function WithDefaults(merged: map<Key, Value>, top: map<Key, Value>): map<Key, Value> {
    SetDefault(SetDefault(merged, Model, top, RequestedModel), OcrProvider, top, OcrProvider)
  }

  /** Only behavior fields, and aliases that say the same. */
  ghost predicate BehaviorOk(p: Policies, b: map<Key, Value>) {
    && (forall r | r in b :: r.Experiment? || IsBehavior(BehaviorAlias(r)))
    && (forall r, s | r in b && s in b && !r.Experiment? && !s.Experiment? && BehaviorAlias(r) == BehaviorAlias(s) ::
          p.same(b[r], b[s]))
  }

  /** The value that the last key of `fields` with canonical name `k` has. */
  function Latest(b: map<Key, Value>, fields: seq<Key>, k: Key): Option<Value> {
    if fields == [] then None
    else
      var last := fields[|fields| - 1];
      if last in b && !last.Experiment? && BehaviorAlias(last) == k then Some(b[last])
      else Latest(b, fields[..|fields| - 1], k)
  }

  /** Fields that were added come after those of the given configuration. */
  function Newest(b: map<Key, Value>, config: seq<Key>, k: Key): Option<Value> {
    if k in b && !k.Experiment? && BehaviorAlias(k) == k && k !in config then Some(b[k]) else Latest(b, config, k)
  }

  ghost predicate IsBehaviorOf(b: map<Key, Value>, config: seq<Key>, canonical: map<Key, Value>) {
    forall k :: HoldsNewest(Newest(b, config, k), canonical, k)
  }

  ghost predicate HoldsNewest(newest: Option<Value>, canonical: map<Key, Value>, k: Key) {
    && (k in canonical <==> newest.Some?)
    && (k in canonical ==> newest == Some(canonical[k]))
  }

  /** Replaces field `k`, if `applies`, by its canonical form. */
  function Refine(m: map<Key, Value>, k: Key, applies: bool, canonical: Value -> Option<Value>)
    : Option<map<Key, Value>>
  {
    if k in m && applies then
      if canonical(m[k]).Some? then Some(m[k := canonical(m[k]).value]) else None
    else Some(m)
  }

  function Polish(p: Policies, n: map<Key, Value>): Option<map<Key, Value>> {
    var retained := Refine(n, RetentionPolicy, true, p.retention);
    if retained.None? then None
    else
      var modelled := Refine(retained.value, ModelPolicy, Get(n, ModelPolicy).Object?, p.model);
      if modelled.None? then None
      else
        var dataUse := Get(n, InferenceDataUsePolicy);
        if dataUse.Object? && p.dataUse(dataUse).Some? && !p.same(Get(n, InferenceRouteIdentity), p.route(dataUse)) then
          None
        else
          var governed := Refine(modelled.value, InferenceDataUsePolicy, dataUse.Object?, p.dataUse);
          if governed.None? then None
          else Refine(governed.value, CorpusIdentity, Get(n, CorpusIdentity).Object?, p.corpus)
  }

  predicate NotAFactor(k: Key) {
    k.OcrAssetManifest? || k.OcrAssetManifestSha256? || k.TermbaseGovernance?
  }

  function VersionValue(p: Policies, c: map<Key, Value>, n: map<Key, Value>): Value {
    if CandidateSpecVersion in n then n[CandidateSpecVersion]
    else if SchemaVersion in c then c[SchemaVersion] else Text(p.current)
  }

  function Factors(p: Policies, c: map<Key, Value>, n: map<Key, Value>): map<Key, Value> {
    (map k | k in n && !NotAFactor(k) :: n[k])
      [OcrAssetManifestSha256 := Get(n, OcrAssetManifestSha256)]
      [CandidateSpecVersion := Text(p.text(VersionValue(p, c, n)))]
  }

  /** The stages of one canonicalisation. */
  datatype Run = Run(
    top: map<Key, Value>, merged: map<Key, Value>, canonical: map<Key, Value>, polished: map<Key, Value>,
    factors: map<Key, Value>)

  ghost predicate Each(order: seq<Key>, keys: set<Key>) {
    && (forall k :: k in order <==> k in keys)
    && Distinct(order)
  }

  /** Any order in which the set of behavior names may be visited. */
  ghost predicate BehaviorOrder(order: seq<Key>) {
    && (forall k :: k in order <==> BehaviorTarget(k).Some?)
    && Distinct(order)
  }

  ghost predicate Admitted(p: Policies, c: map<Key, Value>) {
    RetentionDays !in Source(c) && VersionAccepted(p, c) && forall k | k in Source(c) :: !Refused(k)
  }

  /** The orders in which the fields, those of a given behavior configuration, and the behavior names are visited. */
  datatype Visit = Visit(order: seq<Key>, config: seq<Key>, names: seq<Key>)

  /** The behavior configuration that the candidate gives. */
  function Configured(c: map<Key, Value>): map<Key, Value> {
    if BehaviorInit(Source(c)).Some? then BehaviorInit(Source(c)).value else map[]
  }

  ghost predicate Visits(c: map<Key, Value>, o: Visit) {
    Each(o.order, Source(c).Keys) && Each(o.config, Configured(c).Keys) && BehaviorOrder(o.names)
  }

  ghost predicate IsRun(p: Policies, c: map<Key, Value>, o: Visit, run: Run) {
    && Admitted(p, c)
    && IsMerge(p, map[], Source(c), o.order, TopTarget, run.top)
    && BehaviorInit(run.top).Some?
    && IsMerge(p, BehaviorInit(run.top).value, Source(c), o.names, BehaviorTarget, run.merged)
    && BehaviorOk(p, WithDefaults(run.merged, run.top))
    && IsBehaviorOf(WithDefaults(run.merged, run.top), o.config, run.canonical)
    && Polish(p, run.top[BehaviorConfiguration := Object(run.canonical)]) == Some(run.polished)
    && run.factors == Factors(p, c, run.polished)
  }

  // ---------- the canonical behavior configuration ----------

  /** What is known after some keys of `b` have been visited. */
  ghost predicate Normalizes(p: Policies, b: map<Key, Value>, visited: set<Key>, normalized: map<Key, Value>) {
    && (forall s | s in visited && s in b && !s.Experiment? ::
          && IsBehavior(BehaviorAlias(s)) && BehaviorAlias(s) in normalized
          && p.same(normalized[BehaviorAlias(s)], b[s]))
    && (forall k | k in normalized :: FromKey(b, normalized, k))
  }

  ghost predicate FromKey(b: map<Key, Value>, normalized: map<Key, Value>, k: Key) {
    k in normalized && exists s | s in b :: !s.Experiment? && BehaviorAlias(s) == k && b[s] == normalized[k]
  }

  lemma NormalizesMore(p: Policies, b: map<Key, Value>, visited: set<Key>, normalized: map<Key, Value>, raw: Key)
    requires Equality(p) && Normalizes(p, b, visited, normalized) && raw in b
    ensures raw.Experiment? ==> Normalizes(p, b, visited + {raw}, normalized)
    ensures var k := BehaviorAlias(raw);
            !raw.Experiment? && IsBehavior(k) && (k in normalized ==> p.same(normalized[k], b[raw])) ==>
              Normalizes(p, b, visited + {raw}, normalized[k := b[raw]])
  {
    hide IsBehavior, BehaviorAlias;
    var k, updated := BehaviorAlias(raw), normalized[BehaviorAlias(raw) := b[raw]];
    if !raw.Experiment? {
      assert FromKey(b, updated, k);
      forall j | j in normalized && j != k
        ensures FromKey(b, updated, j)
      {
        assert FromKey(b, normalized, j);
      }
    }
  }

  lemma NormalizesAll(p: Policies, b: map<Key, Value>, normalized: map<Key, Value>)
    requires Equality(p) && Normalizes(p, b, b.Keys, normalized)
    ensures BehaviorOk(p, b)
  {
    hide IsBehavior, BehaviorAlias;
  }

  lemma NotNormal(p: Policies, b: map<Key, Value>, visited: set<Key>, normalized: map<Key, Value>, raw: Key)
    requires Normalizes(p, b, visited, normalized) && raw in b && !raw.Experiment?
    requires var k := BehaviorAlias(raw); !IsBehavior(k) || (k in normalized && !p.same(normalized[k], b[raw]))
    ensures !BehaviorOk(p, b)
  {
    hide IsBehavior, BehaviorAlias;
    var k := BehaviorAlias(raw);
    if IsBehavior(k) {
      assert FromKey(b, normalized, k);
    }
  }

  /** `_canonical_behavior_configuration`: the given fields are visited first, then the added ones. */
  method CanonicalBehavior(p: Policies, b: map<Key, Value>, config: seq<Key>) returns (r: Option<map<Key, Value>>)
    requires Equality(p) && forall k | k in b && k !in config :: BehaviorAlias(k) == k
    requires forall k | k in config :: k in b
    ensures r.Some? <==> BehaviorOk(p, b)
    ensures r.Some? ==> IsBehaviorOf(b, config, r.value)
  {
    hide IsBehavior, BehaviorAlias, Normalizes, BehaviorOk;
    var normalized: map<Key, Value> := map[];
    NormalizesNothing(p, b);
    for n := 0 to |config|
      invariant Normalizes(p, b, Visited(config[..n]), normalized)
      invariant forall k :: HoldsNewest(Latest(b, config[..n], k), normalized, k)
    {
      var raw := config[n];
      var key := BehaviorAlias(raw);
      ExperimentKept(raw);
      NormalizesMore(p, b, Visited(config[..n]), normalized, raw);
      assert Visited(config[..n + 1]) == Visited(config[..n]) + {raw};
      assert config[..n + 1][..n] == config[..n];
      if !key.Experiment? {
        if !IsBehavior(key) || (key in normalized && !p.same(normalized[key], b[raw])) {
          NotNormal(p, b, Visited(config[..n]), normalized, raw);
          return None;
        }
        normalized := normalized[key := b[raw]];
      }
    }
    assert config[..|config|] == config;
    r := AddedFields(p, b, config, normalized);
  }

  method AddedFields(p: Policies, b: map<Key, Value>, config: seq<Key>, given: map<Key, Value>)
    returns (r: Option<map<Key, Value>>)
    requires Equality(p) && forall k | k in b && k !in config :: BehaviorAlias(k) == k
    requires forall k | k in config :: k in b
    requires Normalizes(p, b, Visited(config), given)
    requires forall k :: HoldsNewest(Latest(b, config, k), given, k)
    ensures r.Some? <==> BehaviorOk(p, b)
    ensures r.Some? ==> IsBehaviorOf(b, config, r.value)
  {
    hide IsBehavior, BehaviorAlias, Normalizes, BehaviorOk, Newest, Latest, AddedSoFar, Equality, IsBehaviorOf;
    var normalized, rest := given, b.Keys - Visited(config);
    assert b.Keys - rest == Visited(config);
    GivenSoFar(b, config, rest, normalized);
    while rest != {}
      invariant rest <= b.Keys - Visited(config)
      invariant Normalizes(p, b, b.Keys - rest, normalized)
      invariant AddedSoFar(b, config, rest, normalized)
      decreases rest
    {
      var raw :| raw in rest;
      assert BehaviorAlias(raw) == raw;
      NormalizesMore(p, b, b.Keys - rest, normalized, raw);
      assert b.Keys - (rest - {raw}) == b.Keys - rest + {raw};
      AddedStep(b, config, rest, normalized, raw);
      if !raw.Experiment? {
        if !IsBehavior(raw) || (raw in normalized && !p.same(normalized[raw], b[raw])) {
          NotNormal(p, b, b.Keys - rest, normalized, raw);
          return None;
        }
        normalized := normalized[raw := b[raw]];
      }
      rest := rest - {raw};
    }
    assert b.Keys - rest == b.Keys;
    NormalizesAll(p, b, normalized);
    AllAdded(b, config, normalized);
    r := Some(normalized);
  }

  /** All fields but those of `rest` have their newest value. */
  ghost predicate AddedSoFar(b: map<Key, Value>, config: seq<Key>, rest: set<Key>, normalized: map<Key, Value>) {
    forall k :: HoldsNewest(if k in rest then Latest(b, config, k) else Newest(b, config, k), normalized, k)
  }

  lemma GivenSoFar(b: map<Key, Value>, config: seq<Key>, rest: set<Key>, given: map<Key, Value>)
    requires rest == b.Keys - Visited(config) && forall k :: HoldsNewest(Latest(b, config, k), given, k)
    ensures AddedSoFar(b, config, rest, given)
  {
    hide Latest, BehaviorAlias;
  }

  lemma AllAdded(b: map<Key, Value>, config: seq<Key>, normalized: map<Key, Value>)
    requires AddedSoFar(b, config, {}, normalized)
    ensures IsBehaviorOf(b, config, normalized)
  {
    hide Latest, Newest, HoldsNewest;
  }

  lemma AddedStep(b: map<Key, Value>, config: seq<Key>, rest: set<Key>, normalized: map<Key, Value>, raw: Key)
    requires raw in b && raw in rest && raw !in config && BehaviorAlias(raw) == raw
    requires AddedSoFar(b, config, rest, normalized)
    ensures AddedSoFar(b, config, rest - {raw}, if raw.Experiment? then normalized else normalized[raw := b[raw]])
  {
    hide Latest, BehaviorAlias;
    if raw.Experiment? {
      assert HoldsNewest(Latest(b, config, raw), normalized, raw);
    }
  }

  function Visited(fields: seq<Key>): set<Key> {
    set k | k in fields
  }

  lemma NormalizesNothing(p: Policies, b: map<Key, Value>)
    ensures Normalizes(p, b, Visited([]), map[])
  {
  }

  lemma ExperimentKept(k: Key)
    ensures BehaviorAlias(k).Experiment? <==> k.Experiment?
  {
  }

  /** Maps described by the same merge are equal. */
  lemma MergeUnique(p: Policies, init: map<Key, Value>, source: map<Key, Value>, order: seq<Key>,
                    target: Key -> Option<Key>, a: map<Key, Value>, b: map<Key, Value>)
    requires IsMerge(p, init, source, order, target, a) && IsMerge(p, init, source, order, target, b)
    ensures a == b
  {
    hide AllValues, Merged;
    forall k
      ensures k in a <==> k in b
      ensures k in a ==> a[k] == b[k]
    {
      assert HoldsMerge(p, AllValues(init, source, order, target, k), a, k);
      assert HoldsMerge(p, AllValues(init, source, order, target, k), b, k);
    }
  }

  lemma BehaviorUnique(b: map<Key, Value>, config: seq<Key>, m: map<Key, Value>, n: map<Key, Value>)
    requires IsBehaviorOf(b, config, m) && IsBehaviorOf(b, config, n)
    ensures m == n
  {
    hide Newest;
    forall k
      ensures k in m <==> k in n
      ensures k in m ==> m[k] == n[k]
    {
      assert HoldsNewest(Newest(b, config, k), m, k) && HoldsNewest(Newest(b, config, k), n, k);
    }
  }

  /** For given visiting orders a candidate has at most one canonical form. */
  lemma RunUnique(p: Policies, c: map<Key, Value>, o: Visit, a: Run, b: Run)
    requires IsRun(p, c, o, a) && IsRun(p, c, o, b)
    ensures a == b
  {
    hide IsMerge, IsBehaviorOf, BehaviorOk, Polish, Factors, Admitted, BehaviorInit, WithDefaults;
    MergeUnique(p, map[], Source(c), o.order, TopTarget, a.top, b.top);
    MergeUnique(p, BehaviorInit(a.top).value, Source(c), o.names, BehaviorTarget, a.merged, b.merged);
    BehaviorUnique(WithDefaults(a.merged, a.top), o.config, a.canonical, b.canonical);
  }

  lemma RunMergeable(p: Policies, c: map<Key, Value>, o: Visit, run: Run)
    requires IsRun(p, c, o, run)
    ensures Mergeable(p, map[], Source(c), o.order, TopTarget)
    ensures Mergeable(p, BehaviorInit(run.top).value, Source(c), o.names, BehaviorTarget)
  {
    hide IsMerge, IsBehaviorOf, BehaviorOk, Polish, Factors, Admitted, BehaviorInit, WithDefaults, Mergeable;
    MergeDone(p, map[], Source(c), o.order, TopTarget, run.top);
    MergeDone(p, BehaviorInit(run.top).value, Source(c), o.names, BehaviorTarget, run.merged);
  }

  // ---------- where values come from ----------

  lemma {:induction false} ValueMembers(source: map<Key, Value>, order: seq<Key>, target: Key -> Option<Key>, k: Key,
                                        v: Value)
    ensures v in Values(source, order, target, k) <==>
            exists r | r in order :: r in source && target(r) == Some(k) && source[r] == v
  {
    if order != [] {
      var last := |order| - 1;
      ValueMembers(source, order[..last], target, k, v);
      assert order == order[..last] + [order[last]];
    }
  }

  lemma {:induction false} NoValues(source: map<Key, Value>, order: seq<Key>, target: Key -> Option<Key>, k: Key)
    requires forall r | r in order && r in source :: target(r) != Some(k)
    ensures Values(source, order, target, k) == []
  {
    if order != [] {
      NoValues(source, order[..|order| - 1], target, k);
    }
  }

  /** When only `x` feeds `k`, its value is the only one. */
  lemma {:induction false} OnlyValue(source: map<Key, Value>, order: seq<Key>, target: Key -> Option<Key>, x: Key,
                                     k: Key)
    requires forall r | r in order && r in source && target(r) == Some(k) :: r == x
    requires Distinct(order)
    ensures Values(source, order, target, k) ==
            if x in order && x in source && target(x) == Some(k) then [source[x]] else []
  {
    hide Values;
    if order == [] {
      ValuesLast(source, order, target, k);
    } else {
      var front, last := order[..|order| - 1], order[|order| - 1];
      assert order == front + [last];
      ValuesLast(source, order, target, k);
      if last == x {
        assert x !in front;
        NoValues(source, front, target, k);
      } else {
        OnlyValue(source, front, target, x, k);
        assert last in order;
      }
    }
  }

  lemma ValuesLast(source: map<Key, Value>, order: seq<Key>, target: Key -> Option<Key>, k: Key)
    ensures order == [] ==> Values(source, order, target, k) == []
    ensures order != [] ==>
              var front, last := order[..|order| - 1], order[|order| - 1];
              Values(source, order, target, k) ==
              Values(source, front, target, k)
              + if last in source && target(last) == Some(k) then [source[last]] else []
  {
  }

  /** The top level keeps a field that only its own name feeds. */
  lemma OwnTop(p: Policies, source: map<Key, Value>, order: seq<Key>, top: map<Key, Value>, k: Key)
    requires IsMerge(p, map[], source, order, TopTarget, top) && Each(order, source.Keys)
    requires TopTarget(k) == Some(k) && forall r | TopTarget(r) == Some(k) :: r == k
    ensures k in top <==> k in source
    ensures k in top ==> top[k] == source[k]
  {
    hide TopTarget, Values, Merged;
    OnlyValue(source, order, TopTarget, k, k);
    assert HoldsMerge(p, AllValues(map[], source, order, TopTarget, k), top, k);
    if k in source {
      MergedOne(p, source[k]);
      assert AllValues(map[], source, order, TopTarget, k) == [source[k]];
    }
  }

  lemma OnlyItself(k: Key)
    requires k.BehaviorConfiguration? || k.CandidateSpecVersion?
    ensures TopTarget(k) == Some(k) && forall r | TopTarget(r) == Some(k) :: r == k
  {
    hide TopTarget;
    OwnTarget(k);
    forall r | TopTarget(r) == Some(k)
      ensures r == k
    {
      TopIsAlias(r);
    }
  }

  lemma OwnTarget(k: Key)
    requires k.BehaviorConfiguration? || k.CandidateSpecVersion?
    ensures TopTarget(k) == Some(k)
  {
  }

  lemma TopIsAlias(r: Key)
    ensures TopTarget(r).Some? ==> TopTarget(r).value == Alias(r)
  {
    hide Alias;
  }

  lemma GivenConfiguration(p: Policies, c: map<Key, Value>, order: seq<Key>, top: map<Key, Value>)
    requires IsMerge(p, map[], Source(c), order, TopTarget, top) && Each(order, Source(c).Keys)
    ensures BehaviorInit(top) == BehaviorInit(Source(c))
    ensures BehaviorInit(top).Some? ==> BehaviorInit(top).value == Configured(c)
  {
    hide IsMerge, Each, TopTarget, Source;
    OnlyItself(BehaviorConfiguration);
    OwnTop(p, Source(c), order, top, BehaviorConfiguration);
  }

  /** What the behavior names add is canonical. */
  lemma AddedIsCanonical(p: Policies, init: map<Key, Value>, source: map<Key, Value>, names: seq<Key>,
                         merged: map<Key, Value>, k: Key)
    requires IsMerge(p, init, source, names, BehaviorTarget, merged)
    ensures k in init ==> k in merged
    ensures k in merged && k !in init ==> BehaviorAlias(k) == k && IsBehavior(k)
  {
    hide BehaviorTarget, Values, Merged, BehaviorAlias, IsBehavior;
    var values := AllValues(init, source, names, BehaviorTarget, k);
    assert HoldsMerge(p, values, merged, k);
    if k in merged && k !in init {
      ValueMembers(source, names, BehaviorTarget, k, values[0]);
      var r :| r in names && r in source && BehaviorTarget(r) == Some(k) && source[r] == values[0];
      TargetIsCanonical(r);
    }
  }

  lemma TargetIsCanonical(r: Key)
    ensures BehaviorTarget(r).Some? ==>
              BehaviorAlias(BehaviorTarget(r).value) == BehaviorTarget(r).value && IsBehavior(BehaviorTarget(r).value)
  {
  }

  lemma DefaultsKeep(merged: map<Key, Value>, top: map<Key, Value>)
    ensures forall k | k in merged :: k in WithDefaults(merged, top) && WithDefaults(merged, top)[k] == merged[k]
    ensures forall k | k in WithDefaults(merged, top) && k !in merged :: k.Model? || k.OcrProvider?
    ensures RequestedModel in top ==> Model in WithDefaults(merged, top)
    ensures OcrProvider in top ==> OcrProvider in WithDefaults(merged, top)
  {
  }

  lemma DefaultNames(k: Key)
    requires k.Model? || k.OcrProvider?
    ensures BehaviorAlias(k) == k && IsBehavior(k)
  {
  }

  /** Fields that are not in the given configuration have their canonical name. */
  lemma BehaviorKeys(p: Policies, init: map<Key, Value>, source: map<Key, Value>, names: seq<Key>,
                     merged: map<Key, Value>, top: map<Key, Value>, config: seq<Key>)
    requires IsMerge(p, init, source, names, BehaviorTarget, merged) && Each(config, init.Keys)
    ensures forall k | k in WithDefaults(merged, top) && k !in config :: BehaviorAlias(k) == k
    ensures forall k | k in config :: k in WithDefaults(merged, top)
  {
    hide IsMerge, WithDefaults, BehaviorAlias, IsBehavior;
    DefaultsKeep(merged, top);
    forall k
      ensures k in WithDefaults(merged, top) && k !in config ==> BehaviorAlias(k) == k
      ensures k in config ==> k in WithDefaults(merged, top)
    {
      AddedIsCanonical(p, init, source, names, merged, k);
      if k.Model? || k.OcrProvider? {
        DefaultNames(k);
      }
    }
  }

  // ---------- the whole canonicalisation ----------

  /** `canonical_candidate_factors`, with every intermediate result. */
  method Canonicalize(p: Policies, c: map<Key, Value>, o: Visit) returns (r: Option<Run>)
    requires Equality(p) && Visits(c, o)
    ensures r.Some? ==> IsRun(p, c, o, r.value)
    ensures r.None? ==> forall run :: !IsRun(p, c, o, run)
  {
    hide IsMerge, IsBehaviorOf, BehaviorOk, Polish, Factors, BehaviorInit, WithDefaults, Mergeable, Refused,
         VersionAccepted, Source, Configured, Each;
    var source := Source(c);
    forall run | IsRun(p, c, o, run)
      ensures Mergeable(p, map[], source, o.order, TopTarget)
      ensures Mergeable(p, BehaviorInit(run.top).value, source, o.names, BehaviorTarget)
    {
      RunMergeable(p, c, o, run);
    }
    if RetentionDays in source || !VersionAccepted(p, c) || exists k | k in source :: Refused(k) {
      return None;
    }
    var top := MergeAll(p, map[], source, o.order, TopTarget);
    if top.None? {
      return None;
    }
    forall run | IsRun(p, c, o, run)
      ensures run.top == top.value
    {
      MergeUnique(p, map[], source, o.order, TopTarget, run.top, top.value);
    }
    r := FinishRun(p, c, o, top.value);
  }

  method FinishRun(p: Policies, c: map<Key, Value>, o: Visit, top: map<Key, Value>) returns (r: Option<Run>)
    requires Equality(p) && Visits(c, o)
    requires Admitted(p, c) && IsMerge(p, map[], Source(c), o.order, TopTarget, top)
    ensures r.Some? ==> IsRun(p, c, o, r.value)
    ensures r.None? ==> forall run: Run | run.top == top :: !IsRun(p, c, o, run)
  {
    hide IsMerge, IsBehaviorOf, BehaviorOk, Polish, Factors, BehaviorInit, WithDefaults, Mergeable, Admitted, Source,
         Configured, Each;
    var init := BehaviorInit(top);
    if init.None? {
      return None;
    }
    GivenConfiguration(p, c, o.order, top);
    forall run: Run | run.top == top && IsRun(p, c, o, run)
      ensures Mergeable(p, init.value, Source(c), o.names, BehaviorTarget)
    {
      RunMergeable(p, c, o, run);
    }
    var merged := MergeAll(p, init.value, Source(c), o.names, BehaviorTarget);
    if merged.None? {
      return None;
    }
    forall run: Run | run.top == top && IsRun(p, c, o, run)
      ensures run.merged == merged.value
    {
      MergeUnique(p, init.value, Source(c), o.names, BehaviorTarget, run.merged, merged.value);
    }
    BehaviorKeys(p, init.value, Source(c), o.names, merged.value, top, o.config);
    var behavior := WithDefaults(merged.value, top);
    var canonical := CanonicalBehavior(p, behavior, o.config);
    if canonical.None? {
      return None;
    }
    forall run: Run | run.top == top && IsRun(p, c, o, run)
      ensures run.canonical == canonical.value
    {
      BehaviorUnique(behavior, o.config, run.canonical, canonical.value);
    }
    var polished := Polish(p, top[BehaviorConfiguration := Object(canonical.value)]);
    if polished.None? {
      return None;
    }
    r := Some(Run(top, merged.value, canonical.value, polished.value, Factors(p, c, polished.value)));
  }
}

/**
 The semantic scorer and the hard gate (evals/model_scorers.py, evals/model_results.py): critical failures are found
 once directly and once more from the reduced evidence that is stored with the score. The text matchers are inputs.
 */
module ScorerGate {
  import opened Wrappers
  import opened Collections

  datatype Code =
    | SilentRegionOmission | CriticalNumericMismatch | CriticalModalityMismatch | ScorerSourceBindingFailure
    | UnexpectedHangul | UnsupportedExecutiveClaim | TableCellSemanticFailure | TableCardinalityMismatch
    | TableHeaderSemanticFailure | VisualRelationOmission | MaterialUnresolvedMissed | ProcessRelationMismatch
    | CrossSlideTermInconsistency | MissingTable(tableId: string) | MissingCell(cellId: string)
    | MissingClaim(kind: string) | WrongSemantics(kind: string) | OtherCode(name: string)

  datatype Region = Region(id: string, required: bool, needsReview: bool)
  datatype Cell = Cell(id: string, required: bool)
  datatype Table = Table(id: string, required: bool, cells: seq<Cell>)

  datatype PatchRegion = PatchRegion(id: string, unresolved: bool, hasReason: bool)
  datatype PatchCell = PatchCell(id: string, unresolved: bool)
  datatype PatchTable = PatchTable(id: string, cells: seq<PatchCell>)

  datatype Relation = Relation(from: string, to: string, kind: string)
  datatype Visual = Visual(sources: seq<string>, kind: string)

  /** An expected claim and a claim of the patch, both in lower case. */
  datatype Gold = Gold(kind: Option<string>, phrases: seq<string>)
  datatype Claim = Claim(kind: Option<string>, evidence: seq<string>, text: string)

  /** What the text matchers and binders report. */
  datatype Matches = Matches(
    facts: seq<(string, bool)>, modality: real, modalityUnbound: bool, hangul: seq<nat>, headerFailures: seq<string>,
    chartFailures: seq<Code>, processBinding: seq<Code>, relations: seq<Relation>, noncriticalUnbound: bool)

  datatype Scene = Scene(
    regions: seq<Region>, elements: seq<string>, tables: seq<Table>, golds: seq<Gold>,
    patchRegions: seq<PatchRegion>, patchTables: seq<PatchTable>, claims: seq<Claim>, visuals: seq<Visual>,
    matches: Matches)

  /** `hard_gate_evidence`; lists that are sorted sets are sets here. */
  datatype GateEvidence = GateEvidence(
    missingRegions: set<string>, numericMismatches: seq<string>, modality: real, modalityUnbound: bool,
    hangulCount: nat, claimCodes: set<Code>, unsupportedClaims: nat, duplicateRegions: set<string>,
    cardinality: bool, tableFailures: set<Code>, headerFailures: set<string>, chartFailures: set<Code>,
    processFailures: set<Code>, materialRequired: set<string>, materialObserved: set<string>, noncriticalUnbound: bool)

  // ---------- regions ----------

  function SourceRegions(regions: seq<Region>): set<string> {
    set r | r in regions && r.required :: r.id
  }

  /** The last item of the patch for a region; items without an identity are dropped. */
  function Translated(patchRegions: seq<PatchRegion>, id: string): Option<PatchRegion> {
    if patchRegions == [] then None
    else
      var last := patchRegions[|patchRegions| - 1];
      if last.id == id && id != "" then Some(last) else Translated(patchRegions[..|patchRegions| - 1], id)
  }

  predicate InvalidRegion(patchRegions: seq<PatchRegion>, id: string) {
    var item := Translated(patchRegions, id);
    item.None? || (item.value.unresolved && !item.value.hasReason)
  }

  function InvalidRegions(s: Scene): (invalid: set<string>)
    ensures invalid <= SourceRegions(s.regions)
  {
    set id | id in SourceRegions(s.regions) && InvalidRegion(s.patchRegions, id)
  }

  function Coverage(s: Scene): real {
    var required := |SourceRegions(s.regions)|;
    (required - |InvalidRegions(s)|) as real / (if required == 0 then 1 else required) as real
  }

  lemma SubsetSize<T>(a: set<T>, b: set<T>)
    requires a <= b
    ensures |a| <= |b|
  {
    assert b == a + (b - a);
  }

  lemma Quotient(a: nat, b: nat)
    requires a <= b && b > 0
    ensures a as real / b as real <= 1.0
    ensures a as real / b as real < 1.0 <==> a < b
  {
    var q := a as real / b as real;
    assert q * b as real == a as real;
  }

  /** Coverage falls short when a required region is missing, and also when no region is required at all. */
  lemma CoverageShort(s: Scene)
    ensures Coverage(s) < 1.0 <==> InvalidRegions(s) != {} || SourceRegions(s.regions) == {}
  {
    var required, invalid := SourceRegions(s.regions), InvalidRegions(s);
    SubsetSize(invalid, required);
    if required != {} {
      Quotient(|required| - |invalid|, |required|);
    }
  }

  function DuplicateRegions(patchRegions: seq<PatchRegion>): set<string> {
    set i, j | 0 <= i < j < |patchRegions| && patchRegions[i].id == patchRegions[j].id :: patchRegions[i].id
  }

  function UnresolvedIds(s: Scene): set<string> {
    (set r | r in s.patchRegions && r.unresolved && r.id != "" :: r.id)
    + (set t, c | t in s.patchTables && c in t.cells && c.unresolved && c.id != "" :: c.id)
  }

  function MaterialIds(s: Scene): set<string> {
    set r | r in s.regions && r.required && r.needsReview :: r.id
  }

  // ---------- tables ----------

  function FirstTable(patchTables: seq<PatchTable>, id: string, k: nat): (found: Option<PatchTable>)
    requires k <= |patchTables|
    ensures found.Some? ==> found.value in patchTables && found.value.id == id
    ensures found.None? ==> forall i | k <= i < |patchTables| :: patchTables[i].id != id
    decreases |patchTables| - k
  {
    if k == |patchTables| then None
    else if patchTables[k].id == id then Some(patchTables[k]) else FirstTable(patchTables, id, k + 1)
  }

  function ExpectedCells(table: Table): set<string> {
    set c | c in table.cells && c.required :: c.id
  }

  function ActualCells(s: Scene, table: Table): seq<PatchCell> {
    var found := FirstTable(s.patchTables, table.id, 0);
    if found.Some? then found.value.cells else []
  }

  function ActualIds(s: Scene, table: Table): set<string> {
    set c | c in ActualCells(s, table) :: c.id
  }

  predicate CellRepeated(cells: seq<PatchCell>) {
    exists i, j | 0 <= i < j < |cells| :: cells[i].id == cells[j].id
  }

  /** A missing, an extra or a repeated cell. */
  predicate CellsDiffer(s: Scene, table: Table) {
    ActualIds(s, table) != ExpectedCells(table) || CellRepeated(ActualCells(s, table))
  }

  /** The tables of the patch are not the required ones, one each. */
  predicate TablesDiffer(s: Scene) {
    || (exists i, j | 0 <= i < j < |s.patchTables| :: s.patchTables[i].id == s.patchTables[j].id)
    || (set t | t in s.patchTables :: t.id) != (set t | t in s.tables && t.required :: t.id)
  }

  /** What counts as a failure of the first `n` tables. */
  ghost predicate TableFailure(s: Scene, n: nat, code: Code)
    requires n <= |s.tables|
  {
    match code
    case TableCardinalityMismatch =>
      TablesDiffer(s) || exists t | 0 <= t < n :: s.tables[t].required && CellsDiffer(s, s.tables[t])
    case MissingTable(id) =>
      exists t | 0 <= t < n :: s.tables[t].required && s.tables[t].id == id && FirstTable(s.patchTables, id, 0).None?
    case MissingCell(id) =>
      exists t | 0 <= t < n ::
        s.tables[t].required && FirstTable(s.patchTables, s.tables[t].id, 0).Some?
        && id in ExpectedCells(s.tables[t]) - ActualIds(s, s.tables[t])
    case _ => false
  }

  ghost predicate Collects(s: Scene, n: nat, failures: seq<Code>)
    requires n <= |s.tables|
  {
    forall code :: code in failures <==> TableFailure(s, n, code)
  }

  /** The codes that one table adds. */
  ghost predicate OneTable(s: Scene, table: Table, code: Code) {
    table.required &&
    match code
    case TableCardinalityMismatch => CellsDiffer(s, table)
    case MissingTable(id) => table.id == id && FirstTable(s.patchTables, id, 0).None?
    case MissingCell(id) =>
      FirstTable(s.patchTables, table.id, 0).Some? && id in ExpectedCells(table) - ActualIds(s, table)
    case _ => false
  }

  lemma TableFailureStep(s: Scene, n: nat, code: Code)
    requires n < |s.tables|
    ensures TableFailure(s, n + 1, code) <==> TableFailure(s, n, code) || OneTable(s, s.tables[n], code)
  {
    hide CellsDiffer, TablesDiffer, FirstTable, ExpectedCells, ActualIds;
  }

  method CheckTable(s: Scene, table: Table) returns (failures: seq<Code>)
    ensures forall code :: code in failures <==> OneTable(s, table, code)
  {
    hide ActualCells, CellRepeated;
    failures := [];
    if !table.required {
      return;
    }
    var patchTable := FirstTable(s.patchTables, table.id, 0);
    var expected := ExpectedCells(table);
    var actual := ActualIds(s, table);
    var missing, extra := expected - actual, actual - expected;
    if missing != {} || extra != {} || CellRepeated(ActualCells(s, table)) {
      failures := [TableCardinalityMismatch];
    }
    if patchTable.None? {
      failures := failures + [MissingTable(table.id)];
      return;
    }
    ghost var before := failures;
    var rest := missing;
    while rest != {}
      invariant rest <= missing
      invariant forall code :: code in failures <==>
                  code in before || (code.MissingCell? && code.cellId in missing - rest)
      decreases rest
    {
      var id :| id in rest;
      failures := failures + [MissingCell(id)];
      rest := rest - {id};
    }
  }

  /** The loop over the tables. */
  method TableFailures(s: Scene) returns (failures: seq<Code>)
    ensures Collects(s, |s.tables|, failures)
  {
    hide TablesDiffer, OneTable, TableFailure;
    failures := if TablesDiffer(s) then [TableCardinalityMismatch] else [];
    NoTables(s);
    for n := 0 to |s.tables|
      invariant Collects(s, n, failures)
    {
      var more := CheckTable(s, s.tables[n]);
      forall code
        ensures TableFailure(s, n + 1, code) <==> TableFailure(s, n, code) || OneTable(s, s.tables[n], code)
      {
        TableFailureStep(s, n, code);
      }
      failures := failures + more;
    }
  }

  lemma NoTables(s: Scene)
    ensures Collects(s, 0, if TablesDiffer(s) then [TableCardinalityMismatch] else [])
  {
    hide TablesDiffer;
  }

  // ---------- process relations ----------

  predicate Observes(v: Visual, r: Relation) {
    v.kind == r.kind && (if |v.sources| <= 2 then v.sources else v.sources[..2]) == [r.from, r.to]
  }

  predicate Found(visuals: seq<Visual>, r: Relation) {
    exists v | v in visuals :: Observes(v, r)
  }

  function CountFound(visuals: seq<Visual>, relations: seq<Relation>, n: nat): (count: nat)
    requires n <= |relations|
    ensures count <= n
    ensures count == n <==> forall i | 0 <= i < n :: Found(visuals, relations[i])
  {
    if n == 0 then 0 else CountFound(visuals, relations, n - 1) + if Found(visuals, relations[n - 1]) then 1 else 0
  }

  /** `_process_relation_score`: full marks exactly when every expected relation is bound and observed. */
  method ProcessRelationScore(s: Scene) returns (score: real, failures: seq<Code>)
    ensures failures == ProcessFailures(s)
    ensures score < 1.0 <==> failures != []
    ensures failures == [] <==>
            s.matches.processBinding == [] && forall r | r in s.matches.relations :: Found(s.visuals, r)
  {
    hide Found;
    var expected := s.matches.relations;
    if s.matches.processBinding != [] {
      return 0.0, s.matches.processBinding + [ProcessRelationMismatch];
    }
    if expected == [] {
      return 1.0, [];
    }
    var matched: nat := 0;
    for i := 0 to |expected|
      invariant matched == CountFound(s.visuals, expected, i)
    {
      matched := matched + if Found(s.visuals, expected[i]) then 1 else 0;
    }
    failures := if matched == |expected| then [] else [ProcessRelationMismatch];
    Quotient(matched, |expected|);
    score := matched as real / |expected| as real;
    assert forall r | r in expected :: exists i :: 0 <= i < |expected| && expected[i] == r;
  }

  function ProcessFailures(s: Scene): seq<Code> {
    if s.matches.processBinding != [] then s.matches.processBinding + [ProcessRelationMismatch]
    else if CountFound(s.visuals, s.matches.relations, |s.matches.relations|) == |s.matches.relations| then []
    else [ProcessRelationMismatch]
  }

  // ---------- executive claims ----------

  /** Everything of the work unit that a claim may cite. */
  function KnownIds(s: Scene): set<string> {
    (set r | r in s.regions :: r.id) + Members(s.elements) + (set t | t in s.tables :: t.id)
    + (set t, c | t in s.tables && c in t.cells :: c.id)
  }

  predicate Supported(s: Scene, claim: Claim) {
    Members(claim.evidence) * KnownIds(s) != {}
  }

  predicate Contains(text: string, phrase: string) {
    exists i | 0 <= i <= |text| :: phrase <= text[i..]
  }

  predicate Says(gold: Gold, claim: Claim) {
    gold.phrases == [] || exists phrase | phrase in gold.phrases :: Contains(claim.text, phrase)
  }

  function Label(kind: Option<string>): string {
    if kind.Some? then kind.value else "claim"
  }

  /** Position of the first claim of a kind, or the number of claims. */
  function FirstClaim(claims: seq<Claim>, kind: Option<string>, k: nat): (first: nat)
    requires k <= |claims|
    ensures k <= first <= |claims|
    ensures first < |claims| ==> claims[first].kind == kind
    ensures forall i | k <= i < first :: claims[i].kind != kind
    decreases |claims| - k
  {
    if k == |claims| || claims[k].kind == kind then k else FirstClaim(claims, kind, k + 1)
  }

  /** The codes that one expected claim adds. */
  ghost predicate ClaimFault(s: Scene, gold: Gold, code: Code) {
    var first := FirstClaim(s.claims, gold.kind, 0);
    if first == |s.claims| then code == MissingClaim(Label(gold.kind))
    else
      || (code == UnsupportedExecutiveClaim && !Supported(s, s.claims[first]))
      || (code == WrongSemantics(Label(gold.kind)) && !Says(gold, s.claims[first]))
  }

  /** Some claim answers the expected one and no earlier claim is of its kind. */
  ghost predicate Answered(s: Scene, gold: Gold) {
    exists i | 0 <= i < |s.claims| ::
      && s.claims[i].kind == gold.kind && Supported(s, s.claims[i]) && Says(gold, s.claims[i])
      && forall j | 0 <= j < i :: s.claims[j].kind != gold.kind
  }

  ghost predicate ClaimFailure(s: Scene, n: nat, code: Code)
    requires n <= |s.golds|
  {
    exists i | 0 <= i < n :: ClaimFault(s, s.golds[i], code)
  }

  /** How many faults the first `n` expected claims have. */
  function FaultCount(s: Scene, n: nat): nat
    requires n <= |s.golds|
  {
    if n == 0 then 0
    else
      var gold := s.golds[n - 1];
      var first := FirstClaim(s.claims, gold.kind, 0);
      FaultCount(s, n - 1) +
      if first == |s.claims| then 1
      else (if Supported(s, s.claims[first]) then 0 else 1) + if Says(gold, s.claims[first]) then 0 else 1
  }

  method CheckClaim(s: Scene, gold: Gold) returns (failures: seq<Code>)
    ensures forall code :: code in failures <==> ClaimFault(s, gold, code)
    ensures failures == [] <==> Answered(s, gold)
    ensures forall n | 0 <= n < |s.golds| && s.golds[n] == gold ::
              FaultCount(s, n + 1) == FaultCount(s, n) + |failures|
  {
    hide Supported, Says;
    failures := [];
    var first := FirstClaim(s.claims, gold.kind, 0);
    if first == |s.claims| {
      return [MissingClaim(Label(gold.kind))];
    }
    var claim := s.claims[first];
    if !Supported(s, claim) {
      failures := [UnsupportedExecutiveClaim];
    }
    if !Says(gold, claim) {
      failures := failures + [WrongSemantics(Label(gold.kind))];
    }
  }

  lemma ClaimStep(s: Scene, n: nat)
    requires n < |s.golds|
    ensures forall code :: ClaimFailure(s, n + 1, code) <==> ClaimFailure(s, n, code) || ClaimFault(s, s.golds[n], code)
  {
    hide ClaimFault;
  }

  function UnsupportedClaims(s: Scene, n: nat): (count: nat)
    requires n <= |s.claims|
    ensures count > 0 <==> exists i | 0 <= i < n :: !Supported(s, s.claims[i])
  {
    if n == 0 then 0 else UnsupportedClaims(s, n - 1) + if Supported(s, s.claims[n - 1]) then 0 else 1
  }

  /** `_claim_score`: no failure exactly when the first claim of each expected kind is supported and well worded. */
  method ClaimScore(s: Scene) returns (score: nat, failures: seq<Code>)
    ensures forall code :: code in failures <==> ClaimFailure(s, |s.golds|, code)
    ensures failures == [] <==> forall gold | gold in s.golds :: Answered(s, gold)
    ensures score == |failures| == FaultCount(s, |s.golds|)
    ensures UnsupportedExecutiveClaim in failures ==> UnsupportedClaims(s, |s.claims|) > 0
  {
    hide Answered, ClaimFault;
    failures := [];
    for n := 0 to |s.golds|
      invariant forall code :: code in failures <==> ClaimFailure(s, n, code)
      invariant failures == [] <==> forall i | 0 <= i < n :: Answered(s, s.golds[i])
      invariant |failures| == FaultCount(s, n)
    {
      var more := CheckClaim(s, s.golds[n]);
      ClaimStep(s, n);
      failures := failures + more;
    }
    assert forall gold | gold in s.golds :: exists i :: 0 <= i < |s.golds| && s.golds[i] == gold;
    score := |failures|;
    if UnsupportedExecutiveClaim in failures {
      FaultCounted(s);
    }
  }

  lemma FaultCounted(s: Scene)
    requires ClaimFailure(s, |s.golds|, UnsupportedExecutiveClaim)
    ensures UnsupportedClaims(s, |s.claims|) > 0
  {
    hide Supported, Says;
  }

  // ---------- the scorer ----------

  function Sum(counts: seq<nat>): nat {
    if counts == [] then 0 else Sum(counts[..|counts| - 1]) + counts[|counts| - 1]
  }

  lemma {:induction false} SumPositive(counts: seq<nat>)
    ensures Sum(counts) > 0 <==> exists c | c in counts :: c > 0
  {
    if counts != [] {
      var front, last := counts[..|counts| - 1], counts[|counts| - 1];
      SumPositive(front);
      assert counts == front + [last];
      if c :| c in front && c > 0 {
        assert c in counts;
      }
      if c :| c in counts && c > 0 {
        assert c in front || c == last;
      }
      assert last in counts;
    }
  }

  function Mismatches(facts: seq<(string, bool)>): seq<string> {
    if facts == [] then []
    else Mismatches(facts[..|facts| - 1]) + if facts[|facts| - 1].1 then [] else [facts[|facts| - 1].0]
  }

  lemma {:induction false} MismatchExists(facts: seq<(string, bool)>)
    ensures Mismatches(facts) != [] <==> exists f | f in facts :: !f.1
  {
    if facts != [] {
      MismatchExists(facts[..|facts| - 1]);
      assert facts == facts[..|facts| - 1] + [facts[|facts| - 1]];
    }
  }

  ghost predicate ContentFailure(s: Scene, code: Code) {
    match code
    case SilentRegionOmission => Coverage(s) < 1.0
    case CriticalNumericMismatch => exists f | f in s.matches.facts :: !f.1
    case CriticalModalityMismatch => s.matches.modality < 1.0
    case ScorerSourceBindingFailure => s.matches.modalityUnbound
    case UnexpectedHangul => exists c | c in s.matches.hangul :: c > 0
    case UnsupportedExecutiveClaim => exists c | c in s.claims :: !Supported(s, c)
    case _ => false
  }

  ghost predicate TableCritical(s: Scene, code: Code) {
    match code
    case TableCellSemanticFailure => exists c :: TableFailure(s, |s.tables|, c)
    case TableCardinalityMismatch => TableFailure(s, |s.tables|, TableCardinalityMismatch)
    case TableHeaderSemanticFailure => s.matches.headerFailures != []
    case _ => false
  }

  ghost predicate BindingFailure(s: Scene, code: Code) {
    match code
    case VisualRelationOmission => ProcessFailures(s) != []
    case MaterialUnresolvedMissed => MaterialIds(s) - UnresolvedIds(s) != {}
    case ScorerSourceBindingFailure => DuplicateRegions(s.patchRegions) != {} || s.matches.noncriticalUnbound
    case _ => false
  }

  /** A code is critical: the scorer's own list, code by code. */
  ghost predicate Critical(s: Scene, code: Code) {
    || ClaimFailure(s, |s.golds|, code) || code in s.matches.chartFailures || code in ProcessFailures(s)
    || ContentFailure(s, code) || TableCritical(s, code) || BindingFailure(s, code)
  }

  /** The evidence that is stored with the score. */
  ghost predicate Reduced(s: Scene, e: GateEvidence) {
    && e.missingRegions == InvalidRegions(s) && e.numericMismatches == Mismatches(s.matches.facts)
    && e.modality == s.matches.modality && e.modalityUnbound == s.matches.modalityUnbound
    && e.hangulCount == Sum(s.matches.hangul)
    && (forall code :: code in e.claimCodes <==> ClaimFailure(s, |s.golds|, code))
    && e.unsupportedClaims == UnsupportedClaims(s, |s.claims|) && e.duplicateRegions == DuplicateRegions(s.patchRegions)
    && (forall code :: code in e.tableFailures <==> TableFailure(s, |s.tables|, code))
    && (e.cardinality <==> TableCardinalityMismatch in e.tableFailures)
    && e.headerFailures == Members(s.matches.headerFailures)
    && e.chartFailures == Members(s.matches.chartFailures)
    && e.processFailures == Members(ProcessFailures(s))
    && e.materialRequired == MaterialIds(s) && e.materialObserved == MaterialIds(s) * UnresolvedIds(s)
    && e.noncriticalUnbound == s.matches.noncriticalUnbound
  }

  function Flag(condition: bool, code: Code): (codes: seq<Code>)
    ensures forall c :: c in codes <==> condition && c == code
  {
    if condition then [code] else []
  }

  method ContentFlags(s: Scene) returns (codes: seq<Code>)
    ensures forall code :: code in codes <==> ContentFailure(s, code)
  {
    hide Coverage, Flag, Supported;
    var m := s.matches;
    var unmatched := exists f | f in m.facts :: !f.1;
    var hangul := exists c | c in m.hangul :: c > 0;
    codes := Flag(Coverage(s) < 1.0, SilentRegionOmission) + Flag(unmatched, CriticalNumericMismatch);
    codes := codes + Flag(m.modality < 1.0, CriticalModalityMismatch);
    codes := codes + Flag(m.modalityUnbound, ScorerSourceBindingFailure);
    var unsupported := UnsupportedClaims(s, |s.claims|) > 0;
    codes := codes + Flag(hangul, UnexpectedHangul) + Flag(unsupported, UnsupportedExecutiveClaim);
    SomeUnsupported(s);
    ContentMeaning(s, unmatched, hangul);
  }

  lemma ContentMeaning(s: Scene, unmatched: bool, hangul: bool)
    requires unmatched <==> exists f | f in s.matches.facts :: !f.1
    requires hangul <==> exists c | c in s.matches.hangul :: c > 0
    ensures forall code :: ContentFailure(s, code) <==>
              || (code.SilentRegionOmission? && Coverage(s) < 1.0) || (code.CriticalNumericMismatch? && unmatched)
              || (code.CriticalModalityMismatch? && s.matches.modality < 1.0)
              || (code.ScorerSourceBindingFailure? && s.matches.modalityUnbound) || (code.UnexpectedHangul? && hangul)
              || (code.UnsupportedExecutiveClaim? && UnsupportedClaims(s, |s.claims|) > 0)
  {
    hide Coverage, Supported;
    SomeUnsupported(s);
  }

  lemma SomeUnsupported(s: Scene)
    ensures UnsupportedClaims(s, |s.claims|) > 0 <==> exists c | c in s.claims :: !Supported(s, c)
  {
    hide Supported;
    if c :| c in s.claims && !Supported(s, c) {
      assert exists i :: 0 <= i < |s.claims| && s.claims[i] == c;
    }
  }

  method TableFlags(s: Scene, tableFailures: seq<Code>) returns (codes: seq<Code>)
    requires Collects(s, |s.tables|, tableFailures)
    ensures forall code :: code in codes <==> TableCritical(s, code)
  {
    hide TableFailure, Flag;
    assert tableFailures != [] ==> tableFailures[0] in tableFailures;
    codes := Flag(tableFailures != [], TableCellSemanticFailure);
    codes := codes + Flag(TableCardinalityMismatch in tableFailures, TableCardinalityMismatch);
    codes := codes + Flag(s.matches.headerFailures != [], TableHeaderSemanticFailure);
  }

  method BindingFlags(s: Scene, processScore: real) returns (codes: seq<Code>)
    requires processScore < 1.0 <==> ProcessFailures(s) != []
    ensures forall code :: code in codes <==> BindingFailure(s, code)
  {
    hide ProcessFailures, MaterialIds, UnresolvedIds, DuplicateRegions, Flag;
    var falseResolved := MaterialIds(s) - UnresolvedIds(s);
    codes := Flag(processScore < 1.0, VisualRelationOmission);
    codes := codes + Flag(falseResolved != {}, MaterialUnresolvedMissed);
    codes := codes + Flag(DuplicateRegions(s.patchRegions) != {}, ScorerSourceBindingFailure);
    codes := codes + Flag(s.matches.noncriticalUnbound, ScorerSourceBindingFailure);
  }

  method Reduce(s: Scene, claimCodes: seq<Code>, tableFailures: seq<Code>, processFailures: seq<Code>)
    returns (e: GateEvidence)
    requires forall code :: code in claimCodes <==> ClaimFailure(s, |s.golds|, code)
    requires Collects(s, |s.tables|, tableFailures) && processFailures == ProcessFailures(s)
    ensures Reduced(s, e)
  {
    hide TableFailure, ProcessFailures, MaterialIds, UnresolvedIds, DuplicateRegions, InvalidRegions, Sum, Mismatches,
         ClaimFailure, Supported;
    var m := s.matches;
    e := GateEvidence(
      InvalidRegions(s), Mismatches(m.facts), m.modality, m.modalityUnbound, Sum(m.hangul), Members(claimCodes),
      UnsupportedClaims(s, |s.claims|), DuplicateRegions(s.patchRegions), TableCardinalityMismatch in tableFailures,
      Members(tableFailures), Members(m.headerFailures), Members(m.chartFailures), Members(processFailures),
      MaterialIds(s), MaterialIds(s) * UnresolvedIds(s), m.noncriticalUnbound);
  }

  /** `score_translation_patch`: the critical failures and the evidence for the gate. */
  method ScoreTranslationPatch(s: Scene) returns (critical: seq<Code>, e: GateEvidence)
    ensures forall code :: code in critical <==> Critical(s, code)
    ensures Reduced(s, e)
  {
    hide Reduced, ContentFailure, TableCritical, BindingFailure, TableFailure, ProcessFailures, Collects;
    var _, claimCodes := ClaimScore(s);
    var tableFailures := TableFailures(s);
    var processScore, processFailures := ProcessRelationScore(s);
    var content := ContentFlags(s);
    var table := TableFlags(s, tableFailures);
    var binding := BindingFlags(s, processScore);
    critical := claimCodes + content + table + s.matches.chartFailures + processFailures + binding;
    e := Reduce(s, claimCodes, tableFailures, processFailures);
  }

  // ---------- the gate ----------

  predicate TableLocal(code: Code) {
    code.MissingTable? || code.MissingCell?
  }

  ghost predicate ContentCode(e: GateEvidence, code: Code) {
    match code
    case SilentRegionOmission => e.missingRegions != {}
    case CriticalNumericMismatch => e.numericMismatches != []
    case CriticalModalityMismatch => e.modality < 1.0
    case ScorerSourceBindingFailure => e.modalityUnbound || e.noncriticalUnbound || e.duplicateRegions != {}
    case UnexpectedHangul => e.hangulCount > 0
    case UnsupportedExecutiveClaim => e.unsupportedClaims > 0
    case _ => false
  }

  ghost predicate TableCode(e: GateEvidence, code: Code) {
    || (code in e.tableFailures && TableLocal(code))
    || match code
       case TableCardinalityMismatch => e.cardinality || TableCardinalityMismatch in e.tableFailures
       case TableCellSemanticFailure => e.tableFailures != {}
       case TableHeaderSemanticFailure => e.headerFailures != {}
       case _ => false
  }

  ghost predicate BindingCode(e: GateEvidence, code: Code) {
    match code
    case VisualRelationOmission => e.processFailures != {}
    case MaterialUnresolvedMissed => e.materialRequired - e.materialObserved != {}
    case _ => false
  }

  /** `_scorer_gate_codes`: what the stored evidence says again. */
  ghost predicate GateCode(e: GateEvidence, code: Code) {
    || code in e.claimCodes || code in e.chartFailures || code in e.processFailures
    || ContentCode(e, code) || TableCode(e, code) || BindingCode(e, code)
  }

  function FlagSet(condition: bool, code: Code): (codes: set<Code>)
    ensures forall c :: c in codes <==> condition && c == code
  {
    if condition then {code} else {}
  }

  method ContentCodes(e: GateEvidence) returns (codes: set<Code>)
    ensures forall code :: code in codes <==> ContentCode(e, code)
  {
    hide FlagSet;
    codes := FlagSet(e.missingRegions != {}, SilentRegionOmission);
    codes := codes + FlagSet(e.numericMismatches != [], CriticalNumericMismatch);
    codes := codes + FlagSet(e.modality < 1.0, CriticalModalityMismatch);
    codes := codes + FlagSet(e.modalityUnbound || e.noncriticalUnbound || e.duplicateRegions != {},
                             ScorerSourceBindingFailure);
    codes := codes + FlagSet(e.hangulCount > 0, UnexpectedHangul);
    codes := codes + FlagSet(e.unsupportedClaims > 0, UnsupportedExecutiveClaim);
  }

  method TableCodes(e: GateEvidence) returns (codes: set<Code>)
    ensures forall code :: code in codes <==> TableCode(e, code)
  {
    hide FlagSet, TableLocal;
    codes := FlagSet(e.cardinality, TableCardinalityMismatch);
    if e.tableFailures != {} {
      codes := codes + FlagSet(true, TableCellSemanticFailure);
      codes := codes + FlagSet(TableCardinalityMismatch in e.tableFailures, TableCardinalityMismatch);
      codes := codes + set code | code in e.tableFailures && TableLocal(code);
    }
    codes := codes + FlagSet(e.headerFailures != {}, TableHeaderSemanticFailure);
  }

  method ScorerGateCodes(e: GateEvidence) returns (codes: set<Code>)
    ensures forall code :: code in codes <==> GateCode(e, code)
  {
    hide FlagSet, ContentCode, TableCode;
    codes := ContentCodes(e);
    codes := codes + e.claimCodes;
    var table := TableCodes(e);
    codes := codes + table + e.chartFailures + e.processFailures;
    codes := codes + FlagSet(e.processFailures != {}, VisualRelationOmission);
    codes := codes + FlagSet(e.materialRequired - e.materialObserved != {}, MaterialUnresolvedMissed);
  }

  lemma SetOfSeq<T>(s: seq<T>)
    ensures Members(s) != {} <==> s != []
  {
    if s != [] {
      assert s[0] in Members(s);
    }
  }

  lemma SomeFailure(s: Scene, e: GateEvidence)
    requires Reduced(s, e)
    ensures e.tableFailures != {} <==> exists c :: TableFailure(s, |s.tables|, c)
  {
    hide TableFailure, ProcessFailures, MaterialIds, UnresolvedIds, DuplicateRegions, InvalidRegions, Sum, Mismatches,
         ClaimFailure, Supported;
  }

  lemma UnresolvedMissed(a: set<string>, b: set<string>)
    ensures a - a * b == a - b
  {
  }

  /** The table failures that name a table or a cell. */
  ghost predicate LocalFailure(s: Scene, code: Code) {
    TableFailure(s, |s.tables|, code) && TableLocal(code)
  }

  /** Scene without required regions: the scorer calls it an omission, the evidence does not show one. */
  predicate NothingRequired(s: Scene) {
    SourceRegions(s.regions) == {}
  }

  /**
   The gate finds the scorer's critical failures again, and beside them exactly the table failures that name a table
   or a cell; only the omission reported when no region is required at all has to be added back.
   */
  lemma GateAgrees(s: Scene, e: GateEvidence, code: Code)
    requires Reduced(s, e)
    ensures GateCode(e, code) || (NothingRequired(s) && code.SilentRegionOmission?) <==>
            Critical(s, code) || LocalFailure(s, code)
  {
    hide Reduced, ContentCode, TableCode, BindingCode, ContentFailure, TableCritical, BindingFailure, LocalFailure,
         NothingRequired, ProcessFailures;
    ListsAgree(s, e, code);
    ContentAgrees(s, e, code);
    TablesAgree(s, e, code);
  }

  lemma ListsAgree(s: Scene, e: GateEvidence, code: Code)
    requires Reduced(s, e)
    ensures code in e.claimCodes || code in e.chartFailures || code in e.processFailures <==>
            ClaimFailure(s, |s.golds|, code) || code in s.matches.chartFailures || code in ProcessFailures(s)
  {
    hide TableFailure, ProcessFailures, MaterialIds, UnresolvedIds, DuplicateRegions, InvalidRegions, Sum, Mismatches,
         ClaimFailure, Supported;
  }

  lemma ContentAgrees(s: Scene, e: GateEvidence, code: Code)
    requires Reduced(s, e)
    ensures ContentCode(e, code) || BindingCode(e, code) || (NothingRequired(s) && code.SilentRegionOmission?) <==>
            ContentFailure(s, code) || BindingFailure(s, code)
  {
    hide TableFailure, ProcessFailures, MaterialIds, UnresolvedIds, DuplicateRegions, InvalidRegions, Sum, Mismatches,
         ClaimFailure, Supported, Coverage, SourceRegions;
    CoverageShort(s);
    MismatchExists(s.matches.facts);
    SumPositive(s.matches.hangul);
    SomeUnsupported(s);
    SetOfSeq(ProcessFailures(s));
    UnresolvedMissed(MaterialIds(s), UnresolvedIds(s));
  }

  lemma TablesAgree(s: Scene, e: GateEvidence, code: Code)
    requires Reduced(s, e)
    ensures TableCode(e, code) <==> TableCritical(s, code) || LocalFailure(s, code)
  {
    hide TableFailure, ProcessFailures, MaterialIds, UnresolvedIds, DuplicateRegions, InvalidRegions, Sum, Mismatches,
         ClaimFailure, Supported;
    SetOfSeq(s.matches.headerFailures);
    SomeFailure(s, e);
  }

  /** The omission is reported for another reason: by the chart matcher or the binder of process relations. */
  predicate OmissionMatched(s: Scene) {
    SilentRegionOmission in s.matches.chartFailures || SilentRegionOmission in s.matches.processBinding
  }

  lemma OmissionInGate(s: Scene, e: GateEvidence)
    requires Reduced(s, e) && NothingRequired(s)
    ensures GateCode(e, SilentRegionOmission) <==> OmissionMatched(s)
  {
    hide TableFailure, MaterialIds, UnresolvedIds, DuplicateRegions, Sum, Mismatches, Supported, CountFound;
  }

  /** The two lists agree exactly when some region is required, or a matcher reports an omission anyway. */
  lemma GateAgreesExactly(s: Scene, e: GateEvidence)
    requires Reduced(s, e)
    ensures (forall code :: GateCode(e, code) <==> Critical(s, code) || LocalFailure(s, code)) <==>
            !NothingRequired(s) || OmissionMatched(s)
  {
    hide Reduced, GateCode, Critical, LocalFailure, NothingRequired, OmissionMatched;
    forall code
      ensures GateCode(e, code) || (NothingRequired(s) && code.SilentRegionOmission?) <==>
              Critical(s, code) || LocalFailure(s, code)
    {
      GateAgrees(s, e, code);
    }
    if NothingRequired(s) {
      OmissionInGate(s, e);
    }
  }

  /** A work unit with an optional region only, and nothing else to score. */
  function OptionalOnly(): Scene {
    Scene([Region("r1", false, false)], [], [], [], [], [], [], [],
          Matches([], 1.0, false, [], [], [], [], [], false))
  }

  /** The scorer fails such a unit for an omission, and no gate code says so. */
  lemma OptionalOnlyDiffers(e: GateEvidence)
    requires Reduced(OptionalOnly(), e)
    ensures Critical(OptionalOnly(), SilentRegionOmission) && forall code :: !GateCode(e, code)
  {
    hide Reduced, GateCode, Critical;
    var s := OptionalOnly();
    OptionalOnlyScore();
    forall code
      ensures !GateCode(e, code)
    {
      GateAgrees(s, e, code);
      if code.SilentRegionOmission? {
        OmissionInGate(s, e);
      }
    }
  }

  lemma OptionalOnlyScore()
    ensures NothingRequired(OptionalOnly()) && !OmissionMatched(OptionalOnly())
    ensures forall code :: Critical(OptionalOnly(), code) <==> code.SilentRegionOmission?
    ensures forall code :: !LocalFailure(OptionalOnly(), code)
  {
    var s := OptionalOnly();
    CoverageShort(s);
    forall code
      ensures !TableFailure(s, 0, code)
    {
    }
  }

  /**
   What the scorer returns and what the gate finds in the evidence it stored: the same codes, but for the tables and
   cells that the gate names, and the omission reported when no region is required and no matcher reports one.
   */
  method ScoreThenGate(s: Scene) returns (critical: seq<Code>, gate: set<Code>)
    ensures forall code | !TableLocal(code) && !code.SilentRegionOmission? :: code in critical <==> code in gate
    ensures forall code | code in critical :: code in gate || code.SilentRegionOmission?
    ensures forall code | TableLocal(code) :: code in gate <==> LocalFailure(s, code) || code in critical
    ensures SilentRegionOmission in critical && SilentRegionOmission !in gate <==>
            NothingRequired(s) && !OmissionMatched(s)
    ensures critical == [] ==> gate == {}
  {
    hide Reduced, GateCode, Critical, NothingRequired, TableFailure, OmissionMatched;
    var e;
    critical, e := ScoreTranslationPatch(s);
    gate := ScorerGateCodes(e);
    forall code
      ensures GateCode(e, code) || (NothingRequired(s) && code.SilentRegionOmission?) <==>
              Critical(s, code) || LocalFailure(s, code)
    {
      GateAgrees(s, e, code);
    }
    if NothingRequired(s) {
      OmissionInGate(s, e);
    }
    LocalFailureIsCritical(s);
  }

  /** A table failure that names a table or a cell makes the unit fail for its tables. */
  lemma LocalFailureIsCritical(s: Scene)
    ensures forall code :: LocalFailure(s, code) ==> Critical(s, TableCellSemanticFailure)
  {
    hide TableFailure, ClaimFailure, ProcessFailures;
  }

  // ---------- findings of a case ----------

  datatype Unit = Unit(id: string, critical: seq<Code>, evidence: Option<GateEvidence>)

  /** `runtime` are the codes that structured runtime facts of the case add. */
  datatype Row = Row(units: seq<Unit>, caseCritical: seq<Code>, inconsistentAlternates: nat, runtime: set<Code>)

  /** A finding is determined by its code and the work unit it is about. */
  type Finding = (Code, Option<string>)

  function UnitKey(unit: Unit): Option<string> {
    if unit.id == "" then None else Some(unit.id)
  }

  ghost predicate UnitCode(unit: Unit, code: Code) {
    code in unit.critical || (unit.evidence.Some? && GateCode(unit.evidence.value, code))
  }

  ghost predicate SomeUnitCode(row: Row, n: nat, code: Code)
    requires n <= |row.units|
  {
    exists i | 0 <= i < n :: UnitCode(row.units[i], code)
  }

  ghost predicate UnitFinding(row: Row, n: nat, f: Finding)
    requires n <= |row.units|
  {
    exists i | 0 <= i < n :: f.1 == UnitKey(row.units[i]) && UnitCode(row.units[i], f.0)
  }

  /** Codes of the case as a whole that no unit accounts for, and runtime codes. */
  ghost predicate CaseFinding(row: Row, f: Finding) {
    && f.1.None?
    && (f.0 in row.runtime
        || ((f.0 in row.caseCritical || (f.0.CrossSlideTermInconsistency? && row.inconsistentAlternates > 0))
            && !SomeUnitCode(row, |row.units|, f.0)))
  }

  method UnitCodes(unit: Unit) returns (codes: set<Code>)
    ensures forall code :: code in codes <==> UnitCode(unit, code)
  {
    hide GateCode;
    codes := Members(unit.critical);
    if unit.evidence.Some? {
      var gate := ScorerGateCodes(unit.evidence.value);
      codes := codes + gate;
    }
  }

  lemma UnitStep(row: Row, n: nat)
    requires n < |row.units|
    ensures forall code ::
              SomeUnitCode(row, n + 1, code) <==> SomeUnitCode(row, n, code) || UnitCode(row.units[n], code)
    ensures forall f :: UnitFinding(row, n + 1, f) <==>
              UnitFinding(row, n, f) || (f.1 == UnitKey(row.units[n]) && UnitCode(row.units[n], f.0))
  {
    hide UnitCode, UnitKey;
  }

  /** `derive_result_hard_gate_findings`, with the runtime facts reduced to the codes they add. */
  method DeriveFindings(row: Row) returns (findings: set<Finding>)
    ensures forall f :: f in findings <==> UnitFinding(row, |row.units|, f) || CaseFinding(row, f)
  {
    hide UnitCode, UnitKey, SomeUnitCode, UnitFinding, GateCode;
    findings := {};
    var unitCodes: set<Code> := {};
    NoUnits(row);
    for n := 0 to |row.units|
      invariant forall code :: code in unitCodes <==> SomeUnitCode(row, n, code)
      invariant forall f :: f in findings <==> UnitFinding(row, n, f)
    {
      var unit := row.units[n];
      var codes := UnitCodes(unit);
      UnitStep(row, n);
      unitCodes := unitCodes + codes;
      findings := findings + set code | code in codes :: (code, UnitKey(unit));
    }
    var semanticCodes := unitCodes + Members(row.caseCritical);
    semanticCodes := semanticCodes + FlagSet(row.inconsistentAlternates > 0, CrossSlideTermInconsistency);
    findings := findings + set code | code in semanticCodes - unitCodes :: (code, None);
    findings := findings + set code | code in row.runtime :: (code, None);
  }

  lemma NoUnits(row: Row)
    ensures forall code :: !SomeUnitCode(row, 0, code)
    ensures forall f :: !UnitFinding(row, 0, f)
  {
  }

  /** A row without findings has no critical failure anywhere, in any unit or in the case, and no gate code. */
  lemma NoFindings(row: Row)
    ensures (forall f :: !UnitFinding(row, |row.units|, f) && !CaseFinding(row, f)) <==>
            && (forall i, code | 0 <= i < |row.units| :: !UnitCode(row.units[i], code))
            && row.caseCritical == [] && row.inconsistentAlternates == 0 && row.runtime == {}
  {
    hide UnitCode, UnitKey;
    if forall f :: !UnitFinding(row, |row.units|, f) && !CaseFinding(row, f) {
      forall i, code | 0 <= i < |row.units|
        ensures !UnitCode(row.units[i], code)
      {
        assert !UnitFinding(row, |row.units|, (code, UnitKey(row.units[i])));
      }
      assert forall code :: !CaseFinding(row, (code, None));
      assert forall code :: !SomeUnitCode(row, |row.units|, code);
      assert forall code | code in row.caseCritical :: CaseFinding(row, (code, None));
      NoMembers(row.caseCritical);
      assert row.inconsistentAlternates > 0 ==> CaseFinding(row, (CrossSlideTermInconsistency, None));
      assert forall code | code in row.runtime :: CaseFinding(row, (code, None));
    }
  }

  lemma NoMembers<T>(s: seq<T>)
    ensures s == [] <==> forall x | x in s :: false
  {
    assert s != [] ==> s[0] in s;
  }

  /** For a scored unit, the codes of the case are its critical failures and the tables and cells they name. */
  lemma ScoredUnit(s: Scene, unit: Unit, code: Code)
    requires unit.evidence.Some? && Reduced(s, unit.evidence.value)
    requires forall c :: c in unit.critical <==> Critical(s, c)
    ensures UnitCode(unit, code) <==> Critical(s, code) || LocalFailure(s, code)
  {
    hide Reduced, GateCode, Critical, NothingRequired, TableFailure;
    GateAgrees(s, unit.evidence.value, code);
  }
}

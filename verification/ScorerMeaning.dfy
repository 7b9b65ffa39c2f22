/**
 The critical failures of the scorer, on the lists of the scene: which regions, tables, cells, relations and claims
 each code is about.
 */
module ScorerMeaning {
  import opened Wrappers
  import opened Collections
  import opened ScorerGate

  // ---------- regions ----------

  /** No item of the patch has the identity, or the last one that has it is unresolved without a reason. */
  ghost predicate LeftOut(items: seq<PatchRegion>, id: string) {
    || id == ""
    || (forall item | item in items :: item.id != id)
    || exists k: nat :: LastOf(items, id, k) && items[k].unresolved && !items[k].hasReason
  }

  ghost predicate LastOf(items: seq<PatchRegion>, id: string, k: nat) {
    k < |items| && items[k].id == id && forall j | k < j < |items| :: items[j].id != id
  }

  lemma {:induction false} TranslatedMeaning(items: seq<PatchRegion>, id: string)
    ensures Translated(items, id).None? <==> id == "" || forall item | item in items :: item.id != id
    ensures forall k: nat | LastOf(items, id, k) && id != "" :: Translated(items, id) == Some(items[k])
  {
    if items != [] {
      var front, last := items[..|items| - 1], items[|items| - 1];
      assert items == front + [last];
      TranslatedMeaning(front, id);
      forall k: nat | LastOf(items, id, k) && id != ""
        ensures Translated(items, id) == Some(items[k])
      {
        if k < |front| {
          assert items[|front|].id != id;
          assert forall j | k < j < |front| :: front[j] == items[j];
          assert LastOf(front, id, k);
        }
      }
    }
  }

  lemma {:induction false} SomeLast(items: seq<PatchRegion>, id: string) returns (k: nat)
    requires exists item | item in items :: item.id == id
    ensures LastOf(items, id, k)
  {
    var front, last := items[..|items| - 1], items[|items| - 1];
    assert items == front + [last];
    if last.id == id {
      k := |front|;
    } else {
      k := SomeLast(front, id);
    }
  }

  lemma LeftOutMeaning(items: seq<PatchRegion>, id: string)
    ensures InvalidRegion(items, id) <==> LeftOut(items, id)
  {
    hide Translated, LastOf;
    TranslatedMeaning(items, id);
    if exists item | item in items :: item.id == id {
      var k := SomeLast(items, id);
      assert LastOf(items, id, k);
      forall j: nat | LastOf(items, id, j)
        ensures j == k
      {
        SameLast(items, id, j, k);
      }
    } else {
      assert forall k: nat :: !LastOf(items, id, k) by { NoLast(items, id); }
    }
  }

  lemma SameLast(items: seq<PatchRegion>, id: string, j: nat, k: nat)
    requires LastOf(items, id, j) && LastOf(items, id, k)
    ensures j == k
  {
  }

  lemma NoLast(items: seq<PatchRegion>, id: string)
    requires forall item | item in items :: item.id != id
    ensures forall k: nat :: !LastOf(items, id, k)
  {
  }

  ghost predicate SomethingRequired(s: Scene) {
    exists r | r in s.regions :: r.required
  }

  /** Some required region is left out. */
  ghost predicate Omits(s: Scene) {
    exists r | r in s.regions :: r.required && LeftOut(s.patchRegions, r.id)
  }

  lemma OmitsMeaning(s: Scene)
    ensures InvalidRegions(s) != {} <==> Omits(s)
    ensures NothingRequired(s) <==> !SomethingRequired(s)
    ensures forall id :: id in InvalidRegions(s) <==>
                         exists r | r in s.regions :: r.required && r.id == id && LeftOut(s.patchRegions, id)
  {
    hide InvalidRegion, LeftOut;
    forall id
      ensures InvalidRegion(s.patchRegions, id) <==> LeftOut(s.patchRegions, id)
    {
      LeftOutMeaning(s.patchRegions, id);
    }
    if r :| r in s.regions && r.required && LeftOut(s.patchRegions, r.id) {
      assert r.id in InvalidRegions(s);
    }
    if r :| r in s.regions && r.required {
      assert r.id in SourceRegions(s.regions);
    }
  }

  /** Some region or cell of the patch with the identity is marked as unresolved. */
  ghost predicate Unresolved(s: Scene, id: string) {
    && id != ""
    && ((exists item | item in s.patchRegions :: item.unresolved && item.id == id)
        || exists t, cell | t in s.patchTables && cell in t.cells :: cell.unresolved && cell.id == id)
  }

  /** A required region needs review, and the patch nowhere marks it as unresolved. */
  ghost predicate HidesMaterial(s: Scene) {
    exists r | r in s.regions :: r.required && r.needsReview && !Unresolved(s, r.id)
  }

  lemma UnresolvedMeaning(s: Scene, id: string)
    ensures id in UnresolvedIds(s) <==> Unresolved(s, id)
  {
  }

  lemma MaterialMeaning(s: Scene)
    ensures MaterialIds(s) - UnresolvedIds(s) != {} <==> HidesMaterial(s)
  {
    hide UnresolvedIds, Unresolved;
    forall id
      ensures id in UnresolvedIds(s) <==> Unresolved(s, id)
    {
      UnresolvedMeaning(s, id);
    }
    var missed := MaterialIds(s) - UnresolvedIds(s);
    if missed != {} {
      var id :| id in missed;
      var r :| r in s.regions && r.required && r.needsReview && r.id == id;
    }
    if r :| r in s.regions && r.required && r.needsReview && !Unresolved(s, r.id) {
      assert r.id in missed;
    }
  }

  ghost predicate RepeatsRegion(s: Scene) {
    exists i, j | 0 <= i < j < |s.patchRegions| :: s.patchRegions[i].id == s.patchRegions[j].id
  }

  lemma RepeatMeaning(s: Scene)
    ensures DuplicateRegions(s.patchRegions) != {} <==> RepeatsRegion(s)
  {
    var repeated := DuplicateRegions(s.patchRegions);
    if i, j :| 0 <= i < j < |s.patchRegions| && s.patchRegions[i].id == s.patchRegions[j].id {
      assert s.patchRegions[i].id in repeated;
    }
  }

  // ---------- tables ----------

  /** The cells that the first table of the patch with the identity of `table` gives; none without such a table. */
  ghost predicate Fills(s: Scene, table: Table, cells: seq<PatchCell>) {
    || ((forall t | t in s.patchTables :: t.id != table.id) && cells == [])
    || exists k: nat :: FirstOf(s.patchTables, table.id, k) && cells == s.patchTables[k].cells
  }

  ghost predicate FirstOf(tables: seq<PatchTable>, id: string, k: nat) {
    k < |tables| && tables[k].id == id && forall j | 0 <= j < k :: tables[j].id != id
  }

  lemma {:induction false} FirstMeaning(tables: seq<PatchTable>, id: string, k: nat)
    requires k <= |tables| && forall j | 0 <= j < k :: tables[j].id != id
    ensures FirstTable(tables, id, k).None? <==> forall t | t in tables :: t.id != id
    ensures FirstTable(tables, id, k).Some? ==>
              exists m: nat :: FirstOf(tables, id, m) && FirstTable(tables, id, k) == Some(tables[m])
    decreases |tables| - k
  {
    if k < |tables| {
      if tables[k].id == id {
        assert FirstOf(tables, id, k);
      } else {
        FirstMeaning(tables, id, k + 1);
      }
    }
  }

  lemma FillsMeaning(s: Scene, table: Table, cells: seq<PatchCell>)
    ensures Fills(s, table, cells) <==> cells == ActualCells(s, table)
  {
    hide FirstTable;
    FirstMeaning(s.patchTables, table.id, 0);
    assert forall m: nat, n: nat ::
        FirstOf(s.patchTables, table.id, m) && FirstOf(s.patchTables, table.id, n) ==> m == n;
  }

  /** A required cell is absent, a cell is not a required one, or a cell occurs twice. */
  ghost predicate Misfills(table: Table, cells: seq<PatchCell>) {
    || (exists c | c in table.cells :: c.required && forall p | p in cells :: p.id != c.id)
    || (exists p | p in cells :: forall c | c in table.cells :: c.required ==> c.id != p.id)
    || exists i, j | 0 <= i < j < |cells| :: cells[i].id == cells[j].id
  }

  lemma MisfillsMeaning(s: Scene, table: Table)
    ensures CellsDiffer(s, table) <==> Misfills(table, ActualCells(s, table))
  {
    hide ActualCells;
    var cells, expected, actual := ActualCells(s, table), ExpectedCells(table), ActualIds(s, table);
    forall id
      ensures id in expected <==> exists c | c in table.cells :: c.required && c.id == id
      ensures id in actual <==> exists p | p in cells :: p.id == id
    {
    }
    if actual != expected {
      var id := Difference(expected, actual);
      if id in expected {
        var c :| c in table.cells && c.required && c.id == id;
        assert forall p | p in cells :: p.id != c.id;
      } else {
        var p :| p in cells && p.id == id;
        assert forall c | c in table.cells :: c.required ==> c.id != p.id;
      }
    }
    if c :| c in table.cells && c.required && forall p | p in cells :: p.id != c.id {
      assert c.id in expected && c.id !in actual;
    }
    if p :| p in cells && forall c | c in table.cells :: c.required ==> c.id != p.id {
      assert p.id in actual && p.id !in expected;
    }
  }

  /** The tables of the patch are not the required ones, one each. */
  ghost predicate MistakesTables(s: Scene) {
    || (exists i, j | 0 <= i < j < |s.patchTables| :: s.patchTables[i].id == s.patchTables[j].id)
    || (exists p | p in s.patchTables :: forall t | t in s.tables :: t.required ==> t.id != p.id)
    || (exists t | t in s.tables :: t.required && forall p | p in s.patchTables :: p.id != t.id)
  }

  lemma Difference<T>(a: set<T>, b: set<T>) returns (x: T)
    requires a != b
    ensures x in a <==> x !in b
  {
    if y :| y in a && y !in b {
      x := y;
    } else {
      assert a <= b;
      x :| x in b && x !in a;
    }
  }

  lemma MistakesMeaning(s: Scene)
    ensures TablesDiffer(s) <==> MistakesTables(s)
  {
    var given, required := set t | t in s.patchTables :: t.id, set t | t in s.tables && t.required :: t.id;
    TableIds(s, given, required);
    if given != required {
      var id := Difference(given, required);
      if id in given {
        var p :| p in s.patchTables && p.id == id;
        assert forall t | t in s.tables :: t.required ==> t.id != p.id;
      } else {
        var t :| t in s.tables && t.required && t.id == id;
        assert forall p | p in s.patchTables :: p.id != t.id;
      }
    }
  }

  lemma TableIds(s: Scene, given: set<string>, required: set<string>)
    requires given == set t | t in s.patchTables :: t.id
    requires required == set t | t in s.tables && t.required :: t.id
    ensures forall id :: id in given <==> exists p | p in s.patchTables :: p.id == id
    ensures forall id :: id in required <==> exists t | t in s.tables :: t.required && t.id == id
    ensures forall p | p in s.patchTables :: p.id in given
    ensures forall t | t in s.tables && t.required :: t.id in required
  {
  }

  /** What the table codes are about. */
  ghost predicate TableFault(s: Scene, code: Code) {
    match code
    case TableCardinalityMismatch =>
      MistakesTables(s) || exists t, cells | t in s.tables :: t.required && Fills(s, t, cells) && Misfills(t, cells)
    case MissingTable(id) =>
      exists t | t in s.tables :: t.required && t.id == id && forall p | p in s.patchTables :: p.id != id
    case MissingCell(id) =>
      exists t, c, k: nat | t in s.tables && c in t.cells ::
        && t.required && c.required && c.id == id && FirstOf(s.patchTables, t.id, k)
        && k < |s.patchTables| && forall p | p in s.patchTables[k].cells :: p.id != id
    case _ => false
  }

  lemma CellFaultMeaning(s: Scene, t: Table, id: string)
    ensures FirstTable(s.patchTables, t.id, 0).Some? && id in ExpectedCells(t) - ActualIds(s, t) <==>
            exists c, k: nat | c in t.cells ::
              && c.required && c.id == id && FirstOf(s.patchTables, t.id, k)
              && k < |s.patchTables| && forall p | p in s.patchTables[k].cells :: p.id != id
  {
    hide FirstTable;
    FirstMeaning(s.patchTables, t.id, 0);
    assert forall m: nat, n: nat :: FirstOf(s.patchTables, t.id, m) && FirstOf(s.patchTables, t.id, n) ==> m == n;
    if FirstTable(s.patchTables, t.id, 0).Some? {
      var k: nat :| FirstOf(s.patchTables, t.id, k) && FirstTable(s.patchTables, t.id, 0) == Some(s.patchTables[k]);
      assert ActualCells(s, t) == s.patchTables[k].cells;
    }
  }

  lemma TableMeaning(s: Scene, code: Code)
    ensures TableFailure(s, |s.tables|, code) <==> TableFault(s, code)
  {
    hide FirstTable, ExpectedCells, ActualIds, CellsDiffer, TablesDiffer, MistakesTables, Fills, Misfills, FirstOf;
    assert forall t :: t in s.tables <==> exists i | 0 <= i < |s.tables| :: s.tables[i] == t;
    match code
    case TableCardinalityMismatch =>
      MistakesMeaning(s);
      forall t
        ensures CellsDiffer(s, t) <==> exists cells :: Fills(s, t, cells) && Misfills(t, cells)
      {
        MisfillsMeaning(s, t);
        forall cells
          ensures Fills(s, t, cells) <==> cells == ActualCells(s, t)
        {
          FillsMeaning(s, t, cells);
        }
      }
    case MissingTable(id) =>
      FirstMeaning(s.patchTables, id, 0);
    case MissingCell(id) =>
      forall t: Table
        ensures FirstTable(s.patchTables, t.id, 0).Some? && id in ExpectedCells(t) - ActualIds(s, t) <==>
                exists c, k: nat | c in t.cells ::
                  && c.required && c.id == id && FirstOf(s.patchTables, t.id, k)
                  && k < |s.patchTables| && forall p | p in s.patchTables[k].cells :: p.id != id
      {
        CellFaultMeaning(s, t, id);
      }
    case _ =>
  }

  // ---------- relations and claims ----------

  /** Some interpretation in the patch goes from one end of the relation to the other under its name. */
  ghost predicate Shown(s: Scene, r: Relation) {
    exists v | v in s.visuals :: v.kind == r.kind && |v.sources| >= 2 && v.sources[0] == r.from && v.sources[1] == r.to
  }

  lemma ShownMeaning(s: Scene, r: Relation)
    ensures Found(s.visuals, r) <==> Shown(s, r)
  {
    forall v
      ensures Observes(v, r) <==> v.kind == r.kind && |v.sources| >= 2 && v.sources[0] == r.from && v.sources[1] == r.to
    {
      var two := if |v.sources| <= 2 then v.sources else v.sources[..2];
      if |v.sources| >= 2 {
        assert two == [v.sources[0], v.sources[1]];
      }
    }
  }

  ghost predicate RelationFails(s: Scene) {
    s.matches.processBinding != [] || exists r | r in s.matches.relations :: !Shown(s, r)
  }

  lemma RelationMeaning(s: Scene)
    ensures ProcessFailures(s) != [] <==> RelationFails(s)
    ensures forall code :: code in ProcessFailures(s) <==>
                           code in s.matches.processBinding || (code == ProcessRelationMismatch && RelationFails(s))
  {
    hide Found, Shown;
    var relations := s.matches.relations;
    forall r
      ensures Found(s.visuals, r) <==> Shown(s, r)
    {
      ShownMeaning(s, r);
    }
    assert forall r :: r in relations <==> exists i | 0 <= i < |relations| :: relations[i] == r;
    var all := CountFound(s.visuals, relations, |relations|) == |relations|;
    assert all <==> forall r | r in relations :: Shown(s, r);
  }

  /** The claim cites a region, a visual element, a table or a cell of the work unit. */
  ghost predicate Cites(s: Scene, claim: Claim) {
    exists id | id in claim.evidence ::
      || (exists r | r in s.regions :: r.id == id) || id in s.elements
      || (exists t | t in s.tables :: t.id == id) || exists t, c | t in s.tables && c in t.cells :: c.id == id
  }

  lemma CitesMeaning(s: Scene, claim: Claim)
    ensures Supported(s, claim) <==> Cites(s, claim)
  {
    var cited := Members(claim.evidence) * KnownIds(s);
    if cited != {} {
      var id :| id in cited;
      assert id in claim.evidence;
    }
    if id :| id in claim.evidence
             && ((exists r | r in s.regions :: r.id == id) || id in s.elements
                 || (exists t | t in s.tables :: t.id == id)
                 || exists t, c | t in s.tables && c in t.cells :: c.id == id) {
      assert id in cited;
    }
  }

  /** An accepted phrase occurs in the text, or none is asked for. */
  ghost predicate Worded(gold: Gold, claim: Claim) {
    gold.phrases == [] || exists phrase, before, after | phrase in gold.phrases :: claim.text == before + phrase + after
  }

  lemma WordedMeaning(gold: Gold, claim: Claim)
    ensures Says(gold, claim) <==> Worded(gold, claim)
  {
    forall phrase
      ensures Contains(claim.text, phrase) <==> exists before, after :: claim.text == before + phrase + after
    {
      ContainsMeaning(claim.text, phrase);
    }
  }

  lemma ContainsMeaning(text: string, phrase: string)
    ensures Contains(text, phrase) <==> exists before, after :: text == before + phrase + after
  {
    if Contains(text, phrase) {
      var i :| 0 <= i <= |text| && phrase <= text[i..];
      assert text == text[..i] + phrase + text[i + |phrase|..];
    }
    if before, after :| text == before + phrase + after {
      assert text[|before|..] == phrase + after;
    }
  }

  ghost predicate FirstOfKind(claims: seq<Claim>, kind: Option<string>, k: nat) {
    k < |claims| && claims[k].kind == kind && forall j | 0 <= j < k :: claims[j].kind != kind
  }

  /** What the codes of an expected claim are about: the first claim of its kind. */
  ghost predicate ClaimWrong(s: Scene, gold: Gold, code: Code) {
    var kind := if gold.kind.Some? then gold.kind.value else "claim";
    || (code == MissingClaim(kind) && forall claim | claim in s.claims :: claim.kind != gold.kind)
    || exists k: nat :: FirstOfKind(s.claims, gold.kind, k)
                        && ((code == UnsupportedExecutiveClaim && !Cites(s, s.claims[k]))
                            || (code == WrongSemantics(kind) && !Worded(gold, s.claims[k])))
  }

  lemma ClaimMeaning(s: Scene, gold: Gold, code: Code)
    ensures ClaimFault(s, gold, code) <==> ClaimWrong(s, gold, code)
  {
    hide Cites, Worded, Supported, Says;
    var first := FirstClaim(s.claims, gold.kind, 0);
    if first < |s.claims| {
      assert FirstOfKind(s.claims, gold.kind, first);
      CitesMeaning(s, s.claims[first]);
      WordedMeaning(gold, s.claims[first]);
      assert s.claims[first] in s.claims;
    }
    assert forall k: nat :: FirstOfKind(s.claims, gold.kind, k) ==> k == first;
  }

  // ---------- all codes ----------

  /** Each critical failure, on the lists of the scene. */
  ghost predicate Fails(s: Scene, code: Code) {
    || code in s.matches.chartFailures || code in s.matches.processBinding
    || (exists gold | gold in s.golds :: ClaimWrong(s, gold, code))
    || match code
       case SilentRegionOmission => Omits(s) || !SomethingRequired(s)
       case CriticalNumericMismatch => exists id :: (id, false) in s.matches.facts
       case CriticalModalityMismatch => s.matches.modality < 1.0
       case ScorerSourceBindingFailure => s.matches.modalityUnbound || s.matches.noncriticalUnbound || RepeatsRegion(s)
       case UnexpectedHangul => exists n | n in s.matches.hangul :: n > 0
       case UnsupportedExecutiveClaim => exists claim | claim in s.claims :: !Cites(s, claim)
       case TableCellSemanticFailure => exists fault :: TableFault(s, fault)
       case TableCardinalityMismatch => TableFault(s, TableCardinalityMismatch)
       case TableHeaderSemanticFailure => s.matches.headerFailures != []
       case ProcessRelationMismatch => RelationFails(s)
       case VisualRelationOmission => RelationFails(s)
       case MaterialUnresolvedMissed => HidesMaterial(s)
       case _ => false
  }

  lemma ClaimsMeaning(s: Scene, code: Code)
    ensures ClaimFailure(s, |s.golds|, code) <==> exists gold | gold in s.golds :: ClaimWrong(s, gold, code)
  {
    hide ClaimFault, ClaimWrong;
    forall gold
      ensures ClaimFault(s, gold, code) <==> ClaimWrong(s, gold, code)
    {
      ClaimMeaning(s, gold, code);
    }
    if gold :| gold in s.golds && ClaimWrong(s, gold, code) {
      var i :| 0 <= i < |s.golds| && s.golds[i] == gold;
      assert ClaimFault(s, s.golds[i], code);
    }
  }

  lemma MatcherMeaning(s: Scene, code: Code)
    ensures ContentFailure(s, code) <==>
            match code
            case SilentRegionOmission => Omits(s) || !SomethingRequired(s)
            case CriticalNumericMismatch => exists id :: (id, false) in s.matches.facts
            case CriticalModalityMismatch => s.matches.modality < 1.0
            case ScorerSourceBindingFailure => s.matches.modalityUnbound
            case UnexpectedHangul => exists n | n in s.matches.hangul :: n > 0
            case UnsupportedExecutiveClaim => exists claim | claim in s.claims :: !Cites(s, claim)
            case _ => false
  {
    hide Coverage, InvalidRegions, SourceRegions, Omits, SomethingRequired, Supported, Cites;
    CoverageShort(s);
    OmitsMeaning(s);
    forall claim
      ensures Supported(s, claim) <==> Cites(s, claim)
    {
      CitesMeaning(s, claim);
    }
    if f :| f in s.matches.facts && !f.1 {
      assert (f.0, false) in s.matches.facts;
    }
  }

  /** The critical failures are the declared ones on the lists of the scene. */
  lemma CriticalMeaning(s: Scene, code: Code)
    ensures Critical(s, code) <==> Fails(s, code)
  {
    hide ContentFailure, ClaimFailure, TableFailure, TableFault, ClaimWrong, ProcessFailures, RelationFails, Omits,
         SomethingRequired, RepeatsRegion, HidesMaterial, Cites, MaterialIds, UnresolvedIds, DuplicateRegions;
    MatcherMeaning(s, code);
    ClaimsMeaning(s, code);
    RelationMeaning(s);
    RepeatMeaning(s);
    MaterialMeaning(s);
    forall fault
      ensures TableFailure(s, |s.tables|, fault) <==> TableFault(s, fault)
    {
      TableMeaning(s, fault);
    }
  }

  /**
   A required region that is left out is reported by the scorer and found again by the gate; otherwise, if some region
   is required, an omission comes only from the chart matcher or the binder of relations.
   */
  lemma OmissionMeaning(s: Scene, e: GateEvidence)
    requires Reduced(s, e)
    ensures Omits(s) ==> Critical(s, SilentRegionOmission) && GateCode(e, SilentRegionOmission)
    ensures SomethingRequired(s) && !Omits(s) ==>
              && (Critical(s, SilentRegionOmission) <==> OmissionMatched(s))
              && (GateCode(e, SilentRegionOmission) <==> OmissionMatched(s))
    ensures forall id :: id in e.missingRegions <==>
                         exists r | r in s.regions :: r.required && r.id == id && LeftOut(s.patchRegions, id)
  {
    hide TableFailure, ProcessFailures, MaterialIds, UnresolvedIds, DuplicateRegions, InvalidRegions, Sum, Mismatches,
         Omits, SomethingRequired, Critical, ClaimFailure, Fails, LeftOut, NothingRequired, OmissionMatched;
    OmitsMeaning(s);
    CriticalMeaning(s, SilentRegionOmission);
    FailsOmission(s);
    MissingInGate(s, e);
  }

  lemma FailsOmission(s: Scene)
    ensures Fails(s, SilentRegionOmission) <==> Omits(s) || !SomethingRequired(s) || OmissionMatched(s)
  {
    hide Omits, SomethingRequired, Cites, Worded;
  }

  lemma MissingInGate(s: Scene, e: GateEvidence)
    requires Reduced(s, e)
    ensures GateCode(e, SilentRegionOmission) <==> InvalidRegions(s) != {} || OmissionMatched(s)
  {
    hide TableFailure, MaterialIds, UnresolvedIds, DuplicateRegions, InvalidRegions, Sum, Mismatches, Supported,
         CountFound;
  }

  /** What a case is found to fail for: a code of a unit under the identity of that unit, if it has one. */
  lemma FindingMeaning(row: Row, f: Finding)
    ensures UnitFinding(row, |row.units|, f) <==>
            exists unit | unit in row.units ::
              && f.1 == (if unit.id == "" then None else Some(unit.id))
              && (f.0 in unit.critical || (unit.evidence.Some? && GateCode(unit.evidence.value, f.0)))
  {
    hide GateCode;
    if unit :| unit in row.units
               && f.1 == (if unit.id == "" then None else Some(unit.id))
               && (f.0 in unit.critical || (unit.evidence.Some? && GateCode(unit.evidence.value, f.0))) {
      var i :| 0 <= i < |row.units| && row.units[i] == unit;
      assert UnitCode(row.units[i], f.0);
    }
  }
}

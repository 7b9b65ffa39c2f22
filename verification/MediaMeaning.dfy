/**
 The media verdict on the fields of the events: to which unit an event belongs, what a plan asks to be read, and what
 every attempt must have done.
 */
module MediaMeaning {
  import opened Wrappers
  import opened MediaPaths
  import opened MediaTraces

  // ---------- units ----------

  /** The event names a unit: in its arguments, or in its result if the arguments do not have the field. */
  predicate NamesUnit(e: Event, u: string) {
    u != "" && (e.argumentUnit == Text(u) || (e.argumentUnit == Absent && e.resultUnit == Text(u)))
  }

  /** After the event some unit is the current one. */
  ghost predicate SetsUnit(e: Event) {
    e.tool.Evidence? || e.tool.Submit? || (e.tool.Next? && exists u :: NamesUnit(e, u))
  }

  ghost predicate LastSetting(events: seq<Event>, j: nat, i: nat)
    requires i <= |events|
  {
    j < i && SetsUnit(events[j]) && forall k | j < k < i :: !SetsUnit(events[k])
  }

  lemma NamedUnit(e: Event, u: string)
    ensures NamesUnit(e, u) <==> OwnUnit(e) == Some(u)
  {
  }

  lemma SettingStep(events: seq<Event>, i: nat)
    requires i < |events|
    ensures SetsUnit(events[i]) ==> Current(events, i + 1) == Some(UnitAt(events, i))
    ensures !SetsUnit(events[i]) ==> Current(events, i + 1) == Current(events, i)
  {
    var e := events[i];
    if OwnUnit(e).Some? {
      NamedUnit(e, OwnUnit(e).value);
    }
    forall u | NamesUnit(e, u)
      ensures OwnUnit(e) == Some(u)
    {
      NamedUnit(e, u);
    }
  }

  lemma {:induction false} CurrentMeaning(events: seq<Event>, i: nat)
    requires i <= |events|
    ensures forall j: nat | LastSetting(events, j, i) :: Current(events, i) == Some(UnitAt(events, j))
    ensures (forall j | 0 <= j < i :: !SetsUnit(events[j])) ==> Current(events, i) == None
  {
    hide UnitAt, SetsUnit;
    if i > 0 {
      CurrentMeaning(events, i - 1);
      hide Current;
      SettingStep(events, i - 1);
      forall j: nat | LastSetting(events, j, i)
        ensures Current(events, i) == Some(UnitAt(events, j))
      {
        assert j < i - 1 ==> LastSetting(events, j, i - 1);
      }
    }
  }

  /**
   An event belongs to the unit it names; otherwise to that of the last evidence, submit or naming `next` before it,
   and to the unbound unit if there is none.
   */
  lemma UnitMeaning(events: seq<Event>, i: nat)
    requires i < |events|
    ensures forall u | NamesUnit(events[i], u) :: UnitAt(events, i) == u
    ensures (forall u :: !NamesUnit(events[i], u)) ==>
              && (forall j: nat | LastSetting(events, j, i) :: UnitAt(events, i) == UnitAt(events, j))
              && ((forall j | 0 <= j < i :: !SetsUnit(events[j])) ==> UnitAt(events, i) == "__unbound__")
  {
    hide SetsUnit, Current;
    CurrentMeaning(events, i);
    forall u
      ensures NamesUnit(events[i], u) <==> OwnUnit(events[i]) == Some(u)
    {
      NamedUnit(events[i], u);
    }
  }

  // ---------- plans ----------

  /** The plan asks for its context image. */
  predicate PlansContext(plan: Plan) {
    plan.contextRequired && plan.contextPath != ""
  }

  lemma {:induction false} CropMembers(crops: seq<Crop>, item: Item)
    ensures item in CropItems(crops)
       <==> exists crop | crop in crops :: crop.path != "" && item == Item(crop.id, crop.path)
  {
    if crops != [] {
      CropMembers(crops[1..], item);
      assert crops == [crops[0]] + crops[1..];
    }
  }

  /** A plan asks for its required context image and for every crop with a path, and for nothing else. */
  lemma PlannedMeaning(plan: Plan, item: Item)
    ensures item in PlannedItems(plan) <==>
            || (PlansContext(plan) && item == Item("context_image", plan.contextPath))
            || exists crop | crop in plan.crops :: crop.path != "" && item == Item(crop.id, crop.path)
  {
    CropMembers(plan.crops, item);
  }

  // ---------- attempts ----------

  /** The attempt opened by evidence event `i` was submitted by `s`, and everything planned was read in between. */
  ghost predicate DoneBy(events: seq<Event>, i: nat, s: nat)
    requires i < |events|
  {
    var plan := events[i].plan;
    && SubmittedBy(events, i, s)
    && (PlansContext(plan) || exists crop | crop in plan.crops :: crop.path != "")
    && (PlansContext(plan) ==> ReadIn(events, i, s, plan.contextPath))
    && forall crop | crop in plan.crops && crop.path != "" :: ReadIn(events, i, s, crop.path)
  }

  /** `s` is the first submit of the unit after its evidence event `i`, and no other evidence of it comes before. */
  ghost predicate SubmittedBy(events: seq<Event>, i: nat, s: nat)
    requires i < |events|
  {
    && i < s < |events| && events[s].tool == Submit && UnitAt(events, s) == UnitAt(events, i)
    && forall j | i < j < s && UnitAt(events, j) == UnitAt(events, i) ::
         events[j].tool != Evidence && events[j].tool != Submit
  }

  /** A read strictly between `i` and `s` opened a path that ends in the components of the planned one. */
  ghost predicate ReadIn(events: seq<Event>, i: nat, s: nat, path: string) {
    exists r: nat, p :: i < r < s && r < |events| && events[r].tool == Read && p in events[r].paths
                        && ComponentSuffix(Split(Normalize(path)), Split(Normalize(p)))
  }

  lemma ReadMeans(events: seq<Event>, i: nat, s: nat, path: string)
    ensures ReadBetween(events, i, s, path) <==> ReadIn(events, i, s, path)
  {
    hide SameMediaPath, Split, Normalize, ComponentSuffix;
    forall p
      ensures SameMediaPath(p, path) <==> ComponentSuffix(Split(Normalize(path)), Split(Normalize(p)))
    {
      SamePathMeansSameComponents(p, path);
    }
  }

  lemma SubmitMeans(events: seq<Event>, i: nat, s: nat)
    requires i < |events|
    ensures Submits(events, i, s) <==> SubmittedBy(events, i, s)
  {
    hide UnitAt;
    var u := UnitAt(events, i);
    forall j: nat | i < j < s && j < |events|
      ensures IsStart(events, u, j) <==> UnitAt(events, j) == u && events[j].tool == Evidence
      ensures IsSubmit(events, u, j) <==> UnitAt(events, j) == u && events[j].tool == Submit
    {
    }
  }

  lemma AttemptMeaning(events: seq<Event>, i: nat)
    requires i < |events|
    ensures AttemptValid(events, i) <==> exists s: nat :: DoneBy(events, i, s)
  {
    hide UnitAt, Submits, SubmittedBy, ReadBetween, ReadIn, PlannedItems;
    var plan := events[i].plan;
    var items := PlannedItems(plan);
    forall item
      ensures item in items <==>
              || (PlansContext(plan) && item == Item("context_image", plan.contextPath))
              || exists crop | crop in plan.crops :: crop.path != "" && item == Item(crop.id, crop.path)
    {
      PlannedMeaning(plan, item);
    }
    SomethingPlanned(plan);
    forall s: nat
      ensures (Submits(events, i, s) && items != []
               && forall item | item in items :: ReadBetween(events, i, s, item.path)) <==> DoneBy(events, i, s)
    {
      SubmitMeans(events, i, s);
      AllRead(events, i, s, plan, items);
    }
  }

  lemma SomethingPlanned(plan: Plan)
    ensures PlannedItems(plan) != [] <==> PlansContext(plan) || exists crop | crop in plan.crops :: crop.path != ""
  {
    hide PlannedItems;
    var items := PlannedItems(plan);
    if items != [] {
      PlannedMeaning(plan, items[0]);
    }
    if PlansContext(plan) {
      PlannedMeaning(plan, Item("context_image", plan.contextPath));
    }
    if crop :| crop in plan.crops && crop.path != "" {
      PlannedMeaning(plan, Item(crop.id, crop.path));
    }
  }

  lemma AllRead(events: seq<Event>, i: nat, s: nat, plan: Plan, items: seq<Item>)
    requires forall item :: item in items <==>
               || (PlansContext(plan) && item == Item("context_image", plan.contextPath))
               || exists crop | crop in plan.crops :: crop.path != "" && item == Item(crop.id, crop.path)
    ensures (forall item | item in items :: ReadBetween(events, i, s, item.path)) <==>
            && (PlansContext(plan) ==> ReadIn(events, i, s, plan.contextPath))
            && forall crop | crop in plan.crops && crop.path != "" :: ReadIn(events, i, s, crop.path)
  {
    hide ReadBetween, ReadIn, PlansContext;
    forall path
      ensures ReadBetween(events, i, s, path) <==> ReadIn(events, i, s, path)
    {
      ReadMeans(events, i, s, path);
    }
    if forall item | item in items :: ReadBetween(events, i, s, item.path) {
      assert PlansContext(plan) ==> Item("context_image", plan.contextPath) in items;
      forall crop | crop in plan.crops && crop.path != ""
        ensures ReadIn(events, i, s, crop.path)
      {
        assert Item(crop.id, crop.path) in items;
      }
    }
  }

  /** The case passes exactly when it has an evidence event and each of them opened an attempt that did everything. */
  lemma VerdictMeaning(events: seq<Event>)
    ensures Verdict(events) <==>
            && (exists i: nat :: i < |events| && events[i].tool == Evidence)
            && (forall i: nat | i < |events| && events[i].tool == Evidence :: exists s: nat :: DoneBy(events, i, s))
  {
    hide AttemptValid, DoneBy;
    forall i: nat | i < |events|
      ensures AttemptValid(events, i) <==> exists s: nat :: DoneBy(events, i, s)
    {
      AttemptMeaning(events, i);
    }
  }

  /** The fields of a collected attempt are those of its evidence and submit events. */
  lemma AttemptFields(events: seq<Event>, u: string, k: nat)
    requires k < |Records(events, u, |events|)|
    ensures var record := Records(events, u, |events|)[k];
            && record.evidence < |events| && record.unit == u && record.attemptIndex == k + 1
            && record.evidenceRevision == events[record.evidence].evidenceRevision
            && (record.submit.Some? ==> SubmittedBy(events, record.evidence, record.submit.value)
                                        && record.repairRevision == Some(events[record.submit.value].repairRevision))
            && (record.submit.None? ==> record.repairRevision == None
                                        && forall s: nat :: !SubmittedBy(events, record.evidence, s))
  {
    hide Records, Starts, UnitAt, Submits, SubmittedBy, FirstSubmit, PlannedItems;
    RecordedSubmit(events, u, k);
    RecordFields(events, u, k);
    var record := Records(events, u, |events|)[k];
    forall s: nat
      ensures Submits(events, record.evidence, s) <==> SubmittedBy(events, record.evidence, s)
    {
      SubmitMeans(events, record.evidence, s);
    }
    if record.submit.Some? {
      InRange(events, record.evidence, record.submit.value);
    }
  }

  lemma InRange(events: seq<Event>, i: nat, s: nat)
    requires i < |events| && SubmittedBy(events, i, s)
    ensures s < |events|
  {
    hide UnitAt;
  }

  // ---------- paths ----------

  /** Backslashes become slashes, and nothing else changes. */
  lemma {:induction false} SlashesForward(path: string)
    ensures |ForwardSlashes(path)| == |path|
    ensures forall i | 0 <= i < |path| :: ForwardSlashes(path)[i] == if path[i] == '\\' then '/' else path[i]
  {
    if path != "" {
      SlashesForward(path[1..]);
    }
  }

  function Repeat(part: string, n: nat): string {
    if n == 0 then "" else part + Repeat(part, n - 1)
  }

  lemma {:induction false} DotsDropped(path: string) returns (n: nat)
    ensures path == Repeat("./", n) + DropDotSlash(path)
    ensures |DropDotSlash(path)| < 2 || DropDotSlash(path)[0] != '.' || DropDotSlash(path)[1] != '/'
  {
    n := 0;
    if |path| >= 2 && path[0] == '.' && path[1] == '/' {
      var m := DotsDropped(path[2..]);
      n := m + 1;
      assert path == "./" + path[2..];
      assert Repeat("./", n) == "./" + Repeat("./", m);
    }
  }

  lemma {:induction false} SlashesDropped(path: string) returns (n: nat)
    ensures path == Repeat("/", n) + DropSlashes(path)
    ensures DropSlashes(path) == "" || DropSlashes(path)[0] != '/'
  {
    n := 0;
    if path != "" && path[0] == '/' {
      var m := SlashesDropped(path[1..]);
      n := m + 1;
      assert path == "/" + path[1..];
      assert Repeat("/", n) == "/" + Repeat("/", m);
    }
  }

  /** Normalising takes away leading "./" and then leading slashes, after turning backslashes into slashes. */
  lemma NormalizeMeaning(path: string) returns (dots: nat, slashes: nat)
    ensures ForwardSlashes(path) == Repeat("./", dots) + (Repeat("/", slashes) + Normalize(path))
    ensures Normalize(path) == "" || Normalize(path)[0] != '/'
    ensures slashes == 0 ==> |Normalize(path)| < 2 || Normalize(path)[0] != '.' || Normalize(path)[1] != '/'
  {
    hide ForwardSlashes, DropDotSlash, DropSlashes;
    dots := DotsDropped(ForwardSlashes(path));
    slashes := SlashesDropped(DropDotSlash(ForwardSlashes(path)));
    if slashes == 0 {
      assert Repeat("/", 0) + Normalize(path) == Normalize(path);
    }
  }
}

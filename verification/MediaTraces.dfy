/**
 The media-trace scanner (evals/opencode_events.py): one pass binds evidence, read and submit events to attempts of
 work units, a second pass looks up the reads in the scope of each attempt. The declarative reading of the same
 event sequence is given per event; the scanner is proved to compute it.
 */
module MediaTraces {
  import opened Wrappers
  import opened Collections
  import opened MediaPaths

  const UNBOUND := "__unbound__"
  const CONTEXT_IMAGE := "context_image"

  /** The value of a key in one payload of an event. */
  datatype Field = Absent | Text(value: string) | OtherValue

  datatype Tool = Next | Read | Evidence | Submit | OtherTool(name: string)

  datatype Crop = Crop(id: string, path: string)

  /** The media plan of an evidence result; empty strings stand for missing paths. */
  datatype Plan = Plan(contextRequired: bool, contextPath: string, crops: seq<Crop>)

  datatype Event = Event(
    tool: Tool, argumentUnit: Field, resultUnit: Field, paths: seq<string>, plan: Plan,
    evidenceRevision: Field, repairRevision: Field)

  datatype Item = Item(id: string, path: string)

  datatype Record = Record(
    attemptIndex: nat, unit: string, evidence: nat, evidenceRevision: Field, repairRevision: Option<Field>,
    items: seq<Item>, submit: Option<nat>)

  // ---------- the declarative reading ----------

  /** The unit an event names itself: the arguments first, then the result. */
  function OwnUnit(e: Event): Option<string> {
    var field := if e.argumentUnit != Absent then e.argumentUnit else e.resultUnit;
    if field.Text? && field.value != "" then Some(field.value) else None
  }

  function Bound(e: Event, current: Option<string>): string {
    if OwnUnit(e).Some? then OwnUnit(e).value else if current.Some? then current.value else UNBOUND
  }

  /** The unit in force before event `i`. */
  function Current(events: seq<Event>, i: nat): Option<string>
    requires i <= |events|
  {
    if i == 0 then None
    else
      var e := events[i - 1];
      if e.tool.Evidence? || e.tool.Submit? then Some(Bound(e, Current(events, i - 1)))
      else if e.tool.Next? && OwnUnit(e).Some? then OwnUnit(e)
      else Current(events, i - 1)
  }

  function UnitAt(events: seq<Event>, i: nat): string
    requires i < |events|
  {
    Bound(events[i], Current(events, i))
  }

  /** Event `i` opens an attempt of unit `u`. */
  predicate IsStart(events: seq<Event>, u: string, i: nat) {
    i < |events| && events[i].tool.Evidence? && UnitAt(events, i) == u
  }

  predicate IsSubmit(events: seq<Event>, u: string, i: nat) {
    i < |events| && events[i].tool.Submit? && UnitAt(events, i) == u
  }

  function CropItems(crops: seq<Crop>): seq<Item> {
    if crops == [] then []
    else (if crops[0].path != "" then [Item(crops[0].id, crops[0].path)] else []) + CropItems(crops[1..])
  }

  function PlannedItems(plan: Plan): seq<Item> {
    (if plan.contextRequired && plan.contextPath != "" then [Item(CONTEXT_IMAGE, plan.contextPath)] else [])
    + CropItems(plan.crops)
  }

  /** The attempt opened by `i` is submitted by `s`: the unit's next submit, before the unit's next evidence. */
  ghost predicate Submits(events: seq<Event>, i: nat, s: nat)
    requires i < |events|
  {
    var u := UnitAt(events, i);
    i < s && IsSubmit(events, u, s) && forall j: nat | i < j < s :: !IsStart(events, u, j) && !IsSubmit(events, u, j)
  }

  /** Some read strictly between `lo` and `hi` opened the planned path. */
  ghost predicate ReadBetween(events: seq<Event>, lo: nat, hi: nat, path: string) {
    exists r: nat, p :: lo < r < hi && r < |events| && events[r].tool.Read? && p in events[r].paths
                        && SameMediaPath(p, path)
  }

  /** The attempt opened by evidence event `i` read all its media before it was submitted. */
  ghost predicate AttemptValid(events: seq<Event>, i: nat)
    requires i < |events|
  {
    && PlannedItems(events[i].plan) != []
    && exists s: nat :: Submits(events, i, s)
                        && forall item | item in PlannedItems(events[i].plan) :: ReadBetween(events, i, s, item.path)
  }

  /** The case verdict: there is an attempt, and no attempt failed, whatever came after it. */
  ghost predicate Verdict(events: seq<Event>) {
    && (exists i: nat :: i < |events| && events[i].tool.Evidence?)
    && (forall i: nat | i < |events| && events[i].tool.Evidence? :: AttemptValid(events, i))
  }

  // ---------- attempts of one unit in the first n events ----------

  function Starts(events: seq<Event>, u: string, n: nat): (starts: seq<nat>)
    requires n <= |events|
    ensures forall i | 0 <= i < |starts| :: starts[i] < n && IsStart(events, u, starts[i])
    ensures forall i, j | 0 <= i < j < |starts| :: starts[i] < starts[j]
    ensures forall i: nat | i < n && IsStart(events, u, i) :: i in starts
  {
    if n == 0 then []
    else Starts(events, u, n - 1) + if IsStart(events, u, n - 1) then [n - 1] else []
  }

  /** The first submit of `u` strictly after `lo` and before `hi`. */
  function FirstSubmit(events: seq<Event>, u: string, lo: nat, hi: nat): (s: Option<nat>)
    requires hi <= |events|
    ensures s.Some? ==> lo < s.value < hi && IsSubmit(events, u, s.value)
                        && forall j: nat | lo < j < s.value :: !IsSubmit(events, u, j)
    ensures s.None? ==> forall j: nat | lo < j < hi :: !IsSubmit(events, u, j)
    decreases hi
  {
    if hi <= lo + 1 then None
    else
      var earlier := FirstSubmit(events, u, lo, hi - 1);
      if earlier.Some? then earlier else if IsSubmit(events, u, hi - 1) then Some(hi - 1) else None
  }

  function RecordOf(events: seq<Event>, u: string, k: nat, start: nat, end: nat): Record
    requires start < |events| && end <= |events|
  {
    var submit := FirstSubmit(events, u, start, end);
    Record(k + 1, u, start, events[start].evidenceRevision,
           if submit.Some? then Some(events[submit.value].repairRevision) else None,
           PlannedItems(events[start].plan), submit)
  }

  /** An attempt lasts until the unit's next evidence event. */
  function EndOf(starts: seq<nat>, k: nat, n: nat): nat {
    if k + 1 < |starts| then starts[k + 1] else n
  }

  /** The attempts of `u` within the first `n` events. */
  function Records(events: seq<Event>, u: string, n: nat): (records: seq<Record>)
    requires n <= |events|
    ensures |records| == |Starts(events, u, n)|
  {
    var starts := Starts(events, u, n);
    seq(|starts|, k requires 0 <= k < |starts| => RecordOf(events, u, k, starts[k], EndOf(starts, k, n)))
  }

  lemma StartsStep(events: seq<Event>, u: string, i: nat)
    requires i < |events|
    ensures Starts(events, u, i + 1) == Starts(events, u, i) + if IsStart(events, u, i) then [i] else []
  {
    hide IsStart;
  }

  lemma FirstSubmitStep(events: seq<Event>, u: string, lo: nat, hi: nat)
    requires lo < hi < |events|
    ensures FirstSubmit(events, u, lo, hi + 1) ==
            var earlier := FirstSubmit(events, u, lo, hi);
            if earlier.Some? then earlier else if IsSubmit(events, u, hi) then Some(hi) else None
  {
    hide IsSubmit;
  }

  lemma RecordsOpen(events: seq<Event>, u: string, i: nat)
    requires i < |events| && IsStart(events, u, i)
    ensures Records(events, u, i + 1) == Records(events, u, i) + [RecordOf(events, u, |Starts(events, u, i)|, i, i + 1)]
    ensures FirstSubmit(events, u, i, i + 1) == None
  {
    hide RecordOf, Starts, IsStart;
    var before, after := Starts(events, u, i), Starts(events, u, i + 1);
    StartsStep(events, u, i);
    forall k | 0 <= k < |before|
      ensures Records(events, u, i + 1)[k] == Records(events, u, i)[k]
    {
      assert EndOf(after, k, i + 1) == EndOf(before, k, i);
    }
  }

  /** One more event of the unit may submit the attempt that is open. */
  lemma RecordOfStep(events: seq<Event>, u: string, k: nat, start: nat, i: nat)
    requires start < i < |events|
    ensures var before := RecordOf(events, u, k, start, i);
            RecordOf(events, u, k, start, i + 1) ==
            if IsSubmit(events, u, i) && before.submit.None? then
              before.(submit := Some(i), repairRevision := Some(events[i].repairRevision))
            else before
  {
    hide IsSubmit, FirstSubmit, PlannedItems;
    FirstSubmitStep(events, u, start, i);
  }

  lemma RecordAt(events: seq<Event>, u: string, n: nat, k: nat)
    requires n <= |events| && k < |Starts(events, u, n)|
    ensures var starts := Starts(events, u, n);
            && starts[k] < n && |Records(events, u, n)| == |starts| && EndOf(starts, k, n) <= n
            && Records(events, u, n)[k] == RecordOf(events, u, k, starts[k], EndOf(starts, k, n))
  {
    hide IsStart, Starts, RecordOf;
  }

  lemma RecordsContinue(events: seq<Event>, u: string, i: nat)
    requires i < |events| && !IsStart(events, u, i)
    ensures var before, after := Records(events, u, i), Records(events, u, i + 1);
            if before != [] && IsSubmit(events, u, i) && before[|before| - 1].submit.None? then
              after == before[|before| - 1 := before[|before| - 1].(submit := Some(i),
                                                   repairRevision := Some(events[i].repairRevision))]
            else after == before
  {
    hide IsStart, IsSubmit, Starts, Records, RecordOf;
    var before, after := Records(events, u, i), Records(events, u, i + 1);
    var starts := Starts(events, u, i);
    StartsStep(events, u, i);
    assert starts + [] == starts;
    forall k: nat | k < |starts|
      ensures k + 1 < |starts| ==> after[k] == before[k]
      ensures k + 1 == |starts| ==> before[k] == RecordOf(events, u, k, starts[k], i)
                                    && after[k] == RecordOf(events, u, k, starts[k], i + 1)
    {
      RecordAt(events, u, i, k);
      RecordAt(events, u, i + 1, k);
    }
    if starts != [] {
      RecordOfStep(events, u, |starts| - 1, starts[|starts| - 1], i);
    }
  }

  // ---------- counting ----------

  function CountEvidence(events: seq<Event>, n: nat): nat
    requires n <= |events|
  {
    if n == 0 then 0 else CountEvidence(events, n - 1) + if events[n - 1].tool.Evidence? then 1 else 0
  }

  function Total(order: seq<string>, attempts: map<string, seq<Record>>): nat {
    if order == [] then 0
    else (if order[0] in attempts then |attempts[order[0]]| else 0) + Total(order[1..], attempts)
  }

  lemma {:induction false} TotalUntouched(order: seq<string>, attempts: map<string, seq<Record>>, u: string,
                                          records: seq<Record>)
    requires u !in order
    ensures Total(order, attempts[u := records]) == Total(order, attempts)
  {
    if order != [] {
      TotalUntouched(order[1..], attempts, u, records);
    }
  }

  lemma {:induction false} TotalUpdate(order: seq<string>, attempts: map<string, seq<Record>>, u: string,
                                       records: seq<Record>)
    requires Distinct(order) && u in order && u in attempts
    ensures Total(order, attempts[u := records]) == Total(order, attempts) - |attempts[u]| + |records|
  {
    if order[0] == u {
      TotalUntouched(order[1..], attempts, u, records);
    } else {
      TotalUpdate(order[1..], attempts, u, records);
    }
  }

  lemma {:induction false} TotalAppend(order: seq<string>, attempts: map<string, seq<Record>>, u: string,
                                       records: seq<Record>)
    requires u !in order && u !in attempts
    ensures Total(order + [u], attempts[u := records]) == Total(order, attempts) + |records|
  {
    if order == [] {
      assert (order + [u])[1..] == [];
    } else {
      assert (order + [u])[1..] == order[1..] + [u];
      TotalAppend(order[1..], attempts, u, records);
    }
  }

  // ---------- first pass ----------

  function AttemptsOf(attempts: map<string, seq<Record>>, u: string): seq<Record> {
    if u in attempts then attempts[u] else []
  }

  /** The attempts collected so far are the declared ones. */
  ghost predicate AreRecords(events: seq<Event>, n: nat, attempts: map<string, seq<Record>>)
    requires n <= |events|
  {
    && (forall u :: AttemptsOf(attempts, u) == Records(events, u, n))
    && (forall u | u in attempts :: attempts[u] != [])
  }

  /** The units are listed once each. */
  ghost predicate Lists(order: seq<string>, attempts: map<string, seq<Record>>) {
    Distinct(order) && forall u :: u in order <==> u in attempts
  }

  ghost predicate Collected(events: seq<Event>, n: nat, order: seq<string>, attempts: map<string, seq<Record>>)
    requires n <= |events|
  {
    AreRecords(events, n, attempts) && Lists(order, attempts) && Total(order, attempts) == CountEvidence(events, n)
  }

  ghost predicate ReadsSoFar(events: seq<Event>, n: nat, readEvents: seq<(nat, string)>)
    requires n <= |events|
  {
    forall r: nat, p :: (r, p) in readEvents <==> r < n && events[r].tool.Read? && p in events[r].paths
  }

  lemma EvidenceRecords(events: seq<Event>, i: nat, attempts: map<string, seq<Record>>)
    requires i < |events| && events[i].tool.Evidence? && AreRecords(events, i, attempts)
    ensures var u := UnitAt(events, i);
            var earlier := AttemptsOf(attempts, u);
            AreRecords(events, i + 1, attempts[u := earlier + [RecordOf(events, u, |earlier|, i, i + 1)]])
  {
    hide RecordOf, UnitAt, Records, Starts, AttemptsOf;
    var u := UnitAt(events, i);
    forall v | v != u
      ensures Records(events, v, i + 1) == Records(events, v, i)
    {
      OtherUnit(events, v, i);
    }
    assert IsStart(events, u, i);
    RecordsOpen(events, u, i);
    var earlier := AttemptsOf(attempts, u);
    assert earlier == Records(events, u, i);
    RecordsCount(events, u, i);
    UpdatedRecords(events, i, attempts, u, earlier + [RecordOf(events, u, |earlier|, i, i + 1)]);
  }

  lemma RecordsCount(events: seq<Event>, u: string, n: nat)
    requires n <= |events|
    ensures |Records(events, u, n)| == |Starts(events, u, n)|
  {
  }

  lemma OtherUnit(events: seq<Event>, v: string, i: nat)
    requires i < |events| && (v != UnitAt(events, i) || !(events[i].tool.Evidence? || events[i].tool.Submit?))
    ensures Records(events, v, i + 1) == Records(events, v, i)
  {
    hide Records, UnitAt;
    RecordsContinue(events, v, i);
  }

  lemma UpdatedRecords(events: seq<Event>, i: nat, attempts: map<string, seq<Record>>, u: string,
                       records: seq<Record>)
    requires i < |events| && AreRecords(events, i, attempts)
    requires forall v | v != u :: Records(events, v, i + 1) == Records(events, v, i)
    requires records == Records(events, u, i + 1) && records != []
    ensures AreRecords(events, i + 1, attempts[u := records])
  {
    hide Records;
    var updated := attempts[u := records];
    forall v
      ensures AttemptsOf(updated, v) == Records(events, v, i + 1)
    {
      assert AttemptsOf(attempts, v) == Records(events, v, i);
    }
  }

  lemma SameRecords(events: seq<Event>, i: nat, attempts: map<string, seq<Record>>)
    requires i < |events| && AreRecords(events, i, attempts)
    requires forall v :: Records(events, v, i + 1) == Records(events, v, i)
    ensures AreRecords(events, i + 1, attempts)
  {
    hide Records, AttemptsOf;
    forall v
      ensures AttemptsOf(attempts, v) == Records(events, v, i + 1)
    {
      assert AttemptsOf(attempts, v) == Records(events, v, i);
    }
  }

  lemma SubmitRecords(events: seq<Event>, i: nat, attempts: map<string, seq<Record>>)
    requires i < |events| && events[i].tool.Submit? && AreRecords(events, i, attempts)
    ensures var u := UnitAt(events, i);
            var earlier := AttemptsOf(attempts, u);
            if earlier != [] && earlier[|earlier| - 1].submit.None? then
              AreRecords(events, i + 1, attempts[u := earlier[|earlier| - 1 := earlier[|earlier| - 1].(
                submit := Some(i), repairRevision := Some(events[i].repairRevision))]])
            else AreRecords(events, i + 1, attempts)
  {
    hide UnitAt, Records, AttemptsOf;
    var u := UnitAt(events, i);
    forall v | v != u
      ensures Records(events, v, i + 1) == Records(events, v, i)
    {
      OtherUnit(events, v, i);
    }
    RecordsContinue(events, u, i);
    var earlier := AttemptsOf(attempts, u);
    assert earlier == Records(events, u, i);
    if earlier != [] && earlier[|earlier| - 1].submit.None? {
      var closed := earlier[|earlier| - 1 := earlier[|earlier| - 1].(
        submit := Some(i), repairRevision := Some(events[i].repairRevision))];
      UpdatedRecords(events, i, attempts, u, closed);
    } else {
      SameRecords(events, i, attempts);
    }
  }

  lemma OtherRecords(events: seq<Event>, i: nat, attempts: map<string, seq<Record>>)
    requires i < |events| && !events[i].tool.Evidence? && !events[i].tool.Submit? && AreRecords(events, i, attempts)
    ensures AreRecords(events, i + 1, attempts)
  {
    hide UnitAt, Records;
    forall v
      ensures AttemptsOf(attempts, v) == Records(events, v, i + 1)
    {
      OtherUnit(events, v, i);
      assert AttemptsOf(attempts, v) == Records(events, v, i);
    }
  }

  lemma ListNew(order: seq<string>, attempts: map<string, seq<Record>>, u: string, records: seq<Record>)
    requires Lists(order, attempts)
    ensures var order' := if u in attempts then order else order + [u];
            && Lists(order', attempts[u := records])
            && Total(order', attempts[u := records]) ==
                 Total(order, attempts) - |AttemptsOf(attempts, u)| + |records|
  {
    hide Total;
    if u in attempts {
      TotalUpdate(order, attempts, u, records);
    } else {
      TotalAppend(order, attempts, u, records);
      assert forall v :: v in order + [u] <==> v in order || v == u;
    }
  }

  method Scan(events: seq<Event>)
    returns (order: seq<string>, attempts: map<string, seq<Record>>, readEvents: seq<(nat, string)>)
    ensures Collected(events, |events|, order, attempts)
    ensures ReadsSoFar(events, |events|, readEvents)
  {
    hide AreRecords, Lists, Records, Total, ReadsSoFar;
    order, attempts, readEvents := [], map[], [];
    var currentUnit: Option<string> := None;
    NothingCollected(events);
    for index := 0 to |events|
      invariant currentUnit == Current(events, index)
      invariant Collected(events, index, order, attempts)
      invariant ReadsSoFar(events, index, readEvents)
    {
      var event := events[index];
      var eventUnit := OwnUnit(event);
      AttemptsNotEmpty(events, index, attempts);
      NewReads(events, index, readEvents);
      if event.tool.Next? && eventUnit.Some? {
        currentUnit := eventUnit;
      }
      if event.tool.Read? {
        readEvents := readEvents + ReadsOf(event.paths, index);
      }
      if event.tool.Evidence? {
        var unit := if eventUnit.Some? then eventUnit.value
                    else if currentUnit.Some? then currentUnit.value else UNBOUND;
        currentUnit := Some(unit);
        assert UnitAt(events, index) == unit;
        EvidenceRecords(events, index, attempts);
        var earlier := AttemptsOf(attempts, unit);
        var record := Record(|earlier| + 1, unit, index, event.evidenceRevision, None, PlannedItems(event.plan), None);
        ListNew(order, attempts, unit, earlier + [record]);
        if unit !in attempts {
          order := order + [unit];
        }
        attempts := attempts[unit := earlier + [record]];
      }
      if event.tool.Submit? {
        var unit := if eventUnit.Some? then eventUnit.value
                    else if currentUnit.Some? then currentUnit.value else UNBOUND;
        currentUnit := Some(unit);
        assert UnitAt(events, index) == unit;
        SubmitRecords(events, index, attempts);
        var unitAttempts := AttemptsOf(attempts, unit);
        if unitAttempts != [] && unitAttempts[|unitAttempts| - 1].submit.None? {
          var last := |unitAttempts| - 1;
          var closed := unitAttempts[last := unitAttempts[last].(
            submit := Some(index), repairRevision := Some(event.repairRevision))];
          ListNew(order, attempts, unit, closed);
          attempts := attempts[unit := closed];
        }
      }
      if !event.tool.Evidence? && !event.tool.Submit? {
        OtherRecords(events, index, attempts);
      }
    }
  }

  function ReadsOf(paths: seq<string>, index: nat): seq<(nat, string)> {
    seq(|paths|, k requires 0 <= k < |paths| => (index, paths[k]))
  }

  lemma NothingCollected(events: seq<Event>)
    ensures Collected(events, 0, [], map[]) && ReadsSoFar(events, 0, [])
  {
  }

  lemma AttemptsNotEmpty(events: seq<Event>, n: nat, attempts: map<string, seq<Record>>)
    requires n <= |events| && AreRecords(events, n, attempts)
    ensures forall u | u in attempts :: attempts[u] != []
  {
  }

  lemma ReadsOfMembers(paths: seq<string>, index: nat, r: nat, p: string)
    ensures (r, p) in ReadsOf(paths, index) <==> r == index && p in paths
  {
    var listed := ReadsOf(paths, index);
    if p in paths {
      var k :| 0 <= k < |paths| && paths[k] == p;
      assert listed[k] == (index, p);
    }
  }

  lemma NewReads(events: seq<Event>, i: nat, readEvents: seq<(nat, string)>)
    requires i < |events| && ReadsSoFar(events, i, readEvents)
    ensures ReadsSoFar(events, i + 1,
                       if events[i].tool.Read? then readEvents + ReadsOf(events[i].paths, i) else readEvents)
  {
    hide ReadsOf;
    var extra := if events[i].tool.Read? then ReadsOf(events[i].paths, i) else [];
    forall r: nat, p
      ensures (r, p) in readEvents + extra <==> r < i + 1 && events[r].tool.Read? && p in events[r].paths
    {
      ReadsOfMembers(events[i].paths, i, r, p);
    }
    assert readEvents + [] == readEvents;
  }

  // ---------- what the collected attempts mean ----------

  lemma RecordFields(events: seq<Event>, u: string, k: nat)
    requires k < |Records(events, u, |events|)|
    ensures var starts := Starts(events, u, |events|);
            && k < |starts| && starts[k] < EndOf(starts, k, |events|) <= |events|
            && Records(events, u, |events|)[k] == RecordOf(events, u, k, starts[k], EndOf(starts, k, |events|))
  {
    hide RecordOf, UnitAt;
  }

  /**
   The attempts of a unit are numbered from 1 in strictly increasing evidence order, and a submit lies strictly
   between the evidence of its attempt and that of any later attempt.
   */
  lemma AttemptsAreNumbered(events: seq<Event>, u: string, j: nat, k: nat)
    requires j <= k < |Records(events, u, |events|)|
    ensures var records := Records(events, u, |events|);
            && records[k].attemptIndex == k + 1 && records[k].unit == u
            && IsStart(events, u, records[k].evidence)
            && (j < k ==> records[j].evidence < records[k].evidence)
            && (j < k && records[j].submit.Some? ==>
                  records[j].evidence < records[j].submit.value < records[k].evidence)
  {
    hide IsStart, Records, FirstSubmit, Starts, PlannedItems;
    RecordFields(events, u, j);
    RecordFields(events, u, k);
    var starts := Starts(events, u, |events|);
    assert j < k ==> starts[j + 1] <= starts[k];
  }

  /** An attempt carries the submit that binds it, if there is one. */
  lemma RecordedSubmit(events: seq<Event>, u: string, k: nat)
    requires k < |Records(events, u, |events|)|
    ensures var record := Records(events, u, |events|)[k];
            && record.evidence < |events| && record.items == PlannedItems(events[record.evidence].plan)
            && events[record.evidence].tool.Evidence? && UnitAt(events, record.evidence) == u
            && forall s: nat :: record.submit == Some(s) <==> Submits(events, record.evidence, s)
  {
    hide Records, FirstSubmit, UnitAt, Starts, PlannedItems, Submits;
    RecordFields(events, u, k);
    NoStartInside(events, u, k);
    var starts := Starts(events, u, |events|);
    SubmitWindow(events, u, starts[k], EndOf(starts, k, |events|));
  }

  /** Between an evidence event and the unit's next one, the first submit is the one that binds. */
  lemma SubmitWindow(events: seq<Event>, u: string, start: nat, end: nat)
    requires start < end <= |events| && UnitAt(events, start) == u
    requires forall j: nat | start < j < end :: !IsStart(events, u, j)
    requires end < |events| ==> IsStart(events, u, end)
    ensures forall s: nat :: FirstSubmit(events, u, start, end) == Some(s) <==> Submits(events, start, s)
  {
    hide UnitAt, FirstSubmit;
    var first := FirstSubmit(events, u, start, end);
    forall s: nat
      ensures first == Some(s) <==> Submits(events, start, s)
    {
      assert end < |events| ==> IsStart(events, u, end) && !IsSubmit(events, u, end);
    }
  }

  lemma NoStartInside(events: seq<Event>, u: string, k: nat)
    requires k < |Starts(events, u, |events|)|
    ensures var starts := Starts(events, u, |events|);
            && (forall j: nat | starts[k] < j < EndOf(starts, k, |events|) :: !IsStart(events, u, j))
            && (EndOf(starts, k, |events|) < |events| ==> IsStart(events, u, EndOf(starts, k, |events|)))
  {
    hide IsStart, Starts;
    var starts := Starts(events, u, |events|);
    var end := EndOf(starts, k, |events|);
    assert forall m | 0 <= m < |starts| :: starts[m] <= starts[k] || end <= starts[m];
    forall j: nat | starts[k] < j < end
      ensures !IsStart(events, u, j)
    {
      assert j !in starts;
    }
  }

  /** Every evidence event is the evidence of an attempt of its unit. */
  lemma EveryEvidenceRecorded(events: seq<Event>, i: nat) returns (k: nat)
    requires i < |events| && events[i].tool.Evidence?
    ensures k < |Records(events, UnitAt(events, i), |events|)|
    ensures Records(events, UnitAt(events, i), |events|)[k].evidence == i
  {
    hide UnitAt;
    var u := UnitAt(events, i);
    var starts := Starts(events, u, |events|);
    assert IsStart(events, u, i);
    k :| 0 <= k < |starts| && starts[k] == i;
  }

  /** A submit event binds at most one attempt, of any unit. */
  lemma SubmitBindsOneAttempt(events: seq<Event>, i: nat, j: nat, s: nat)
    requires i < |events| && j < |events| && events[i].tool.Evidence? && events[j].tool.Evidence?
    requires Submits(events, i, s) && Submits(events, j, s)
    ensures i == j
  {
    hide UnitAt;
    var u := UnitAt(events, s);
    assert UnitAt(events, i) == u == UnitAt(events, j);
    assert IsStart(events, u, i) && IsStart(events, u, j);
  }

  // ---------- second pass ----------

  datatype ItemResult = ItemResult(id: string, path: string, readObserved: bool, readBeforeSubmit: bool)

  datatype Attempt = Attempt(record: Record, items: seq<ItemResult>, valid: bool)

  predicate InScope(record: Record, r: nat) {
    record.evidence < r && (record.submit.Some? ==> r < record.submit.value)
  }

  /** The first read in the scope of the attempt that opened the path. */
  method FirstRead(record: Record, readEvents: seq<(nat, string)>, path: string) returns (first: Option<nat>)
    ensures first.Some? <==> exists r: nat, p :: (r, p) in readEvents && InScope(record, r) && SameMediaPath(p, path)
    ensures first.Some? ==> exists p :: (first.value, p) in readEvents && InScope(record, first.value)
                                        && SameMediaPath(p, path)
    ensures first.Some? ==> forall r: nat, p | (r, p) in readEvents && InScope(record, r) && SameMediaPath(p, path) ::
                              first.value <= r
  {
    hide SameMediaPath;
    first := None;
    for k := 0 to |readEvents|
      invariant first.Some? ==> exists p :: (first.value, p) in readEvents[..k] && InScope(record, first.value)
                                            && SameMediaPath(p, path)
      invariant forall r: nat, p | (r, p) in readEvents[..k] && InScope(record, r) && SameMediaPath(p, path) ::
                  first.Some? && first.value <= r
    {
      var (idx, actual) := readEvents[k];
      assert readEvents[..k + 1] == readEvents[..k] + [(idx, actual)];
      if InScope(record, idx) && SameMediaPath(actual, path) && (first.None? || idx < first.value) {
        first := Some(idx);
        assert (idx, actual) in readEvents[..k + 1];
      }
    }
    assert readEvents[..|readEvents|] == readEvents;
  }

  /** Reads in the scope of an attempt, in terms of the events. */
  lemma ScopeMeansBetween(events: seq<Event>, readEvents: seq<(nat, string)>, record: Record, path: string)
    requires ReadsSoFar(events, |events|, readEvents)
    ensures (exists r: nat, p :: (r, p) in readEvents && InScope(record, r) && SameMediaPath(p, path)) <==>
            ReadBetween(events, record.evidence, if record.submit.Some? then record.submit.value else |events|, path)
  {
    hide SameMediaPath;
    if r: nat, p :| (r, p) in readEvents && InScope(record, r) && SameMediaPath(p, path) {
      assert p in events[r].paths;
    }
    var hi := if record.submit.Some? then record.submit.value else |events|;
    if r: nat, p :| record.evidence < r < hi && r < |events| && events[r].tool.Read? && p in events[r].paths
                    && SameMediaPath(p, path) {
      assert (r, p) in readEvents;
    }
  }

  /** Where the search for a planned path ends. */
  function ScopeEnd(events: seq<Event>, record: Record): nat {
    if record.submit.Some? then record.submit.value else |events|
  }

  ghost predicate Scored(events: seq<Event>, record: Record, item: Item, result: ItemResult) {
    && result.id == item.id && result.path == item.path
    && (result.readObserved <==> ReadBetween(events, record.evidence, ScopeEnd(events, record), item.path))
    && (result.readBeforeSubmit <==> record.submit.Some? && result.readObserved)
  }

  method ScoreItems(events: seq<Event>, record: Record, readEvents: seq<(nat, string)>)
    returns (items: seq<ItemResult>)
    requires ReadsSoFar(events, |events|, readEvents)
    ensures |items| == |record.items|
    ensures forall k | 0 <= k < |items| :: Scored(events, record, record.items[k], items[k])
  {
    hide ReadsSoFar, ReadBetween, SameMediaPath;
    items := [];
    for k := 0 to |record.items|
      invariant |items| == k
      invariant forall j | 0 <= j < k :: Scored(events, record, record.items[j], items[j])
    {
      var item := record.items[k];
      var readIndex := FirstRead(record, readEvents, item.path);
      ScopeMeansBetween(events, readEvents, record, item.path);
      items := items + [
        ItemResult(item.id, item.path, readIndex.Some?,
                   readIndex.Some? && record.submit.Some? && readIndex.value < record.submit.value)];
    }
  }

  /** An attempt is valid exactly when it planned something, was submitted, and read each planned path in between. */
  method Score(events: seq<Event>, record: Record, readEvents: seq<(nat, string)>) returns (a: Attempt)
    requires ReadsSoFar(events, |events|, readEvents)
    ensures a.record == record && |a.items| == |record.items|
    ensures forall k | 0 <= k < |a.items| :: Scored(events, record, record.items[k], a.items[k])
    ensures a.valid <==> record.items != [] && record.submit.Some?
                         && forall item | item in record.items ::
                              ReadBetween(events, record.evidence, record.submit.value, item.path)
  {
    hide ReadsSoFar, ReadBetween;
    var items := ScoreItems(events, record, readEvents);
    var valid := items != [] && record.submit.Some?
                 && forall k | 0 <= k < |items| :: items[k].readObserved && items[k].readBeforeSubmit;
    a := Attempt(record, items, valid);
    forall k | 0 <= k < |items|
      ensures items[k].readObserved <==>
              ReadBetween(events, record.evidence, ScopeEnd(events, record), record.items[k].path)
    {
      assert Scored(events, record, record.items[k], items[k]);
    }
    assert forall item :: item in record.items <==> exists k :: 0 <= k < |items| && record.items[k] == item;
  }

  /** The score of a collected record is the declared validity of the attempt its evidence event opens. */
  lemma ScoreMeansValid(events: seq<Event>, u: string, k: nat)
    requires k < |Records(events, u, |events|)|
    ensures var record := Records(events, u, |events|)[k];
            && record.evidence < |events|
            && (record.items != [] && record.submit.Some?
                && (forall item | item in record.items ::
                      ReadBetween(events, record.evidence, record.submit.value, item.path))
                <==> AttemptValid(events, record.evidence))
  {
    hide Records, UnitAt, ReadBetween, Submits, PlannedItems;
    RecordedSubmit(events, u, k);
  }

  // ---------- the case verdict ----------

  datatype Summary = Summary(
    planned: bool, sequenceValid: bool, attemptCount: nat, traces: map<string, seq<Attempt>>)

  ghost predicate TraceOf(events: seq<Event>, u: string, trace: seq<Attempt>) {
    && |trace| == |Records(events, u, |events|)|
    && forall k: nat | k < |trace| ::
         && trace[k].record == Records(events, u, |events|)[k]
         && (trace[k].valid <==> AttemptValid(events, trace[k].record.evidence))
  }

  method TraceUnit(events: seq<Event>, u: string, records: seq<Record>, readEvents: seq<(nat, string)>)
    returns (trace: seq<Attempt>)
    requires ReadsSoFar(events, |events|, readEvents) && records == Records(events, u, |events|)
    ensures TraceOf(events, u, trace)
  {
    hide ReadsSoFar, Records, AttemptValid, ReadBetween;
    trace := [];
    for k := 0 to |records|
      invariant |trace| == k
      invariant forall j: nat | j < k ::
                  && trace[j].record == records[j] && records[j].evidence < |events|
                  && (trace[j].valid <==> AttemptValid(events, trace[j].record.evidence))
    {
      var attempt := Score(events, records[k], readEvents);
      ScoreMeansValid(events, u, k);
      trace := trace + [attempt];
    }
  }

  /** Attempts of the first `k` listed units. */
  function TotalUpTo(order: seq<string>, attempts: map<string, seq<Record>>, k: nat): nat
    requires k <= |order| && forall u | u in order :: u in attempts
  {
    if k == 0 then 0 else TotalUpTo(order, attempts, k - 1) + |attempts[order[k - 1]]|
  }

  lemma {:induction false} TotalFrontToBack(order: seq<string>, attempts: map<string, seq<Record>>, k: nat)
    requires k <= |order| && forall u | u in order :: u in attempts
    ensures Total(order[..k], attempts) == TotalUpTo(order, attempts, k)
  {
    if k > 0 {
      TotalFrontToBack(order, attempts, k - 1);
      assert order[..k] == order[..k - 1] + [order[k - 1]];
      TotalLast(order[..k - 1], attempts, order[k - 1]);
    }
  }

  lemma {:induction false} TotalLast(order: seq<string>, attempts: map<string, seq<Record>>, u: string)
    requires u in attempts
    ensures Total(order + [u], attempts) == Total(order, attempts) + |attempts[u]|
  {
    if order == [] {
      assert (order + [u])[1..] == [];
    } else {
      assert (order + [u])[1..] == order[1..] + [u];
      TotalLast(order[1..], attempts, u);
    }
  }

  /** Every attempt of every unit passes exactly when every evidence event opens a valid attempt. */
  lemma AllAttemptsMeansVerdict(events: seq<Event>, order: seq<string>, attempts: map<string, seq<Record>>,
                                traces: map<string, seq<Attempt>>)
    requires Collected(events, |events|, order, attempts) && traces.Keys == attempts.Keys
    requires forall u | u in traces :: TraceOf(events, u, traces[u])
    ensures order != [] && (forall u | u in order :: forall a | a in traces[u] :: a.valid) <==> Verdict(events)
  {
    hide Records, AttemptValid, UnitAt, Total, Distinct;
    forall i: nat | i < |events| && events[i].tool.Evidence?
      ensures UnitAt(events, i) in traces
      ensures exists a ::
                a in traces[UnitAt(events, i)] && a.record.evidence == i && (a.valid <==> AttemptValid(events, i))
    {
      var u := UnitAt(events, i);
      var k := EveryEvidenceRecorded(events, i);
      assert AttemptsOf(attempts, u) == Records(events, u, |events|);
      assert traces[u][k] in traces[u];
    }
    forall u, a | u in traces && a in traces[u]
      ensures a.record.evidence < |events| && events[a.record.evidence].tool.Evidence?
      ensures a.valid <==> AttemptValid(events, a.record.evidence)
    {
      var k :| 0 <= k < |traces[u]| && traces[u][k] == a;
      RecordedSubmit(events, u, k);
    }
    if order != [] {
      var u := order[0];
      assert attempts[u] != [] && AttemptsOf(attempts, u) == Records(events, u, |events|);
      assert traces[u][0] in traces[u];
    }
  }

  /** `work_unit_media_traces` and `media_compliance` on the same events. */
  method MediaCompliance(events: seq<Event>) returns (summary: Summary)
    ensures summary.sequenceValid <==> Verdict(events)
    ensures summary.planned <==> exists i :: 0 <= i < |events| && events[i].tool.Evidence?
    ensures summary.attemptCount == CountEvidence(events, |events|)
    ensures forall u :: u in summary.traces <==> exists i: nat :: IsStart(events, u, i)
    ensures forall u | u in summary.traces :: TraceOf(events, u, summary.traces[u])
  {
    hide *;
    var order, attempts, readEvents := Scan(events);
    CollectedUnits(events, order, attempts);
    UnitsHaveStarts(events, order, attempts);
    var traces: map<string, seq<Attempt>>, attemptCount: nat := TraceUnits(events, order, attempts, readEvents);
    AllAttemptsMeansVerdict(events, order, attempts, traces);
    var valid := order != [] && forall u | u in order :: forall a | a in traces[u] :: a.valid;
    summary := Summary(order != [], valid, attemptCount, traces);
  }

  method TraceUnits(events: seq<Event>, order: seq<string>, attempts: map<string, seq<Record>>,
                    readEvents: seq<(nat, string)>)
    returns (traces: map<string, seq<Attempt>>, attemptCount: nat)
    requires ReadsSoFar(events, |events|, readEvents) && attempts.Keys == set u | u in order
    requires forall u | u in attempts :: attempts[u] == Records(events, u, |events|)
    ensures traces.Keys == attempts.Keys
    ensures forall u | u in traces :: TraceOf(events, u, traces[u])
    ensures attemptCount == Total(order, attempts)
  {
    hide *;
    traces, attemptCount := map[], 0;
    TotalStart(order, attempts);
    for k := 0 to |order|
      invariant forall u :: u in traces <==> u in order[..k]
      invariant forall u | u in traces :: TraceOf(events, u, traces[u])
      invariant attemptCount == TotalUpTo(order, attempts, k)
    {
      var unit := order[k];
      var trace := TraceUnit(events, unit, attempts[unit], readEvents);
      TraceLength(events, unit, trace);
      TotalStep(order, attempts, k);
      attemptCount := attemptCount + |trace|;
      traces := traces[unit := trace];
      assert order[..k + 1] == order[..k] + [unit];
    }
    assert order[..|order|] == order;
    TotalFrontToBack(order, attempts, |order|);
  }

  lemma TotalStart(order: seq<string>, attempts: map<string, seq<Record>>)
    requires forall u | u in order :: u in attempts
    ensures TotalUpTo(order, attempts, 0) == 0
  {
  }

  lemma TotalStep(order: seq<string>, attempts: map<string, seq<Record>>, k: nat)
    requires k < |order| && forall u | u in order :: u in attempts
    ensures TotalUpTo(order, attempts, k + 1) == TotalUpTo(order, attempts, k) + |attempts[order[k]]|
  {
  }

  lemma TraceLength(events: seq<Event>, u: string, trace: seq<Attempt>)
    requires TraceOf(events, u, trace)
    ensures |trace| == |Records(events, u, |events|)|
  {
    hide Records;
  }

  lemma CollectedUnits(events: seq<Event>, order: seq<string>, attempts: map<string, seq<Record>>)
    requires Collected(events, |events|, order, attempts)
    ensures forall u | u in attempts :: attempts[u] == Records(events, u, |events|)
    ensures forall u | u in order :: u in attempts
    ensures attempts.Keys == set u | u in order
    ensures Total(order, attempts) == CountEvidence(events, |events|)
  {
    hide Total, Distinct, Records, CountEvidence;
    forall u | u in attempts
      ensures attempts[u] == Records(events, u, |events|)
    {
      assert AttemptsOf(attempts, u) == Records(events, u, |events|);
    }
  }

  lemma UnitHasStarts(events: seq<Event>, attempts: map<string, seq<Record>>, u: string)
    requires AreRecords(events, |events|, attempts)
    ensures u in attempts <==> exists i: nat :: IsStart(events, u, i)
  {
    hide IsStart, Records, Starts;
    var starts := Starts(events, u, |events|);
    RecordsCount(events, u, |events|);
    assert AttemptsOf(attempts, u) == Records(events, u, |events|);
    if u in attempts {
      assert IsStart(events, u, starts[0]);
    }
    if i: nat :| IsStart(events, u, i) {
      StartListed(events, u, i);
    }
  }

  lemma StartListed(events: seq<Event>, u: string, i: nat)
    requires IsStart(events, u, i)
    ensures i in Starts(events, u, |events|)
  {
    hide Starts;
  }

  lemma UnitsHaveStarts(events: seq<Event>, order: seq<string>, attempts: map<string, seq<Record>>)
    requires Collected(events, |events|, order, attempts)
    ensures forall u :: u in attempts <==> exists i: nat :: IsStart(events, u, i)
    ensures order != [] <==> exists i :: 0 <= i < |events| && events[i].tool.Evidence?
  {
    hide Total, Distinct, UnitAt, AreRecords, CountEvidence;
    forall u
      ensures u in attempts <==> exists i: nat :: IsStart(events, u, i)
    {
      UnitHasStarts(events, attempts, u);
    }
    if order != [] {
      assert order[0] in attempts;
      var i: nat :| IsStart(events, order[0], i);
      assert events[i].tool.Evidence?;
    }
    if i :| 0 <= i < |events| && events[i].tool.Evidence? {
      assert IsStart(events, UnitAt(events, i), i);
      assert UnitAt(events, i) in order;
    }
  }
}

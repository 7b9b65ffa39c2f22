/**
 The dependency inventory and its exact lock file (src/k_slide/certification.py).
 */
module DependencyLock {
  import opened Wrappers
  import opened Sorting
  import opened Strings

  // ---------- package names ----------

  predicate Separator(c: char) {
    c == '-' || c == '_' || c == '.'
  }

  function DropSeparators(s: string): (r: string)
    ensures |r| <= |s|
  {
    if s != [] && Separator(s[0]) then DropSeparators(s[1..]) else s
  }

  /** Every run of separators becomes one hyphen. */
  function Collapse(s: string): string
    decreases |s|
  {
    if s == [] then []
    else if Separator(s[0]) then ['-'] + Collapse(DropSeparators(s[1..]))
    else [s[0]] + Collapse(s[1..])
  }

  function LowerChar(c: char): char {
    if 'A' <= c <= 'Z' then (c as int + 32) as char else c
  }

  function Lower(s: string): string {
    if s == [] then [] else [LowerChar(s[0])] + Lower(s[1..])
  }

  /** `lower` is `str.lower`, of which the proofs use no more than `Lowering`. */
  function CanonicalName(lower: string -> string, name: string): string {
    lower(Collapse(Strip(name)))
  }

  /** No other separator than a hyphen, and no two hyphens in a row. */
  predicate Joined(s: string) {
    && (forall i | 0 <= i < |s| :: s[i] != '_' && s[i] != '.')
    && (forall i | 0 < i < |s| :: s[i - 1] != '-' || s[i] != '-')
  }

  /** Lower-casing twice is lower-casing once; it adds no separator and no white space at the ends. */
  ghost predicate Lowering(lower: string -> string) {
    && (forall s :: lower(lower(s)) == lower(s))
    && (forall s :: lower(s) == [] <==> s == [])
    && (forall s | Trimmed(s) :: Trimmed(lower(s)))
    && (forall s | Joined(s) :: Joined(lower(s)))
  }

  /** Lower-casing of the letters of ASCII is of this kind. */
  lemma AsciiLowering()
    ensures Lowering(Lower)
  {
    hide Space, LowerChar, Joined, Trimmed;
    forall s
      ensures Lower(Lower(s)) == Lower(s)
      ensures Lower(s) == [] <==> s == []
      ensures Trimmed(s) ==> Trimmed(Lower(s))
      ensures Joined(s) ==> Joined(Lower(s))
    {
      AsciiLowers(s);
    }
  }

  lemma AsciiLowers(s: string)
    ensures Lower(Lower(s)) == Lower(s)
    ensures Lower(s) == [] <==> s == []
    ensures Trimmed(s) ==> Trimmed(Lower(s))
    ensures Joined(s) ==> Joined(Lower(s))
  {
    hide Space, LowerChar, Lower;
    LowerEach(s);
    LowerEach(Lower(s));
    forall c: char
      ensures Space(LowerChar(c)) <==> Space(c)
      ensures LowerChar(LowerChar(c)) == LowerChar(c)
      ensures LowerChar(c) == '-' <==> c == '-'
      ensures LowerChar(c) == '_' <==> c == '_'
      ensures LowerChar(c) == '.' <==> c == '.'
    {
      LowerSpace(c);
    }
  }

  predicate CanonicalForm(lower: string -> string, s: string) {
    lower(s) == s && Joined(s) && (s == [] || Trimmed(s))
  }

  lemma {:induction false} DropsAll(s: string)
    ensures DropSeparators(s) == [] || !Separator(DropSeparators(s)[0])
    ensures DropSeparators(s) != [] ==> DropSeparators(s)[|DropSeparators(s)| - 1] == s[|s| - 1]
  {
    if s != [] && Separator(s[0]) {
      DropsAll(s[1..]);
    }
  }

  lemma {:induction false} CollapseFolds(s: string)
    ensures forall i | 0 <= i < |Collapse(s)| :: Collapse(s)[i] != '_' && Collapse(s)[i] != '.'
    ensures forall i | 0 < i < |Collapse(s)| :: Collapse(s)[i - 1] != '-' || Collapse(s)[i] != '-'
    ensures (s == [] <==> Collapse(s) == [])
    ensures s != [] ==> Collapse(s)[0] == if Separator(s[0]) then '-' else s[0]
    ensures s != [] && !Space(s[|s| - 1]) ==> !Space(Collapse(s)[|Collapse(s)| - 1])
    decreases |s|
  {
    if s != [] {
      if Separator(s[0]) {
        var rest := DropSeparators(s[1..]);
        DropsAll(s[1..]);
        CollapseFolds(rest);
        var tail := Collapse(rest);
        assert Collapse(s) == ['-'] + tail;
      } else {
        CollapseFolds(s[1..]);
        assert Collapse(s) == [s[0]] + Collapse(s[1..]);
      }
    }
  }

  lemma {:induction false} CollapseFolded(s: string)
    requires forall i | 0 <= i < |s| :: s[i] != '_' && s[i] != '.'
    requires forall i | 0 < i < |s| :: s[i - 1] != '-' || s[i] != '-'
    ensures Collapse(s) == s
    decreases |s|
  {
    if s != [] {
      CollapseFolded(s[1..]);
      assert s == [s[0]] + s[1..];
      if Separator(s[0]) {
        assert s[1..] == [] || s[1..][0] != '-';
        assert DropSeparators(s[1..]) == s[1..];
      }
    }
  }

  lemma {:induction false} LowerEach(s: string)
    ensures |Lower(s)| == |s| && forall i | 0 <= i < |s| :: Lower(s)[i] == LowerChar(s[i])
  {
    if s != [] {
      LowerEach(s[1..]);
    }
  }

  lemma LowerSpace(c: char)
    ensures Space(LowerChar(c)) <==> Space(c)
    ensures LowerChar(LowerChar(c)) == LowerChar(c)
    ensures LowerChar(c) == '-' <==> c == '-'
    ensures LowerChar(c) == '_' <==> c == '_'
    ensures LowerChar(c) == '.' <==> c == '.'
  {
  }

  /** Canonical names are in canonical form. */
  lemma NameIsCanonical(lower: string -> string, name: string)
    requires Lowering(lower)
    ensures CanonicalForm(lower, CanonicalName(lower, name))
  {
    hide Strip, Collapse, Space;
    var stripped := Strip(name);
    StripTrims(name);
    CollapseFolds(stripped);
    HyphenIsNoSpace();
  }

  lemma HyphenIsNoSpace()
    ensures !Space('-')
  {
  }

  /** The names in canonical form are exactly the ones canonicalisation leaves alone. */
  lemma CanonicalFixed(lower: string -> string, name: string)
    requires Lowering(lower)
    ensures CanonicalForm(lower, name) <==> CanonicalName(lower, name) == name
    ensures CanonicalName(lower, CanonicalName(lower, name)) == CanonicalName(lower, name)
  {
    hide CanonicalForm, CanonicalName, Lowering;
    NameIsCanonical(lower, name);
    FixedName(lower, name);
    FixedName(lower, CanonicalName(lower, name));
  }

  lemma FixedName(lower: string -> string, name: string)
    requires Lowering(lower)
    ensures CanonicalForm(lower, name) ==> CanonicalName(lower, name) == name
  {
    hide Collapse, Space, LStrip, RStrip;
    if CanonicalForm(lower, name) {
      if name == [] {
        EmptyName(lower);
      } else {
        TrimmedStrip(name);
        CollapseFolded(name);
      }
    }
  }

  lemma EmptyName(lower: string -> string)
    requires Lowering(lower)
    ensures CanonicalName(lower, []) == []
  {
  }

  // ---------- the inventory ----------

  /** The texts of name and version of an item; what is no mapping, or has none of them, has empty texts. */
  datatype Package = Package(name: string, version: string)

  predicate IsBase(name: string) {
    name == "k-slide" || name == "pip" || name == "setuptools" || name == "wheel"
  }

  predicate IsScanner(name: string) {
    name == "pip-audit" || name == "semgrep" || name == "cyclonedx-bom" || name == "cyclonedx-python-lib"
  }

  function Clean(lower: string -> string, item: Package): Package {
    Package(CanonicalName(lower, item.name), Strip(item.version))
  }

  /** A package without a name or a version, or one of the scanners. */
  predicate Refused(lower: string -> string, item: Package) {
    Clean(lower, item).name == [] || Clean(lower, item).version == [] || IsScanner(Clean(lower, item).name)
  }

  function KeptOne(lower: string -> string, item: Package): seq<Package> {
    if Refused(lower, item) || IsBase(Clean(lower, item).name) then [] else [Clean(lower, item)]
  }

  /** The deployed packages, cleaned, in the order given. */
  function Kept(lower: string -> string, packages: seq<Package>): seq<Package> {
    if packages == [] then [] else Kept(lower, packages[..|packages| - 1]) + KeptOne(lower, packages[|packages| - 1])
  }

  ghost predicate DistinctNames(packages: seq<Package>) {
    forall i, j | 0 <= i < j < |packages| :: packages[i].name != packages[j].name
  }

  ghost predicate Acceptable(lower: string -> string, packages: seq<Package>) {
    (forall item | item in packages :: !Refused(lower, item)) && DistinctNames(Kept(lower, packages))
  }

  predicate NameLe(a: Package, b: Package) {
    LexLe(a.name, b.name)
  }

  /** The canonical inventory. */
  function Inventory(lower: string -> string, packages: seq<Package>): seq<Package> {
    Sort(Kept(lower, packages), NameLe)
  }

  lemma NameOrder()
    ensures Preorder(NameLe)
  {
    OrderByKey(NameLe, (item: Package) => item.name);
  }

  lemma KeptStep(lower: string -> string, packages: seq<Package>, n: nat)
    requires n < |packages|
    ensures Kept(lower, packages[..n + 1]) == Kept(lower, packages[..n]) + KeptOne(lower, packages[n])
  {
    hide KeptOne;
    assert packages[..n + 1][..n] == packages[..n];
  }

  lemma {:induction false} KeptPrefix(lower: string -> string, packages: seq<Package>, n: nat)
    requires n <= |packages|
    ensures Kept(lower, packages[..n]) <= Kept(lower, packages)
    decreases |packages| - n
  {
    hide Kept, KeptOne;
    if n == |packages| {
      assert packages[..n] == packages;
    } else {
      KeptPrefix(lower, packages, n + 1);
      KeptStep(lower, packages, n);
    }
  }

  ghost predicate SoFar(lower: string -> string, packages: seq<Package>, n: nat)
    requires n <= |packages|
  {
    (forall i | 0 <= i < n :: !Refused(lower, packages[i])) && DistinctNames(Kept(lower, packages[..n]))
  }

  lemma AcceptablePrefix(lower: string -> string, packages: seq<Package>, n: nat)
    requires n <= |packages| && Acceptable(lower, packages)
    ensures SoFar(lower, packages, n)
  {
    hide Refused, Kept;
    KeptPrefix(lower, packages, n);
    assert forall i | 0 <= i < n :: packages[i] in packages;
  }

  lemma SoFarStep(lower: string -> string, packages: seq<Package>, n: nat, names: set<string>)
    requires n < |packages| && SoFar(lower, packages, n)
    requires forall name :: name in names <==> exists k | k in Kept(lower, packages[..n]) :: k.name == name
    ensures SoFar(lower, packages, n + 1) <==>
            && !Refused(lower, packages[n])
            && (IsBase(Clean(lower, packages[n]).name) || Clean(lower, packages[n]).name !in names)
  {
    hide IsBase, Clean, Kept, Refused;
    KeptStep(lower, packages, n);
    var before := Kept(lower, packages[..n]);
    if !Refused(lower, packages[n]) && !IsBase(Clean(lower, packages[n]).name) {
      AppendName(before, Clean(lower, packages[n]));
    }
    assert before + [] == before;
  }

  lemma AppendName(before: seq<Package>, item: Package)
    requires DistinctNames(before)
    ensures DistinctNames(before + [item]) <==> forall k | k in before :: k.name != item.name
  {
    var all := before + [item];
    if DistinctNames(all) {
      forall k | k in before
        ensures k.name != item.name
      {
        var i :| 0 <= i < |before| && before[i] == k;
        assert all[i].name != all[|before|].name;
      }
    }
  }

  /** The records kept and the names already used. */
  ghost predicate Recorded(lower: string -> string, packages: seq<Package>, n: nat, records: seq<Package>,
                           names: set<string>)
    requires n <= |packages|
  {
    && SoFar(lower, packages, n) && records == Kept(lower, packages[..n])
    && forall name :: name in names <==> exists k | k in records :: k.name == name
  }

  lemma RecordedStep(lower: string -> string, packages: seq<Package>, n: nat, records: seq<Package>, names: set<string>)
    requires n < |packages| && Recorded(lower, packages, n, records, names)
    ensures SoFar(lower, packages, n + 1) <==>
            && !Refused(lower, packages[n])
            && (IsBase(Clean(lower, packages[n]).name) || Clean(lower, packages[n]).name !in names)
    ensures SoFar(lower, packages, n + 1) && IsBase(Clean(lower, packages[n]).name) ==>
              Recorded(lower, packages, n + 1, records, names)
    ensures SoFar(lower, packages, n + 1) && !IsBase(Clean(lower, packages[n]).name) ==>
              var item := Clean(lower, packages[n]);
              Recorded(lower, packages, n + 1, records + [item], names + {item.name})
  {
    hide IsBase, Clean, Kept, Refused, SoFar;
    SoFarStep(lower, packages, n, names);
    KeptStep(lower, packages, n);
    assert records + [] == records;
    assert forall k :: k in records + [Clean(lower, packages[n])] <==> k in records || k == Clean(lower, packages[n]);
  }

  lemma RecordedEnd(lower: string -> string, packages: seq<Package>, records: seq<Package>, names: set<string>)
    requires Recorded(lower, packages, |packages|, records, names)
    ensures Acceptable(lower, packages) && records == Kept(lower, packages)
  {
    hide Refused, Kept;
    assert packages[..|packages|] == packages;
  }

  /** `canonical_dependency_inventory`. */
  method CanonicalInventory(lower: string -> string, packages: seq<Package>) returns (r: Option<seq<Package>>)
    ensures r.Some? <==> Acceptable(lower, packages)
    ensures r.Some? ==> r.value == Inventory(lower, packages)
  {
    hide IsBase, Clean, Kept, Refused, SoFar, Acceptable, Recorded, IsScanner;
    var records: seq<Package>, names: set<string> := [], {};
    NothingRecorded(lower, packages);
    for n := 0 to |packages|
      invariant Recorded(lower, packages, n, records, names)
    {
      RecordedStep(lower, packages, n, records, names);
      if Acceptable(lower, packages) {
        AcceptablePrefix(lower, packages, n + 1);
      }
      if Refused(lower, packages[n]) {
        return None;
      }
      var item := Clean(lower, packages[n]);
      if !IsBase(item.name) {
        if item.name in names {
          return None;
        }
        records := records + [item];
        names := names + {item.name};
      }
    }
    RecordedEnd(lower, packages, records, names);
    r := Some(Sort(records, NameLe));
  }

  lemma NothingRecorded(lower: string -> string, packages: seq<Package>)
    ensures Recorded(lower, packages, 0, [], {})
  {
  }

  // ---------- the inventory is sorted, a fixed point, and independent of order ----------

  ghost predicate StrictlySorted(packages: seq<Package>) {
    Sorted(packages, NameLe) && DistinctNames(packages)
  }

  lemma NamesRearranged(a: seq<Package>, b: seq<Package>)
    requires DistinctNames(a) && multiset(a) == multiset(b)
    ensures DistinctNames(b)
  {
    forall i, j | 0 <= i < j < |b|
      ensures b[i].name != b[j].name
    {
      assert b[i] in multiset(b) && b[j] in multiset(b);
      var p :| 0 <= p < |a| && a[p] == b[i];
      var q :| 0 <= q < |a| && a[q] == b[j];
      if p == q {
        OnlyOnce(a, p);
        TwiceIn(b, i, j);
        assert false;
      }
      assert p < q || q < p;
    }
  }

  lemma OnlyOnce(a: seq<Package>, p: nat)
    requires DistinctNames(a) && p < |a|
    ensures multiset(a)[a[p]] == 1
  {
    WithoutIndex(a, p);
    var rest := a[..p] + a[p + 1..];
    assert forall i | 0 <= i < |rest| :: rest[i] == if i < p then a[i] else a[i + 1];
    assert a[p] !in rest;
    assert a[p] !in multiset(rest);
  }

  lemma TwiceIn(b: seq<Package>, i: nat, j: nat)
    requires i < j < |b|
    ensures b[i] == b[j] ==> multiset(b)[b[j]] >= 2
  {
    assert b == b[..j] + b[j..];
    assert b[..j][i] == b[i] && b[j..][0] == b[j];
    assert b[i] in multiset(b[..j]) && b[j] in multiset(b[j..]);
  }

  lemma InventorySorted(lower: string -> string, packages: seq<Package>)
    requires Acceptable(lower, packages)
    ensures StrictlySorted(Inventory(lower, packages))
    ensures multiset(Inventory(lower, packages)) == multiset(Kept(lower, packages))
  {
    hide Kept, Refused, NameLe;
    NameOrder();
    SortSorts(Kept(lower, packages), NameLe);
    NamesRearranged(Kept(lower, packages), Inventory(lower, packages));
  }

  lemma {:induction false} KeptConcat(lower: string -> string, a: seq<Package>, b: seq<Package>)
    ensures Kept(lower, a + b) == Kept(lower, a) + Kept(lower, b)
  {
    hide KeptOne;
    if b == [] {
      assert a + b == a;
    } else {
      var front, last := b[..|b| - 1], b[|b| - 1];
      KeptConcat(lower, a, front);
      assert (a + b)[..|a + b| - 1] == a + front;
    }
  }

  lemma KeptSingle(lower: string -> string, item: Package)
    ensures Kept(lower, [item]) == KeptOne(lower, item)
  {
    hide KeptOne;
    assert Kept(lower, [item][..0]) == [];
  }

  lemma KeptWithoutIndex(lower: string -> string, s: seq<Package>, p: nat)
    requires p < |s|
    ensures multiset(Kept(lower, s)) == multiset(Kept(lower, s[..p] + s[p + 1..])) + multiset(KeptOne(lower, s[p]))
  {
    hide Kept, KeptOne;
    assert s == s[..p] + ([s[p]] + s[p + 1..]);
    KeptConcat(lower, s[..p], [s[p]] + s[p + 1..]);
    KeptConcat(lower, [s[p]], s[p + 1..]);
    KeptSingle(lower, s[p]);
    KeptConcat(lower, s[..p], s[p + 1..]);
  }

  lemma {:induction false} KeptRearranged(lower: string -> string, a: seq<Package>, b: seq<Package>)
    requires multiset(a) == multiset(b)
    ensures multiset(Kept(lower, a)) == multiset(Kept(lower, b))
    decreases |a|
  {
    hide *;
    SameLength(a, b);
    if a == [] {
      assert a == b;
    } else {
      var p := Matching(a, b);
      KeptRearranged(lower, a[..0] + a[1..], b[..p] + b[p + 1..]);
      KeptWithoutIndex(lower, a, 0);
      KeptWithoutIndex(lower, b, p);
    }
  }

  /** The inventory does not depend on the order in which the packages are listed. */
  lemma OrderIndependent(lower: string -> string, a: seq<Package>, b: seq<Package>)
    requires multiset(a) == multiset(b)
    ensures Acceptable(lower, a) <==> Acceptable(lower, b)
    ensures Acceptable(lower, a) ==> Inventory(lower, a) == Inventory(lower, b)
  {
    if Acceptable(lower, a) {
      AcceptableRearranged(lower, a, b);
      InventoryRearranged(lower, a, b);
    }
    if Acceptable(lower, b) {
      AcceptableRearranged(lower, b, a);
    }
  }

  lemma AcceptableRearranged(lower: string -> string, a: seq<Package>, b: seq<Package>)
    requires multiset(a) == multiset(b) && Acceptable(lower, a)
    ensures Acceptable(lower, b)
  {
    hide Kept, Refused;
    KeptRearranged(lower, a, b);
    NamesRearranged(Kept(lower, a), Kept(lower, b));
    assert forall item :: item in b <==> item in multiset(b);
    assert forall item :: item in a <==> item in multiset(a);
  }

  lemma InventoryRearranged(lower: string -> string, a: seq<Package>, b: seq<Package>)
    requires multiset(a) == multiset(b) && Acceptable(lower, a) && Acceptable(lower, b)
    ensures Inventory(lower, a) == Inventory(lower, b)
  {
    hide Kept, Refused, LexLe, Inventory;
    KeptRearranged(lower, a, b);
    InventorySorted(lower, a);
    InventorySorted(lower, b);
    NameOrder();
    forall x, y | x in Inventory(lower, a) && y in Inventory(lower, a) && NameLe(x, y) && NameLe(y, x)
      ensures x == y
    {
      LexAntisymmetric(x.name, y.name);
    }
    SortedUnique(Inventory(lower, a), Inventory(lower, b), NameLe);
  }

  lemma {:induction false} KeptMembers(lower: string -> string, packages: seq<Package>, k: Package)
    requires k in Kept(lower, packages)
    ensures exists item | item in packages :: KeptOne(lower, item) == [k]
  {
    hide KeptOne;
    var front, last := packages[..|packages| - 1], packages[|packages| - 1];
    if k in Kept(lower, front) {
      KeptMembers(lower, front, k);
    } else {
      assert KeptOne(lower, last) == [k] by { KeptOneIs(lower, last, k); }
    }
  }

  lemma KeptOneIs(lower: string -> string, item: Package, k: Package)
    ensures k in KeptOne(lower, item) ==> KeptOne(lower, item) == [k]
  {
    hide Clean, Refused, IsBase;
  }

  /** A kept package is clean already, and is kept again. */
  lemma KeptIsClean(lower: string -> string, item: Package, k: Package)
    requires Lowering(lower) && KeptOne(lower, item) == [k]
    ensures KeptOne(lower, k) == [k] && !Refused(lower, k)
  {
    hide CanonicalName, Strip, IsBase, IsScanner, Lowering;
    CanonicalFixed(lower, item.name);
    StripTrims(item.version);
  }

  lemma {:induction false} KeptAgain(lower: string -> string, packages: seq<Package>)
    requires forall k | k in packages :: KeptOne(lower, k) == [k]
    ensures Kept(lower, packages) == packages
  {
    hide KeptOne;
    if packages != [] {
      var front, last := packages[..|packages| - 1], packages[|packages| - 1];
      KeptAgain(lower, front);
      assert last in packages;
      assert packages == front + [last];
    }
  }

  /** Canonicalising an inventory gives the same inventory. */
  lemma InventoryFixed(lower: string -> string, packages: seq<Package>)
    requires Lowering(lower) && Acceptable(lower, packages)
    ensures Acceptable(lower, Inventory(lower, packages))
    ensures Inventory(lower, Inventory(lower, packages)) == Inventory(lower, packages)
  {
    hide Kept, Refused, KeptOne, LexLe, Lowering;
    var inventory := Inventory(lower, packages);
    InventorySorted(lower, packages);
    forall k | k in inventory
      ensures KeptOne(lower, k) == [k] && !Refused(lower, k)
    {
      assert k in multiset(inventory);
      KeptMembers(lower, packages, k);
      var item :| item in packages && KeptOne(lower, item) == [k];
      KeptIsClean(lower, item, k);
    }
    KeptAgain(lower, inventory);
    SortOfSorted(inventory, NameLe);
  }

  // ---------- the lock file ----------

  function LockLine(item: Package): string {
    item.name + "==" + item.version
  }

  function LockLines(packages: seq<Package>): string {
    if packages == [] then [] else LockLine(packages[0]) + ['\n'] + LockLines(packages[1..])
  }

  /** `dependency_lock_text` of the packages of an inventory. */
  method LockText(lower: string -> string, packages: seq<Package>) returns (text: Option<string>)
    ensures text.Some? <==> Acceptable(lower, packages) && Inventory(lower, packages) != []
    ensures text.Some? ==> text.value == LockLines(Inventory(lower, packages))
  {
    var canonical := CanonicalInventory(lower, packages);
    if canonical.None? || canonical.value == [] {
      return None;
    }
    text := Some(LockLines(canonical.value));
  }

  /** The first place where `needle` occurs. */
  function Find(s: string, needle: string): (at: Option<nat>)
    ensures at.Some? ==> at.value + |needle| <= |s| && s[at.value..at.value + |needle|] == needle
  {
    if |s| < |needle| then None
    else if s[..|needle|] == needle then Some(0)
    else if s == [] then None
    else
      var rest := Find(s[1..], needle);
      if rest.None? then None else Some(rest.value + 1)
  }

  datatype Requirement = Blank | Unsupported | Exact(package: Package)

  function ParseLine(raw: string): Requirement {
    var line := Strip(raw);
    if line == [] || StartsWith(line, "#") then Blank
    else
      var at := Find(line, "==");
      if at.None? || Strip(line[..at.value]) == [] || Strip(line[at.value + 2..]) == [] || Find(line, " @ ").Some?
         || StartsWith(line, "-") then Unsupported
      else Exact(Package(Strip(line[..at.value]), Strip(line[at.value + 2..])))
  }

  function Parsed(lines: seq<string>): seq<Package> {
    if lines == [] then []
    else Parsed(lines[..|lines| - 1])
         + if ParseLine(lines[|lines| - 1]).Exact? then [ParseLine(lines[|lines| - 1]).package] else []
  }

  /** Only exact requirements, for an acceptable and non-empty inventory. */
  ghost predicate Loadable(lower: string -> string, text: string) {
    var lines := SplitLines(text);
    && (forall raw | raw in lines :: !ParseLine(raw).Unsupported?)
    && Acceptable(lower, Parsed(lines)) && Inventory(lower, Parsed(lines)) != []
  }

  /** `load_dependency_lock` on the text of the file. */
  method LoadLock(lower: string -> string, text: string) returns (r: Option<seq<Package>>)
    ensures r.Some? <==> Loadable(lower, text)
    ensures r.Some? ==> r.value == Inventory(lower, Parsed(SplitLines(text)))
  {
    hide ParseLine, SplitLines, Acceptable, Inventory;
    var lines := SplitLines(text);
    var packages: seq<Package> := [];
    for n := 0 to |lines|
      invariant packages == Parsed(lines[..n])
      invariant forall i | 0 <= i < n :: !ParseLine(lines[i]).Unsupported?
    {
      ParsedStep(lines, n);
      var requirement := ParseLine(lines[n]);
      assert lines[n] in lines;
      if requirement.Unsupported? {
        return None;
      }
      if requirement.Exact? {
        packages := packages + [requirement.package];
      }
    }
    assert lines[..|lines|] == lines;
    var inventory := CanonicalInventory(lower, packages);
    if inventory.None? || inventory.value == [] {
      return None;
    }
    r := inventory;
  }

  lemma ParsedStep(lines: seq<string>, n: nat)
    requires n < |lines|
    ensures Parsed(lines[..n + 1]) ==
            Parsed(lines[..n]) + if ParseLine(lines[n]).Exact? then [ParseLine(lines[n]).package] else []
  {
    hide ParseLine;
    assert lines[..n + 1][..n] == lines[..n];
  }

  // ---------- a printed lock loads back ----------

  predicate Alphanumeric(c: char) {
    'a' <= c <= 'z' || '0' <= c <= '9'
  }

  /** Names as normalised in the section "Normalized Names" of PEP 503. */
  predicate Normalized(name: string) {
    && name != [] && Alphanumeric(name[0]) && Alphanumeric(name[|name| - 1])
    && forall i | 0 <= i < |name| :: Alphanumeric(name[i]) || (name[i] == '-' && name[i - 1] != '-')
  }

  /** A version on one line without " @ ". */
  predicate PlainVersion(version: string) {
    Trimmed(version) && OneLine(version) && Find(version, " @ ").None?
  }

  predicate Lockable(item: Package) {
    Normalized(item.name) && PlainVersion(item.version)
  }

  lemma {:induction false} FindAfterName(name: string, rest: string)
    requires forall i | 0 <= i < |name| :: name[i] != '='
    ensures Find(name + ("==" + rest), "==") == Some(|name|)
  {
    var s := name + ("==" + rest);
    if name == [] {
      assert s[..2] == "==";
    } else {
      FindAfterName(name[1..], rest);
      assert s[1..] == name[1..] + ("==" + rest);
      assert s[..2][0] == name[0] != '=';
      assert "=="[0] == '=';
    }
  }

  lemma {:induction false} NoMarkerBefore(prefix: string, version: string)
    requires forall i | 0 <= i < |prefix| :: prefix[i] != ' '
    requires Find(version, " @ ").None?
    ensures Find(prefix + version, " @ ").None?
  {
    if prefix == [] {
      assert prefix + version == version;
    } else {
      NoMarkerBefore(prefix[1..], version);
      var s := prefix + version;
      assert s[1..] == prefix[1..] + version;
      if |s| >= 3 {
        assert s[..3][0] == prefix[0] != ' ';
        assert " @ "[0] == ' ';
      }
    }
  }

  lemma NameCharacters(name: string)
    requires Normalized(name)
    ensures forall i | 0 <= i < |name| :: name[i] != '=' && name[i] != ' ' && !IsBreak(name[i])
    ensures Trimmed(name) && name[0] != '#' && name[0] != '-'
  {
  }

  lemma LineParts(name: string, version: string, line: string)
    requires Normalized(name) && PlainVersion(version) && line == name + ("==" + version)
    ensures Strip(line) == line && Strip(name) == name && Strip(version) == version
    ensures line != [] && name != [] && version != []
    ensures Find(line, "==") == Some(|name|) && line[..|name|] == name && line[|name| + 2..] == version
  {
    hide Strip, Space, Find, Normalized, IsBreak;
    NameCharacters(name);
    LineTrimmed(name, version);
    TrimmedStrip(line);
    TrimmedStrip(name);
    TrimmedStrip(version);
    FindAfterName(name, version);
  }

  lemma LineSupported(name: string, version: string, line: string)
    requires Normalized(name) && PlainVersion(version) && line == name + ("==" + version)
    ensures Find(line, " @ ").None? && !StartsWith(line, "#") && !StartsWith(line, "-")
  {
    hide Strip, Space, Find, Normalized, IsBreak;
    NameCharacters(name);
    var prefix := name + "==";
    assert line == prefix + version;
    NoMarkerBefore(prefix, version);
    assert line[0] == name[0];
  }

  lemma LineUnbroken(item: Package)
    requires Lockable(item)
    ensures OneLine(LockLine(item))
  {
    hide Strip, Space, Find, Normalized, IsBreak;
    NameCharacters(item.name);
    EqualsIsNoBreak();
  }

  lemma LineOfItem(item: Package)
    requires Lockable(item)
    ensures ParseLine(LockLine(item)) == Exact(item)
    ensures OneLine(LockLine(item))
  {
    hide Strip, Find, Normalized, IsBreak, PlainVersion, StartsWith;
    var line := LockLine(item);
    assert line == item.name + ("==" + item.version);
    LineParts(item.name, item.version, line);
    LineSupported(item.name, item.version, line);
    LineUnbroken(item);
  }

  lemma EqualsIsNoBreak()
    ensures !IsBreak('=')
  {
  }

  lemma LineTrimmed(name: string, version: string)
    requires Trimmed(name) && Trimmed(version)
    ensures Trimmed(name + ("==" + version))
  {
    hide Space;
    var line := name + ("==" + version);
    assert line[0] == name[0] && line[|line| - 1] == version[|version| - 1];
  }

  lemma {:induction false} ParsedFront(line: string, lines: seq<string>)
    ensures Parsed([line] + lines) ==
            (if ParseLine(line).Exact? then [ParseLine(line).package] else []) + Parsed(lines)
  {
    hide ParseLine;
    if lines == [] {
      assert [line] + lines == [line];
      assert [line][..0] == [];
    } else {
      var front := lines[..|lines| - 1];
      ParsedFront(line, front);
      assert ([line] + lines)[..|lines|] == [line] + front;
    }
  }

  lemma {:induction false} LockReads(packages: seq<Package>)
    requires forall item | item in packages :: Lockable(item)
    ensures Parsed(SplitLines(LockLines(packages))) == packages
    ensures forall raw | raw in SplitLines(LockLines(packages)) :: ParseLine(raw).Exact?
  {
    hide ParseLine, SplitLines, Lockable, LockLine, IsBreak, Parsed;
    if packages == [] {
      EmptyLock();
    } else {
      var item, rest := packages[0], packages[1..];
      assert item in packages;
      LineOfItem(item);
      SplitFirst(LockLine(item), LockLines(rest));
      assert forall k | k in rest :: k in packages;
      LockReads(rest);
      ParsedFront(LockLine(item), SplitLines(LockLines(rest)));
      assert packages == [item] + rest;
    }
  }

  lemma EmptyLock()
    ensures SplitLines([]) == [] && Parsed([]) == []
  {
  }

  /** Loading the printed lock gives back the canonical inventory. */
  lemma LockRoundTrip(lower: string -> string, packages: seq<Package>)
    requires Lowering(lower) && Acceptable(lower, packages) && Inventory(lower, packages) != []
    requires forall item | item in Inventory(lower, packages) :: Lockable(item)
    ensures Loadable(lower, LockLines(Inventory(lower, packages)))
    ensures Inventory(lower, Parsed(SplitLines(LockLines(Inventory(lower, packages))))) == Inventory(lower, packages)
  {
    hide ParseLine, SplitLines, Lockable, Acceptable, Inventory, LockLines, Parsed, Lowering;
    LockReads(Inventory(lower, packages));
    InventoryFixed(lower, packages);
  }

  /** Print, then load. */
  method PrintAndLoad(lower: string -> string, packages: seq<Package>) returns (r: Option<seq<Package>>)
    requires Lowering(lower) && Acceptable(lower, packages) && Inventory(lower, packages) != []
    requires forall item | item in Inventory(lower, packages) :: Lockable(item)
    ensures r == Some(Inventory(lower, packages))
  {
    hide *;
    LockRoundTrip(lower, packages);
    var text := LockText(lower, packages);
    r := LoadLock(lower, text.value);
  }
}

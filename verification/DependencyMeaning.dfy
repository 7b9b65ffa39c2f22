/**
 Package names, inventories and lock lines, character by character and item by item.
 */
module DependencyMeaning {
  import opened Sorting
  import opened Strings
  import opened DependencyLock

  // ---------- names ----------

  predicate NoSeparator(s: string) {
    forall i | 0 <= i < |s| :: s[i] != '-' && s[i] != '_' && s[i] != '.'
  }

  predicate OnlySeparators(s: string) {
    forall i | 0 <= i < |s| :: s[i] == '-' || s[i] == '_' || s[i] == '.'
  }

  lemma {:induction false} RunDropped(run: string, rest: string)
    requires OnlySeparators(run) && (rest == [] || NoSeparator([rest[0]]))
    ensures DropSeparators(run + rest) == rest
  {
    if run == [] {
      assert run + rest == rest;
      if rest != [] {
        assert [rest[0]][0] == rest[0];
      }
    } else {
      assert (run + rest)[1..] == run[1..] + rest;
      RunDropped(run[1..], rest);
    }
  }

  lemma {:induction false} PlainKept(plain: string, rest: string)
    requires NoSeparator(plain)
    ensures Collapse(plain + rest) == plain + Collapse(rest)
  {
    if plain == [] {
      assert plain + rest == rest;
    } else {
      assert (plain + rest)[1..] == plain[1..] + rest;
      PlainKept(plain[1..], rest);
      assert plain == [plain[0]] + plain[1..];
    }
  }

  /**
   Each maximal run of separators becomes one hyphen, and all other characters stay in order; these equations say what
   collapsing is on every string.
   */
  lemma CollapseMeaning(plain: string, run: string, rest: string)
    requires NoSeparator(plain) && OnlySeparators(run) && (rest == [] || NoSeparator([rest[0]]))
    ensures Collapse(plain) == plain
    ensures run != [] ==> Collapse(plain + run + rest) == plain + "-" + Collapse(rest)
  {
    hide Collapse;
    PlainKept(plain, []);
    NothingCollapsed();
    assert plain + [] == plain;
    if run != [] {
      PlainKept(plain, run + rest);
      RunCollapsed(run, rest);
      assert plain + run + rest == plain + (run + rest);
      assert plain + ("-" + Collapse(rest)) == plain + "-" + Collapse(rest);
    }
  }

  lemma NothingCollapsed()
    ensures Collapse([]) == []
  {
  }

  lemma RunCollapsed(run: string, rest: string)
    requires run != [] && OnlySeparators(run) && (rest == [] || NoSeparator([rest[0]]))
    ensures Collapse(run + rest) == "-" + Collapse(rest)
  {
    assert (run + rest)[1..] == run[1..] + rest;
    RunDropped(run[1..], rest);
  }

  // ---------- inventories ----------

  /** The name under which a package is listed. */
  function ListedName(lower: string -> string, item: Package): string {
    lower(Collapse(Strip(item.name)))
  }

  predicate NotDeployed(name: string) {
    name == "k-slide" || name == "pip" || name == "setuptools" || name == "wheel"
  }

  predicate Listable(lower: string -> string, item: Package) {
    var name := ListedName(lower, item);
    && name != "" && Strip(item.version) != ""
    && name != "pip-audit" && name != "semgrep" && name != "cyclonedx-bom" && name != "cyclonedx-python-lib"
  }

  lemma {:induction false} KeptMeaning(lower: string -> string, packages: seq<Package>, k: Package)
    requires forall item | item in packages :: Listable(lower, item)
    ensures k in Kept(lower, packages) <==>
            exists item | item in packages ::
              && k == Package(ListedName(lower, item), Strip(item.version)) && !NotDeployed(k.name)
  {
    hide Strip, Collapse;
    if packages != [] {
      var front, last := packages[..|packages| - 1], packages[|packages| - 1];
      assert packages == front + [last];
      assert last in packages;
      KeptMeaning(lower, front, k);
    }
  }

  /** Two deployed packages have one name. */
  ghost predicate Clashes(lower: string -> string, packages: seq<Package>) {
    exists i, j | 0 <= i < j < |packages| ::
      ListedName(lower, packages[i]) == ListedName(lower, packages[j]) && !NotDeployed(ListedName(lower, packages[i]))
  }

  lemma {:induction false} ClashMeaning(lower: string -> string, packages: seq<Package>)
    requires forall item | item in packages :: Listable(lower, item)
    ensures DistinctNames(Kept(lower, packages)) <==> !Clashes(lower, packages)
  {
    hide Strip, Collapse, Listable;
    if packages == [] {
      assert Kept(lower, packages) == [];
    } else {
      var front, last := packages[..|packages| - 1], packages[|packages| - 1];
      assert packages == front + [last] && last in packages;
      assert forall item | item in front :: item in packages;
      ClashMeaning(lower, front);
      LastClash(lower, packages);
      LastKept(lower, packages);
      var name := ListedName(lower, last);
      if !NotDeployed(name) {
        if DistinctNames(Kept(lower, front)) {
          AppendName(Kept(lower, front), Package(name, Strip(last.version)));
        } else {
          StillClashing(Kept(lower, front), Package(name, Strip(last.version)));
        }
        NamesKept(lower, front, name);
      }
    }
  }

  lemma StillClashing(before: seq<Package>, item: Package)
    requires !DistinctNames(before)
    ensures !DistinctNames(before + [item])
  {
    var i, j :| 0 <= i < j < |before| && before[i].name == before[j].name;
    assert (before + [item])[i].name == (before + [item])[j].name;
  }

  lemma LastKept(lower: string -> string, packages: seq<Package>)
    requires packages != [] && Listable(lower, packages[|packages| - 1])
    ensures var front, last := packages[..|packages| - 1], packages[|packages| - 1];
            var name := ListedName(lower, last);
            Kept(lower, packages) ==
            if NotDeployed(name) then Kept(lower, front) else Kept(lower, front) + [Package(name, Strip(last.version))]
  {
    hide Strip, Collapse;
  }

  lemma NamesKept(lower: string -> string, packages: seq<Package>, name: string)
    requires forall item | item in packages :: Listable(lower, item)
    requires !NotDeployed(name)
    ensures (exists k | k in Kept(lower, packages) :: k.name == name) <==>
            exists i | 0 <= i < |packages| :: ListedName(lower, packages[i]) == name
  {
    hide Strip, Collapse, Kept, Listable, NotDeployed;
    forall k
      ensures k in Kept(lower, packages) <==>
              exists item | item in packages ::
                && k == Package(ListedName(lower, item), Strip(item.version)) && !NotDeployed(k.name)
    {
      KeptMeaning(lower, packages, k);
    }
    if i :| 0 <= i < |packages| && ListedName(lower, packages[i]) == name {
      assert packages[i] in packages;
      assert Package(name, Strip(packages[i].version)) in Kept(lower, packages);
    }
  }

  lemma LastClash(lower: string -> string, packages: seq<Package>)
    requires packages != []
    ensures var front, last := packages[..|packages| - 1], packages[|packages| - 1];
            Clashes(lower, packages) <==>
            || Clashes(lower, front)
            || (!NotDeployed(ListedName(lower, last))
                && exists i | 0 <= i < |front| :: ListedName(lower, front[i]) == ListedName(lower, last))
  {
    hide ListedName, NotDeployed;
    var front, n := packages[..|packages| - 1], |packages| - 1;
    assert forall i | 0 <= i < n :: front[i] == packages[i];
    if i :| 0 <= i < |front| && ListedName(lower, front[i]) == ListedName(lower, packages[n])
            && !NotDeployed(ListedName(lower, packages[n])) {
      assert ListedName(lower, packages[i]) == ListedName(lower, packages[n]);
    }
    if i, j :| 0 <= i < j < |front| && ListedName(lower, front[i]) == ListedName(lower, front[j])
               && !NotDeployed(ListedName(lower, front[i])) {
      assert ListedName(lower, packages[i]) == ListedName(lower, packages[j]);
    }
  }

  lemma RefusedMeaning(lower: string -> string, item: Package)
    ensures Refused(lower, item) <==> !Listable(lower, item)
  {
    hide Strip, Collapse;
  }

  /** An inventory is refused for an unlistable item or a clash, and otherwise lists the deployed packages. */
  lemma InventoryMeaning(lower: string -> string, packages: seq<Package>)
    ensures Acceptable(lower, packages) <==>
            (forall item | item in packages :: Listable(lower, item)) && !Clashes(lower, packages)
    ensures Acceptable(lower, packages) ==> forall k :: k in Inventory(lower, packages) <==>
              exists item | item in packages ::
                && k == Package(ListedName(lower, item), Strip(item.version)) && !NotDeployed(k.name)
  {
    hide Strip, Collapse, Kept, Refused, Listable, ListedName, NotDeployed, Clashes;
    forall item
      ensures Refused(lower, item) <==> !Listable(lower, item)
    {
      RefusedMeaning(lower, item);
    }
    if forall item | item in packages :: Listable(lower, item) {
      ClashMeaning(lower, packages);
      NameOrder();
      SortSorts(Kept(lower, packages), NameLe);
      forall k
        ensures k in Inventory(lower, packages) <==>
                exists item | item in packages ::
                  && k == Package(ListedName(lower, item), Strip(item.version)) && !NotDeployed(k.name)
      {
        KeptMeaning(lower, packages, k);
        assert k in Inventory(lower, packages) <==> k in multiset(Inventory(lower, packages));
        assert k in Kept(lower, packages) <==> k in multiset(Kept(lower, packages));
      }
    }
  }

  // ---------- lock lines ----------

  /** `needle` occurs at position `i`. */
  predicate OccursAt(s: string, needle: string, i: nat) {
    i + |needle| <= |s| && s[i..i + |needle|] == needle
  }

  lemma {:induction false} FindMeaning(s: string, needle: string)
    ensures Find(s, needle).None? <==> forall i: nat :: !OccursAt(s, needle, i)
    ensures Find(s, needle).Some? ==>
              OccursAt(s, needle, Find(s, needle).value)
              && forall i: nat | i < Find(s, needle).value :: !OccursAt(s, needle, i)
  {
    if |s| < |needle| {
      assert forall i: nat :: !OccursAt(s, needle, i);
    } else if s[..|needle|] == needle {
      assert s[0..0 + |needle|] == s[..|needle|];
      assert OccursAt(s, needle, 0);
    } else {
      assert s != [];
      FindMeaning(s[1..], needle);
      assert s[0..0 + |needle|] == s[..|needle|];
      assert !OccursAt(s, needle, 0);
      forall i: nat | i > 0
        ensures OccursAt(s, needle, i) <==> OccursAt(s[1..], needle, i - 1)
      {
        if i + |needle| <= |s| {
          TailSlice(s, i, i + |needle|);
        }
      }
      if j: nat :| OccursAt(s[1..], needle, j) {
        assert OccursAt(s, needle, j + 1);
      }
    }
  }

  lemma TailSlice(s: string, lo: nat, hi: nat)
    requires 0 < lo <= hi <= |s|
    ensures s[lo..hi] == s[1..][lo - 1..hi - 1]
  {
    var a, b := s[lo..hi], s[1..][lo - 1..hi - 1];
    assert |a| == |b| && forall k | 0 <= k < |a| :: a[k] == b[k];
  }

  /** A requirement: a name and a version around the first "==", without " @ " and no option. */
  ghost predicate Requires(raw: string, p: Package) {
    var line := Strip(raw);
    && line != "" && line[0] != '#' && line[0] != '-' && (forall i: nat :: !OccursAt(line, " @ ", i))
    && exists at: nat ::
         && OccursAt(line, "==", at) && (forall i: nat | i < at :: !OccursAt(line, "==", i))
         && Strip(line[..at]) != "" && Strip(line[at + 2..]) != ""
         && p == Package(Strip(line[..at]), Strip(line[at + 2..]))
  }

  /** Blank lines and comments are passed over, exact requirements are read, everything else is refused. */
  lemma LineMeaning(raw: string, p: Package)
    ensures ParseLine(raw).Blank? <==> Strip(raw) == "" || Strip(raw)[0] == '#'
    ensures ParseLine(raw) == Exact(p) <==> Requires(raw, p)
  {
    hide Strip, Find, OccursAt;
    var line := Strip(raw);
    FindMeaning(line, "==");
    FindMeaning(line, " @ ");
    FirstCharacter(line, '#', "#");
    FirstCharacter(line, '-', "-");
    FitsAt(line, "==");
    if Find(line, "==").Some? {
      assert forall at: nat :: OccursAt(line, "==", at) && (forall i: nat | i < at :: !OccursAt(line, "==", i)) ==>
                                 at == Find(line, "==").value;
    }
  }

  lemma FitsAt(line: string, needle: string)
    ensures forall at: nat :: OccursAt(line, needle, at) ==> at + |needle| <= |line|
  {
  }

  lemma FirstCharacter(line: string, c: char, prefix: string)
    requires prefix == [c]
    ensures StartsWith(line, prefix) <==> line != "" && line[0] == c
  {
    if line != "" {
      assert prefix <= line <==> line[..1] == prefix;
    }
  }
}

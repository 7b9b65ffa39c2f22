/**
 The mapping-only parser of candidate profiles (src/k_slide/certification.py): a stack of indentations over nested
 dictionaries. It is proved to compute the block structure of any text, and to invert two-space rendering.
 */
module CandidateYaml {
  import opened Wrappers
  import opened Strings

  // ---------- lines ----------

  /** The number of leading blanks; a tab does not count. */
  function Indent(s: string): nat {
    if s != [] && s[0] == ' ' then 1 + Indent(s[1..]) else 0
  }

  function Colon(s: string): (c: Option<nat>)
    ensures c.Some? ==> c.value < |s| && s[c.value] == ':' && forall i | 0 <= i < c.value :: s[i] != ':'
    ensures c.None? ==> forall i | 0 <= i < |s| :: s[i] != ':'
  {
    if s == [] then None
    else if s[0] == ':' then Some(0)
    else var rest := Colon(s[1..]);
         if rest.Some? then Some(rest.value + 1) else None
  }

  /** A mapping line; one without a value opens a nested mapping. */
  datatype Line = Line(indent: nat, key: string, text: Option<string>)

  datatype Lexed = Skip | Item | Malformed | Entry(line: Line)

  function Lex(raw: string): Lexed {
    var line := Strip(raw);
    if line == [] || StartsWith(LStrip(raw), "#") then Skip
    else if StartsWith(line, "- ") then Item
    else
      var colon := Colon(line);
      if colon.None? || Strip(line[..colon.value]) == [] then Malformed
      else
        var text := Strip(line[colon.value + 1..]);
        Entry(Line(Indent(raw), Strip(line[..colon.value]), if text == [] then None else Some(text)))
  }

  /** The mapping lines among the first `n` lines. */
  function Entries(lines: seq<string>, n: nat): (ls: seq<Line>)
    requires n <= |lines|
    ensures |ls| <= n
  {
    if n == 0 then []
    else Entries(lines, n - 1) + if Lex(lines[n - 1]).Entry? then [Lex(lines[n - 1]).line] else []
  }

  /** A value on which `_parse_scalar` raises: a literal that cannot be evaluated, such as `{[]: 1}`. */
  predicate Raising(raises: string -> bool, line: Line) {
    line.text.Some? && raises(line.text.value)
  }

  /** A list item (no list is ever opened), a line without a colon or without a key, or a value that raises. */
  predicate Rejected(raises: string -> bool, raw: string) {
    Lex(raw).Item? || Lex(raw).Malformed? || (Lex(raw).Entry? && Raising(raises, Lex(raw).line))
  }

  // ---------- the block structure of a text ----------

  datatype Value<S> = Leaf(scalar: S) | Mapping(entries: map<string, Value>)

  /** The first line at or after `lo` that is not indented more than `indent`. */
  function BlockEnd(ls: seq<Line>, indent: nat, lo: nat, hi: nat): (end: nat)
    requires lo <= hi <= |ls|
    ensures lo <= end <= hi
    ensures forall i | lo <= i < end :: ls[i].indent > indent
    ensures end < hi ==> ls[end].indent <= indent
    decreases hi - lo
  {
    if lo < hi && ls[lo].indent > indent then BlockEnd(ls, indent, lo + 1, hi) else lo
  }

  /** Lines `lo` to `hi` as one mapping: a valueless line owns the deeper lines after it; a later key wins. */
  function Block<S>(ls: seq<Line>, scalar: string -> S, lo: nat, hi: nat): map<string, Value<S>>
    requires lo <= hi <= |ls|
    decreases hi - lo
  {
    if lo == hi then map[]
    else if ls[lo].text.Some? then
      map[ls[lo].key := Leaf(scalar(ls[lo].text.value))] + Block(ls, scalar, lo + 1, hi)
    else
      var end := BlockEnd(ls, ls[lo].indent, lo + 1, hi);
      map[ls[lo].key := Mapping(Block(ls, scalar, lo + 1, end))] + Block(ls, scalar, end, hi)
  }

  // ---------- parents ----------

  const ROOT := -1

  predicate Opener(ls: seq<Line>, j: int) {
    0 <= j < |ls| && ls[j].text.None?
  }

  /** Opener `j` has not been closed by a line before `n`. */
  ghost predicate Open(ls: seq<Line>, j: int, n: nat)
    requires n <= |ls|
  {
    Opener(ls, j) && j < n && forall k | j < k < n :: ls[k].indent > ls[j].indent
  }

  ghost predicate Above(ls: seq<Line>, j: int, i: nat)
    requires i < |ls|
  {
    Open(ls, j, i) && ls[j].indent < ls[i].indent
  }

  /** The nearest opener above line `i`, at or before `q`. */
  ghost function NearestAbove(ls: seq<Line>, i: nat, q: int): (p: int)
    requires i < |ls| && ROOT <= q < i
    ensures ROOT <= p <= q && (p == ROOT || Above(ls, p, i))
    ensures forall j | p < j <= q :: !Above(ls, j, i)
    decreases q + 1
  {
    if q == ROOT || Above(ls, q, i) then q else NearestAbove(ls, i, q - 1)
  }

  ghost function Parent(ls: seq<Line>, i: nat): (p: int)
    requires i < |ls|
    ensures ROOT <= p < i && (p == ROOT || Above(ls, p, i))
    ensures forall j | p < j < i :: !Above(ls, j, i)
  {
    NearestAbove(ls, i, i - 1)
  }

  // ---------- dictionaries as the parser builds them ----------

  datatype Cell<S> = Scalar(scalar: S) | Ref(node: int)

  datatype Object<S> = Dict(entries: map<string, Cell<S>>) | List(items: seq<S>)

  function CellOf<S>(ls: seq<Line>, scalar: string -> S, i: nat): Cell<S>
    requires i < |ls|
  {
    if ls[i].text.Some? then Scalar(scalar(ls[i].text.value)) else Ref(i)
  }

  /** The entries that lines `lo` to `hi` put into the dictionary of `p`. */
  ghost function Children<S>(ls: seq<Line>, scalar: string -> S, p: int, lo: nat, hi: nat): (m: map<string, Cell<S>>)
    requires lo <= hi <= |ls|
    ensures forall key | key in m && m[key].Ref? :: p < m[key].node < hi && Opener(ls, m[key].node)
    decreases hi - lo
  {
    if lo == hi then map[]
    else
      var m := Children(ls, scalar, p, lo, hi - 1);
      if Parent(ls, hi - 1) == p then m[ls[hi - 1].key := CellOf(ls, scalar, hi - 1)] else m
  }

  /** After `n` lines each opened node is a dictionary with the entries of its lines. */
  ghost predicate HeapOk<S>(ls: seq<Line>, scalar: string -> S, heap: map<int, Object<S>>, n: nat)
    requires n <= |ls|
  {
    && (forall j :: j in heap <==> j == ROOT || (Opener(ls, j) && j < n))
    && (forall j | j in heap :: heap[j] == Dict(Children(ls, scalar, j, 0, n)))
  }

  ghost predicate Reaches<S>(heap: map<int, Object<S>>, m: map<string, Cell<S>>, p: int) {
    forall key | key in m && m[key].Ref? :: p < m[key].node && m[key].node in heap
  }

  /** The nested mapping that a reader sees from the entries `m` of node `p`. */
  ghost function Read<S>(ls: seq<Line>, scalar: string -> S, heap: map<int, Object<S>>, m: map<string, Cell<S>>, p: int)
    : (r: map<string, Value<S>>)
    requires HeapOk(ls, scalar, heap, |ls|) && Reaches(heap, m, p) && p <= |ls|
    decreases |ls| - p
  {
    map key | key in m ::
      if m[key].Scalar? then Leaf(m[key].scalar)
      else Mapping(Read(ls, scalar, heap, heap[m[key].node].entries, m[key].node))
  }

  lemma ChildrenReach<S>(ls: seq<Line>, scalar: string -> S, heap: map<int, Object<S>>, p: int, lo: nat, hi: nat)
    requires HeapOk(ls, scalar, heap, |ls|) && lo <= hi <= |ls|
    ensures Reaches(heap, Children(ls, scalar, p, lo, hi), p)
  {
  }

  lemma ReadMerge<S>(ls: seq<Line>, scalar: string -> S, heap: map<int, Object<S>>, a: map<string, Cell<S>>,
                     b: map<string, Cell<S>>, p: int)
    requires HeapOk(ls, scalar, heap, |ls|) && Reaches(heap, a, p) && Reaches(heap, b, p) && p <= |ls|
    ensures Reaches(heap, a + b, p)
    ensures Read(ls, scalar, heap, a + b, p) == Read(ls, scalar, heap, a, p) + Read(ls, scalar, heap, b, p)
  {
    hide HeapOk;
  }

  function First<S>(ls: seq<Line>, scalar: string -> S, i: nat): map<string, Cell<S>>
    requires i < |ls|
  {
    map[ls[i].key := CellOf(ls, scalar, i)]
  }

  lemma {:induction false} ChildrenFront<S>(ls: seq<Line>, scalar: string -> S, p: int, lo: nat, hi: nat)
    requires lo < hi <= |ls|
    ensures Children(ls, scalar, p, lo, hi) ==
            (if Parent(ls, lo) == p then First(ls, scalar, lo) else map[]) + Children(ls, scalar, p, lo + 1, hi)
  {
    hide CellOf, Parent;
    if lo + 1 < hi {
      ChildrenFront(ls, scalar, p, lo, hi - 1);
    }
  }

  /** Lines that are not children of `p` may be left out. */
  lemma {:induction false} ChildrenSkip<S>(ls: seq<Line>, scalar: string -> S, p: int, lo: nat, mid: nat, hi: nat)
    requires lo <= mid <= hi <= |ls|
    requires forall i: nat | lo <= i < mid :: Parent(ls, i) != p
    ensures Children(ls, scalar, p, lo, hi) == Children(ls, scalar, p, mid, hi)
    decreases mid - lo
  {
    hide CellOf, Parent, Children;
    if lo < mid {
      ChildrenFront(ls, scalar, p, lo, hi);
      ChildrenSkip(ls, scalar, p, lo + 1, mid, hi);
      assert map[] + Children(ls, scalar, p, lo + 1, hi) == Children(ls, scalar, p, lo + 1, hi);
    }
  }

  lemma {:induction false} ChildrenStop<S>(ls: seq<Line>, scalar: string -> S, p: int, lo: nat, mid: nat, hi: nat)
    requires lo <= mid <= hi <= |ls|
    requires forall i: nat | mid <= i < hi :: Parent(ls, i) != p
    ensures Children(ls, scalar, p, lo, hi) == Children(ls, scalar, p, lo, mid)
    decreases hi - mid
  {
    hide CellOf, Parent;
    if mid < hi {
      ChildrenStop(ls, scalar, p, lo, mid, hi - 1);
    }
  }

  /** Lines up to `hi` lie in the block of `p`, and the block ends there. */
  ghost predicate Inside(ls: seq<Line>, p: int, hi: nat)
    requires hi <= |ls|
  {
    if p == ROOT then hi == |ls|
    else
      && Opener(ls, p) && p < hi && (forall i | p < i < hi :: ls[i].indent > ls[p].indent)
      && (hi < |ls| ==> ls[hi].indent <= ls[p].indent)
  }

  /** Every opener between `p` and line `lo` has been closed, by `lo` at the latest. */
  ghost predicate Clean(ls: seq<Line>, p: int, lo: nat)
    requires lo < |ls|
  {
    forall q | p < q < lo && Opener(ls, q) :: ClosedBy(ls, q, lo)
  }

  ghost predicate ClosedBy(ls: seq<Line>, q: int, lo: nat)
    requires lo < |ls|
  {
    0 <= q < lo && exists k :: q < k <= lo && ls[k].indent <= ls[q].indent
  }

  lemma LevelParent(ls: seq<Line>, p: int, lo: nat, hi: nat)
    requires p < lo < hi <= |ls| && Inside(ls, p, hi) && Clean(ls, p, lo) && ROOT <= p
    ensures Parent(ls, lo) == p
  {
    hide Parent;
    var q := Parent(ls, lo);
    ParentAbove(ls, lo);
    if p != ROOT {
      assert Above(ls, p, lo);
    }
    if q > p {
      assert ClosedBy(ls, q, lo);
      var k :| q < k <= lo && ls[k].indent <= ls[q].indent;
      assert false;
    }
  }

  lemma ParentAbove(ls: seq<Line>, i: nat)
    requires i < |ls|
    ensures ROOT <= Parent(ls, i) < i && (Parent(ls, i) == ROOT || Above(ls, Parent(ls, i), i))
    ensures forall j | Parent(ls, i) < j < i :: !Above(ls, j, i)
  {
  }

  lemma InnerParents(ls: seq<Line>, p: int, lo: nat, end: nat)
    requires p < lo < end <= |ls| && Opener(ls, lo)
    requires forall i | lo < i < end :: ls[i].indent > ls[lo].indent
    ensures forall i: nat | lo < i < end :: Parent(ls, i) != p
  {
    hide Parent;
    forall i: nat | lo < i < end
      ensures Parent(ls, i) != p
    {
      ParentAbove(ls, i);
      assert Above(ls, lo, i);
    }
  }

  lemma ClosedParents(ls: seq<Line>, p: int, end: nat)
    requires ROOT < p < end <= |ls| && (end < |ls| ==> ls[end].indent <= ls[p].indent)
    ensures forall i: nat | end <= i < |ls| :: Parent(ls, i) != p
  {
    hide Parent;
    forall i: nat | end <= i < |ls|
      ensures Parent(ls, i) != p
    {
      ParentAbove(ls, i);
    }
  }

  lemma EarlyParents(ls: seq<Line>, p: nat)
    requires p < |ls|
    ensures forall i: nat | i <= p :: Parent(ls, i) != p
  {
    hide Parent;
    forall i: nat | i <= p
      ensures Parent(ls, i) != p
    {
      ParentAbove(ls, i);
    }
  }

  /** The entries of an opened node all come from its own block. */
  lemma NodeChildren<S>(ls: seq<Line>, scalar: string -> S, p: nat, end: nat)
    requires p < end <= |ls| && Inside(ls, p, end)
    ensures Children(ls, scalar, p, 0, |ls|) == Children(ls, scalar, p, p + 1, end)
  {
    hide Children, Parent;
    EarlyParents(ls, p);
    ClosedParents(ls, p, end);
    ChildrenSkip(ls, scalar, p, 0, p + 1, |ls|);
    ChildrenStop(ls, scalar, p, p + 1, end, |ls|);
  }

  lemma CleanNext(ls: seq<Line>, p: int, lo: nat)
    requires lo + 1 < |ls| && Clean(ls, p, lo) && ls[lo].text.Some?
    ensures Clean(ls, p, lo + 1)
  {
    forall q | p < q < lo + 1 && Opener(ls, q)
      ensures ClosedBy(ls, q, lo + 1)
    {
      assert ClosedBy(ls, q, lo);
    }
  }

  lemma CleanAfter(ls: seq<Line>, p: int, lo: nat, end: nat)
    requires lo < end < |ls| && Clean(ls, p, lo)
    requires forall i | lo < i < end :: ls[i].indent > ls[lo].indent
    requires ls[end].indent <= ls[lo].indent
    ensures Clean(ls, p, end)
  {
    forall q | p < q < end && Opener(ls, q)
      ensures ClosedBy(ls, q, end)
    {
      if q < lo {
        assert ClosedBy(ls, q, lo);
      } else {
        assert ls[end].indent <= ls[q].indent;
      }
    }
  }

  ghost function Cells<S>(ls: seq<Line>, scalar: string -> S, heap: map<int, Object<S>>, p: int, lo: nat, hi: nat)
    : map<string, Value<S>>
    requires HeapOk(ls, scalar, heap, |ls|) && lo <= hi <= |ls| && p <= |ls|
  {
    ChildrenReach(ls, scalar, heap, p, lo, hi);
    Read(ls, scalar, heap, Children(ls, scalar, p, lo, hi), p)
  }

  lemma CellsStep<S>(ls: seq<Line>, scalar: string -> S, heap: map<int, Object<S>>, p: int, lo: nat, hi: nat)
    requires HeapOk(ls, scalar, heap, |ls|) && ROOT <= p < lo < hi <= |ls| && Parent(ls, lo) == p
    ensures ls[lo].text.Some? ==>
              Cells(ls, scalar, heap, p, lo, hi) ==
              map[ls[lo].key := Leaf(scalar(ls[lo].text.value))] + Cells(ls, scalar, heap, p, lo + 1, hi)
    ensures ls[lo].text.None? ==>
              Cells(ls, scalar, heap, p, lo, hi) ==
              map[ls[lo].key := Mapping(Cells(ls, scalar, heap, lo, 0, |ls|))] + Cells(ls, scalar, heap, p, lo + 1, hi)
  {
    hide Parent, Children;
    ChildrenFront(ls, scalar, p, lo, hi);
    ChildrenReach(ls, scalar, heap, p, lo + 1, hi);
    FirstReads(ls, scalar, heap, p, lo);
    ReadMerge(ls, scalar, heap, First(ls, scalar, lo), Children(ls, scalar, p, lo + 1, hi), p);
  }

  lemma FirstReads<S>(ls: seq<Line>, scalar: string -> S, heap: map<int, Object<S>>, p: int, lo: nat)
    requires HeapOk(ls, scalar, heap, |ls|) && p < lo < |ls|
    ensures Reaches(heap, First(ls, scalar, lo), p)
    ensures Read(ls, scalar, heap, First(ls, scalar, lo), p) ==
            map[ls[lo].key := if ls[lo].text.Some? then Leaf(scalar(ls[lo].text.value))
                              else Mapping(Cells(ls, scalar, heap, lo, 0, |ls|))]
  {
    hide Children;
    if ls[lo].text.None? {
      assert heap[lo] == Dict(Children(ls, scalar, lo, 0, |ls|));
    }
  }

  /** What a reader sees of the lines of a node is the block structure of those lines. */
  lemma {:induction false} CellsAreBlock<S>(ls: seq<Line>, scalar: string -> S, heap: map<int, Object<S>>, p: int,
                                            lo: nat, hi: nat)
    requires HeapOk(ls, scalar, heap, |ls|) && ROOT <= p < lo <= hi <= |ls| && Inside(ls, p, hi)
    requires lo < hi ==> Clean(ls, p, lo)
    ensures Cells(ls, scalar, heap, p, lo, hi) == Block(ls, scalar, lo, hi)
    decreases hi - lo
  {
    hide HeapOk, Parent, Clean, Cells, Children;
    if lo == hi {
      NoCells(ls, scalar, heap, p, lo);
    } else {
      LevelParent(ls, p, lo, hi);
      CellsStep(ls, scalar, heap, p, lo, hi);
      if ls[lo].text.Some? {
        if lo + 1 < hi {
          CleanNext(ls, p, lo);
        }
        CellsAreBlock(ls, scalar, heap, p, lo + 1, hi);
      } else {
        var end := BlockEnd(ls, ls[lo].indent, lo + 1, hi);
        if end < hi {
          CleanAfter(ls, p, lo, end);
        }
        CleanStart(ls, lo);
        CellsAreBlock(ls, scalar, heap, p, end, hi);
        CellsAreBlock(ls, scalar, heap, lo, lo + 1, end);
        SkipInner(ls, scalar, heap, p, lo, end, hi);
        WholeNode(ls, scalar, heap, lo, end);
      }
    }
  }

  lemma NoCells<S>(ls: seq<Line>, scalar: string -> S, heap: map<int, Object<S>>, p: int, lo: nat)
    requires HeapOk(ls, scalar, heap, |ls|) && lo <= |ls| && p <= |ls|
    ensures Cells(ls, scalar, heap, p, lo, lo) == map[]
  {
  }

  lemma CleanStart(ls: seq<Line>, lo: nat)
    ensures lo + 1 < |ls| ==> Clean(ls, lo, lo + 1)
  {
  }

  lemma SkipInner<S>(ls: seq<Line>, scalar: string -> S, heap: map<int, Object<S>>, p: int, lo: nat, end: nat, hi: nat)
    requires HeapOk(ls, scalar, heap, |ls|) && ROOT <= p < lo < end <= hi <= |ls| && Opener(ls, lo)
    requires forall i | lo < i < end :: ls[i].indent > ls[lo].indent
    ensures Cells(ls, scalar, heap, p, lo + 1, hi) == Cells(ls, scalar, heap, p, end, hi)
  {
    hide HeapOk, Parent, Children;
    InnerParents(ls, p, lo, end);
    ChildrenSkip(ls, scalar, p, lo + 1, end, hi);
  }

  lemma WholeNode<S>(ls: seq<Line>, scalar: string -> S, heap: map<int, Object<S>>, lo: nat, end: nat)
    requires HeapOk(ls, scalar, heap, |ls|) && lo < end <= |ls| && Inside(ls, lo, end)
    ensures Cells(ls, scalar, heap, lo, 0, |ls|) == Cells(ls, scalar, heap, lo, lo + 1, end)
  {
    hide HeapOk, Parent, Children;
    NodeChildren(ls, scalar, lo, end);
  }

  // ---------- the parser ----------

  /** The open nodes with their indentations, outermost first; the root is never removed. */
  ghost predicate StackOk(ls: seq<Line>, n: nat, stack: seq<(int, int)>)
    requires n <= |ls|
  {
    && stack != [] && stack[0] == (ROOT, ROOT)
    && (forall k | 0 < k < |stack| :: Open(ls, stack[k].1, n) && stack[k].0 == ls[stack[k].1].indent)
    && (forall a, b | 0 <= a < b < |stack| :: stack[a].0 < stack[b].0 && stack[a].1 < stack[b].1)
    && (forall j | Open(ls, j, n) :: OnStack(stack, j))
  }

  ghost predicate OnStack(stack: seq<(int, int)>, j: int) {
    exists k :: 0 < k < |stack| && stack[k].1 == j
  }

  method Pop(stack: seq<(int, int)>, indent: nat) returns (popped: seq<(int, int)>)
    requires stack != [] && stack[0].0 == -1
    ensures popped != [] && popped <= stack
    ensures popped[|popped| - 1].0 < indent
    ensures forall k | |popped| <= k < |stack| :: stack[k].0 >= indent
  {
    popped := stack;
    while popped != [] && indent <= popped[|popped| - 1].0
      invariant popped != [] && popped <= stack
      invariant forall k | |popped| <= k < |stack| :: stack[k].0 >= indent
    {
      assert popped[0] == stack[0];
      popped := popped[..|popped| - 1];
    }
  }

  /** After popping, the top of the stack is the parent of the line. */
  lemma TopIsParent(ls: seq<Line>, n: nat, stack: seq<(int, int)>, popped: seq<(int, int)>)
    requires n < |ls| && StackOk(ls, n, stack) && popped != [] && popped <= stack
    requires popped[|popped| - 1].0 < ls[n].indent
    requires forall k | |popped| <= k < |stack| :: stack[k].0 >= ls[n].indent
    ensures popped[|popped| - 1].1 == Parent(ls, n)
  {
    hide Parent;
    ParentAbove(ls, n);
    var top := |popped| - 1;
    var p := Parent(ls, n);
    assert popped[top] == stack[top];
    if p != ROOT {
      assert OnStack(stack, p);
      var k :| 0 < k < |stack| && stack[k].1 == p;
      assert k <= top;
    }
    if top > 0 {
      assert Above(ls, stack[top].1, n);
    }
  }

  lemma PoppedStays(ls: seq<Line>, n: nat, stack: seq<(int, int)>, popped: seq<(int, int)>, k: nat)
    requires n < |ls| && StackOk(ls, n, stack) && popped <= stack && 0 < k < |popped|
    requires popped[|popped| - 1].0 < ls[n].indent
    ensures 0 <= popped[k].1 < n && popped[k].0 < ls[n].indent
    ensures Open(ls, popped[k].1, n + 1) && popped[k].0 == ls[popped[k].1].indent
  {
    assert popped[k] == stack[k] && popped[|popped| - 1] == stack[|popped| - 1];
    assert Open(ls, stack[k].1, n);
  }

  lemma PoppedCovers(ls: seq<Line>, n: nat, stack: seq<(int, int)>, popped: seq<(int, int)>, j: int)
    requires n < |ls| && StackOk(ls, n, stack) && popped <= stack && Open(ls, j, n + 1) && j != n
    requires forall k | |popped| <= k < |stack| :: stack[k].0 >= ls[n].indent
    ensures OnStack(popped, j)
  {
    assert Open(ls, j, n);
    assert OnStack(stack, j);
    var k :| 0 < k < |stack| && stack[k].1 == j;
    assert stack[k].0 < ls[n].indent;
    assert popped[k] == stack[k];
  }

  lemma PoppedOrder(ls: seq<Line>, n: nat, stack: seq<(int, int)>, popped: seq<(int, int)>)
    requires n <= |ls| && StackOk(ls, n, stack) && popped != [] && popped <= stack
    ensures popped[0] == (ROOT, ROOT)
    ensures forall a, b | 0 <= a < b < |popped| :: popped[a].0 < popped[b].0 && popped[a].1 < popped[b].1
  {
    hide Open, OnStack;
    assert forall a | 0 <= a < |popped| :: popped[a] == stack[a];
  }

  lemma StackPopped(ls: seq<Line>, n: nat, stack: seq<(int, int)>, popped: seq<(int, int)>)
    requires n < |ls| && StackOk(ls, n, stack) && popped != [] && popped <= stack
    requires popped[|popped| - 1].0 < ls[n].indent
    requires forall k | |popped| <= k < |stack| :: stack[k].0 >= ls[n].indent
    ensures ls[n].text.Some? ==> StackOk(ls, n + 1, popped)
    ensures ls[n].text.None? ==> StackOk(ls, n + 1, popped + [(ls[n].indent as int, n as int)])
  {
    hide Open, OnStack;
    var top := (ls[n].indent as int, n as int);
    var pushed := popped + [top];
    PoppedOrder(ls, n, stack, popped);
    forall k: nat | 0 < k < |popped|
      ensures 0 <= popped[k].1 < n && popped[k].0 < ls[n].indent
      ensures Open(ls, popped[k].1, n + 1) && popped[k].0 == ls[popped[k].1].indent
    {
      PoppedStays(ls, n, stack, popped, k);
    }
    LineOpens(ls, n);
    OnTop(popped, top);
    forall j | Open(ls, j, n + 1)
      ensures j != n ==> OnStack(popped, j)
      ensures OnStack(pushed, j)
    {
      if j != n {
        PoppedCovers(ls, n, stack, popped, j);
        OnLonger(popped, top, j);
      }
    }
    if ls[n].text.None? {
      PushedOk(ls, n, popped, pushed);
    }
  }

  lemma PushedOk(ls: seq<Line>, n: nat, popped: seq<(int, int)>, pushed: seq<(int, int)>)
    requires n < |ls| && popped != [] && popped[0] == (ROOT, ROOT)
    requires pushed == popped + [(ls[n].indent as int, n as int)] && Open(ls, n, n + 1)
    requires forall a, b | 0 <= a < b < |popped| :: popped[a].0 < popped[b].0 && popped[a].1 < popped[b].1
    requires forall k | 0 < k < |popped| ::
               && 0 <= popped[k].1 < n && popped[k].0 < ls[n].indent
               && Open(ls, popped[k].1, n + 1) && popped[k].0 == ls[popped[k].1].indent
    requires forall j | Open(ls, j, n + 1) :: OnStack(pushed, j)
    ensures StackOk(ls, n + 1, pushed)
  {
    hide Open, OnStack;
    assert forall k | 0 <= k < |popped| :: pushed[k] == popped[k];
  }

  lemma OnLonger(stack: seq<(int, int)>, top: (int, int), j: int)
    requires OnStack(stack, j)
    ensures OnStack(stack + [top], j)
  {
    var k :| 0 < k < |stack| && stack[k].1 == j;
    assert (stack + [top])[k].1 == j;
  }

  lemma OnTop(stack: seq<(int, int)>, top: (int, int))
    requires stack != []
    ensures OnStack(stack + [top], top.1)
  {
    assert (stack + [top])[|stack|].1 == top.1;
  }

  lemma LineOpens(ls: seq<Line>, n: nat)
    requires n < |ls|
    ensures Open(ls, n, n + 1) <==> ls[n].text.None?
  {
  }

  lemma HeapStep<S>(ls: seq<Line>, scalar: string -> S, heap: map<int, Object<S>>, n: nat)
    requires n < |ls| && HeapOk(ls, scalar, heap, n)
    ensures Parent(ls, n) in heap && heap[Parent(ls, n)].Dict?
    ensures var p := Parent(ls, n);
            var stored := heap[p := Dict(heap[p].entries[ls[n].key := CellOf(ls, scalar, n)])];
            HeapOk(ls, scalar, if ls[n].text.Some? then stored else stored[n := Dict(map[])], n + 1)
  {
    hide Parent;
    ParentAbove(ls, n);
    EarlyParents(ls, n);
    ChildrenSkip(ls, scalar, n, 0, n + 1, n + 1);
  }

  lemma {:induction false} EntriesPrefix(lines: seq<string>, n: nat)
    requires n <= |lines|
    ensures Entries(lines, n) <= Entries(lines, |lines|)
    ensures n < |lines| && Lex(lines[n]).Entry? ==>
              && |Entries(lines, n)| < |Entries(lines, |lines|)|
              && Entries(lines, |lines|)[|Entries(lines, n)|] == Lex(lines[n]).line
    decreases |lines| - n
  {
    hide Lex;
    if n < |lines| {
      EntriesPrefix(lines, n + 1);
      EntriesStep(lines, n);
    }
  }

  lemma EntriesStep(lines: seq<string>, n: nat)
    requires n < |lines|
    ensures Entries(lines, n + 1) == Entries(lines, n) + if Lex(lines[n]).Entry? then [Lex(lines[n]).line] else []
  {
    hide Lex;
  }

  /** A list item is kept only by a list; dictionaries are the only objects the parser opens. */
  method Append<S>(heap: map<int, Object<S>>, node: int, item: S) returns (ok: bool, updated: map<int, Object<S>>)
    requires node in heap
    ensures ok <==> heap[node].List?
  {
    updated := heap;
    match heap[node]
    case Dict(_) => ok := false;
    case List(items) => ok, updated := true, heap[node := List(items + [item])];
  }

  ghost predicate Parsed<S>(ls: seq<Line>, scalar: string -> S, n: nat, heap: map<int, Object<S>>,
                            stack: seq<(int, int)>)
    requires n <= |ls|
  {
    HeapOk(ls, scalar, heap, n) && StackOk(ls, n, stack)
  }

  lemma NothingParsed<S>(ls: seq<Line>, scalar: string -> S)
    ensures Parsed(ls, scalar, 0, map[ROOT := Dict(map[])], [(ROOT, ROOT)])
    ensures |Entries([], 0)| == 0
  {
  }

  lemma TopInHeap<S>(ls: seq<Line>, scalar: string -> S, n: nat, heap: map<int, Object<S>>, stack: seq<(int, int)>,
                     popped: seq<(int, int)>)
    requires n <= |ls| && Parsed(ls, scalar, n, heap, stack) && popped != [] && popped <= stack
    ensures popped[|popped| - 1].1 in heap && heap[popped[|popped| - 1].1].Dict?
  {
    assert popped[|popped| - 1] == stack[|popped| - 1];
  }

  lemma RootFirst<S>(ls: seq<Line>, scalar: string -> S, n: nat, heap: map<int, Object<S>>, stack: seq<(int, int)>)
    requires n <= |ls| && Parsed(ls, scalar, n, heap, stack)
    ensures stack != [] && stack[0].0 == -1
  {
  }

  /** One line with a key and a value: the entry goes to its parent, and an empty value opens a dictionary. */
  method StoreEntry<S>(ghost ls: seq<Line>, scalar: string -> S, n: nat, heap: map<int, Object<S>>,
                       ghost before: seq<(int, int)>, stack: seq<(int, int)>, indent: nat, key: string,
                       rawValue: string)
    returns (heap': map<int, Object<S>>, stack': seq<(int, int)>)
    requires n < |ls| && Parsed(ls, scalar, n, heap, before) && stack != [] && stack <= before
    requires stack[|stack| - 1].0 < ls[n].indent
    requires forall k | |stack| <= k < |before| :: before[k].0 >= ls[n].indent
    requires ls[n] == Line(indent, key, if Strip(rawValue) == [] then None else Some(Strip(rawValue)))
    ensures Parsed(ls, scalar, n + 1, heap', stack')
  {
    hide Parent, HeapOk, StackOk, Strip, Children;
    TopIsParent(ls, n, before, stack);
    HeapStep(ls, scalar, heap, n);
    StackPopped(ls, n, before, stack);
    var parent := stack[|stack| - 1].1;
    if Strip(rawValue) == [] {
      heap' := heap[parent := Dict(heap[parent].entries[key := Ref(n)])][n := Dict(map[])];
      stack' := stack + [(indent, n)];
    } else {
      heap' := heap[parent := Dict(heap[parent].entries[key := Scalar(scalar(Strip(rawValue)))])];
      stack' := stack;
    }
  }

  /** What the caller of the parser sees in the root dictionary. */
  ghost function Document<S>(ls: seq<Line>, scalar: string -> S, heap: map<int, Object<S>>): map<string, Value<S>>
    requires HeapOk(ls, scalar, heap, |ls|)
  {
    Cells(ls, scalar, heap, ROOT, 0, |ls|)
  }

  /** The body of the loop, for the line `raw`; `count` lines have given entries before. */
  method Feed<S>(ghost ls: seq<Line>, scalar: string -> S, raises: string -> bool, raw: string, count: nat,
                 heap: map<int, Object<S>>, stack: seq<(int, int)>)
    returns (ok: bool, heap': map<int, Object<S>>, stack': seq<(int, int)>, count': nat)
    requires count <= |ls| && Parsed(ls, scalar, count, heap, stack)
    requires Lex(raw).Entry? ==> count < |ls| && ls[count] == Lex(raw).line
    ensures ok <==> !Rejected(raises, raw)
    ensures ok ==> count' == count + (if Lex(raw).Entry? then 1 else 0)
                   && count' <= |ls| && Parsed(ls, scalar, count', heap', stack')
  {
    hide Parsed, Strip, Indent, LStrip, StartsWith, Colon;
    ok, heap', stack', count' := true, heap, stack, count;
    if Strip(raw) == [] || StartsWith(LStrip(raw), "#") {
      return;
    }
    var indent := Indent(raw);
    var line := Strip(raw);
    RootFirst(ls, scalar, count, heap, stack);
    var popped := Pop(stack, indent);
    TopInHeap(ls, scalar, count, heap, stack, popped);
    if StartsWith(line, "- ") {
      ok, heap' := Append(heap, popped[|popped| - 1].1, scalar(Strip(After(line, 2))));
    } else {
      var separator := Colon(line);
      if separator.None? || Strip(line[..separator.value]) == [] {
        return false, heap, stack, count;
      }
      var rawValue := line[separator.value + 1..];
      if Strip(rawValue) != [] && raises(Strip(rawValue)) {
        return false, heap, stack, count;
      }
      heap', stack' :=
        StoreEntry(ls, scalar, count, heap, stack, popped, indent, Strip(line[..separator.value]), rawValue);
      count' := count + 1;
    }
  }

  function After(s: string, n: nat): string {
    if n <= |s| then s[n..] else []
  }

  /**
   `_parse_candidate_yaml`: a text is rejected exactly when it has a list item, a line without a key, or a value on
   which the reading of scalars raises, and otherwise the dictionaries built with the stack are the block structure of
   its lines.
   */
  method Parse<S>(lines: seq<string>, scalar: string -> S, raises: string -> bool)
    returns (r: Option<map<int, Object<S>>>)
    ensures r.None? <==> exists i :: 0 <= i < |lines| && Rejected(raises, lines[i])
    ensures r.Some? ==>
              var ls := Entries(lines, |lines|);
              HeapOk(ls, scalar, r.value, |ls|) && Document(ls, scalar, r.value) == Block(ls, scalar, 0, |ls|)
  {
    hide *;
    ghost var ls := Entries(lines, |lines|);
    var heap: map<int, Object<S>>, stack := map[ROOT := Dict(map[])], [(ROOT, ROOT)];
    var count: nat := 0;
    NothingParsed(ls, scalar);
    for n := 0 to |lines|
      invariant count == |Entries(lines, n)| <= |ls|
      invariant forall i | 0 <= i < n :: !Rejected(raises, lines[i])
      invariant Parsed(ls, scalar, count, heap, stack)
    {
      EntriesPrefix(lines, n);
      EntriesStep(lines, n);
      var ok: bool;
      ok, heap, stack, count := Feed(ls, scalar, raises, lines[n], count, heap, stack);
      if !ok {
        return None;
      }
    }
    ParsedDocument(ls, scalar, heap, stack);
    r := Some(heap);
  }

  lemma ParsedDocument<S>(ls: seq<Line>, scalar: string -> S, heap: map<int, Object<S>>, stack: seq<(int, int)>)
    requires Parsed(ls, scalar, |ls|, heap, stack)
    ensures HeapOk(ls, scalar, heap, |ls|) && Document(ls, scalar, heap) == Block(ls, scalar, 0, |ls|)
  {
    hide HeapOk, Cells, Block;
    if |ls| > 0 {
      assert Clean(ls, ROOT, 0);
    }
    CellsAreBlock(ls, scalar, heap, ROOT, 0, |ls|);
  }
}

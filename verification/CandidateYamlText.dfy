/**
 Two-space rendering of nested mappings, and its inversion by the candidate-profile parser.
 */
module CandidateYamlText {
  import opened Wrappers
  import opened Strings
  import opened CandidateYaml

  /** A finite nested mapping, entry by entry. */
  datatype Doc = Empty | Plain(key: string, text: string, rest: Doc) | Section(key: string, body: Doc, rest: Doc)

  predicate ValidKey(key: string) {
    Trimmed(key) && key[0] != '#' && !StartsWith(key, "- ") && forall i | 0 <= i < |key| :: key[i] != ':'
  }

  predicate ValidDoc(doc: Doc) {
    match doc
    case Empty => true
    case Plain(key, text, rest) => ValidKey(key) && Trimmed(text) && ValidDoc(rest)
    case Section(key, body, rest) => ValidKey(key) && ValidDoc(body) && ValidDoc(rest)
  }

  /** The mapping a document stands for; of two entries with one key the later counts. */
  function Meaning<S>(doc: Doc, scalar: string -> S): map<string, Value<S>> {
    match doc
    case Empty => map[]
    case Plain(key, text, rest) => map[key := Leaf(scalar(text))] + Meaning(rest, scalar)
    case Section(key, body, rest) => map[key := Mapping(Meaning(body, scalar))] + Meaning(rest, scalar)
  }

  function Blanks(n: nat): (s: string)
    ensures |s| == n && forall i | 0 <= i < n :: s[i] == ' '
  {
    seq(n, _ => ' ')
  }

  function ScalarLine(depth: nat, key: string, text: string): string {
    Blanks(2 * depth) + (key + ": " + text)
  }

  function SectionLine(depth: nat, key: string): string {
    Blanks(2 * depth) + (key + ":")
  }

  /** The indented rendering. */
  function Render(doc: Doc, depth: nat): seq<string> {
    match doc
    case Empty => []
    case Plain(key, text, rest) => [ScalarLine(depth, key, text)] + Render(rest, depth)
    case Section(key, body, rest) => [SectionLine(depth, key)] + Render(body, depth + 1) + Render(rest, depth)
  }

  function Lines(doc: Doc, depth: nat): seq<Line> {
    match doc
    case Empty => []
    case Plain(key, text, rest) => [Line(2 * depth, key, Some(text))] + Lines(rest, depth)
    case Section(key, body, rest) => [Line(2 * depth, key, None)] + Lines(body, depth + 1) + Lines(rest, depth)
  }

  // ---------- reading one rendered line ----------

  lemma {:induction false} StripBlanks(n: nat, s: string)
    requires s != [] && !Space(s[0])
    ensures LStrip(Blanks(n) + s) == s
    ensures Indent(Blanks(n) + s) == n
  {
    if n == 0 {
      assert Blanks(0) + s == s;
    } else {
      StripBlanks(n - 1, s);
      assert (Blanks(n) + s)[1..] == Blanks(n - 1) + s;
    }
  }

  lemma {:induction false} ColonAfter(key: string, rest: string)
    requires forall i | 0 <= i < |key| :: key[i] != ':'
    ensures Colon(key + [':'] + rest) == Some(|key|)
  {
    var s := key + [':'] + rest;
    if key != [] {
      ColonAfter(key[1..], rest);
      assert s[1..] == key[1..] + [':'] + rest;
    }
  }

  lemma NotAnItem(key: string, rest: string)
    requires ValidKey(key)
    ensures !StartsWith(key + [':'] + rest, "- ") && !StartsWith(key + [':'] + rest, "#")
  {
    var s := key + [':'] + rest;
    assert s[0] == key[0] && s[1] == if |key| == 1 then ':' else key[1];
    assert StartsWith(key, "- ") <==> |key| >= 2 && key[0] == '-' && key[1] == ' ';
    assert StartsWith(s, "- ") <==> s[0] == '-' && s[1] == ' ';
  }

  /** A rendered entry is read back as its key and whatever follows the colon. */
  lemma LexEntry(depth: nat, key: string, rest: string)
    requires ValidKey(key) && (rest == [] || !Space(rest[|rest| - 1]))
    ensures Lex(Blanks(2 * depth) + (key + [':'] + rest)) ==
            Entry(Line(2 * depth, key, if Strip(rest) == [] then None else Some(Strip(rest))))
  {
    hide LStrip, RStrip, Space, Indent, Colon, StartsWith, Strip;
    var s := key + [':'] + rest;
    var raw := Blanks(2 * depth) + s;
    EntryStripped(depth, key, rest);
    ColonAfter(key, rest);
    NotAnItem(key, rest);
    TrimmedStrip(key);
    assert s[..|key|] == key && s[|key| + 1..] == rest;
  }

  lemma EntryStripped(depth: nat, key: string, rest: string)
    requires ValidKey(key) && (rest == [] || !Space(rest[|rest| - 1]))
    ensures var raw := Blanks(2 * depth) + (key + [':'] + rest);
            Strip(raw) == key + [':'] + rest && LStrip(raw) == key + [':'] + rest && Indent(raw) == 2 * depth
  {
    var s := key + [':'] + rest;
    StripBlanks(2 * depth, s);
    assert Trimmed(s);
    assert RStrip(s) == s;
  }

  lemma LexScalar(depth: nat, key: string, text: string)
    requires ValidKey(key) && Trimmed(text)
    ensures Lex(ScalarLine(depth, key, text)) == Entry(Line(2 * depth, key, Some(text)))
  {
    hide Lex, ValidKey;
    var rest := " " + text;
    LexEntry(depth, key, rest);
    assert key + ": " + text == key + [':'] + rest;
    BlankText(text);
  }

  lemma BlankText(text: string)
    requires Trimmed(text)
    ensures Strip(" " + text) == text && !Space((" " + text)[|text|])
  {
    StripBlanks(1, text);
    assert Blanks(1) + text == " " + text;
    assert RStrip(text) == text;
  }

  lemma LexSection(depth: nat, key: string)
    requires ValidKey(key)
    ensures Lex(SectionLine(depth, key)) == Entry(Line(2 * depth, key, None))
  {
    hide Lex, ValidKey;
    LexEntry(depth, key, []);
    assert key + ":" == key + [':'] + [];
    assert Strip([]) == [];
  }

  // ---------- reading a rendered document ----------

  lemma {:induction false} EntriesTake(a: seq<string>, b: seq<string>, n: nat)
    requires n <= |a|
    ensures Entries(a + b, n) == Entries(a, n)
  {
    hide Lex;
    if n > 0 {
      EntriesTake(a, b, n - 1);
    }
  }

  lemma {:induction false} EntriesConcat(a: seq<string>, b: seq<string>, n: nat)
    requires n <= |b|
    ensures Entries(a + b, |a| + n) == Entries(a, |a|) + Entries(b, n)
  {
    hide Lex;
    if n == 0 {
      EntriesTake(a, b, |a|);
    } else {
      EntriesConcat(a, b, n - 1);
    }
  }

  /** Every line gives an entry, and these are `ls`. */
  ghost predicate Accepts(lines: seq<string>, ls: seq<Line>) {
    && Entries(lines, |lines|) == ls && |ls| == |lines|
    && forall i | 0 <= i < |lines| :: Lex(lines[i]) == Entry(ls[i])
  }

  lemma AcceptsOne(raw: string, line: Line)
    requires Lex(raw) == Entry(line)
    ensures Accepts([raw], [line])
  {
    hide Lex;
    assert Entries([raw], 0) == [];
  }

  lemma AcceptsConcat(a: seq<string>, b: seq<string>, la: seq<Line>, lb: seq<Line>)
    requires Accepts(a, la) && Accepts(b, lb)
    ensures Accepts(a + b, la + lb)
  {
    hide Lex, Entries;
    EntriesConcat(a, b, |b|);
  }

  lemma {:induction false} RenderedLines(doc: Doc, depth: nat)
    requires ValidDoc(doc)
    ensures Accepts(Render(doc, depth), Lines(doc, depth))
  {
    hide Accepts, ValidKey, Trimmed, ScalarLine, SectionLine;
    match doc
    case Empty => NothingRendered();
    case Plain(key, text, rest) =>
      LexScalar(depth, key, text);
      AcceptsOne(ScalarLine(depth, key, text), Line(2 * depth, key, Some(text)));
      RenderedLines(rest, depth);
      AcceptsConcat([ScalarLine(depth, key, text)], Render(rest, depth),
                    [Line(2 * depth, key, Some(text))], Lines(rest, depth));
    case Section(key, body, rest) =>
      LexSection(depth, key);
      AcceptsOne(SectionLine(depth, key), Line(2 * depth, key, None));
      RenderedLines(body, depth + 1);
      RenderedLines(rest, depth);
      AcceptsConcat([SectionLine(depth, key)], Render(body, depth + 1),
                    [Line(2 * depth, key, None)], Lines(body, depth + 1));
      AcceptsConcat([SectionLine(depth, key)] + Render(body, depth + 1), Render(rest, depth),
                    [Line(2 * depth, key, None)] + Lines(body, depth + 1), Lines(rest, depth));
  }

  lemma NothingRendered()
    ensures Accepts([], [])
  {
  }

  lemma {:induction false} LineIndents(doc: Doc, depth: nat)
    ensures forall i | 0 <= i < |Lines(doc, depth)| :: Lines(doc, depth)[i].indent >= 2 * depth
    ensures Lines(doc, depth) != [] ==> Lines(doc, depth)[0].indent == 2 * depth
  {
    match doc
    case Empty =>
    case Plain(_, _, rest) => LineIndents(rest, depth);
    case Section(_, body, rest) =>
      LineIndents(body, depth + 1);
      LineIndents(rest, depth);
  }

  ghost predicate Window(ls: seq<Line>, lo: nat, part: seq<Line>) {
    lo + |part| <= |ls| && forall i | 0 <= i < |part| :: ls[lo + i] == part[i]
  }

  lemma WindowParts(ls: seq<Line>, lo: nat, a: seq<Line>, b: seq<Line>)
    requires Window(ls, lo, a + b)
    ensures Window(ls, lo, a) && Window(ls, lo + |a|, b)
  {
    assert forall i | 0 <= i < |a| :: (a + b)[i] == a[i];
    assert forall i | 0 <= i < |b| :: (a + b)[|a| + i] == b[i];
  }

  /** A section ends where the next entry of its own depth begins. */
  lemma SectionEnds(ls: seq<Line>, lo: nat, depth: nat, body: Doc, rest: Doc)
    requires Window(ls, lo, Lines(body, depth + 1)) && Window(ls, lo + |Lines(body, depth + 1)|, Lines(rest, depth))
    ensures var end := lo + |Lines(body, depth + 1)|;
            BlockEnd(ls, 2 * depth, lo, end + |Lines(rest, depth)|) == end
  {
    hide Lines;
    LineIndents(body, depth + 1);
    LineIndents(rest, depth);
    var inner, after := Lines(body, depth + 1), Lines(rest, depth);
    var end := lo + |inner|;
    var found := BlockEnd(ls, 2 * depth, lo, end + |after|);
    assert forall i | lo <= i < end :: ls[i] == inner[i - lo];
    assert after != [] ==> ls[end + 0] == after[0];
  }

  lemma {:induction false} BlockOfRendered<S>(ls: seq<Line>, scalar: string -> S, lo: nat, doc: Doc, depth: nat)
    requires Window(ls, lo, Lines(doc, depth))
    ensures lo + |Lines(doc, depth)| <= |ls|
    ensures Block(ls, scalar, lo, lo + |Lines(doc, depth)|) == Meaning(doc, scalar)
    decreases doc
  {
    hide Window, Block, Lines;
    WindowFits(ls, lo, Lines(doc, depth));
    match doc
    case Empty => NoBlock(ls, scalar, lo, depth);
    case Plain(key, text, rest) =>
      ScalarBlock(ls, scalar, lo, key, text, rest, depth);
      BlockOfRendered(ls, scalar, lo + 1, rest, depth);
    case Section(key, body, rest) =>
      SectionBlock(ls, scalar, lo, key, body, rest, depth);
      BlockOfRendered(ls, scalar, lo + 1, body, depth + 1);
      BlockOfRendered(ls, scalar, lo + 1 + |Lines(body, depth + 1)|, rest, depth);
  }

  lemma NoBlock<S>(ls: seq<Line>, scalar: string -> S, lo: nat, depth: nat)
    requires lo <= |ls|
    ensures |Lines(Empty, depth)| == 0 && Block(ls, scalar, lo, lo) == map[]
  {
  }

  lemma ScalarBlock<S>(ls: seq<Line>, scalar: string -> S, lo: nat, key: string, text: string, rest: Doc, depth: nat)
    requires Window(ls, lo, Lines(Plain(key, text, rest), depth))
    ensures var hi := lo + 1 + |Lines(rest, depth)|;
            && Window(ls, lo + 1, Lines(rest, depth)) && hi == lo + |Lines(Plain(key, text, rest), depth)| <= |ls|
            && Block(ls, scalar, lo, hi) == map[key := Leaf(scalar(text))] + Block(ls, scalar, lo + 1, hi)
  {
    hide Window, Block;
    var head := [Line(2 * depth, key, Some(text))];
    WindowFits(ls, lo, Lines(Plain(key, text, rest), depth));
    WindowParts(ls, lo, head, Lines(rest, depth));
    WindowFirst(ls, lo, head[0]);
    ScalarStep(ls, scalar, lo, lo + 1 + |Lines(rest, depth)|);
  }

  lemma ScalarStep<S>(ls: seq<Line>, scalar: string -> S, lo: nat, hi: nat)
    requires lo < hi <= |ls| && ls[lo].text.Some?
    ensures Block(ls, scalar, lo, hi) ==
            map[ls[lo].key := Leaf(scalar(ls[lo].text.value))] + Block(ls, scalar, lo + 1, hi)
  {
  }

  lemma SectionStep<S>(ls: seq<Line>, scalar: string -> S, lo: nat, end: nat, hi: nat)
    requires lo < end <= hi <= |ls| && ls[lo].text.None? && BlockEnd(ls, ls[lo].indent, lo + 1, hi) == end
    ensures Block(ls, scalar, lo, hi) ==
            map[ls[lo].key := Mapping(Block(ls, scalar, lo + 1, end))] + Block(ls, scalar, end, hi)
  {
    hide BlockEnd;
  }

  lemma SectionLines(key: string, body: Doc, rest: Doc, depth: nat)
    ensures Lines(Section(key, body, rest), depth) ==
            [Line(2 * depth, key, None)] + Lines(body, depth + 1) + Lines(rest, depth)
  {
  }

  lemma SectionBlock<S>(ls: seq<Line>, scalar: string -> S, lo: nat, key: string, body: Doc, rest: Doc, depth: nat)
    requires Window(ls, lo, Lines(Section(key, body, rest), depth))
    ensures var end := lo + 1 + |Lines(body, depth + 1)|;
            var hi := end + |Lines(rest, depth)|;
            && Window(ls, lo + 1, Lines(body, depth + 1)) && Window(ls, end, Lines(rest, depth))
            && hi == lo + |Lines(Section(key, body, rest), depth)| <= |ls|
            && Block(ls, scalar, lo, hi) ==
               map[key := Mapping(Block(ls, scalar, lo + 1, end))] + Block(ls, scalar, end, hi)
  {
    hide Window, BlockEnd, Lines, Block;
    var head, inner, after := [Line(2 * depth, key, None)], Lines(body, depth + 1), Lines(rest, depth);
    SectionLines(key, body, rest, depth);
    WindowFits(ls, lo, Lines(Section(key, body, rest), depth));
    WindowParts(ls, lo, head + inner, after);
    WindowParts(ls, lo, head, inner);
    WindowFirst(ls, lo, head[0]);
    SectionEnds(ls, lo + 1, depth, body, rest);
    SectionStep(ls, scalar, lo, lo + 1 + |inner|, lo + 1 + |inner| + |after|);
  }

  lemma WindowFits(ls: seq<Line>, lo: nat, part: seq<Line>)
    requires Window(ls, lo, part)
    ensures lo + |part| <= |ls|
  {
  }

  lemma WindowFirst(ls: seq<Line>, lo: nat, line: Line)
    requires Window(ls, lo, [line])
    ensures lo < |ls| && ls[lo] == line
  {
    assert ls[lo + 0] == [line][0];
  }

  /** Some scalar of the document cannot be read. */
  predicate Unreadable(doc: Doc, raises: string -> bool) {
    match doc
    case Empty => false
    case Plain(_, text, rest) => raises(text) || Unreadable(rest, raises)
    case Section(_, body, rest) => Unreadable(body, raises) || Unreadable(rest, raises)
  }

  lemma {:induction false} UnreadableLine(doc: Doc, depth: nat, raises: string -> bool)
    ensures Unreadable(doc, raises) <==> exists line | line in Lines(doc, depth) :: Raising(raises, line)
  {
    match doc
    case Empty =>
    case Plain(key, text, rest) =>
      var line := Line(2 * depth, key, Some(text));
      UnreadableLine(rest, depth, raises);
      assert Raising(raises, line) <==> raises(text);
    case Section(key, body, rest) =>
      UnreadableLine(body, depth + 1, raises);
      UnreadableLine(rest, depth, raises);
  }

  /**
   The parser inverts rendering: a line is rejected only when its scalar cannot be read, and the block structure is
   the mapping rendered.
   */
  lemma RoundTrip<S>(doc: Doc, scalar: string -> S, raises: string -> bool)
    requires ValidDoc(doc)
    ensures var lines := Render(doc, 0);
            var ls := Entries(lines, |lines|);
            && ((exists i :: 0 <= i < |lines| && Rejected(raises, lines[i])) <==> Unreadable(doc, raises))
            && Block(ls, scalar, 0, |ls|) == Meaning(doc, scalar)
  {
    hide Render, Lines, Block, Lex, Raising, Meaning, Unreadable;
    RenderedLines(doc, 0);
    BlockOfRendered(Lines(doc, 0), scalar, 0, doc, 0);
    UnreadableLine(doc, 0, raises);
    var lines, ls := Render(doc, 0), Lines(doc, 0);
    forall i | 0 <= i < |lines|
      ensures Rejected(raises, lines[i]) <==> Raising(raises, ls[i])
    {
    }
    if line :| line in ls && Raising(raises, line) {
      var i :| 0 <= i < |ls| && ls[i] == line;
      assert Rejected(raises, lines[i]);
    }
    if i :| 0 <= i < |lines| && Rejected(raises, lines[i]) {
      assert ls[i] in ls;
    }
  }

  // ---------- whole texts ----------

  /** Keys and scalars without line breaks. */
  predicate OneLineDoc(doc: Doc) {
    match doc
    case Empty => true
    case Plain(key, text, rest) => OneLine(key) && OneLine(text) && OneLineDoc(rest)
    case Section(key, body, rest) => OneLine(key) && OneLineDoc(body) && OneLineDoc(rest)
  }

  lemma {:induction false} RenderedOneLine(doc: Doc, depth: nat)
    requires OneLineDoc(doc)
    ensures forall i | 0 <= i < |Render(doc, depth)| :: OneLine(Render(doc, depth)[i])
  {
    hide OneLine, Blanks;
    match doc
    case Empty =>
    case Plain(key, text, rest) =>
      LineOfScalar(depth, key, text);
      RenderedOneLine(rest, depth);
    case Section(key, body, rest) =>
      LineOfScalar(depth, key, "");
      RenderedOneLine(body, depth + 1);
      RenderedOneLine(rest, depth);
  }

  lemma LineOfScalar(depth: nat, key: string, text: string)
    requires OneLine(key)
    ensures OneLine(text) ==> OneLine(ScalarLine(depth, key, text))
    ensures OneLine(SectionLine(depth, key))
  {
  }

  function RenderText(doc: Doc): string {
    JoinLines(Render(doc, 0))
  }

  /**
   `_parse_candidate_yaml` on a text: rejected exactly when some line of it is, and otherwise the dictionaries built
   are the block structure of its lines.
   */
  method ParseText<S>(text: string, scalar: string -> S, raises: string -> bool)
    returns (r: Option<map<int, Object<S>>>)
    ensures var lines := SplitLines(text);
            && (r.None? <==> exists i :: 0 <= i < |lines| && Rejected(raises, lines[i]))
            && (r.Some? ==>
                  var ls := Entries(lines, |lines|);
                  HeapOk(ls, scalar, r.value, |ls|) && Document(ls, scalar, r.value) == Block(ls, scalar, 0, |ls|))
  {
    hide *;
    var lines := SplitLines(text);
    r := Parse(lines, scalar, raises);
    if r.None? {
      var i :| 0 <= i < |lines| && Rejected(raises, lines[i]);
      assert Rejected(raises, SplitLines(text)[i]);
    }
  }

  /**
   Parsing the text of a rendered document fails exactly when one of its scalars cannot be read, and otherwise gives
   back dictionaries that read as the document.
   */
  method ParseRendered<S>(doc: Doc, scalar: string -> S, raises: string -> bool)
    returns (r: Option<map<int, Object<S>>>)
    requires ValidDoc(doc) && OneLineDoc(doc)
    ensures r.None? <==> Unreadable(doc, raises)
    ensures r.Some? ==>
              var lines := SplitLines(RenderText(doc));
              var ls := Entries(lines, |lines|);
              HeapOk(ls, scalar, r.value, |ls|) && Document(ls, scalar, r.value) == Meaning(doc, scalar)
  {
    hide *;
    RoundTrip(doc, scalar, raises);
    RenderedOneLine(doc, 0);
    SplitJoined(Render(doc, 0));
    RenderTextLines(doc);
    r := ParseText(RenderText(doc), scalar, raises);
    ghost var lines := Render(doc, 0);
    assert SplitLines(RenderText(doc)) == lines;
    if i :| 0 <= i < |lines| && Rejected(raises, lines[i]) {
      assert Rejected(raises, SplitLines(RenderText(doc))[i]);
    }
  }

  lemma RenderTextLines(doc: Doc)
    ensures SplitLines(RenderText(doc)) == SplitLines(JoinLines(Render(doc, 0)))
  {
  }
}

/**
 The string operations of Python that the parsers use.
 */
module Strings {

  /** The characters `str.strip` removes. */
  predicate Space(c: char) {
    || '\U{9}' <= c <= '\U{D}' || '\U{1C}' <= c <= '\U{20}' || c == '\U{85}' || c == '\U{A0}' || c == '\U{1680}'
    || '\U{2000}' <= c <= '\U{200A}' || c == '\U{2028}' || c == '\U{2029}' || c == '\U{202F}' || c == '\U{205F}'
    || c == '\U{3000}'
  }

  function LStrip(s: string): string {
    if s != [] && Space(s[0]) then LStrip(s[1..]) else s
  }

  function RStrip(s: string): string {
    if s != [] && Space(s[|s| - 1]) then RStrip(s[..|s| - 1]) else s
  }

  function Strip(s: string): string {
    RStrip(LStrip(s))
  }

  predicate Trimmed(s: string) {
    s != [] && !Space(s[0]) && !Space(s[|s| - 1])
  }

  predicate StartsWith(s: string, prefix: string) {
    prefix <= s
  }

  lemma TrimmedStrip(s: string)
    requires Trimmed(s)
    ensures Strip(s) == s
  {
  }

  lemma {:induction false} LStripTrims(s: string)
    ensures LStrip(s) == [] || (!Space(LStrip(s)[0]) && LStrip(s)[|LStrip(s)| - 1] == s[|s| - 1])
  {
    if s != [] && Space(s[0]) {
      LStripTrims(s[1..]);
    }
  }

  lemma {:induction false} RStripTrims(s: string)
    ensures RStrip(s) == [] || (!Space(RStrip(s)[|RStrip(s)| - 1]) && RStrip(s)[0] == s[0])
  {
    if s != [] && Space(s[|s| - 1]) {
      RStripTrims(s[..|s| - 1]);
    }
  }

  /** Stripping leaves nothing, or a string that starts and ends with something else than white space. */
  lemma StripTrims(s: string)
    ensures Strip(s) == [] || Trimmed(Strip(s))
    ensures Strip(Strip(s)) == Strip(s)
  {
    LStripTrims(s);
    RStripTrims(LStrip(s));
    if Strip(s) != [] {
      TrimmedStrip(Strip(s));
    }
  }

  predicate Spaces(s: string) {
    forall i | 0 <= i < |s| :: Space(s[i])
  }

  lemma {:induction false} LeftStripped(s: string) returns (before: string)
    ensures Spaces(before) && s == before + LStrip(s)
  {
    before := "";
    if s != [] && Space(s[0]) {
      var rest := LeftStripped(s[1..]);
      before := [s[0]] + rest;
      assert s == [s[0]] + s[1..];
    }
  }

  lemma {:induction false} RightStripped(s: string) returns (after: string)
    ensures Spaces(after) && s == RStrip(s) + after
  {
    after := "";
    if s != [] && Space(s[|s| - 1]) {
      var rest := RightStripped(s[..|s| - 1]);
      after := rest + [s[|s| - 1]];
      assert s == s[..|s| - 1] + [s[|s| - 1]];
    }
  }

  /** Stripping takes away white space at both ends, all of it and nothing else. */
  lemma StripMeaning(s: string) returns (before: string, after: string)
    ensures Spaces(before) && Spaces(after) && s == before + Strip(s) + after
    ensures Strip(s) == [] || Trimmed(Strip(s))
  {
    hide Space, LStrip, RStrip;
    before := LeftStripped(s);
    after := RightStripped(LStrip(s));
    StripTrims(s);
  }

  // ---------- lines ----------

  /** Where `str.splitlines` breaks a text. */
  predicate IsBreak(c: char) {
    || '\U{A}' <= c <= '\U{D}' || '\U{1C}' <= c <= '\U{1E}' || c == '\U{85}' || c == '\U{2028}' || c == '\U{2029}'
  }

  predicate OneLine(s: string) {
    forall i | 0 <= i < |s| :: !IsBreak(s[i])
  }

  function FirstBreak(text: string): (n: nat)
    ensures n <= |text| && OneLine(text[..n]) && (n < |text| ==> IsBreak(text[n]))
  {
    if text == [] || IsBreak(text[0]) then 0
    else
      var n := 1 + FirstBreak(text[1..]);
      assert text[..n] == [text[0]] + text[1..][..n - 1];
      n
  }

  /** `str.splitlines`; a carriage return and the line feed after it are one break. */
  function SplitLines(text: string): seq<string> {
    if text == [] then []
    else
      var n := FirstBreak(text);
      if n == |text| then [text]
      else
        var next := if text[n] == '\r' && n + 1 < |text| && text[n + 1] == '\n' then n + 2 else n + 1;
        [text[..n]] + SplitLines(text[next..])
  }

  function JoinLines(lines: seq<string>): string {
    if lines == [] then "" else lines[0] + ['\n'] + JoinLines(lines[1..])
  }

  lemma {:induction false} BreakAfter(line: string, rest: string)
    requires OneLine(line)
    ensures FirstBreak(line + ['\n'] + rest) == |line|
  {
    var text := line + ['\n'] + rest;
    if line != [] {
      BreakAfter(line[1..], rest);
      assert text[1..] == line[1..] + ['\n'] + rest;
      assert !IsBreak(line[0]) && text[0] == line[0];
    }
  }

  lemma SplitFirst(line: string, rest: string)
    requires OneLine(line)
    ensures SplitLines(line + ['\n'] + rest) == [line] + SplitLines(rest)
  {
    hide OneLine, FirstBreak;
    var text := line + ['\n'] + rest;
    BreakAfter(line, rest);
    assert text[..|line|] == line && text[|line|] == '\n' && text[|line| + 1..] == rest;
  }

  /** Splitting inverts joining. */
  lemma {:induction false} SplitJoined(lines: seq<string>)
    requires forall i | 0 <= i < |lines| :: OneLine(lines[i])
    ensures SplitLines(JoinLines(lines)) == lines
  {
    hide OneLine, SplitLines;
    if lines == [] {
      NoLines();
    } else {
      SplitFirst(lines[0], JoinLines(lines[1..]));
      SplitJoined(lines[1..]);
    }
  }

  lemma NoLines()
    ensures SplitLines("") == []
  {
  }
}

/**
 Lines of candidate profiles, character by character.
 */
module CandidateYamlMeaning {
  import opened Wrappers
  import opened Strings
  import opened CandidateYaml

  /** The line starts with exactly `n` blanks. */
  predicate Leading(raw: string, n: nat) {
    n <= |raw| && (forall i | 0 <= i < n :: raw[i] == ' ') && (n == |raw| || raw[n] != ' ')
  }

  lemma {:induction false} IndentMeaning(raw: string, n: nat)
    ensures Indent(raw) == n <==> Leading(raw, n)
  {
    if raw != [] && raw[0] == ' ' {
      if n > 0 {
        IndentMeaning(raw[1..], n - 1);
      }
    }
  }

  /** Nothing but white space, or a comment. */
  predicate Passed(raw: string) {
    var body := Strip(raw);
    body == "" || body[0] == '#'
  }

  predicate ListItem(raw: string) {
    var body := Strip(raw);
    |body| >= 2 && body[0] == '-' && body[1] == ' '
  }

  /** The first colon of the stripped line is at `at`. */
  predicate FirstColon(body: string, at: nat) {
    at < |body| && body[at] == ':' && forall i | 0 <= i < at :: body[i] != ':'
  }

  /** A key before the first colon, a text or nothing after it. */
  ghost predicate Gives(raw: string, line: Line) {
    var body := Strip(raw);
    exists at: nat ::
      && FirstColon(body, at) && Strip(body[..at]) != "" && line.key == Strip(body[..at])
      && line.text == (if Strip(body[at + 1..]) == "" then None else Some(Strip(body[at + 1..])))
      && Leading(raw, line.indent)
  }

  lemma CommentMeaning(raw: string)
    ensures Strip(raw) == [] || StartsWith(LStrip(raw), "#") <==> Passed(raw)
  {
    LStripTrims(raw);
    RStripTrims(LStrip(raw));
    if Strip(raw) != [] {
      var body := LStrip(raw);
      assert body != [];
      assert "#" <= body <==> body[..1] == "#";
    }
  }

  lemma ItemMeaning(raw: string)
    ensures StartsWith(Strip(raw), "- ") <==> ListItem(raw)
  {
    hide Strip;
    var body := Strip(raw);
    if |body| >= 2 {
      assert "- " <= body <==> body[..2] == "- ";
      assert body[..2] == [body[0], body[1]];
    }
  }

  /**
   What a line is: blank or a comment, a list item, a mapping entry with its indentation, key and text, or malformed.
   */
  lemma LexMeaning(raw: string, line: Line)
    ensures Lex(raw).Skip? <==> Passed(raw)
    ensures Lex(raw).Item? <==> !Passed(raw) && ListItem(raw)
    ensures Lex(raw) == Entry(line) <==> !Passed(raw) && !ListItem(raw) && Gives(raw, line)
    ensures Lex(raw).Malformed? <==> !Passed(raw) && !ListItem(raw) && forall l :: !Gives(raw, l)
  {
    hide Strip, LStrip, Indent, Passed, ListItem, StartsWith, Leading;
    CommentMeaning(raw);
    ItemMeaning(raw);
    forall n
      ensures Indent(raw) == n <==> Leading(raw, n)
    {
      IndentMeaning(raw, n);
    }
    var body := Strip(raw);
    var colon := Colon(body);
    assert forall at: nat :: FirstColon(body, at) <==> colon == Some(at);
    if Lex(raw).Entry? {
      assert Gives(raw, Lex(raw).line);
    }
  }
}

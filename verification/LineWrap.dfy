/**
 Greedy line wrapping (evals/generator.py): it keeps the words in order, and no other division of the words into
 lines that fit uses fewer lines.
 */
module LineWrap {

  /** The text of words `i` to `j` on one line. */
  function LineText(words: seq<string>, i: nat, j: nat): (line: string)
    requires i < j <= |words|
    ensures |line| == LineLength(words, i, j)
  {
    if j == i + 1 then words[i] else LineText(words, i, j - 1) + " " + words[j - 1]
  }

  function LineLength(words: seq<string>, i: nat, j: nat): nat
    requires i < j <= |words|
  {
    if j == i + 1 then |words[i]| else LineLength(words, i, j - 1) + 1 + |words[j - 1]|
  }

  /** Words `i` to `j` make a line within the limit, or of a single word. */
  ghost predicate Fits(words: seq<string>, limit: int, i: nat, j: nat) {
    i < j <= |words| && (j == i + 1 || LineLength(words, i, j) <= limit)
  }

  ghost predicate TooLong(words: seq<string>, limit: int, i: nat, j: nat) {
    i < j <= |words| && LineLength(words, i, j) > limit
  }

  /** Line `k` runs from word `cuts[k]` to word `cuts[k + 1]`; together the lines hold the first `n` words in order. */
  ghost predicate Wrapping(words: seq<string>, limit: int, cuts: seq<nat>, n: nat) {
    && cuts != [] && cuts[0] == 0 && cuts[|cuts| - 1] == n <= |words|
    && forall k: nat | k + 1 < |cuts| :: Fits(words, limit, cuts[k], cuts[k + 1])
  }

  function Lines(cuts: seq<nat>): int {
    |cuts| - 1
  }

  /** No line could take the first word of the next one as well. */
  ghost predicate Full(words: seq<string>, limit: int, cuts: seq<nat>) {
    forall k: nat | k + 2 < |cuts| :: TooLong(words, limit, cuts[k], cuts[k + 1] + 1)
  }

  lemma {:induction false} LongerLine(words: seq<string>, i: nat, j: nat, lo: nat, hi: nat)
    requires lo <= i < j <= hi <= |words|
    ensures LineLength(words, i, j) <= LineLength(words, lo, hi)
    decreases hi - lo
  {
    if j < hi {
      LongerLine(words, i, j, lo, hi - 1);
    } else if lo < i {
      LongerLine(words, i, j, lo + 1, hi);
      DropFirst(words, lo, hi);
    }
  }

  lemma {:induction false} DropFirst(words: seq<string>, lo: nat, hi: nat)
    requires lo + 1 < hi <= |words|
    ensures LineLength(words, lo, hi) == |words[lo]| + 1 + LineLength(words, lo + 1, hi)
  {
    if lo + 2 < hi {
      DropFirst(words, lo, hi - 1);
    }
  }

  /** A line that starts no later than a full one ends no later. */
  lemma FullReaches(words: seq<string>, limit: int, i: nat, e: nat, lo: nat, hi: nat)
    requires TooLong(words, limit, i, e + 1) && Fits(words, limit, lo, hi) && lo <= i < e
    ensures hi <= e
  {
    if hi > e {
      LongerLine(words, i, e + 1, lo, hi);
    }
  }

  lemma {:induction false} CutsGrow(words: seq<string>, limit: int, cuts: seq<nat>, n: nat, i: nat, j: nat)
    requires Wrapping(words, limit, cuts, n) && i <= j < |cuts|
    ensures cuts[i] <= cuts[j] && (i < j ==> cuts[i] < cuts[j])
    decreases j - i
  {
    if i < j {
      CutsGrow(words, limit, cuts, n, i, j - 1);
      assert Fits(words, limit, cuts[j - 1], cuts[j - 1 + 1]);
    }
  }

  /** After as many lines, full lines are never behind any other wrapping. */
  lemma {:induction false} StaysAhead(words: seq<string>, limit: int, cuts: seq<nat>, other: seq<nat>, n: nat, k: nat)
    requires Wrapping(words, limit, cuts, n) && Full(words, limit, cuts) && Wrapping(words, limit, other, n)
    requires k < |cuts| && k < |other|
    ensures other[k] <= cuts[k]
  {
    if k > 0 {
      StaysAhead(words, limit, cuts, other, n, k - 1);
      assert Fits(words, limit, other[k - 1], other[k - 1 + 1]);
      assert Fits(words, limit, cuts[k - 1], cuts[k - 1 + 1]);
      if k + 1 < |cuts| {
        assert TooLong(words, limit, cuts[k - 1], cuts[k - 1 + 1] + 1);
        FullReaches(words, limit, cuts[k - 1], cuts[k], other[k - 1], other[k]);
      } else {
        CutsGrow(words, limit, other, n, k, |other| - 1);
      }
    }
  }

  /** A wrapping with full lines has as few lines as any. */
  lemma FullIsMinimal(words: seq<string>, limit: int, cuts: seq<nat>, other: seq<nat>, n: nat)
    requires Wrapping(words, limit, cuts, n) && Full(words, limit, cuts) && Wrapping(words, limit, other, n)
    ensures Lines(cuts) <= Lines(other)
  {
    if |other| < |cuts| {
      StaysAhead(words, limit, cuts, other, n, |other| - 1);
      CutsGrow(words, limit, cuts, n, |other| - 1, |cuts| - 1);
      assert false;
    }
  }

  ghost function Texts(words: seq<string>, limit: int, cuts: seq<nat>, n: nat): (lines: seq<string>)
    requires Wrapping(words, limit, cuts, n)
    ensures |lines| == Lines(cuts)
  {
    seq(|cuts| - 1, k requires 0 <= k < |cuts| - 1 =>
          assert Fits(words, limit, cuts[k], cuts[k + 1]);
          LineText(words, cuts[k], cuts[k + 1]))
  }

  /** The closed lines, all of them full, and the start of the current one. */
  ghost predicate Wrapped(words: seq<string>, limit: int, cuts: seq<nat>, start: nat) {
    && Wrapping(words, limit, cuts, start) && Full(words, limit, cuts)
    && (|cuts| > 1 ==> TooLong(words, limit, cuts[|cuts| - 2], start + 1))
  }

  lemma CutsExtended(cuts: seq<nat>, n: nat)
    ensures |cuts + [n]| == |cuts| + 1 && (cuts + [n])[|cuts|] == n
    ensures forall k: nat | k < |cuts| :: (cuts + [n])[k] == cuts[k]
  {
  }

  /** Closing the current line leaves full lines. */
  lemma CloseLine(words: seq<string>, limit: int, cuts: seq<nat>, start: nat, n: nat)
    requires Wrapped(words, limit, cuts, start) && Fits(words, limit, start, n) && n <= |words|
    ensures Wrapping(words, limit, cuts + [n], n) && Full(words, limit, cuts + [n])
    ensures TooLong(words, limit, start, n + 1) ==> Wrapped(words, limit, cuts + [n], n)
  {
    hide Fits, TooLong;
    CutsExtended(cuts, n);
    var closed := cuts + [n];
    forall k: nat | k + 1 < |closed|
      ensures Fits(words, limit, closed[k], closed[k + 1])
    {
      if k + 1 < |cuts| {
        assert Fits(words, limit, cuts[k], cuts[k + 1]);
      }
    }
    forall k: nat | k + 2 < |closed|
      ensures TooLong(words, limit, closed[k], closed[k + 1] + 1)
    {
      if k + 2 < |cuts| {
        assert TooLong(words, limit, cuts[k], cuts[k + 1] + 1);
      }
    }
  }

  lemma CloseText(words: seq<string>, limit: int, cuts: seq<nat>, start: nat, n: nat)
    requires Wrapping(words, limit, cuts, start) && Wrapping(words, limit, cuts + [n], n) && start < n
    ensures Texts(words, limit, cuts + [n], n) == Texts(words, limit, cuts, start) + [LineText(words, start, n)]
  {
    hide Fits, LineText, Wrapping;
    CutsExtended(cuts, n);
    assert cuts != [] && cuts[|cuts| - 1] == start by { LastCut(words, limit, cuts, start); }
  }

  lemma LastCut(words: seq<string>, limit: int, cuts: seq<nat>, n: nat)
    requires Wrapping(words, limit, cuts, n)
    ensures cuts != [] && cuts[|cuts| - 1] == n
  {
    hide Fits;
  }

  /** The state of the loop before word `n`. */
  ghost predicate State(words: seq<string>, limit: int, lines: seq<string>, cuts: seq<nat>, start: nat, current: string,
                        n: nat) {
    if n == 0 then lines == [] && cuts == [0] && start == 0 && current == ""
    else
      && Wrapped(words, limit, cuts, start) && start < n <= |words| && Fits(words, limit, start, n)
      && lines == Texts(words, limit, cuts, start) && current == LineText(words, start, n) && current != ""
  }

  lemma Started(words: seq<string>, limit: int)
    ensures Wrapped(words, limit, [0], 0) && Texts(words, limit, [0], 0) == []
  {
  }

  /** The candidate stays on the current line. */
  lemma Extend(words: seq<string>, limit: int, lines: seq<string>, cuts: seq<nat>, start: nat, current: string, n: nat)
    requires State(words, limit, lines, cuts, start, current, n) && n < |words| && words[n] != ""
    ensures var candidate := if current == "" then words[n] else current + " " + words[n];
            && (current == "" || |candidate| <= limit ==> State(words, limit, lines, cuts, start, candidate, n + 1))
            && (current != "" && |candidate| > limit ==> n > 0 && TooLong(words, limit, start, n + 1))
  {
    hide Wrapped, Texts, Wrapping;
    Started(words, limit);
  }

  lemma NextLine(words: seq<string>, limit: int, lines: seq<string>, cuts: seq<nat>, start: nat, current: string,
                 n: nat)
    requires State(words, limit, lines, cuts, start, current, n) && 0 < n < |words| && words[n] != ""
    requires TooLong(words, limit, start, n + 1)
    ensures State(words, limit, lines + [current], cuts + [n], n, words[n], n + 1)
  {
    hide Wrapping, Full, Texts;
    CloseLine(words, limit, cuts, start, n);
    CloseText(words, limit, cuts, start, n);
  }

  /**
   `_wrap` on the words of its argument: the lines hold exactly these words in order, each line fits or is a single
   word, and no other division of the words into such lines has fewer.
   */
  method Wrap(words: seq<string>, limit: int) returns (lines: seq<string>, ghost cuts: seq<nat>)
    requires forall word | word in words :: word != ""
    ensures Wrapping(words, limit, cuts, |words|) && lines == Texts(words, limit, cuts, |words|)
    ensures forall other | Wrapping(words, limit, other, |words|) :: |lines| <= Lines(other)
  {
    hide *;
    lines, cuts := [], [0];
    if words == [] {
      Nothing(words, limit);
      return;
    }
    var current := "";
    ghost var start: nat := 0;
    Begin(words, limit);
    for n := 0 to |words|
      invariant State(words, limit, lines, cuts, start, current, n)
    {
      var word := words[n];
      assert word in words;
      var candidate := if current == "" then word else current + " " + word;
      Extend(words, limit, lines, cuts, start, current, n);
      if |candidate| > limit && current != "" {
        NextLine(words, limit, lines, cuts, start, current, n);
        lines := lines + [current];
        cuts := cuts + [n];
        start := n;
        current := word;
      } else {
        current := candidate;
      }
    }
    Finish(words, limit, lines, cuts, start, current);
    lines := lines + [current];
    cuts := cuts + [|words|];
  }

  lemma Begin(words: seq<string>, limit: int)
    ensures State(words, limit, [], [0], 0, "", 0)
  {
  }

  lemma Nothing(words: seq<string>, limit: int)
    requires words == []
    ensures Wrapping(words, limit, [0], 0) && Texts(words, limit, [0], 0) == []
    ensures forall other | Wrapping(words, limit, other, 0) :: 0 <= Lines(other)
  {
  }

  lemma Finish(words: seq<string>, limit: int, lines: seq<string>, cuts: seq<nat>, start: nat, current: string)
    requires words != [] && State(words, limit, lines, cuts, start, current, |words|)
    ensures Wrapping(words, limit, cuts + [|words|], |words|)
    ensures lines + [current] == Texts(words, limit, cuts + [|words|], |words|)
    ensures forall other | Wrapping(words, limit, other, |words|) :: |lines + [current]| <= Lines(other)
  {
    hide Wrapping, Full, Texts;
    CloseLine(words, limit, cuts, start, |words|);
    CloseText(words, limit, cuts, start, |words|);
    forall other | Wrapping(words, limit, other, |words|)
      ensures Lines(cuts + [|words|]) <= Lines(other)
    {
      FullIsMinimal(words, limit, cuts + [|words|], other, |words|);
    }
  }

  /** Texts one after the other, each followed by a blank. */
  ghost function Blanked(texts: seq<string>): string {
    if texts == [] then "" else Blanked(texts[..|texts| - 1]) + texts[|texts| - 1] + " "
  }

  lemma {:induction false} BlankedAppend(a: seq<string>, b: seq<string>)
    ensures Blanked(a + b) == Blanked(a) + Blanked(b)
  {
    if b == [] {
      assert a + b == a;
    } else {
      var c := b[..|b| - 1];
      BlankedAppend(a, c);
      assert (a + b)[..|a + b| - 1] == a + c;
    }
  }

  lemma {:induction false} LineBlanked(words: seq<string>, i: nat, j: nat)
    requires i < j <= |words|
    ensures LineText(words, i, j) + " " == Blanked(words[i..j])
    decreases j - i
  {
    if j == i + 1 {
      assert words[i..j] == [words[i]];
      assert [words[i]][..0] == [];
    } else {
      LineBlanked(words, i, j - 1);
      assert words[i..j][..j - i - 1] == words[i..j - 1];
    }
  }

  /** The lines spell the words in order, and a line of more than `limit` characters is one of the words. */
  lemma {:induction false} LinesMeaning(words: seq<string>, limit: int, cuts: seq<nat>, n: nat)
    requires Wrapping(words, limit, cuts, n)
    ensures Blanked(Texts(words, limit, cuts, n)) == Blanked(words[..n])
    ensures forall line | line in Texts(words, limit, cuts, n) :: |line| <= limit || line in words
    decreases |cuts|
  {
    hide Fits, LineText;
    if |cuts| == 1 {
      assert words[..n] == [];
    } else {
      var rest := cuts[..|cuts| - 1];
      var m := rest[|rest| - 1];
      assert Fits(words, limit, m, cuts[|cuts| - 2 + 1]);
      CutBounded(words, limit, cuts, n);
      RestWraps(words, limit, cuts, n);
      assert rest + [n] == cuts;
      CloseText(words, limit, rest, m, n);
      LinesMeaning(words, limit, rest, m);
      LastLine(words, limit, Texts(words, limit, rest, m), m, n);
    }
  }

  lemma LastLine(words: seq<string>, limit: int, lines: seq<string>, m: nat, n: nat)
    requires Fits(words, limit, m, n) && Blanked(lines) == Blanked(words[..m])
    ensures Blanked(lines + [LineText(words, m, n)]) == Blanked(words[..n])
    ensures var line := LineText(words, m, n); |line| <= limit || line in words
  {
    hide Blanked;
    var line := LineText(words, m, n);
    LineBlanked(words, m, n);
    BlankedAppend(words[..m], words[m..n]);
    assert words[..m] + words[m..n] == words[..n];
    BlankedOne(lines, line);
    assert n == m + 1 ==> line == words[m];
  }

  lemma BlankedOne(lines: seq<string>, line: string)
    ensures Blanked(lines + [line]) == Blanked(lines) + (line + " ")
  {
    assert (lines + [line])[..|lines|] == lines;
  }

  lemma RestWraps(words: seq<string>, limit: int, cuts: seq<nat>, n: nat)
    requires Wrapping(words, limit, cuts, n) && |cuts| > 1
    ensures Wrapping(words, limit, cuts[..|cuts| - 1], cuts[|cuts| - 2])
  {
    hide Fits;
    var rest := cuts[..|cuts| - 1];
    assert Fits(words, limit, cuts[|cuts| - 2], cuts[|cuts| - 2 + 1]);
    assert cuts[|cuts| - 2] <= |words| by { CutBounded(words, limit, cuts, n); }
    forall k: nat | k + 1 < |rest|
      ensures Fits(words, limit, rest[k], rest[k + 1])
    {
      assert Fits(words, limit, cuts[k], cuts[k + 1]);
    }
  }

  lemma CutBounded(words: seq<string>, limit: int, cuts: seq<nat>, n: nat)
    requires Wrapping(words, limit, cuts, n) && |cuts| > 1
    ensures cuts[|cuts| - 2] < n
  {
    assert Fits(words, limit, cuts[|cuts| - 2], cuts[|cuts| - 2 + 1]);
  }
}

/** Path comparison of the media scanner (`_same_media_path` in evals/opencode_events.py). */
module MediaPaths {

  function ForwardSlashes(path: string): string {
    if path == "" then ""
    else [if path[0] == '\\' then '/' else path[0]] + ForwardSlashes(path[1..])
  }

  function DropDotSlash(path: string): string {
    if |path| >= 2 && path[0] == '.' && path[1] == '/' then DropDotSlash(path[2..]) else path
  }

  function DropSlashes(path: string): string {
    if path != "" && path[0] == '/' then DropSlashes(path[1..]) else path
  }

  function Normalize(path: string): string {
    DropSlashes(DropDotSlash(ForwardSlashes(path)))
  }

  predicate EndsWith(s: string, tail: string) {
    |tail| <= |s| && s[|s| - |tail|..] == tail
  }

  predicate SameMediaPath(actual: string, required: string) {
    var a, r := Normalize(actual), Normalize(required);
    a == r || EndsWith(a, "/" + r)
  }

  /** The components of a path. */
  function Split(s: string): (parts: seq<string>)
    ensures parts != []
  {
    if s == "" then [""]
    else
      var rest := Split(s[1..]);
      if s[0] == '/' then [""] + rest else [[s[0]] + rest[0]] + rest[1..]
  }

  function Join(parts: seq<string>): string
    requires parts != []
  {
    if |parts| == 1 then parts[0] else parts[0] + "/" + Join(parts[1..])
  }

  lemma SplitStep(s: string)
    ensures Split("") == [""]
    ensures s != "" ==> var rest := Split(s[1..]);
                        Split(s) == if s[0] == '/' then [""] + rest else [[s[0]] + rest[0]] + rest[1..]
  {
  }

  lemma {:induction false} SplitAtSlash(a: string, b: string)
    ensures Split(a + "/" + b) == Split(a) + Split(b)
  {
    hide Split;
    var s := a + "/" + b;
    SplitStep(s);
    SplitStep(a);
    if a == "" {
      assert s[1..] == b;
    } else {
      assert s[1..] == a[1..] + "/" + b;
      SplitAtSlash(a[1..], b);
    }
  }

  lemma {:induction false} JoinSplit(s: string)
    ensures Join(Split(s)) == s
  {
    if s != "" {
      JoinSplit(s[1..]);
      var rest := Split(s[1..]);
      if s[0] == '/' {
        assert ([""] + rest)[1..] == rest;
        assert "" + "/" + Join(rest) == s;
      } else {
        var first := [s[0]] + rest[0];
        assert ([first] + rest[1..])[1..] == rest[1..];
        if |rest| > 1 {
          assert first + "/" + Join(rest[1..]) == [s[0]] + (rest[0] + "/" + Join(rest[1..]));
        }
      }
    }
  }

  lemma {:induction false} JoinConcat(p: seq<string>, q: seq<string>)
    requires p != [] && q != []
    ensures Join(p + q) == Join(p) + "/" + Join(q)
  {
    if |p| == 1 {
      assert (p + q)[1..] == q;
    } else {
      assert (p + q)[1..] == p[1..] + q;
      JoinConcat(p[1..], q);
      assert Join(p) + "/" + Join(q) == p[0] + "/" + (Join(p[1..]) + "/" + Join(q));
    }
  }

  /** The last components of `whole` are those of `tail`. */
  predicate ComponentSuffix(tail: seq<string>, whole: seq<string>) {
    |tail| <= |whole| && whole[|whole| - |tail|..] == tail
  }

  lemma TailComponents(a: string, r: string)
    requires EndsWith(a, "/" + r)
    ensures ComponentSuffix(Split(r), Split(a))
  {
    var front := a[..|a| - |"/" + r|];
    assert a == front + "/" + r;
    SplitAtSlash(front, r);
  }

  lemma ComponentsTail(a: string, r: string)
    requires ComponentSuffix(Split(r), Split(a))
    ensures a == r || EndsWith(a, "/" + r)
  {
    hide Split;
    var pa, pr := Split(a), Split(r);
    var front := pa[..|pa| - |pr|];
    assert pa == front + pr;
    JoinSplit(a);
    JoinSplit(r);
    if front != [] {
      JoinConcat(front, pr);
      assert a == Join(front) + ("/" + r);
    } else {
      assert pa == pr;
    }
  }

  /**
   A read credits a planned path exactly when the planned components are the last components of the path read: a
   shared ending of a file name is never enough, and a shared file name only when nothing but the file name is planned.
   */
  lemma SamePathMeansSameComponents(actual: string, required: string)
    ensures SameMediaPath(actual, required) <==>
            ComponentSuffix(Split(Normalize(required)), Split(Normalize(actual)))
  {
    hide Split, Normalize, EndsWith;
    var a, r := Normalize(actual), Normalize(required);
    if EndsWith(a, "/" + r) {
      TailComponents(a, r);
    }
    if ComponentSuffix(Split(r), Split(a)) {
      ComponentsTail(a, r);
    }
  }
}

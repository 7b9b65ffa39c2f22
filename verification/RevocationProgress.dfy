/**
 The interleavings are not idle: an admitted append that nothing disturbs puts its event on disk, and a reader that
 nothing disturbs then returns the longer ledger.
 */
module RevocationProgress {
  import opened RevocationModel
  import opened RevocationLedger
  import opened RevocationStore
  import opened RevocationConcurrency

  /** The steps `labels` lead from `s` to `t`. */
  ghost predicate Steps(c: Crypto, candidate: Binding, s: Sys, labels: seq<Label>, t: Sys)
    decreases |labels|
  {
    if labels == [] then s == t
    else exists m :: Next(c, candidate, s, labels[0], m) && Steps(c, candidate, m, labels[1..], t)
  }

  lemma FirstStep(c: Crypto, candidate: Binding, s: Sys, l: Label, m: Sys, labels: seq<Label>, t: Sys)
    requires Next(c, candidate, s, l, m) && Steps(c, candidate, m, labels, t)
    ensures Steps(c, candidate, s, [l] + labels, t)
  {
    hide Next;
    assert ([l] + labels)[1..] == labels;
  }

  lemma {:induction false} StepsJoin(c: Crypto, candidate: Binding, s: Sys, a: seq<Label>, m: Sys, b: seq<Label>,
                                     t: Sys)
    requires Steps(c, candidate, s, a, m) && Steps(c, candidate, m, b, t)
    ensures Steps(c, candidate, s, a + b, t)
    decreases |a|
  {
    hide Next;
    if a == [] {
      assert a + b == b;
    } else {
      var n :| Next(c, candidate, s, a[0], n) && Steps(c, candidate, n, a[1..], m);
      StepsJoin(c, candidate, n, a[1..], m, b, t);
      FirstStep(c, candidate, s, a[0], n, a[1..] + b, t);
      assert [a[0]] + (a[1..] + b) == a + b;
    }
  }

  // ---------- appending ----------

  /** The ledger of `s` is on disk and nobody is writing. */
  ghost predicate Settled(c: Crypto, candidate: Binding, g: StatePayload, s: Sys) {
    s.writer.Idle? && s.done == |s.chain| && UniqueIds(s.chain) && Healthy(c, candidate, s.disk, g, s.chain)
  }

  /** An admitted event is on disk after five steps, whatever the temporary file was called and held. */
  lemma AppendCompletes(c: Crypto, candidate: Binding, g: StatePayload, s: Sys, e: EventPayload, now: int,
                        temp: string, content: File)
    returns (t: Sys)
    requires Settled(c, candidate, g, s) && Admits(c, candidate, g, s.chain, e, now)
    ensures Steps(c, candidate, s, [Check(e, now, g, s.chain), WriteTemp(temp, content), RenameEvent, WriteState,
                                    WriteHead], t)
    ensures Settled(c, candidate, g, t) && t.chain == s.chain + [e] && t.reader == s.reader
  {
    hide Healthy, Admits, ChainOk, LatestState, Apply, Steps, HistoryOf, UniqueIds;
    var next := Apply(c, LatestState(c, g, s.chain), e);
    AdmittedParts(c, candidate, g, s, e, now);
    var checked := s.(writer := Checked(e, next));
    var written := checked.(writer := TempWritten(e, next, temp),
                            disk := s.disk.(history := s.disk.history[Stray(temp) := content]));
    var history := (written.disk.history - {Stray(temp)})[Rev(e.revision) := Sign(c, EventDoc(e))];
    assert history == HistoryOf(c, s.chain + [e]) by { RenamedHistory(c, s.chain, s.disk.history, e, temp, content); }
    var renamed := written.(writer := EventWritten(e, next), disk := s.disk.(history := history),
                            chain := s.chain + [e]);
    var stated := renamed.(writer := StateWritten(e, next), disk := renamed.disk.(state := Sign(c, StateDoc(next))));
    t := stated.(writer := Idle, disk := stated.disk.(head := Sign(c, HeadDoc(HeadOf(c, candidate, next)))),
                 done := s.done + 1);
    FiveSteps(c, candidate, s, Check(e, now, g, s.chain), checked, WriteTemp(temp, content), written, RenameEvent,
              renamed, WriteState, stated, WriteHead, t);
    LongerIsHealthy(c, candidate, g, t.disk, s.chain + [e]);
  }

  lemma FiveSteps(c: Crypto, candidate: Binding, s: Sys, k: Label, m: Sys, l: Label, n: Sys, x: Label, o: Sys,
                  y: Label, p: Sys, z: Label, t: Sys)
    requires Next(c, candidate, s, k, m) && Next(c, candidate, m, l, n) && Next(c, candidate, n, x, o)
    requires Next(c, candidate, o, y, p) && Next(c, candidate, p, z, t)
    ensures Steps(c, candidate, s, [k, l, x, y, z], t)
  {
    hide Next;
    assert Steps(c, candidate, t, [], t);
    FirstStep(c, candidate, p, z, t, [], t);
    assert [z] + [] == [z] && [y] + [z] == [y, z] && [x] + [y, z] == [x, y, z] && [l] + [x, y, z] == [l, x, y, z];
    FirstStep(c, candidate, o, y, p, [z], t);
    FirstStep(c, candidate, n, x, o, [y, z], t);
    FirstStep(c, candidate, m, l, n, [x, y, z], t);
    FirstStep(c, candidate, s, k, m, [l, x, y, z], t);
    assert [k] + [l, x, y, z] == [k, l, x, y, z];
  }

  lemma AdmittedParts(c: Crypto, candidate: Binding, g: StatePayload, s: Sys, e: EventPayload, now: int)
    requires Settled(c, candidate, g, s) && Admits(c, candidate, g, s.chain, e, now)
    ensures ChainOk(c, candidate, g, s.chain + [e]) && UniqueIds(s.chain + [e]) && e.revision == |s.chain| + 1
    ensures Apply(c, LatestState(c, g, s.chain), e) == LatestState(c, g, s.chain + [e])
    ensures s.disk.genesis == Sign(c, StateDoc(g)) && s.disk.history == HistoryOf(c, s.chain)
  {
    hide ChainOk, LatestState, Admits, Apply, HistoryOf, Layout, Healthy;
    LayoutParts(c, candidate, s.disk, g, s.chain);
    AdmitsExtends(c, candidate, g, s.chain, e, now);
    AdmittedRevision(c, candidate, g, s.chain, e, now);
    LatestAppend(c, g, s.chain, e);
  }

  lemma RenamedHistory(c: Crypto, chain: seq<EventPayload>, history: map<Entry, File>, e: EventPayload, temp: string,
                       content: File)
    requires history == HistoryOf(c, chain) && e.revision == |chain| + 1
    ensures (history[Stray(temp) := content] - {Stray(temp)})[Rev(e.revision) := Sign(c, EventDoc(e))]
         == HistoryOf(c, chain + [e])
  {
    HistoryAppend(c, chain, e);
    assert forall n | n in history :: n.Rev?;
    assert history[Stray(temp) := content] - {Stray(temp)} == history;
  }

  lemma LongerIsHealthy(c: Crypto, candidate: Binding, g: StatePayload, d: Disk, chain: seq<EventPayload>)
    requires ChainOk(c, candidate, g, chain) && d.genesis == Sign(c, StateDoc(g))
    requires d.state == Sign(c, StateDoc(LatestState(c, g, chain))) && d.history == HistoryOf(c, chain)
    requires d.head == Sign(c, HeadDoc(HeadOf(c, candidate, LatestState(c, g, chain))))
    ensures Healthy(c, candidate, d, g, chain)
  {
    hide ChainOk, LatestState;
  }

  // ---------- reading ----------

  lemma {:induction false} TestAll(c: Crypto, candidate: Binding, s: Sys) returns (labels: seq<Label>, t: Sys)
    requires s.reader.Listed? && s.reader.names == s.disk.history.Keys
    requires s.reader.tested <= s.reader.names && s.reader.kept == s.reader.tested
    ensures Steps(c, candidate, s, labels, t)
    ensures t == s.(reader := s.reader.(tested := s.reader.names, kept := s.reader.names))
    decreases |s.reader.names - s.reader.tested|
  {
    var r := s.reader;
    if r.tested == r.names {
      labels, t := [], s;
    } else {
      var name :| name in r.names && name !in r.tested;
      var m := s.(reader := r.(tested := r.tested + {name}, kept := r.kept + {name}));
      assert r.names - m.reader.tested == r.names - r.tested - {name};
      labels, t := TestAll(c, candidate, m);
      FirstStep(c, candidate, s, TestEntry(name), m, labels, t);
      labels := [TestEntry(name)] + labels;
    }
  }

  lemma {:induction false} OpenAll(c: Crypto, candidate: Binding, s: Sys) returns (labels: seq<Label>, t: Sys)
    requires s.reader.Reading? && s.reader.names == s.disk.history.Keys && s.reader.read.Keys <= s.reader.names
    requires forall name | name in s.reader.read :: s.reader.read[name] == s.disk.history[name]
    ensures Steps(c, candidate, s, labels, t)
    ensures t == s.(reader := s.reader.(read := s.disk.history))
    decreases |s.reader.names - s.reader.read.Keys|
  {
    var r := s.reader;
    if r.read.Keys == r.names {
      assert r.read == s.disk.history;
      labels, t := [], s;
    } else {
      var name :| name in r.names && name !in r.read;
      var m := s.(reader := r.(read := r.read[name := Lookup(s.disk.history, name)]));
      assert r.names - m.reader.read.Keys == r.names - r.read.Keys - {name};
      labels, t := OpenAll(c, candidate, m);
      FirstStep(c, candidate, s, OpenEvent(name), m, labels, t);
      labels := [OpenEvent(name)] + labels;
    }
  }

  /** A reader that starts over a settled directory and is left alone has opened exactly that directory in the end. */
  lemma ReadCompletes(c: Crypto, candidate: Binding, g: StatePayload, s: Sys) returns (labels: seq<Label>, t: Sys)
    requires Settled(c, candidate, g, s)
    ensures Steps(c, candidate, s, labels, t) && t == s.(reader := t.reader)
    ensures Complete(t.reader) && View(t.reader) == s.disk
    ensures t.reader.committed == s.chain
  {
    hide Steps, Healthy;
    var started := s.(reader := Start);
    var state := s.(reader := GotState(s.disk.state));
    var head := s.(reader := GotHead(s.disk.state, s.disk.head));
    var names := s.disk.history.Keys;
    var listed := s.(reader := Listed(s.disk.state, s.disk.head, names, s.disk, s.chain[..s.done], {}, {}));
    var tests, tested := TestAll(c, candidate, listed);
    var begun := s.(reader := Reading(s.disk.state, s.disk.head, names, s.disk, s.chain[..s.done], s.disk.genesis,
                                       map[]));
    var rest, done := OpenAll(c, candidate, begun);
    t := done;
    assert s.chain[..s.done] == s.chain;
    FirstStep(c, candidate, tested, OpenGenesis, begun, rest, t);
    StepsJoin(c, candidate, listed, tests, tested, [OpenGenesis] + rest, t);
    labels := tests + ([OpenGenesis] + rest);
    FirstFour(c, candidate, s, started, state, head, listed, labels, t);
    labels := [Restart, OpenState, OpenHead, ListHistory] + labels;
  }

  lemma FirstFour(c: Crypto, candidate: Binding, s: Sys, started: Sys, state: Sys, head: Sys, listed: Sys,
                  labels: seq<Label>, t: Sys)
    requires Next(c, candidate, s, Restart, started) && Next(c, candidate, started, OpenState, state)
    requires Next(c, candidate, state, OpenHead, head) && Next(c, candidate, head, ListHistory, listed)
    requires Steps(c, candidate, listed, labels, t)
    ensures Steps(c, candidate, s, [Restart, OpenState, OpenHead, ListHistory] + labels, t)
  {
    hide Next, Steps;
    FirstStep(c, candidate, head, ListHistory, listed, labels, t);
    FirstStep(c, candidate, state, OpenHead, head, [ListHistory] + labels, t);
    FirstStep(c, candidate, started, OpenState, state, [OpenHead] + ([ListHistory] + labels), t);
    FirstStep(c, candidate, s, Restart, started, [OpenState] + ([OpenHead] + ([ListHistory] + labels)), t);
    assert [Restart] + ([OpenState] + ([OpenHead] + ([ListHistory] + labels)))
        == [Restart, OpenState, OpenHead, ListHistory] + labels;
  }

  /** After an undisturbed append an undisturbed reader has the longer ledger, and no other. */
  lemma ReadAfterAppend(c: Crypto, candidate: Binding, g: StatePayload, s: Sys, e: EventPayload, now: int)
    returns (labels: seq<Label>, t: Sys)
    requires Settled(c, candidate, g, s) && Admits(c, candidate, g, s.chain, e, now)
    ensures Steps(c, candidate, s, labels, t) && Complete(t.reader)
    ensures Healthy(c, candidate, View(t.reader), g, s.chain + [e])
    ensures forall g', es | Healthy(c, candidate, View(t.reader), g', es) :: g' == g && es == s.chain + [e]
  {
    hide Steps, Healthy, Admits;
    var appended := AppendCompletes(c, candidate, g, s, e, now, "", Unusable);
    var rest, done := ReadCompletes(c, candidate, g, appended);
    t := done;
    var append := [Check(e, now, g, s.chain), WriteTemp("", Unusable), RenameEvent, WriteState, WriteHead];
    labels := append + rest;
    StepsJoin(c, candidate, s, append, appended, rest, t);
    forall g', es | Healthy(c, candidate, View(t.reader), g', es)
      ensures g' == g && es == s.chain + [e]
    {
      LayoutOnce(c, candidate, View(t.reader), g, s.chain + [e], g', es);
    }
  }

  lemma LayoutOnce(c: Crypto, candidate: Binding, d: Disk, g: StatePayload, es: seq<EventPayload>, g': StatePayload,
                   es': seq<EventPayload>)
    requires Healthy(c, candidate, d, g, es) && Healthy(c, candidate, d, g', es')
    ensures g' == g && es' == es
  {
    LayoutIsInjective(c, candidate, d, g, es, g', es');
  }
}

/**
 One unlocked `_read_state` interleaved with any number of lock-serialised appends and crashes. Each append replaces
 three files in separate steps, the first of them through a temporary file inside the history directory; the reader
 opens its files one at a time, and after listing the names in the history it tests each of them separately. Under
 the lock no other process writes, so taking the lock, reading and checking are one step of the writer.
 */
module RevocationConcurrency {
  import opened RevocationModel
  import opened RevocationLedger
  import opened RevocationStore

  datatype Writer =
    | Idle
    | Checked(event: EventPayload, next: StatePayload)
    | TempWritten(event: EventPayload, next: StatePayload, temp: string)
    | EventWritten(event: EventPayload, next: StatePayload)
    | StateWritten(event: EventPayload, next: StatePayload)

  /**
   What the reader has opened so far. Of the listed names it keeps those that are still there when it tests them.
   `at` and `committed` record the directory and the ledger when it listed.
   */
  datatype Reader =
    | Start
    | GotState(state: File)
    | GotHead(state: File, head: File)
    | Listed(state: File, head: File, names: set<Entry>, at: Disk, committed: seq<EventPayload>, tested: set<Entry>,
             kept: set<Entry>)
    | Reading(state: File, head: File, names: set<Entry>, at: Disk, committed: seq<EventPayload>,
              genesis: File, read: map<Entry, File>)

  /** `chain` is every event ever renamed into the history; the first `done` of them have a head. */
  datatype Sys = Sys(disk: Disk, writer: Writer, reader: Reader, chain: seq<EventPayload>, done: nat)

  datatype Label =
    | Check(event: EventPayload, now: int, genesis: StatePayload, events: seq<EventPayload>)
    | WriteTemp(temp: string, content: File)
    | RenameEvent
    | WriteState
    | WriteHead
    | RemoveTemp
    | Crash
    | OpenState
    | OpenHead
    | ListHistory
    | TestEntry(name: Entry)
    | OpenGenesis
    | OpenEvent(name: Entry)
    | Restart

  function Lookup(history: map<Entry, File>, name: Entry): File {
    if name in history then history[name] else Unusable
  }

  ghost predicate Init(c: Crypto, candidate: Binding, genesis: StatePayload, s: Sys) {
    && s == Sys(Layout(c, candidate, genesis, []), Idle, Start, [], 0)
    && ChainOk(c, candidate, genesis, [])
  }

  ghost predicate WriterStep(c: Crypto, candidate: Binding, s: Sys, l: Label, s': Sys)
    requires l.Check? || l.WriteTemp? || l.RenameEvent? || l.WriteState? || l.WriteHead? || l.RemoveTemp? || l.Crash?
  {
    match l
    case Check(e, now, g, es) =>
      && s.writer.Idle? && Healthy(c, candidate, s.disk, g, es) && Admits(c, candidate, g, es, e, now)
      && s' == s.(writer := Checked(e, Apply(c, LatestState(c, g, es), e)))
    case WriteTemp(temp, content) =>
      && s.writer.Checked?
      && s' == s.(writer := TempWritten(s.writer.event, s.writer.next, temp),
                  disk := s.disk.(history := s.disk.history[Stray(temp) := content]))
    case RenameEvent =>
      && s.writer.TempWritten?
      && s.writer.event.revision >= 0
      && s' == s.(writer := EventWritten(s.writer.event, s.writer.next),
                  disk := s.disk.(history := (s.disk.history - {Stray(s.writer.temp)})
                                             [Rev(s.writer.event.revision) := Sign(c, EventDoc(s.writer.event))]),
                  chain := s.chain + [s.writer.event])
    case WriteState =>
      && s.writer.EventWritten?
      && s' == s.(writer := StateWritten(s.writer.event, s.writer.next),
                  disk := s.disk.(state := Sign(c, StateDoc(s.writer.next))))
    case WriteHead =>
      && s.writer.StateWritten?
      && s' == s.(writer := Idle,
                  disk := s.disk.(head := Sign(c, HeadDoc(HeadOf(c, candidate, s.writer.next)))),
                  done := s.done + 1)
    case RemoveTemp =>
      // the rename failed and the cleanup of the atomic write ran
      && s.writer.TempWritten?
      && s' == s.(writer := Idle, disk := s.disk.(history := s.disk.history - {Stray(s.writer.temp)}))
    case Crash =>
      // the process dies, or a write raises; the lock is released and the files stay as they are
      s' == s.(writer := Idle)
  }

  predicate ReaderLabel(l: Label) {
    l.OpenState? || l.OpenHead? || l.ListHistory? || l.TestEntry? || l.OpenGenesis? || l.OpenEvent? || l.Restart?
  }

  ghost predicate ReaderStep(s: Sys, l: Label, s': Sys)
    requires ReaderLabel(l)
  {
    var r := s.reader;
    match l
    case OpenState => r.Start? && s' == s.(reader := GotState(s.disk.state))
    case OpenHead => r.GotState? && s' == s.(reader := GotHead(r.state, s.disk.head))
    case ListHistory =>
      && r.GotHead? && s.done <= |s.chain|
      && s' == s.(reader := Listed(r.state, r.head, s.disk.history.Keys, s.disk, s.chain[..s.done], {}, {}))
    case TestEntry(name) =>
      && r.Listed? && name in r.names && name !in r.tested
      && s' == s.(reader := r.(tested := r.tested + {name},
                               kept := if name in s.disk.history then r.kept + {name} else r.kept))
    case OpenGenesis =>
      && r.Listed? && r.tested == r.names
      && s' == s.(reader := Reading(r.state, r.head, r.kept, r.at, r.committed, s.disk.genesis, map[]))
    case OpenEvent(name) =>
      && r.Reading? && name in r.names && name !in r.read
      && s' == s.(reader := r.(read := r.read[name := Lookup(s.disk.history, name)]))
    case Restart => s' == s.(reader := Start)
  }

  ghost predicate Next(c: Crypto, candidate: Binding, s: Sys, l: Label, s': Sys) {
    if l.Check? || l.WriteTemp? || l.RenameEvent? || l.WriteState? || l.WriteHead? || l.RemoveTemp? || l.Crash? then
      WriterStep(c, candidate, s, l, s')
    else
      ReaderStep(s, l, s')
  }

  /** The reader has opened every file; what it does next depends on these files alone. */
  predicate Complete(r: Reader) {
    r.Reading? && r.read.Keys == r.names
  }

  function View(r: Reader): Disk
    requires r.Reading?
  {
    Disk(r.genesis, r.state, r.head, r.read)
  }

  // ---------- the writer's invariant ----------

  /** Head, state and history stand at revisions `h`, `s` and |chain|, with at most one temporary file. */
  ghost predicate Shape(c: Crypto, candidate: Binding, g: StatePayload, d: Disk, chain: seq<EventPayload>,
                        h: nat, s: nat, temp: map<Entry, File>)
    requires h <= |chain| && s <= |chain|
  {
    && d.genesis == Sign(c, StateDoc(g))
    && d.state == Sign(c, StateDoc(StateAt(c, g, chain, s)))
    && d.head == Sign(c, HeadDoc(HeadOf(c, candidate, StateAt(c, g, chain, h))))
    && d.history == HistoryOf(c, chain) + temp
    && (forall n | n in temp :: n.Stray?)
  }

  ghost predicate WriterInv(c: Crypto, candidate: Binding, g: StatePayload, s: Sys) {
    && ChainOk(c, candidate, g, s.chain) && UniqueIds(s.chain)
    && s.done <= |s.chain| <= s.done + 1
    && exists i: nat, temp ::
         && s.done <= i <= |s.chain|
         && Shape(c, candidate, g, s.disk, s.chain, s.done, i, temp)
         && WriterAt(c, candidate, g, s, i, temp)
  }

  ghost predicate WriterAt(c: Crypto, candidate: Binding, g: StatePayload, s: Sys, i: nat, temp: map<Entry, File>)
    requires i <= |s.chain|
  {
    match s.writer
    case Idle => true
    case Checked(e, next) =>
      && i == |s.chain| == s.done && temp == map[]
      && Continues(c, candidate, g, s.chain, e, next)
    case TempWritten(e, next, t) =>
      && i == |s.chain| == s.done && temp.Keys == {Stray(t)}
      && Continues(c, candidate, g, s.chain, e, next)
    case EventWritten(e, next) =>
      && i == s.done && |s.chain| == s.done + 1 && temp == map[]
      && next == LatestState(c, g, s.chain)
    case StateWritten(e, next) =>
      && i == |s.chain| == s.done + 1 && temp == map[]
      && next == LatestState(c, g, s.chain)
  }

  /** The event in hand may be appended to the chain and leads to `next`. */
  ghost predicate Continues(c: Crypto, candidate: Binding, g: StatePayload, chain: seq<EventPayload>,
                            e: EventPayload, next: StatePayload)
  {
    && ChainOk(c, candidate, g, chain + [e]) && UniqueIds(chain + [e])
    && next == LatestState(c, g, chain + [e])
    && e.revision == |chain| + 1
  }

  lemma InitInv(c: Crypto, candidate: Binding, g: StatePayload, s: Sys)
    requires Init(c, candidate, g, s)
    ensures WriterInv(c, candidate, g, s)
  {
    hide ChainOk, StateAt;
    var none: map<Entry, File> := map[];
    assert HistoryOf(c, []) + none == HistoryOf(c, []);
    assert Shape(c, candidate, g, s.disk, s.chain, s.done, 0, none);
    assert WriterAt(c, candidate, g, s, 0, none);
  }

  /** A directory is readable exactly when no append is in progress and none was cut short. */
  lemma ReadableIffSettled(c: Crypto, candidate: Binding, g: StatePayload, d: Disk, chain: seq<EventPayload>,
                           h: nat, s: nat, temp: map<Entry, File>)
    requires ChainOk(c, candidate, g, chain) && h <= s <= |chain|
    requires Shape(c, candidate, g, d, chain, h, s, temp)
    ensures Readable(c, candidate, d) <==> h == s == |chain| && temp == map[]
    ensures Readable(c, candidate, d) ==> Healthy(c, candidate, d, g, chain)
    ensures forall g', es | Healthy(c, candidate, d, g', es) :: g' == g && es == chain
  {
    hide ChainOk, StateAt, ValidState, Layout;
    if h == s == |chain| && temp == map[] {
      assert d.history == HistoryOf(c, chain);
      SettledIsHealthy(c, candidate, g, d, chain, temp);
    }
    forall g', es | Healthy(c, candidate, d, g', es)
      ensures h == s == |chain| && temp == map[] && g' == g && es == chain
    {
      LayoutParts(c, candidate, d, g', es);
      LatestIsValid(c, candidate, g', es);
      StateAtIsValid(c, candidate, g, chain, s);
      StateAtIsValid(c, candidate, g, chain, h);
      assert s == |es| && h == |es|;
      SameHistory(c, chain, es, temp);
    }
  }

  lemma LayoutParts(c: Crypto, candidate: Binding, d: Disk, g: StatePayload, es: seq<EventPayload>)
    requires Healthy(c, candidate, d, g, es)
    ensures ChainOk(c, candidate, g, es)
    ensures d.genesis == Sign(c, StateDoc(g)) && d.state == Sign(c, StateDoc(LatestState(c, g, es)))
    ensures d.head == Sign(c, HeadDoc(HeadOf(c, candidate, LatestState(c, g, es))))
    ensures d.history == HistoryOf(c, es)
  {
  }

  lemma SettledIsHealthy(c: Crypto, candidate: Binding, g: StatePayload, d: Disk, chain: seq<EventPayload>,
                         temp: map<Entry, File>)
    requires ChainOk(c, candidate, g, chain) && temp == map[]
    requires Shape(c, candidate, g, d, chain, |chain|, |chain|, temp)
    ensures Healthy(c, candidate, d, g, chain)
  {
    hide ChainOk, StateAt;
    assert d.history == HistoryOf(c, chain);
  }

  lemma SameHistory(c: Crypto, chain: seq<EventPayload>, es: seq<EventPayload>, temp: map<Entry, File>)
    requires HistoryOf(c, chain) + temp == HistoryOf(c, es)
    requires forall n | n in temp :: n.Stray?
    ensures temp == map[] && chain == es
  {
    var both := HistoryOf(c, chain) + temp;
    assert forall n | n in both :: n.Rev?;
    assert forall n | n in temp :: n in both;
    assert temp == map[];
    assert both == HistoryOf(c, chain);
    SameLength(Names(|es|), |chain|, |es|);
    forall k: nat | k < |es|
      ensures chain[k] == es[k]
    {
      assert HistoryOf(c, chain)[Rev(k + 1)] == HistoryOf(c, es)[Rev(k + 1)];
    }
  }

  // ---------- the writer's steps ----------

  lemma Settle(c: Crypto, candidate: Binding, g: StatePayload, s: Sys, i: nat, temp: map<Entry, File>)
    requires ChainOk(c, candidate, g, s.chain) && UniqueIds(s.chain)
    requires s.done <= i <= |s.chain| <= s.done + 1
    requires Shape(c, candidate, g, s.disk, s.chain, s.done, i, temp) && WriterAt(c, candidate, g, s, i, temp)
    ensures WriterInv(c, candidate, g, s)
  {
  }

  lemma CheckStep(c: Crypto, candidate: Binding, g: StatePayload, s: Sys, l: Label, s': Sys)
    requires WriterInv(c, candidate, g, s) && l.Check? && WriterStep(c, candidate, s, l, s')
    ensures WriterInv(c, candidate, g, s')
  {
    hide ChainOk, StateAt, LatestState, Admits, UniqueIds, Healthy, Layout, ValidState;
    var i: nat, temp :| s.done <= i <= |s.chain| && Shape(c, candidate, g, s.disk, s.chain, s.done, i, temp)
                        && WriterAt(c, candidate, g, s, i, temp);
    ReadableIffSettled(c, candidate, g, s.disk, s.chain, s.done, i, temp);
    var e := l.event;
    assert l.genesis == g && l.events == s.chain;
    AdmitsExtends(c, candidate, g, s.chain, e, l.now);
    LatestAppend(c, g, s.chain, e);
    AdmittedRevision(c, candidate, g, s.chain, e, l.now);
    Settle(c, candidate, g, s', i, temp);
  }

  lemma AdmittedRevision(c: Crypto, candidate: Binding, g: StatePayload, chain: seq<EventPayload>, e: EventPayload,
                         now: int)
    requires ChainOk(c, candidate, g, chain) && Admits(c, candidate, g, chain, e, now)
    ensures e.revision == |chain| + 1
  {
    hide ValidEvent, ChainOk, LatestState;
    LatestIsValid(c, candidate, g, chain);
  }

  lemma RenameStep(c: Crypto, candidate: Binding, g: StatePayload, s: Sys, l: Label, s': Sys)
    requires WriterInv(c, candidate, g, s) && l.RenameEvent? && WriterStep(c, candidate, s, l, s')
    ensures WriterInv(c, candidate, g, s')
  {
    hide ChainOk, StateAt, UniqueIds, HistoryOf;
    var i: nat, temp :| s.done <= i <= |s.chain| && Shape(c, candidate, g, s.disk, s.chain, s.done, i, temp)
                        && WriterAt(c, candidate, g, s, i, temp);
    var e := s.writer.event;
    var none: map<Entry, File> := map[];
    HistoryAppend(c, s.chain, e);
    StateOfPrefix(c, g, s.chain, s'.chain, i);
    var before := HistoryOf(c, s.chain);
    assert forall n | n in before :: n.Rev?;
    assert (before + temp) - {Stray(s.writer.temp)} == before;
    assert HistoryOf(c, s'.chain) + none == HistoryOf(c, s'.chain);
    Settle(c, candidate, g, s', i, none);
  }

  lemma WriterStepKeepsInv(c: Crypto, candidate: Binding, g: StatePayload, s: Sys, l: Label, s': Sys)
    requires WriterInv(c, candidate, g, s)
    requires l.WriteTemp? || l.WriteState? || l.WriteHead? || l.RemoveTemp? || l.Crash?
    requires WriterStep(c, candidate, s, l, s')
    ensures WriterInv(c, candidate, g, s')
  {
    hide ChainOk, StateAt, UniqueIds, HistoryOf;
    var i: nat, temp :| s.done <= i <= |s.chain| && Shape(c, candidate, g, s.disk, s.chain, s.done, i, temp)
                        && WriterAt(c, candidate, g, s, i, temp);
    match l
    case WriteTemp(t, content) =>
      var one := map[Stray(t) := content];
      assert HistoryOf(c, s.chain) + one == (HistoryOf(c, s.chain) + temp)[Stray(t) := content];
      Settle(c, candidate, g, s', i, one);
    case RemoveTemp =>
      var none: map<Entry, File> := map[];
      var before := HistoryOf(c, s.chain);
      assert forall n | n in before :: n.Rev?;
      assert before + none == (before + temp) - {Stray(s.writer.temp)};
      Settle(c, candidate, g, s', i, none);
    case WriteState =>
      Settle(c, candidate, g, s', i + 1, temp);
    case WriteHead =>
      Settle(c, candidate, g, s', i, temp);
    case Crash =>
      Settle(c, candidate, g, s', i, temp);
  }

  lemma NextKeepsWriterInv(c: Crypto, candidate: Binding, g: StatePayload, s: Sys, l: Label, s': Sys)
    requires WriterInv(c, candidate, g, s) && Next(c, candidate, s, l, s')
    ensures WriterInv(c, candidate, g, s') && s.chain <= s'.chain && s.done <= s'.done
  {
    if l.Check? {
      CheckStep(c, candidate, g, s, l, s');
    } else if l.RenameEvent? {
      RenameStep(c, candidate, g, s, l, s');
    } else if l.WriteTemp? || l.WriteState? || l.WriteHead? || l.RemoveTemp? || l.Crash? {
      WriterStepKeepsInv(c, candidate, g, s, l, s');
    } else {
      ReaderLeavesWriterInv(c, candidate, g, s, l, s');
    }
  }

  lemma ReaderLeavesWriterInv(c: Crypto, candidate: Binding, g: StatePayload, s: Sys, l: Label, s': Sys)
    requires WriterInv(c, candidate, g, s)
    requires s' == s.(reader := s'.reader)
    ensures WriterInv(c, candidate, g, s')
  {
    hide ChainOk, StateAt, UniqueIds, HistoryOf, Shape, Continues, LatestState;
    var i: nat, temp :| s.done <= i <= |s.chain| && Shape(c, candidate, g, s.disk, s.chain, s.done, i, temp)
                        && WriterAt(c, candidate, g, s, i, temp);
    assert WriterAt(c, candidate, g, s', i, temp);
    Settle(c, candidate, g, s', i, temp);
  }

  // ---------- the reader's invariant ----------

  ghost predicate StateFrom(c: Crypto, g: StatePayload, chain: seq<EventPayload>, f: File) {
    exists m: nat :: m <= |chain| && f == Sign(c, StateDoc(StateAt(c, g, chain, m)))
  }

  ghost predicate HeadFrom(c: Crypto, candidate: Binding, g: StatePayload, chain: seq<EventPayload>, f: File,
                           most: nat)
  {
    exists k: nat :: k <= |chain| && k <= most
                     && f == Sign(c, HeadDoc(HeadOf(c, candidate, StateAt(c, g, chain, k))))
  }

  /** When it listed, the reader saw the directory `at`, on which exactly `committed` had a head. */
  ghost predicate ListedAt(c: Crypto, candidate: Binding, g: StatePayload, chain: seq<EventPayload>,
                           names: set<Entry>, at: Disk, committed: seq<EventPayload>)
  {
    && Keeps(at.history.Keys, names)
    && exists past: seq<EventPayload>, s: nat, temp ::
         && past <= chain && committed <= past && |committed| <= s <= |past|
         && Shape(c, candidate, g, at, past, |committed|, s, temp)
  }

  /** Of the names `tested`, nothing but temporary files has dropped out. */
  ghost predicate Keeps(tested: set<Entry>, kept: set<Entry>) {
    kept <= tested && forall n | n in tested && n.Rev? :: n in kept
  }

  ghost predicate FilesFrom(c: Crypto, chain: seq<EventPayload>, names: set<Entry>, read: map<Entry, File>) {
    && read.Keys <= names
    && forall n: nat | Rev(n) in read :: 1 <= n <= |chain| && read[Rev(n)] == Sign(c, EventDoc(chain[n - 1]))
  }

  ghost predicate ReaderInv(c: Crypto, candidate: Binding, g: StatePayload, s: Sys) {
    match s.reader
    case Start => true
    case GotState(state) => StateFrom(c, g, s.chain, state)
    case GotHead(state, head) => StateFrom(c, g, s.chain, state) && HeadFrom(c, candidate, g, s.chain, head, s.done)
    case Listed(state, head, names, at, committed, tested, kept) =>
      && StateFrom(c, g, s.chain, state) && HeadFrom(c, candidate, g, s.chain, head, |committed|)
      && ListedAt(c, candidate, g, s.chain, names, at, committed)
      && names == at.history.Keys && Keeps(tested, kept)
    case Reading(state, head, names, at, committed, genesis, read) =>
      && StateFrom(c, g, s.chain, state) && HeadFrom(c, candidate, g, s.chain, head, |committed|)
      && ListedAt(c, candidate, g, s.chain, names, at, committed)
      && genesis == Sign(c, StateDoc(g))
      && FilesFrom(c, s.chain, names, read)
  }

  lemma StateFromGrows(c: Crypto, g: StatePayload, chain: seq<EventPayload>, more: seq<EventPayload>, f: File)
    requires StateFrom(c, g, chain, f) && chain <= more
    ensures StateFrom(c, g, more, f)
  {
    hide StateAt;
    var m: nat :| m <= |chain| && f == Sign(c, StateDoc(StateAt(c, g, chain, m)));
    StateOfPrefix(c, g, chain, more, m);
  }

  lemma HeadFromGrows(c: Crypto, candidate: Binding, g: StatePayload, chain: seq<EventPayload>,
                      more: seq<EventPayload>, f: File, most: nat, most': nat)
    requires HeadFrom(c, candidate, g, chain, f, most) && chain <= more && most <= most'
    ensures HeadFrom(c, candidate, g, more, f, most')
  {
    hide StateAt, HeadOf;
    var k: nat :| k <= |chain| && k <= most && f == Sign(c, HeadDoc(HeadOf(c, candidate, StateAt(c, g, chain, k))));
    StateOfPrefix(c, g, chain, more, k);
  }

  lemma ListedAtGrows(c: Crypto, candidate: Binding, g: StatePayload, chain: seq<EventPayload>,
                      more: seq<EventPayload>, names: set<Entry>, at: Disk, committed: seq<EventPayload>)
    requires ListedAt(c, candidate, g, chain, names, at, committed) && chain <= more
    ensures ListedAt(c, candidate, g, more, names, at, committed)
  {
    hide Shape;
    var past: seq<EventPayload>, s: nat, temp :|
      past <= chain && committed <= past && |committed| <= s <= |past|
      && Shape(c, candidate, g, at, past, |committed|, s, temp);
    assert past <= more;
  }

  /** What the reader holds stays true while writers go on. */
  lemma WriterKeepsReaderInv(c: Crypto, candidate: Binding, g: StatePayload, s: Sys, s': Sys)
    requires ReaderInv(c, candidate, g, s)
    requires s'.reader == s.reader && s.chain <= s'.chain && s.done <= s'.done
    ensures ReaderInv(c, candidate, g, s')
  {
    hide StateFrom, HeadFrom, ListedAt;
    var r := s.reader;
    if !r.Start? {
      StateFromGrows(c, g, s.chain, s'.chain, r.state);
    }
    if r.GotHead? {
      HeadFromGrows(c, candidate, g, s.chain, s'.chain, r.head, s.done, s'.done);
    }
    if r.Listed? || r.Reading? {
      HeadFromGrows(c, candidate, g, s.chain, s'.chain, r.head, |r.committed|, |r.committed|);
      ListedAtGrows(c, candidate, g, s.chain, s'.chain, r.names, r.at, r.committed);
    }
  }

  lemma ReaderStepKeepsInv(c: Crypto, candidate: Binding, g: StatePayload, s: Sys, l: Label, s': Sys)
    requires WriterInv(c, candidate, g, s) && ReaderInv(c, candidate, g, s)
    requires ReaderLabel(l) && ReaderStep(s, l, s')
    ensures ReaderInv(c, candidate, g, s')
  {
    hide ChainOk, StateAt, UniqueIds, HistoryOf, HeadOf, WriterAt;
    var i: nat, temp :| s.done <= i <= |s.chain| && Shape(c, candidate, g, s.disk, s.chain, s.done, i, temp);
    match l
    case OpenState =>
      assert s.disk.state == Sign(c, StateDoc(StateAt(c, g, s.chain, i)));
    case OpenHead =>
      assert s.disk.head == Sign(c, HeadDoc(HeadOf(c, candidate, StateAt(c, g, s.chain, s.done))));
    case ListHistory =>
      CommittedShape(c, candidate, g, s, i, temp);
    case TestEntry(name) =>
      TestedEntry(c, candidate, g, s, name, i, temp);
    case OpenGenesis =>
      KeptAsListed(c, candidate, g, s.chain, s.reader.names, s.reader.kept, s.reader.at, s.reader.committed);
    case OpenEvent(name) =>
      OpenEventFile(c, candidate, g, s, name, i, temp);
    case Restart =>
  }

  /** An entry of the history that was listed is still there when it is tested. */
  lemma TestedEntry(c: Crypto, candidate: Binding, g: StatePayload, s: Sys, name: Entry, i: nat, temp: map<Entry, File>)
    requires s.reader.Listed? && name in s.reader.names
    requires ListedAt(c, candidate, g, s.chain, s.reader.names, s.reader.at, s.reader.committed)
    requires s.done <= i <= |s.chain| && Shape(c, candidate, g, s.disk, s.chain, s.done, i, temp)
    ensures name.Rev? ==> name in s.disk.history
  {
    hide ListedAt, HistoryOf, Sign, StateAt, HeadOf;
    if name.Rev? {
      ListedEvent(c, candidate, g, s.chain, s.reader.names, s.reader.at, s.reader.committed, name.n);
      HistoryFile(c, s.chain, temp, name.n);
    }
  }

  lemma KeptAsListed(c: Crypto, candidate: Binding, g: StatePayload, chain: seq<EventPayload>, names: set<Entry>,
                     kept: set<Entry>, at: Disk, committed: seq<EventPayload>)
    requires ListedAt(c, candidate, g, chain, names, at, committed) && names == at.history.Keys && Keeps(names, kept)
    ensures ListedAt(c, candidate, g, chain, kept, at, committed)
  {
    hide Shape;
  }

  lemma CommittedShape(c: Crypto, candidate: Binding, g: StatePayload, s: Sys, i: nat, temp: map<Entry, File>)
    requires s.done <= i <= |s.chain| && Shape(c, candidate, g, s.disk, s.chain, s.done, i, temp)
    ensures ListedAt(c, candidate, g, s.chain, s.disk.history.Keys, s.disk, s.chain[..s.done])
  {
    hide Shape;
    assert |s.chain[..s.done]| == s.done;
  }

  lemma HistoryFile(c: Crypto, events: seq<EventPayload>, temp: map<Entry, File>, n: nat)
    requires forall e | e in temp :: e.Stray?
    ensures Rev(n) in HistoryOf(c, events) + temp <==> 1 <= n <= |events|
    ensures 1 <= n <= |events| ==> (HistoryOf(c, events) + temp)[Rev(n)] == Sign(c, EventDoc(events[n - 1]))
  {
  }

  lemma OpenEventFile(c: Crypto, candidate: Binding, g: StatePayload, s: Sys, name: Entry, i: nat,
                      temp: map<Entry, File>)
    requires s.reader.Reading? && name in s.reader.names
    requires ListedAt(c, candidate, g, s.chain, s.reader.names, s.reader.at, s.reader.committed)
    requires FilesFrom(c, s.chain, s.reader.names, s.reader.read)
    requires s.done <= i <= |s.chain| && Shape(c, candidate, g, s.disk, s.chain, s.done, i, temp)
    ensures FilesFrom(c, s.chain, s.reader.names, s.reader.read[name := Lookup(s.disk.history, name)])
  {
    hide Shape, ListedAt, HistoryOf, Sign, Lookup;
    if name.Rev? {
      ListedEvent(c, candidate, g, s.chain, s.reader.names, s.reader.at, s.reader.committed, name.n);
      EventOnDisk(c, candidate, g, s.disk, s.chain, s.done, i, temp, name.n);
    }
  }

  lemma ListedEvent(c: Crypto, candidate: Binding, g: StatePayload, chain: seq<EventPayload>,
                    names: set<Entry>, at: Disk, committed: seq<EventPayload>, n: nat)
    requires ListedAt(c, candidate, g, chain, names, at, committed) && Rev(n) in names
    ensures 1 <= n <= |chain|
  {
    hide HistoryOf, StateAt, HeadOf;
    var past: seq<EventPayload>, j: nat, temp :|
      past <= chain && committed <= past && |committed| <= j <= |past|
      && Shape(c, candidate, g, at, past, |committed|, j, temp);
    HistoryFile(c, past, temp, n);
  }

  lemma EventOnDisk(c: Crypto, candidate: Binding, g: StatePayload, d: Disk, chain: seq<EventPayload>,
                    h: nat, s: nat, temp: map<Entry, File>, n: nat)
    requires h <= |chain| && s <= |chain| && Shape(c, candidate, g, d, chain, h, s, temp) && 1 <= n <= |chain|
    ensures Lookup(d.history, Rev(n)) == Sign(c, EventDoc(chain[n - 1]))
  {
    hide HistoryOf, StateAt, HeadOf;
    HistoryFile(c, chain, temp, n);
  }

  ghost predicate Inv(c: Crypto, candidate: Binding, g: StatePayload, s: Sys) {
    WriterInv(c, candidate, g, s) && ReaderInv(c, candidate, g, s)
  }

  lemma NextKeepsInv(c: Crypto, candidate: Binding, g: StatePayload, s: Sys, l: Label, s': Sys)
    requires Inv(c, candidate, g, s) && Next(c, candidate, s, l, s')
    ensures Inv(c, candidate, g, s')
    ensures s.chain <= s'.chain
  {
    hide WriterInv, ReaderInv;
    NextKeepsWriterInv(c, candidate, g, s, l, s');
    if ReaderLabel(l) {
      ReaderStepKeepsInv(c, candidate, g, s, l, s');
    } else {
      WriterKeepsReaderInv(c, candidate, g, s, s');
    }
  }

  // ---------- a finished read ----------

  /** The directory without the temporary file of an append that has not been renamed. */
  function WithoutTemporary(d: Disk): Disk {
    d.(history := map n | n in d.history && n.Rev? :: d.history[n])
  }

  /**
   If the files a reader collected replay at all, then the read returns exactly what was committed at the moment at
   which it listed the history, and nothing but a temporary file stood beside it.
   */
  lemma FinishedRead(c: Crypto, candidate: Binding, g: StatePayload, s: Sys, g': StatePayload, es: seq<EventPayload>)
    requires Inv(c, candidate, g, s) && Complete(s.reader)
    requires Healthy(c, candidate, View(s.reader), g', es)
    ensures es == s.reader.committed && Healthy(c, candidate, WithoutTemporary(s.reader.at), g', es)
    ensures s.reader.names == Names(|es|)
  {
    hide ChainOk, StateAt, LatestState, ValidState, WriterAt, UniqueIds, HistoryOf, Healthy, Shape, HeadFrom, StateFrom,
         FilesFrom, WithoutTemporary;
    var r := s.reader;
    LayoutParts(c, candidate, View(r), g', es);
    assert g' == g;
    LatestIsValid(c, candidate, g, es);
    HeadRevision(c, candidate, g, s.chain, r.head, |r.committed|, HeadOf(c, candidate, LatestState(c, g, es)));
    var past: seq<EventPayload>, j: nat, temp :|
      past <= s.chain && r.committed <= past && |r.committed| <= j <= |past|
      && Shape(c, candidate, g, r.at, past, |r.committed|, j, temp);
    ShapeHistory(c, candidate, g, r.at, past, |r.committed|, j, temp);
    ReadChain(c, s.chain, r.names, r.read, es);
    ListedNames(c, past, temp, r.names, |es|);
    assert es == past == r.committed;
    ChainPrefix(c, candidate, g, past, s.chain);
    SettledShape(c, candidate, g, r.at, past, temp);
  }

  lemma SettledShape(c: Crypto, candidate: Binding, g: StatePayload, d: Disk, chain: seq<EventPayload>,
                     temp: map<Entry, File>)
    requires ChainOk(c, candidate, g, chain) && Shape(c, candidate, g, d, chain, |chain|, |chain|, temp)
    ensures Healthy(c, candidate, WithoutTemporary(d), g, chain)
  {
    hide ChainOk, StateAt, HistoryOf, Healthy;
    var none: map<Entry, File> := map[];
    HistoryNames(c, chain);
    assert WithoutTemporary(d).history == HistoryOf(c, chain) + none;
    SettledIsHealthy(c, candidate, g, WithoutTemporary(d), chain, none);
  }

  lemma HistoryNames(c: Crypto, chain: seq<EventPayload>)
    ensures forall n | n in HistoryOf(c, chain) :: n.Rev?
  {
  }

  lemma ShapeHistory(c: Crypto, candidate: Binding, g: StatePayload, d: Disk, chain: seq<EventPayload>,
                     h: nat, s: nat, temp: map<Entry, File>)
    requires h <= |chain| && s <= |chain| && Shape(c, candidate, g, d, chain, h, s, temp)
    ensures d.history == HistoryOf(c, chain) + temp && forall n | n in temp :: n.Stray?
  {
  }

  /** History files are written once: the events read are the first ones of the chain. */
  lemma ReadChain(c: Crypto, chain: seq<EventPayload>, names: set<Entry>, read: map<Entry, File>,
                  es: seq<EventPayload>)
    requires FilesFrom(c, chain, names, read) && read.Keys == names && read == HistoryOf(c, es)
    ensures es <= chain && names == Names(|es|)
  {
    if |es| > 0 {
      assert Rev(|es|) in read;
    }
    forall k: nat | k < |es|
      ensures es[k] == chain[k]
    {
      assert Rev(k + 1) in read;
    }
  }

  lemma ListedNames(c: Crypto, past: seq<EventPayload>, temp: map<Entry, File>, names: set<Entry>, n: nat)
    requires Keeps((HistoryOf(c, past) + temp).Keys, names) && names == Names(n)
    requires forall e | e in temp :: e.Stray?
    ensures |past| == n
  {
    var both := HistoryOf(c, past) + temp;
    assert names == HistoryOf(c, past).Keys by {
      assert forall e | e in names :: e.Rev? && e in both;
      assert forall e | e in HistoryOf(c, past) :: e.Rev? && e in both;
    }
    SameLength(Names(n), |past|, n);
  }

  lemma HeadRevision(c: Crypto, candidate: Binding, g: StatePayload, chain: seq<EventPayload>, f: File, most: nat,
                     head: HeadPayload)
    requires ChainOk(c, candidate, g, chain) && HeadFrom(c, candidate, g, chain, f, most)
    requires f == Sign(c, HeadDoc(head))
    ensures 0 <= head.revision <= most
  {
    hide ChainOk, StateAt, ValidState;
    var k: nat :| k <= |chain| && k <= most && f == Sign(c, HeadDoc(HeadOf(c, candidate, StateAt(c, g, chain, k))));
    StateAtIsValid(c, candidate, g, chain, k);
  }

  // ---------- all interleavings ----------

  ghost predicate IsRun(c: Crypto, candidate: Binding, g: StatePayload, run: seq<Sys>, labels: seq<Label>) {
    && |run| == |labels| + 1
    && Init(c, candidate, g, run[0])
    && forall i | 0 <= i < |labels| :: Next(c, candidate, run[i], labels[i], run[i + 1])
  }

  lemma {:induction false} RunInv(c: Crypto, candidate: Binding, g: StatePayload, run: seq<Sys>, labels: seq<Label>,
                                  n: nat)
    requires IsRun(c, candidate, g, run, labels) && n < |run|
    ensures Inv(c, candidate, g, run[n])
  {
    hide Inv, Next, Init;
    if n == 0 {
      InitialInv(c, candidate, g, run[0]);
    } else {
      RunInv(c, candidate, g, run, labels, n - 1);
      assert Next(c, candidate, run[n - 1], labels[n - 1], run[n - 1 + 1]);
      NextKeepsInv(c, candidate, g, run[n - 1], labels[n - 1], run[n]);
    }
  }

  lemma InitialInv(c: Crypto, candidate: Binding, g: StatePayload, s: Sys)
    requires Init(c, candidate, g, s)
    ensures Inv(c, candidate, g, s)
  {
    hide WriterInv, ChainOk, Layout;
    InitInv(c, candidate, g, s);
  }

  /** What a reader remembers of its listing is what stood on disk in the step that listed. */
  lemma {:induction false} ListingStep(c: Crypto, candidate: Binding, g: StatePayload, run: seq<Sys>,
                                       labels: seq<Label>, n: nat)
    requires IsRun(c, candidate, g, run, labels) && n < |run|
    requires run[n].reader.Listed? || run[n].reader.Reading?
    ensures exists j: nat :: j < n && ListsIn(run, labels, j, run[n].reader.at, run[n].reader.committed)
  {
    hide Layout, ChainOk, WriterStep;
    assert n > 0;
    var m := n - 1;
    assert Next(c, candidate, run[m], labels[m], run[m + 1]);
    if labels[m].ListHistory? {
      assert ListsIn(run, labels, m, run[n].reader.at, run[n].reader.committed);
    } else {
      SameListing(c, candidate, run[m], labels[m], run[n]);
      ListingStep(c, candidate, g, run, labels, m);
    }
  }

  ghost predicate ListsIn(run: seq<Sys>, labels: seq<Label>, j: nat, at: Disk, committed: seq<EventPayload>) {
    && j < |run| && j < |labels| && labels[j].ListHistory?
    && run[j].disk == at
    && run[j].done <= |run[j].chain| && run[j].chain[..run[j].done] == committed
  }

  lemma SameListing(c: Crypto, candidate: Binding, s: Sys, l: Label, s': Sys)
    requires Next(c, candidate, s, l, s') && !l.ListHistory?
    requires s'.reader.Listed? || s'.reader.Reading?
    ensures s.reader.Listed? || s.reader.Reading?
    ensures s'.reader.at == s.reader.at && s'.reader.committed == s.reader.committed
  {
  }

  /**
   Unlocked reads are linearizable: in every interleaving, a read either raises or returns the ledger that was
   committed in the step in which it listed the history, whose files then stood on disk beside at most a temporary one.
   */
  lemma ReadsAreLinearizable(c: Crypto, candidate: Binding, g: StatePayload, run: seq<Sys>, labels: seq<Label>, n: nat,
                             g': StatePayload, es: seq<EventPayload>)
    requires IsRun(c, candidate, g, run, labels) && n < |run|
    requires Complete(run[n].reader) && Healthy(c, candidate, View(run[n].reader), g', es)
    ensures exists j: nat :: j < n && ListsIn(run, labels, j, run[j].disk, es)
                             && Healthy(c, candidate, WithoutTemporary(run[j].disk), g', es)
  {
    hide IsRun, Inv, Healthy, WithoutTemporary;
    RunInv(c, candidate, g, run, labels, n);
    FinishedRead(c, candidate, g, run[n], g', es);
    ListingStep(c, candidate, g, run, labels, n);
  }

  // ---------- appends cut short ----------

  /** A crash leaves a readable directory exactly when no file of the append had been touched. */
  lemma CrashOutcome(c: Crypto, candidate: Binding, g: StatePayload, s: Sys, s': Sys)
    requires WriterInv(c, candidate, g, s) && !s.writer.Idle? && WriterStep(c, candidate, s, Crash, s')
    ensures Readable(c, candidate, s'.disk) <==> s.writer.Checked?
  {
    hide ChainOk, StateAt, UniqueIds, Readable, HistoryOf, Continues, LatestState;
    var i: nat, temp :| s.done <= i <= |s.chain| && Shape(c, candidate, g, s.disk, s.chain, s.done, i, temp)
                        && WriterAt(c, candidate, g, s, i, temp);
    ReadableIffSettled(c, candidate, g, s.disk, s.chain, s.done, i, temp);
  }

  ghost predicate Broken(c: Crypto, candidate: Binding, s: Sys) {
    s.writer.Idle? && !Readable(c, candidate, s.disk)
  }

  lemma BrokenStep(c: Crypto, candidate: Binding, s: Sys, l: Label, s': Sys)
    requires Broken(c, candidate, s) && Next(c, candidate, s, l, s')
    ensures Broken(c, candidate, s') && s'.disk == s.disk
  {
    hide Healthy;
  }

  lemma {:induction false} BrokenStays(c: Crypto, candidate: Binding, g: StatePayload, run: seq<Sys>,
                                       labels: seq<Label>, i: nat, j: nat)
    requires IsRun(c, candidate, g, run, labels) && i <= j < |run|
    requires Broken(c, candidate, run[i])
    ensures Broken(c, candidate, run[j]) && run[j].disk == run[i].disk
    decreases j
  {
    hide Broken, Next, Init;
    if i < j {
      BrokenStays(c, candidate, g, run, labels, i, j - 1);
      assert Next(c, candidate, run[j - 1], labels[j - 1], run[j - 1 + 1]);
      BrokenStep(c, candidate, run[j - 1], labels[j - 1], run[j]);
    }
  }

  /** Every name of directory `d` that the reader has tested was still there. */
  ghost predicate KeepsAll(r: Reader, d: Disk) {
    && (r.Listed? ==> r.names == d.history.Keys && r.tested <= r.names && r.kept == r.tested)
    && (r.Reading? ==> r.names == d.history.Keys)
  }

  lemma KeepsStep(c: Crypto, candidate: Binding, s: Sys, l: Label, s': Sys)
    requires Next(c, candidate, s, l, s')
    requires l.ListHistory? || KeepsAll(s.reader, s.disk)
    ensures KeepsAll(s'.reader, s.disk)
  {
  }

  lemma {:induction false} KeptAll(c: Crypto, candidate: Binding, g: StatePayload, run: seq<Sys>, labels: seq<Label>,
                                   i: nat, j: nat, n: nat)
    requires IsRun(c, candidate, g, run, labels) && i <= j < n < |run|
    requires Broken(c, candidate, run[i]) && labels[j].ListHistory?
    ensures KeepsAll(run[n].reader, run[i].disk)
    decreases n
  {
    hide Broken, Next, Init, KeepsAll;
    var m := n - 1;
    BrokenStays(c, candidate, g, run, labels, i, m);
    assert Next(c, candidate, run[m], labels[m], run[m + 1]);
    if j < m {
      KeptAll(c, candidate, g, run, labels, i, j, m);
    }
    KeepsStep(c, candidate, run[m], labels[m], run[n]);
  }

  lemma NothingTemporary(d: Disk, n: nat)
    requires d.history.Keys == Names(n)
    ensures WithoutTemporary(d) == d
  {
    assert forall e | e in d.history :: e in Names(n) && e.Rev?;
    assert WithoutTemporary(d).history == d.history;
  }

  /**
   After an append was cut short, no later append gets past its own read and no read that lists later succeeds: the
   half-applied event is never observed.
   */
  lemma CutShortFailsClosed(c: Crypto, candidate: Binding, g: StatePayload, run: seq<Sys>, labels: seq<Label>,
                            i: nat, j: nat, n: nat)
    requires IsRun(c, candidate, g, run, labels) && i <= j < n < |run|
    requires Broken(c, candidate, run[i])
    requires Complete(run[n].reader) && ListsIn(run, labels, j, run[n].reader.at, run[n].reader.committed)
    ensures !labels[j].Check? && !Readable(c, candidate, View(run[n].reader))
    ensures forall m | i <= m < |labels| :: !labels[m].Check?
  {
    hide IsRun, Inv, Healthy, WithoutTemporary;
    BrokenStays(c, candidate, g, run, labels, i, j);
    KeptAll(c, candidate, g, run, labels, i, j, n);
    RunInv(c, candidate, g, run, labels, n);
    forall g', es | Healthy(c, candidate, View(run[n].reader), g', es)
      ensures Healthy(c, candidate, run[j].disk, g', es)
    {
      FinishedRead(c, candidate, g, run[n], g', es);
      NothingTemporary(run[j].disk, |es|);
    }
    forall m | i <= m < |labels|
      ensures !labels[m].Check?
    {
      NoAppendWhenBroken(c, candidate, g, run, labels, i, m);
    }
  }

  lemma NoAppendWhenBroken(c: Crypto, candidate: Binding, g: StatePayload, run: seq<Sys>, labels: seq<Label>,
                           i: nat, m: nat)
    requires IsRun(c, candidate, g, run, labels) && i <= m < |labels|
    requires Broken(c, candidate, run[i])
    ensures !labels[m].Check?
  {
    hide Healthy, Layout;
    BrokenStays(c, candidate, g, run, labels, i, m);
    assert Next(c, candidate, run[m], labels[m], run[m + 1]);
  }
}

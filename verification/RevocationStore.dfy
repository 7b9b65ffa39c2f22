/**
 The reference file provider: one directory per candidate with `genesis.json`, `state.json`, `head.json` and a
 `history` of numbered events. A directory is readable exactly when it is the layout of an accepted chain, and
 recording turns the layout of a chain into the layout of the chain with one more event.
 */
module RevocationStore {
  import opened Wrappers
  import opened RevocationModel
  import opened RevocationLedger

  /** A file name in `history`: the zero-padded revision, or anything else. */
  datatype Entry = Rev(n: nat) | Stray(name: string)

  datatype Disk = Disk(genesis: File, state: File, head: File, history: map<Entry, File>)

  /** What taking the lock of a candidate without a directory leaves behind. */
  const BARE := Disk(Unusable, Unusable, Unusable, map[])

  /** The file names of the revisions 1 to `revision`. */
  function Names(revision: int): (names: set<Entry>)
    ensures forall n :: n in names <==> n.Rev? && 1 <= n.n <= revision
  {
    set k: nat | 1 <= k <= revision :: Rev(k)
  }

  function HistoryOf(c: Crypto, events: seq<EventPayload>): (history: map<Entry, File>)
    ensures history.Keys == Names(|events|)
  {
    map n: Entry | n in Names(|events|) :: Sign(c, EventDoc(events[n.n - 1]))
  }

  /** The directory of a chain on which no append is in progress. */
  function Layout(c: Crypto, candidate: Binding, genesis: StatePayload, events: seq<EventPayload>): Disk {
    var latest := LatestState(c, genesis, events);
    Disk(Sign(c, StateDoc(genesis)), Sign(c, StateDoc(latest)), Sign(c, HeadDoc(HeadOf(c, candidate, latest))),
         HistoryOf(c, events))
  }

  ghost predicate Healthy(c: Crypto, candidate: Binding, d: Disk, genesis: StatePayload, events: seq<EventPayload>) {
    ChainOk(c, candidate, genesis, events) && d == Layout(c, candidate, genesis, events)
  }

  ghost predicate Readable(c: Crypto, candidate: Binding, d: Disk) {
    exists genesis, events :: Healthy(c, candidate, d, genesis, events)
  }

  /** A directory determines its chain, whatever the hash function. */
  lemma LayoutIsInjective(c: Crypto, candidate: Binding, d: Disk, g: StatePayload, es: seq<EventPayload>,
                          g': StatePayload, es': seq<EventPayload>)
    requires Healthy(c, candidate, d, g, es) && Healthy(c, candidate, d, g', es')
    ensures g == g' && es == es'
  {
    hide ChainOk, StateAt, ValidState;
    assert |es| == |es'| by {
      SameLength(Names(|es|), |es|, |es'|);
    }
    forall k: nat | k < |es|
      ensures es[k] == es'[k]
    {
      assert HistoryOf(c, es)[Rev(k + 1)] == HistoryOf(c, es')[Rev(k + 1)];
    }
  }

  lemma SameLength(names: set<Entry>, m: nat, n: nat)
    requires names == Names(m) == Names(n)
    ensures m == n
  {
    if 0 < m {
      assert Rev(m) in names;
    }
    if 0 < n {
      assert Rev(n) in names;
    }
  }

  /** Equal state identities mean equal directories, file by file, or two documents that collide. */
  lemma IdentityCommitsToDirectory(c: Crypto, candidate: Binding, d: Disk, g: StatePayload, es: seq<EventPayload>,
                                   d': Disk, g': StatePayload, es': seq<EventPayload>)
    requires Healthy(c, candidate, d, g, es) && Healthy(c, candidate, d', g', es')
    requires StateId(c, LatestState(c, g, es)) == StateId(c, LatestState(c, g', es'))
    ensures d == d' || Collide(c, g, es, g', es')
  {
    hide Collide;
    IdentityCommitsToHistory(c, candidate, candidate, g, es, g', es');
  }

  lemma StatusIsValid(c: Crypto, candidate: Binding, s: StatePayload)
    requires ValidState(s, candidate)
    ensures StatusOf(c, s).Valid(candidate)
  {
  }

  // ---------- reading ----------

  lemma GenesisLayout(c: Crypto, candidate: Binding, now: int)
    requires ValidBinding(candidate)
    ensures var g := InitialState(candidate, now);
            && Healthy(c, candidate, Layout(c, candidate, g, []), g, [])
            && Layout(c, candidate, g, []) ==
                 Disk(Sign(c, StateDoc(g)), Sign(c, StateDoc(g)), Sign(c, HeadDoc(HeadOf(c, candidate, g))), map[])
  {
    hide InitialState, ValidBinding, ValidState;
    InitialStateIsValid(candidate, now);
  }

  lemma BareIsEmpty()
    ensures BARE.history == map[]
  {
  }

  lemma BareIsUnreadable(c: Crypto, candidate: Binding)
    ensures !Readable(c, candidate, BARE)
  {
  }

  lemma HistoryAppend(c: Crypto, events: seq<EventPayload>, e: EventPayload)
    ensures Rev(|events| + 1) !in HistoryOf(c, events)
    ensures HistoryOf(c, events + [e]) == HistoryOf(c, events)[Rev(|events| + 1) := Sign(c, EventDoc(e))]
  {
  }

  /** The checks of `_read_state` before its loop. */
  predicate HeaderOk(c: Crypto, candidate: Binding, d: Disk) {
    && Verified(c, d.state) && d.state.payload.StateDoc? && ValidState(d.state.payload.state, candidate)
    && d.head == Sign(c, HeadDoc(HeadOf(c, candidate, d.state.payload.state)))
    && d.history.Keys == Names(d.state.payload.state.revision)
    && Verified(c, d.genesis) && d.genesis.payload.StateDoc?
    && ValidState(d.genesis.payload.state, candidate) && d.genesis.payload.state.revision == 0
  }

  lemma HeaderFacts(c: Crypto, candidate: Binding, d: Disk)
    requires HeaderOk(c, candidate, d)
    ensures d.state.Signed? && d.state.payload.StateDoc? && d.state == Sign(c, d.state.payload)
    ensures d.genesis.Signed? && d.genesis.payload.StateDoc? && d.genesis == Sign(c, d.genesis.payload)
    ensures ValidState(d.genesis.payload.state, candidate) && d.genesis.payload.state.revision == 0
    ensures 0 <= d.state.payload.state.revision && d.history.Keys == Names(d.state.payload.state.revision)
  {
  }

  /** What every readable directory passes before its history is replayed. */
  lemma ReadableHeader(c: Crypto, candidate: Binding, d: Disk)
    ensures Readable(c, candidate, d) ==> HeaderOk(c, candidate, d)
  {
    forall g, es | Healthy(c, candidate, d, g, es)
      ensures d.state.payload.state.revision == |es| && ValidState(d.state.payload.state, candidate)
      ensures ValidState(g, candidate) && g.revision == 0
      ensures HistoryOf(c, es).Keys == Names(|es|)
    {
      StateAtIsValid(c, candidate, g, es, |es|);
    }
  }

  /** The history files up to revision `n` hold the events `es`. */
  ghost predicate Holds(c: Crypto, d: Disk, es: seq<EventPayload>) {
    forall n: nat | 1 <= n <= |es| :: Rev(n) in d.history && d.history[Rev(n)] == Sign(c, EventDoc(es[n - 1]))
  }

  lemma HealthyPrefix(c: Crypto, candidate: Binding, d: Disk, g: StatePayload, all: seq<EventPayload>,
                      es: seq<EventPayload>)
    requires Healthy(c, candidate, d, g, all) && Holds(c, d, es)
    ensures |es| <= |all| && es == all[..|es|]
  {
    hide ChainOk, StateAt;
    if |es| > 0 {
      assert Rev(|es|) in d.history;
    }
    forall k: nat | k < |es|
      ensures es[k] == all[k]
    {
      assert d.history[Rev(k + 1)] == Sign(c, EventDoc(es[k]));
    }
  }

  /** What every readable directory passes at the next event of its history. */
  lemma ReadableStep(c: Crypto, candidate: Binding, d: Disk, g: StatePayload, es: seq<EventPayload>)
    requires d.genesis == Sign(c, StateDoc(g)) && Holds(c, d, es)
    requires Rev(|es| + 1) in d.history
    ensures Readable(c, candidate, d) ==>
              var f := d.history[Rev(|es| + 1)];
              && Verified(c, f) && f.payload.EventDoc?
              && ValidEvent(f.payload.event, candidate, None)
              && Extends(c, LatestState(c, g, es), IdentityBefore(c, es, |es|), f.payload.event)
  {
    hide ValidEvent, Extends, Apply, ValidState;
    forall all | Healthy(c, candidate, d, g, all)
      ensures var f := d.history[Rev(|es| + 1)];
              && Verified(c, f) && f.payload.EventDoc?
              && ValidEvent(f.payload.event, candidate, None)
              && Extends(c, LatestState(c, g, es), IdentityBefore(c, es, |es|), f.payload.event)
    {
      HealthyPrefix(c, candidate, d, g, all, es);
      assert Rev(|es| + 1) in HistoryOf(c, all);
      assert LinkOk(c, candidate, g, all, |es|);
      StateOfPrefix(c, g, es, all, |es|);
    }
  }

  lemma ReadableEnd(c: Crypto, candidate: Binding, d: Disk, g: StatePayload, es: seq<EventPayload>)
    requires d.genesis == Sign(c, StateDoc(g)) && Holds(c, d, es)
    requires d.history.Keys == Names(|es|)
    ensures Readable(c, candidate, d) ==> d.state == Sign(c, StateDoc(LatestState(c, g, es)))
  {
    hide ChainOk, StateAt;
    forall all | Healthy(c, candidate, d, g, all)
      ensures all == es
    {
      HealthyPrefix(c, candidate, d, g, all, es);
      SameLength(Names(|es|), |es|, |all|);
    }
  }

  lemma HeldLayout(c: Crypto, candidate: Binding, d: Disk, g: StatePayload, es: seq<EventPayload>)
    requires HeaderOk(c, candidate, d) && d.genesis == Sign(c, StateDoc(g)) && ChainOk(c, candidate, g, es)
    requires Holds(c, d, es) && d.state.payload.state.revision == |es|
    requires d.state == Sign(c, StateDoc(LatestState(c, g, es)))
    ensures Healthy(c, candidate, d, g, es)
  {
    hide ChainOk, StateAt, ValidState;
    forall n | n in d.history
      ensures n in HistoryOf(c, es) && d.history[n] == HistoryOf(c, es)[n]
    {
      assert d.history[Rev(n.n)] == Sign(c, EventDoc(es[n.n - 1]));
    }
    assert d.history == HistoryOf(c, es);
  }

  lemma EmptyChain(c: Crypto, candidate: Binding, d: Disk, g: StatePayload)
    requires ValidState(g, candidate) && g.revision == 0
    ensures ChainOk(c, candidate, g, []) && Holds(c, d, []) && LatestState(c, g, []) == g
    ensures Elems(g.active) == {}
  {
  }

  lemma HoldsAppend(c: Crypto, d: Disk, es: seq<EventPayload>, e: EventPayload)
    requires Holds(c, d, es) && Rev(|es| + 1) in d.history && d.history[Rev(|es| + 1)] == Sign(c, EventDoc(e))
    ensures Holds(c, d, es + [e])
  {
  }

  /** The body of `_read_state` on the files it has read: it accepts exactly the readable directories. */
  method Replay(c: Crypto, candidate: Binding, d: Disk)
    returns (r: Result<StatePayload, Error>, ghost genesis: StatePayload, ghost events: seq<EventPayload>)
    ensures r.Success? ==> Healthy(c, candidate, d, genesis, events) && r.value == LatestState(c, genesis, events)
    ensures r.Failure? ==> !Readable(c, candidate, d)
  {
    hide HeaderOk, ChainOk, StateAt, ValidEvent, ValidState, Holds, Readable, Healthy, Layout, HistoryOf, Sorted,
         HeadOf, InitialState;
    genesis, events := InitialState(candidate, 0), [];
    r := Failure(Unreadable);
    ReadableHeader(c, candidate, d);
    if !HeaderOk(c, candidate, d) {
      return;
    }
    HeaderFacts(c, candidate, d);
    var state := d.state.payload.state;
    var anchor := d.genesis.payload.state;
    genesis := anchor;
    EmptyChain(c, candidate, d, genesis);
    var currentId: Option<string> := None;
    var categories: set<Category> := {};
    var lastStateId: string := StateId(c, anchor);
    var lastPayload := anchor;
    for revision := 1 to state.revision + 1
      invariant |events| == revision - 1
      invariant Holds(c, d, events)
      invariant ChainOk(c, candidate, genesis, events)
      invariant lastPayload == LatestState(c, genesis, events)
      invariant lastStateId == StateId(c, lastPayload)
      invariant currentId == IdentityBefore(c, events, |events|)
      invariant categories == Elems(lastPayload.active)
    {
      var file := d.history[Rev(revision)];
      ReadableStep(c, candidate, d, genesis, events);
      var next := ReplayEvent(c, candidate, file, revision, lastStateId, lastPayload.updatedAt, currentId, categories,
                              genesis, events);
      if next.None? {
        return;
      }
      categories := Elems(next.value.active);
      HoldsAppend(c, d, events, file.payload.event);
      events := events + [file.payload.event];
      lastPayload := next.value;
      lastStateId := StateId(c, lastPayload);
      currentId := Some(EventIdentity(c, file.payload.event));
    }
    ReadableEnd(c, candidate, d, genesis, events);
    if lastPayload != state {
      return;
    }
    HeldLayout(c, candidate, d, genesis, events);
    r := Success(state);
  }

  /** One turn of the replay loop: the checks on the event in `file`, then the state it leads to. */
  method ReplayEvent(c: Crypto, candidate: Binding, file: File, revision: int, lastStateId: string, lastTime: int,
                     currentId: Option<string>, active: set<Category>,
                     ghost genesis: StatePayload, ghost events: seq<EventPayload>)
    returns (next: Option<StatePayload>)
    requires ChainOk(c, candidate, genesis, events) && revision == |events| + 1
    requires lastStateId == StateId(c, LatestState(c, genesis, events))
    requires lastTime == LatestState(c, genesis, events).updatedAt
    requires currentId == IdentityBefore(c, events, |events|)
    requires active == Elems(LatestState(c, genesis, events).active)
    ensures next.Some? <==>
              && Verified(c, file) && file.payload.EventDoc? && ValidEvent(file.payload.event, candidate, None)
              && Extends(c, LatestState(c, genesis, events), currentId, file.payload.event)
    ensures next.Some? ==>
              && ChainOk(c, candidate, genesis, events + [file.payload.event])
              && next.value == LatestState(c, genesis, events + [file.payload.event])
  {
    hide ChainOk, StateAt, ValidEvent, ValidState, Sorted, LatestState;
    LatestIsValid(c, candidate, genesis, events);
    ghost var last := LatestState(c, genesis, events);
    ValidStateBinding(last, candidate);
    if !Verified(c, file) || !file.payload.EventDoc? {
      return None;
    }
    var event := file.payload.event;
    if !ValidEvent(event, candidate, None) {
      return None;
    }
    if event.expectedRevision != revision - 1 || event.revision != revision
       || event.expectedStateIdentity != lastStateId || event.previousEventIdentity != currentId {
      return None;
    }
    if event.occurredAt < lastTime {
      return None;
    }
    HasReason(event, candidate);
    var categories := active;
    if event.action.Revoke? {
      categories := categories + {event.reasons[0]};
    } else {
      if !(Elems(event.reasons) <= categories) {
        return None;
      }
      categories := categories - Elems(event.reasons);
    }
    var status := if categories != {} then Revoked else if event.action.Recover? then Recovered else Clear;
    next := Some(StatePayload(SCHEMA, candidate, revision, Some(lastStateId), Some(EventIdentity(c, event)), status,
                              Sorted(categories), event.actorRef, event.authorityRef, event.occurredAt,
                              event.eventId));
    assert next.value == Apply(c, last, event);
    ChainAppend(c, candidate, genesis, events, event);
    LatestAppend(c, genesis, events, event);
  }

  lemma ValidStateBinding(s: StatePayload, candidate: Binding)
    requires ValidState(s, candidate)
    ensures s.binding == candidate && 0 <= s.revision
  {
  }

  lemma HasReason(e: EventPayload, candidate: Binding)
    requires ValidEvent(e, candidate, None)
    ensures e.reasons != [] && !e.action.OtherAction?
  {
  }

  // ---------- recording ----------

  datatype Error =
    | BadEvent
    | AlreadyInitialized
    | Unreadable
    | EventIdConflict
    | StaleRevision
    | StaleTimestamp
    | NoActiveRevocation
    | RevisionExists
    | BadStatus

  datatype Recorded = Recorded(status: CandidateStatus, duplicate: bool)

  lemma LayoutFacts(c: Crypto, candidate: Binding, d: Disk, genesis: StatePayload, events: seq<EventPayload>)
    requires Healthy(c, candidate, d, genesis, events)
    ensures d == Layout(c, candidate, genesis, events) && d.history == HistoryOf(c, events)
    ensures Rev(|events| + 1) !in d.history
    ensures ChainOk(c, candidate, genesis, events)
  {
  }

  lemma AuthenticFacts(c: Crypto, signed: File, now: int)
    requires Authentic(c, signed, now)
    ensures signed == Sign(c, signed.payload) && signed.payload.EventDoc?
    ensures ValidEvent(signed.payload.event, signed.payload.event.binding, Some(now))
    ensures signed.payload.event.reasons != [] && !signed.payload.event.action.OtherAction?
  {
  }

  predicate Authentic(c: Crypto, signed: File, now: int) {
    && Verified(c, signed) && signed.payload.EventDoc?
    && ValidEvent(signed.payload.event, signed.payload.event.binding, Some(now))
  }

  /** The chain after submitting `e` at time `now`. */
  function AfterSubmit(c: Crypto, candidate: Binding, genesis: StatePayload, events: seq<EventPayload>,
                       e: EventPayload, now: int): seq<EventPayload>
  {
    if Admits(c, candidate, genesis, events, e, now) then events + [e] else events
  }

  /** What recording the authentic event `e` on a readable directory answers. */
  ghost predicate Answers(c: Crypto, genesis: StatePayload, events: seq<EventPayload>, e: EventPayload, now: int,
                          validateOnly: bool, r: Result<Recorded, Error>)
  {
    if KnownId(events, e.eventId) then
      && (r.Success? ==> e in events && r.value == Recorded(StatusOf(c, LatestState(c, genesis, events)), true))
      && (r.Failure? ==> exists i :: 0 <= i < |events| && events[i].eventId == e.eventId && events[i] != e)
    else if Admits(c, e.binding, genesis, events, e, now) then
      r == Success(Recorded(StatusOf(c, LatestState(c, genesis, if validateOnly then events else events + [e])), false))
    else
      r.Failure?
  }

  // ---------- whole runs of submissions ----------

  datatype Submission = Submission(event: EventPayload, now: int)

  /** The chain after a sequence of submissions to one candidate's ledger. */
  function Submitted(c: Crypto, candidate: Binding, genesis: StatePayload, events: seq<EventPayload>,
                     subs: seq<Submission>, n: nat): seq<EventPayload>
    requires n <= |subs|
  {
    if n == 0 then events
    else
      var before := Submitted(c, candidate, genesis, events, subs, n - 1);
      AfterSubmit(c, candidate, genesis, before, subs[n - 1].event, subs[n - 1].now)
  }

  /** Every run leaves a directory that replay accepts, only ever appends, and never repeats an event ID. */
  lemma {:induction false} RunKeepsLedger(c: Crypto, candidate: Binding, genesis: StatePayload,
                                          events: seq<EventPayload>, subs: seq<Submission>, n: nat)
    requires ChainOk(c, candidate, genesis, events) && UniqueIds(events) && n <= |subs|
    ensures var after := Submitted(c, candidate, genesis, events, subs, n);
            && Healthy(c, candidate, Layout(c, candidate, genesis, after), genesis, after)
            && UniqueIds(after) && events <= after
  {
    hide ChainOk, Admits, Layout, UniqueIds;
    if n > 0 {
      RunKeepsLedger(c, candidate, genesis, events, subs, n - 1);
      var before := Submitted(c, candidate, genesis, events, subs, n - 1);
      if Admits(c, candidate, genesis, before, subs[n - 1].event, subs[n - 1].now) {
        AdmitsExtends(c, candidate, genesis, before, subs[n - 1].event, subs[n - 1].now);
      }
    }
  }

  /**
   Once an event is in the ledger, submitting it again after any further run, at any time, is answered as a
   duplicate and changes nothing; a different event under its ID is refused.
   */
  lemma UsedIdAppendsNothing(c: Crypto, candidate: Binding, genesis: StatePayload, events: seq<EventPayload>,
                             subs: seq<Submission>, n: nat, used: EventPayload, e: EventPayload, now: int,
                             validateOnly: bool, r: Result<Recorded, Error>)
    requires ChainOk(c, candidate, genesis, events) && UniqueIds(events) && n <= |subs|
    requires used in events && e.eventId == used.eventId
    requires Answers(c, genesis, Submitted(c, candidate, genesis, events, subs, n), e, now, validateOnly, r)
    ensures var after := Submitted(c, candidate, genesis, events, subs, n);
            && AfterSubmit(c, candidate, genesis, after, e, now) == after
            && if e == used then r == Success(Recorded(StatusOf(c, LatestState(c, genesis, after)), true))
               else r.Failure?
  {
    hide ChainOk, LatestState, StateAt, Extends, ValidEvent, Layout;
    RunKeepsLedger(c, candidate, genesis, events, subs, n);
    var after := Submitted(c, candidate, genesis, events, subs, n);
    var i :| 0 <= i < |events| && events[i] == used;
    assert after[i] == used;
    assert KnownId(after, e.eventId);
  }

  class Store {
    const crypto: Crypto
    var ledgers: map<Binding, Disk>

    constructor (crypto: Crypto)
      ensures this.crypto == crypto && ledgers == map[]
    {
      this.crypto := crypto;
      ledgers := map[];
    }

    /** `initialize_reference_candidate_revocation`: a genesis ledger for every candidate, all directories new. */
    method Initialize(candidates: seq<Binding>, now: int) returns (r: Result<(), Error>)
      requires forall b | b in candidates :: ValidBinding(b)
      modifies this
      ensures r.Success? ==> forall b | b in candidates :: b !in old(ledgers)
      ensures r.Success? ==> ledgers.Keys == old(ledgers).Keys + set b | b in candidates
      ensures r.Failure? ==> exists b :: b in candidates && b in old(ledgers)
      ensures forall b | b in old(ledgers) :: b in ledgers && ledgers[b] == old(ledgers)[b]
      ensures forall b | b in ledgers && b !in old(ledgers) ::
                b in candidates && Healthy(crypto, b, ledgers[b], InitialState(b, now), [])
    {
      hide Healthy, ValidBinding, InitialState;
      for i := 0 to |candidates|
        invariant ledgers.Keys == old(ledgers).Keys + set b | b in candidates[..i]
        invariant forall b | b in candidates[..i] :: b !in old(ledgers)
        invariant forall b | b in old(ledgers) :: b in ledgers && ledgers[b] == old(ledgers)[b]
        invariant forall b | b in ledgers && b !in old(ledgers) ::
                    Healthy(crypto, b, ledgers[b], InitialState(b, now), [])
      {
        var b := candidates[i];
        // a binding that occurs twice gets one ledger
        if b !in candidates[..i] {
          if b in ledgers {
            return Failure(AlreadyInitialized);
          }
          Create(b, now);
        }
      }
      return Success(());
    }

    /** One fresh directory, written file by file. */
    method Create(b: Binding, now: int)
      requires b !in ledgers && ValidBinding(b)
      modifies this
      ensures ledgers == old(ledgers)[b := Layout(crypto, b, InitialState(b, now), [])]
      ensures Healthy(crypto, b, ledgers[b], InitialState(b, now), [])
    {
      hide *;
      GenesisLayout(crypto, b, now);
      BareIsEmpty();
      ledgers := ledgers[b := BARE];
      var payload := InitialState(b, now);
      ledgers := ledgers[b := ledgers[b].(genesis := Sign(crypto, StateDoc(payload)))];
      ledgers := ledgers[b := ledgers[b].(state := Sign(crypto, StateDoc(payload)))];
      ledgers := ledgers[b := ledgers[b].(head := Sign(crypto, HeadDoc(HeadOf(crypto, b, payload))))];
    }

    /** `_read_state`: replay the whole history without taking a lock. */
    method ReadState(candidate: Binding)
      returns (r: Result<StatePayload, Error>, ghost genesis: StatePayload, ghost events: seq<EventPayload>)
      ensures r.Success? ==> candidate in ledgers && Healthy(crypto, candidate, ledgers[candidate], genesis, events)
                             && r.value == LatestState(crypto, genesis, events)
      ensures r.Failure? ==> candidate !in ledgers || !Readable(crypto, candidate, ledgers[candidate])
    {
      genesis, events := InitialState(candidate, 0), [];
      if candidate !in ledgers {
        return Failure(Unreadable), genesis, events;
      }
      var d := ledgers[candidate];
      r, genesis, events := Replay(crypto, candidate, d);
    }

    /** `record_reference_candidate_event`: validate, deduplicate, compare-and-set, then three file writes. */
    method Record(signed: File, now: int, validateOnly: bool) returns (r: Result<Recorded, Error>)
      modifies this
      ensures !Authentic(crypto, signed, now) ==> r.Failure? && ledgers == old(ledgers)
      ensures Authentic(crypto, signed, now) && signed.payload.event.binding !in old(ledgers) ==>
                r.Failure? && ledgers == old(ledgers)[signed.payload.event.binding := BARE]
      ensures Authentic(crypto, signed, now) && signed.payload.event.binding in old(ledgers)
              && !Readable(crypto, signed.payload.event.binding, old(ledgers)[signed.payload.event.binding]) ==>
                r.Failure? && ledgers == old(ledgers)
      ensures Authentic(crypto, signed, now) && signed.payload.event.binding in old(ledgers) ==>
                var e := signed.payload.event;
                forall g, es | Healthy(crypto, e.binding, old(ledgers)[e.binding], g, es) ::
                  && Answers(crypto, g, es, e, now, validateOnly, r)
                  && ledgers == if validateOnly then old(ledgers) else
                       old(ledgers)
                         [e.binding := Layout(crypto, e.binding, g, AfterSubmit(crypto, e.binding, g, es, e, now))]
    {
      if !Verified(crypto, signed) || !signed.payload.EventDoc? {
        return Failure(BadEvent);
      }
      var payload := signed.payload.event;
      var candidate := payload.binding;
      if !ValidEvent(payload, candidate, Some(now)) {
        return Failure(BadEvent);
      }
      if candidate !in ledgers {
        ledgers := ledgers[candidate := BARE];
        BareIsUnreadable(crypto, candidate);
        return Failure(Unreadable);
      }
      ghost var before := ledgers;
      var read, genesis, events := ReadState(candidate);
      if read.Failure? {
        return Failure(Unreadable);
      }
      r := Append(signed, now, validateOnly, read.value, genesis, events);
      forall g, es | Healthy(crypto, candidate, before[candidate], g, es)
        ensures g == genesis && es == events
      {
        LayoutIsInjective(crypto, candidate, before[candidate], g, es, genesis, events);
      }
    }

    /** The part of `Record` that runs once the state has been read under the lock. */
    method Append(signed: File, now: int, validateOnly: bool, state: StatePayload,
                  ghost genesis: StatePayload, ghost events: seq<EventPayload>) returns (r: Result<Recorded, Error>)
      requires Authentic(crypto, signed, now) && signed.payload.event.binding in ledgers
      requires Healthy(crypto, signed.payload.event.binding, ledgers[signed.payload.event.binding], genesis, events)
      requires state == LatestState(crypto, genesis, events)
      modifies this
      ensures Answers(crypto, genesis, events, signed.payload.event, now, validateOnly, r)
      ensures var e := signed.payload.event;
              ledgers == if validateOnly then old(ledgers) else
                old(ledgers)[e.binding := Layout(crypto, e.binding, genesis,
                                                 AfterSubmit(crypto, e.binding, genesis, events, e, now))]
    {
      hide ChainOk, StateAt, LatestState, ValidState, ValidEvent, Sorted, IsHex64, IsRef, Readable, Layout, HistoryOf;
      AuthenticFacts(crypto, signed, now);
      var payload := signed.payload.event;
      var candidate := payload.binding;
      LayoutFacts(crypto, candidate, ledgers[candidate], genesis, events);
      assert ledgers == ledgers[candidate := Layout(crypto, candidate, genesis, events)];
      LatestIsValid(crypto, candidate, genesis, events);
      ValidStateBinding(state, candidate);
      var known := FindEventId(ledgers[candidate].history, state.revision, payload, genesis, events, candidate);
      if known.Some? {
        if known.value != payload {
          return Failure(EventIdConflict);
        }
        return Success(Recorded(StatusOf(crypto, state), true));
      }
      if payload.expectedRevision != state.revision || payload.revision != state.revision + 1
         || payload.expectedStateIdentity != StateId(crypto, state)
         || payload.previousEventIdentity != state.eventIdentity {
        return Failure(StaleRevision);
      }
      if payload.occurredAt < state.updatedAt {
        return Failure(StaleTimestamp);
      }
      var categories := Elems(state.active);
      if payload.action.Revoke? {
        categories := categories + {payload.reasons[0]};
      } else {
        if !(Elems(payload.reasons) <= categories) {
          return Failure(NoActiveRevocation);
        }
        categories := categories - Elems(payload.reasons);
      }
      assert Admits(crypto, candidate, genesis, events, payload, now);
      if validateOnly {
        return Success(Recorded(StatusOf(crypto, state), false));
      }
      var revision := state.revision + 1;
      var next := StatePayload(
        SCHEMA, candidate, revision, Some(StateId(crypto, state)), Some(EventIdentity(crypto, payload)),
        if categories != {} then Revoked else if payload.action.Recover? then Recovered else Clear,
        Sorted(categories), payload.actorRef, payload.authorityRef, payload.occurredAt, payload.eventId);
      assert next == Apply(crypto, state, payload);
      LatestAppend(crypto, genesis, events, payload);
      if Rev(revision) in ledgers[candidate].history {
        return Failure(RevisionExists);
      }
      Write(candidate, revision, signed, next, genesis, events);
      return Success(Recorded(StatusOf(crypto, next), false));
    }

    /** The three file replacements of one append, in their order: history event, state, head. */
    method Write(candidate: Binding, revision: nat, signed: File, next: StatePayload,
                 ghost genesis: StatePayload, ghost events: seq<EventPayload>)
      requires candidate in ledgers && ledgers[candidate] == Layout(crypto, candidate, genesis, events)
      requires signed.Signed? && signed.payload.EventDoc? && signed == Sign(crypto, signed.payload)
      requires revision == |events| + 1
      requires next == LatestState(crypto, genesis, events + [signed.payload.event])
      modifies this
      ensures ledgers == old(ledgers)[candidate := Layout(crypto, candidate, genesis, events + [signed.payload.event])]
    {
      hide StateAt, LatestState, HistoryOf;
      HistoryAppend(crypto, events, signed.payload.event);
      var history := ledgers[candidate].history[Rev(revision) := signed];
      ledgers := ledgers[candidate := ledgers[candidate].(history := history)];
      ledgers := ledgers[candidate := ledgers[candidate].(state := Sign(crypto, StateDoc(next)))];
      var head := Sign(crypto, HeadDoc(HeadOf(crypto, candidate, next)));
      ledgers := ledgers[candidate := ledgers[candidate].(head := head)];
      assert ledgers[candidate] == Layout(crypto, candidate, genesis, events + [signed.payload.event]);
    }

    /** The scan of the history files for an event with the same ID. */
    method FindEventId(history: map<Entry, File>, revision: int, payload: EventPayload,
                       ghost genesis: StatePayload, ghost events: seq<EventPayload>, ghost candidate: Binding)
      returns (found: Option<EventPayload>)
      requires history == HistoryOf(crypto, events) && revision == |events|
      ensures found.None? ==> !KnownId(events, payload.eventId)
      ensures found.Some? ==> found.value in events && found.value.eventId == payload.eventId
    {
      for k := 1 to revision + 1
        invariant forall i | 0 <= i < k - 1 :: events[i].eventId != payload.eventId
      {
        assert Rev(k) in HistoryOf(crypto, events);
        var existing := history[Rev(k)].payload.event;
        if existing.eventId == payload.eventId {
          return Some(existing);
        }
      }
      return None;
    }
  }
}

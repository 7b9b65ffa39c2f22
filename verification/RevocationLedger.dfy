/**
 The event chain of one candidate as a value: a genesis state and the sequence of appended events. `StateAt` is
 the fold that replay computes, `ChainOk` is what replay demands, and the lemmas say what an accepted chain means.
 */
module RevocationLedger {
  import opened Wrappers
  import opened RevocationModel

  function NextActive(active: set<Category>, e: EventPayload): set<Category> {
    if e.action.Revoke? then
      if e.reasons == [] then active else active + {e.reasons[0]}
    else
      active - Elems(e.reasons)
  }

  function NextStatus(active: set<Category>, action: Action): Status {
    if active != {} then Revoked else if action.Recover? then Recovered else Clear
  }

  /** The state that an event turns `prev` into; replay and append build it from the same fields. */
  function Apply(c: Crypto, prev: StatePayload, e: EventPayload): StatePayload {
    var active := NextActive(Elems(prev.active), e);
    StatePayload(SCHEMA, prev.binding, prev.revision + 1, Some(StateId(c, prev)), Some(EventIdentity(c, e)),
                 NextStatus(active, e.action), Sorted(active), e.actorRef, e.authorityRef, e.occurredAt, e.eventId)
  }

  /** The state after the first `n` events. */
  function StateAt(c: Crypto, genesis: StatePayload, events: seq<EventPayload>, n: nat): StatePayload
    requires n <= |events|
  {
    if n == 0 then genesis else Apply(c, StateAt(c, genesis, events, n - 1), events[n - 1])
  }

  function LatestState(c: Crypto, genesis: StatePayload, events: seq<EventPayload>): StatePayload {
    StateAt(c, genesis, events, |events|)
  }

  /** The identity of the event before position `n`. */
  function IdentityBefore(c: Crypto, events: seq<EventPayload>, n: nat): Option<string>
    requires n <= |events|
  {
    if n == 0 then None else Some(EventIdentity(c, events[n - 1]))
  }

  /** Event `e` continues a chain that stands at `prev`, whose last event has identity `last`. */
  predicate Extends(c: Crypto, prev: StatePayload, last: Option<string>, e: EventPayload) {
    && e.expectedRevision == prev.revision && e.revision == prev.revision + 1
    && e.expectedStateIdentity == StateId(c, prev)
    && e.previousEventIdentity == last
    && prev.updatedAt <= e.occurredAt
    && (e.action.Recover? ==> Elems(e.reasons) <= Elems(prev.active))
  }

  ghost predicate LinkOk(c: Crypto, candidate: Binding, genesis: StatePayload, events: seq<EventPayload>, k: nat)
    requires k < |events|
  {
    && ValidEvent(events[k], candidate, None)
    && Extends(c, StateAt(c, genesis, events, k), IdentityBefore(c, events, k), events[k])
  }

  ghost predicate ChainOk(c: Crypto, candidate: Binding, genesis: StatePayload, events: seq<EventPayload>) {
    && ValidState(genesis, candidate) && genesis.revision == 0
    && forall k: nat | k < |events| :: LinkOk(c, candidate, genesis, events, k)
  }

  // ---------- extension ----------

  lemma {:induction false} StateOfPrefix(c: Crypto, genesis: StatePayload, events: seq<EventPayload>,
                                         more: seq<EventPayload>, n: nat)
    requires events <= more && n <= |events|
    ensures StateAt(c, genesis, more, n) == StateAt(c, genesis, events, n)
  {
    if n > 0 {
      StateOfPrefix(c, genesis, events, more, n - 1);
    }
  }

  lemma LatestAppend(c: Crypto, genesis: StatePayload, events: seq<EventPayload>, e: EventPayload)
    ensures LatestState(c, genesis, events + [e]) == Apply(c, LatestState(c, genesis, events), e)
  {
    StateOfPrefix(c, genesis, events, events + [e], |events|);
  }

  lemma ChainPrefix(c: Crypto, candidate: Binding, genesis: StatePayload, events: seq<EventPayload>,
                    more: seq<EventPayload>)
    requires ChainOk(c, candidate, genesis, more) && events <= more
    ensures ChainOk(c, candidate, genesis, events)
  {
    forall k: nat | k < |events|
      ensures LinkOk(c, candidate, genesis, events, k)
    {
      assert LinkOk(c, candidate, genesis, more, k);
      StateOfPrefix(c, genesis, events, more, k);
    }
  }

  /** A chain grows by exactly the valid events that extend its last state. */
  lemma ChainAppend(c: Crypto, candidate: Binding, genesis: StatePayload, events: seq<EventPayload>, e: EventPayload)
    requires ChainOk(c, candidate, genesis, events)
    ensures ChainOk(c, candidate, genesis, events + [e]) <==>
            ValidEvent(e, candidate, None)
            && Extends(c, LatestState(c, genesis, events), IdentityBefore(c, events, |events|), e)
  {
    var all := events + [e];
    forall k: nat | k <= |events|
      ensures StateAt(c, genesis, all, k) == StateAt(c, genesis, events, k)
      ensures IdentityBefore(c, all, k) == IdentityBefore(c, events, k)
    {
      StateOfPrefix(c, genesis, events, all, k);
    }
    if ChainOk(c, candidate, genesis, all) {
      assert LinkOk(c, candidate, genesis, all, |events|);
    }
    forall k: nat | k < |events|
      ensures LinkOk(c, candidate, genesis, all, k)
    {
      assert LinkOk(c, candidate, genesis, events, k);
    }
  }

  /** One valid event keeps the state well formed, so replay never stops on a state it built itself. */
  lemma ApplyIsValid(c: Crypto, candidate: Binding, prev: StatePayload, e: EventPayload)
    requires ValidState(prev, candidate) && ValidEvent(e, candidate, None)
    ensures ValidState(Apply(c, prev, e), candidate)
    ensures Elems(Apply(c, prev, e).active) == NextActive(Elems(prev.active), e)
  {
    var active := NextActive(Elems(prev.active), e);
    CanonicalIsKnown(prev.active);
    CanonicalIsKnown(e.reasons);
    if e.action.Revoke? {
      assert e.reasons[0] in Elems(e.reasons);
      assert e.reasons[0] in active;
    }
    assert active <= Elems(CATEGORIES);
    SortedIsCanonical(active);
    if Sorted(active) != [] {
      assert Sorted(active)[0] in Elems(Sorted(active));
    }
    if active != {} {
      var x :| x in active;
      assert x in Elems(Sorted(active));
    }
  }

  lemma {:induction false} StateAtIsValid(c: Crypto, candidate: Binding, genesis: StatePayload,
                                          events: seq<EventPayload>, n: nat)
    requires ChainOk(c, candidate, genesis, events) && n <= |events|
    ensures ValidState(StateAt(c, genesis, events, n), candidate)
    ensures StateAt(c, genesis, events, n).revision == n
    ensures StateAt(c, genesis, events, n).eventIdentity == IdentityBefore(c, events, n)
    ensures StateAt(c, genesis, events, n).status == Clear <==> n == 0
  {
    if n > 0 {
      StateAtIsValid(c, candidate, genesis, events, n - 1);
      assert LinkOk(c, candidate, genesis, events, n - 1);
      ApplyIsValid(c, candidate, StateAt(c, genesis, events, n - 1), events[n - 1]);
    }
  }

  lemma LatestIsValid(c: Crypto, candidate: Binding, genesis: StatePayload, events: seq<EventPayload>)
    requires ChainOk(c, candidate, genesis, events)
    ensures ValidState(LatestState(c, genesis, events), candidate)
    ensures LatestState(c, genesis, events).revision == |events|
    ensures LatestState(c, genesis, events).eventIdentity == IdentityBefore(c, events, |events|)
  {
    StateAtIsValid(c, candidate, genesis, events, |events|);
  }

  // ---------- what an accepted chain means ----------

  /** The last of the first `n` events that names `x` is a revocation, the one at position `i`. */
  ghost predicate LastNamingRevokes(events: seq<EventPayload>, n: nat, x: Category, i: nat)
    requires n <= |events|
  {
    i < n && x in events[i].reasons && events[i].action.Revoke? && forall j | i < j < n :: x !in events[j].reasons
  }

  lemma NextActiveMembers(before: seq<Category>, after: seq<Category>, e: EventPayload, x: Category)
    requires Elems(after) == NextActive(Elems(before), e)
    requires !e.action.OtherAction? && (e.action.Revoke? ==> |e.reasons| == 1)
    ensures x in after <==> if x in e.reasons then e.action.Revoke? else x in before
  {
    assert x in after <==> x in Elems(after);
    assert x in before <==> x in Elems(before);
  }

  lemma ActiveStep(c: Crypto, candidate: Binding, genesis: StatePayload, events: seq<EventPayload>, n: nat,
                   x: Category)
    requires ChainOk(c, candidate, genesis, events) && n < |events|
    ensures x in StateAt(c, genesis, events, n + 1).active <==>
            if x in events[n].reasons then events[n].action.Revoke? else x in StateAt(c, genesis, events, n).active
  {
    var prev := StateAt(c, genesis, events, n);
    StateAtIsValid(c, candidate, genesis, events, n);
    assert LinkOk(c, candidate, genesis, events, n);
    ApplyIsValid(c, candidate, prev, events[n]);
    NextActiveMembers(prev.active, Apply(c, prev, events[n]).active, events[n], x);
  }

  lemma GenesisIsClear(c: Crypto, candidate: Binding, genesis: StatePayload, events: seq<EventPayload>)
    requires ChainOk(c, candidate, genesis, events)
    ensures StateAt(c, genesis, events, 0) == genesis && genesis.active == []
  {
  }

  /** A category is active exactly when the last event naming it is a revocation. */
  lemma {:induction false} ActiveMeaning(c: Crypto, candidate: Binding, genesis: StatePayload,
                                         events: seq<EventPayload>, n: nat, x: Category)
    requires ChainOk(c, candidate, genesis, events) && n <= |events|
    ensures x in StateAt(c, genesis, events, n).active <==> exists i :: LastNamingRevokes(events, n, x, i)
  {
    hide StateAt, ChainOk;
    if n == 0 {
      GenesisIsClear(c, candidate, genesis, events);
    } else {
      var k := n - 1;
      ActiveStep(c, candidate, genesis, events, k, x);
      ActiveMeaning(c, candidate, genesis, events, k, x);
      if x in events[k].reasons {
        assert events[k].action.Revoke? ==> LastNamingRevokes(events, n, x, k);
        assert forall i: nat :: LastNamingRevokes(events, n, x, i) ==> i == k;
      } else {
        assert forall i: nat :: LastNamingRevokes(events, n, x, i) <==> LastNamingRevokes(events, k, x, i);
      }
    }
  }

  /** The status is `Revoked` exactly when some category is active, and `Clear` at the genesis alone. */
  lemma StatusMeaning(c: Crypto, candidate: Binding, genesis: StatePayload, events: seq<EventPayload>)
    requires ChainOk(c, candidate, genesis, events)
    ensures LatestState(c, genesis, events).status == Revoked <==>
            exists x, i :: LastNamingRevokes(events, |events|, x, i)
    ensures LatestState(c, genesis, events).status == Clear <==> events == []
  {
    StateAtIsValid(c, candidate, genesis, events, |events|);
    var active := LatestState(c, genesis, events).active;
    assert LatestState(c, genesis, events).status == Revoked <==> active != [];
    hide StateAt, ChainOk, ValidState;
    forall x
      ensures x in active <==> exists i :: LastNamingRevokes(events, |events|, x, i)
    {
      ActiveMeaning(c, candidate, genesis, events, |events|, x);
    }
    if active != [] {
      assert active[0] in active;
    }
    if x, i :| LastNamingRevokes(events, |events|, x, i) {
      assert x in active;
    }
  }

  /** Every active category was added by a revocation naming it alone, under the authority for that reason. */
  lemma ActiveUnderOwnAuthority(c: Crypto, candidate: Binding, genesis: StatePayload, events: seq<EventPayload>,
                                x: Category)
    requires ChainOk(c, candidate, genesis, events)
    requires x in LatestState(c, genesis, events).active
    ensures exists i: nat :: i < |events| && events[i].action.Revoke? && events[i].reasons == [x]
                             && ReasonAuthority(x) == Some(events[i].authorityRef)
  {
    ActiveMeaning(c, candidate, genesis, events, |events|, x);
    var i: nat :| LastNamingRevokes(events, |events|, x, i);
    assert LinkOk(c, candidate, genesis, events, i);
    assert events[i].reasons == [events[i].reasons[0]];
  }

  predicate Requalifies(e: EventPayload, x: Category) {
    && e.action.Recover? && x in e.reasons
    && e.authorityRef == QUALIFICATION_AUTHORITY && e.evidenceKind.RequalificationAttestation?
  }

  lemma ClearingStep(c: Crypto, candidate: Binding, genesis: StatePayload, events: seq<EventPayload>,
                     k: nat, x: Category)
    requires ChainOk(c, candidate, genesis, events) && k < |events|
    requires x in StateAt(c, genesis, events, k).active
    requires x !in StateAt(c, genesis, events, k + 1).active
    ensures Requalifies(events[k], x)
  {
    ActiveStep(c, candidate, genesis, events, k, x);
    assert LinkOk(c, candidate, genesis, events, k);
  }

  /** Only a recovery by the qualification authority, naming the category, makes an active category inactive. */
  lemma {:induction false} OnlyRecoveryClears(c: Crypto, candidate: Binding, genesis: StatePayload,
                                              events: seq<EventPayload>, i: nat, j: nat, x: Category)
    requires ChainOk(c, candidate, genesis, events) && i <= j <= |events|
    requires x in StateAt(c, genesis, events, i).active
    requires x !in StateAt(c, genesis, events, j).active
    ensures exists k: nat :: i <= k < j && Requalifies(events[k], x)
    decreases j
  {
    hide *;
    if i < j {
      if x in StateAt(c, genesis, events, j - 1).active {
        ClearingStep(c, candidate, genesis, events, j - 1, x);
      } else {
        OnlyRecoveryClears(c, candidate, genesis, events, i, j - 1, x);
      }
    }
  }

  /** Revisions run 1..n without gaps and timestamps never decrease. */
  lemma {:induction false} RevisionsAndTimes(c: Crypto, candidate: Binding, genesis: StatePayload,
                                             events: seq<EventPayload>, i: nat, j: nat)
    requires ChainOk(c, candidate, genesis, events) && i <= j < |events|
    ensures events[i].revision == i + 1 && events[i].expectedRevision == i
    ensures genesis.updatedAt <= events[i].occurredAt <= events[j].occurredAt
    decreases j
  {
    assert LinkOk(c, candidate, genesis, events, j);
    StateAtIsValid(c, candidate, genesis, events, j);
    if 0 < j {
      RevisionsAndTimes(c, candidate, genesis, events, if i < j then i else j - 1, j - 1);
    }
  }

  /** A document that is hashed along a chain: one of its states or events. */
  ghost predicate InChain(c: Crypto, genesis: StatePayload, events: seq<EventPayload>, doc: Doc) {
    || (exists n: nat :: n <= |events| && doc == StateDoc(StateAt(c, genesis, events, n)))
    || (exists k :: 0 <= k < |events| && doc == EventDoc(events[k]))
  }

  /** Two different documents with one hash, the first from one chain and the second from the other. */
  ghost predicate Collision(c: Crypto, genesis: StatePayload, events: seq<EventPayload>, genesis': StatePayload,
                            events': seq<EventPayload>, a: Doc, b: Doc)
  {
    a != b && c.sha(a) == c.sha(b) && InChain(c, genesis, events, a) && InChain(c, genesis', events', b)
  }

  ghost predicate Collide(c: Crypto, genesis: StatePayload, events: seq<EventPayload>, genesis': StatePayload,
                          events': seq<EventPayload>)
  {
    exists a, b :: Collision(c, genesis, events, genesis', events', a, b)
  }

  lemma StatesCollide(c: Crypto, genesis: StatePayload, events: seq<EventPayload>, m: nat, genesis': StatePayload,
                      events': seq<EventPayload>, n: nat)
    requires m <= |events| && n <= |events'|
    requires StateId(c, StateAt(c, genesis, events, m)) == StateId(c, StateAt(c, genesis', events', n))
    ensures StateAt(c, genesis, events, m) == StateAt(c, genesis', events', n)
            || Collide(c, genesis, events, genesis', events')
  {
    hide StateAt;
    var a, b := StateDoc(StateAt(c, genesis, events, m)), StateDoc(StateAt(c, genesis', events', n));
    if a != b {
      assert Collision(c, genesis, events, genesis', events', a, b);
    }
  }

  lemma EventsCollide(c: Crypto, genesis: StatePayload, events: seq<EventPayload>, genesis': StatePayload,
                      events': seq<EventPayload>, k: nat)
    requires k < |events| && k < |events'| && EventIdentity(c, events[k]) == EventIdentity(c, events'[k])
    ensures events[k] == events'[k] || Collide(c, genesis, events, genesis', events')
  {
    hide StateAt;
    var a, b := EventDoc(events[k]), EventDoc(events'[k]);
    if a != b {
      assert Collision(c, genesis, events, genesis', events', a, b);
    }
  }

  lemma SameStep(c: Crypto, genesis: StatePayload, events: seq<EventPayload>,
                 genesis': StatePayload, events': seq<EventPayload>, k: nat)
    requires k < |events| && k < |events'|
    requires StateAt(c, genesis, events, k + 1) == StateAt(c, genesis', events', k + 1)
    ensures EventIdentity(c, events[k]) == EventIdentity(c, events'[k])
    ensures StateId(c, StateAt(c, genesis, events, k)) == StateId(c, StateAt(c, genesis', events', k))
  {
    hide Elems, NextActive, NextStatus, Sorted;
    assert Apply(c, StateAt(c, genesis, events, k), events[k])
        == Apply(c, StateAt(c, genesis', events', k), events'[k]);
  }

  /** Equal states have equal pasts, unless two documents of the two chains collide. */
  lemma {:induction false} IdentityCommitsToPrefix(
    c: Crypto, candidate: Binding, candidate': Binding,
    genesis: StatePayload, events: seq<EventPayload>, genesis': StatePayload, events': seq<EventPayload>, n: nat)
    requires ChainOk(c, candidate, genesis, events) && ChainOk(c, candidate', genesis', events')
    requires n <= |events| && n <= |events'|
    requires StateAt(c, genesis, events, n) == StateAt(c, genesis', events', n)
    ensures || (genesis == genesis' && forall k | 0 <= k < n :: events[k] == events'[k])
            || Collide(c, genesis, events, genesis', events')
  {
    hide *;
    if n == 0 {
      GenesisIsClear(c, candidate, genesis, events);
      GenesisIsClear(c, candidate', genesis', events');
    } else {
      SameStep(c, genesis, events, genesis', events', n - 1);
      EventsCollide(c, genesis, events, genesis', events', n - 1);
      StatesCollide(c, genesis, events, n - 1, genesis', events', n - 1);
      if !Collide(c, genesis, events, genesis', events') {
        IdentityCommitsToPrefix(c, candidate, candidate', genesis, events, genesis', events', n - 1);
      }
    }
  }

  /**
   The state identity commits to the genesis and to every event: two accepted ledgers with one state identity are the
   same, or exhibit two different documents with one hash.
   */
  lemma IdentityCommitsToHistory(
    c: Crypto, candidate: Binding, candidate': Binding,
    genesis: StatePayload, events: seq<EventPayload>, genesis': StatePayload, events': seq<EventPayload>)
    requires ChainOk(c, candidate, genesis, events) && ChainOk(c, candidate', genesis', events')
    requires StateId(c, LatestState(c, genesis, events)) == StateId(c, LatestState(c, genesis', events'))
    ensures (genesis == genesis' && events == events') || Collide(c, genesis, events, genesis', events')
  {
    hide Collide, ChainOk, StateAt;
    StatesCollide(c, genesis, events, |events|, genesis', events', |events'|);
    if !Collide(c, genesis, events, genesis', events') {
      StateAtIsValid(c, candidate, genesis, events, |events|);
      StateAtIsValid(c, candidate', genesis', events', |events'|);
      IdentityCommitsToPrefix(c, candidate, candidate', genesis, events, genesis', events', |events|);
    }
  }

  // ---------- admission of an event ----------

  predicate KnownId(events: seq<EventPayload>, id: string) {
    exists i :: 0 <= i < |events| && events[i].eventId == id
  }

  ghost predicate UniqueIds(events: seq<EventPayload>) {
    forall i, j | 0 <= i < j < |events| :: events[i].eventId != events[j].eventId
  }

  /** `record_reference_candidate_event` appends exactly these events. */
  predicate Admits(c: Crypto, candidate: Binding, genesis: StatePayload, events: seq<EventPayload>,
                   e: EventPayload, now: int)
  {
    && ValidEvent(e, candidate, Some(now))
    && !KnownId(events, e.eventId)
    && Extends(c, LatestState(c, genesis, events), IdentityBefore(c, events, |events|), e)
  }

  /** An admitted event leaves a chain that replay accepts, in which every event ID still occurs once. */
  lemma AdmitsExtends(c: Crypto, candidate: Binding, genesis: StatePayload, events: seq<EventPayload>,
                      e: EventPayload, now: int)
    requires ChainOk(c, candidate, genesis, events) && UniqueIds(events)
    requires Admits(c, candidate, genesis, events, e, now)
    ensures ChainOk(c, candidate, genesis, events + [e]) && UniqueIds(events + [e])
  {
    ChainAppend(c, candidate, genesis, events, e);
  }

  /** Compare-and-set: once an event has been appended, no other event with its expected revision is admitted. */
  lemma AtMostOnePerRevision(c: Crypto, candidate: Binding, genesis: StatePayload, events: seq<EventPayload>,
                             e: EventPayload, rival: EventPayload, now: int)
    requires ChainOk(c, candidate, genesis, events) && e in events
    requires rival.expectedRevision == e.expectedRevision
    ensures !Admits(c, candidate, genesis, events, rival, now)
  {
    var i :| 0 <= i < |events| && events[i] == e;
    RevisionsAndTimes(c, candidate, genesis, events, i, |events| - 1);
    StateAtIsValid(c, candidate, genesis, events, |events|);
  }
}

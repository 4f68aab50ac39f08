/** Key alignment: an event that arrived without a request id takes over the key of an
    equivalent event seen earlier in the batch or already stored
    (alignUsageEventKeysWithExistingCanonicalEvents in internal/service/sync.go). */
module Alignment {
  import opened Text
  import opened UsageEvents
  import opened Database

  /** The WHERE clause that looks for an equivalent stored event. */
  predicate Equivalent(stored: UsageEvent, e: UsageEvent) {
    SqlTrim(stored.apiGroupKey) == Trim(e.apiGroupKey) && SqlTrim(stored.model) == Trim(e.model)
    && stored.timestamp == e.timestamp && SqlTrim(stored.source) == Trim(e.source)
    && SqlTrim(stored.authIndex) == Trim(e.authIndex) && stored.failed == e.failed && stored.tokens == e.tokens
  }

  /** ORDER BY id ASC LIMIT 1 over rows kept in id order. */
  function FirstEquivalent(stored: seq<UsageEvent>, e: UsageEvent): (r: Option<UsageEvent>)
    ensures r.Some? ==> r.value in stored && Equivalent(r.value, e)
    ensures r.None? <==> forall i :: 0 <= i < |stored| ==> !Equivalent(stored[i], e)
  {
    if stored == [] then None
    else if Equivalent(stored[0], e) then Some(stored[0])
    else
      var r := FirstEquivalent(stored[1..], e);
      assert forall i :: 0 < i < |stored| ==> stored[i] == stored[1..][i - 1];
      r
  }

  /** Of equivalent stored events the oldest counts. */
  lemma {:induction false} OldestEquivalent(stored: seq<UsageEvent>, e: UsageEvent) returns (k: nat)
    requires FirstEquivalent(stored, e).Some?
    ensures k < |stored| && FirstEquivalent(stored, e).value == stored[k] && Equivalent(stored[k], e)
    ensures forall j :: 0 <= j < k ==> !Equivalent(stored[j], e)
  {
    if Equivalent(stored[0], e) {
      k := 0;
    } else {
      var before := OldestEquivalent(stored[1..], e);
      k := before + 1;
      forall j | 0 <= j < k ensures !Equivalent(stored[j], e) {
        if j > 0 { assert stored[j] == stored[1..][j - 1]; }
      }
    }
  }

  predicate AlreadyReferenced(inbox: seq<InboxRow>, key: string) {
    exists i :: 0 <= i < |inbox| && inbox[i].status == Processed && inbox[i].usageEventKey == key
  }

  datatype Memory = Memory(canonical: map<string, string>, consumed: set<string>)

  const FRESH: Memory := Memory(map[], {})

  /** A Go map read: the zero value for an absent key. */
  function Lookup(m: map<string, string>, key: string): string { if key in m then m[key] else "" }

  /** One iteration of the loop over the batch. */
  function AlignStep(stored: seq<UsageEvent>, inbox: seq<InboxRow>, mem: Memory, e: UsageEvent): (Memory, UsageEvent) {
    var canonicalKey := CanonicalKey(e);
    var incomingKey := Trim(e.eventKey);
    var known := Lookup(mem.canonical, canonicalKey);
    if Trim(e.requestId) != "" then
      (mem.(canonical := mem.canonical[canonicalKey := incomingKey]), e)
    else if known != "" then
      if incomingKey == canonicalKey then (mem, e.(eventKey := known))
      else if known == canonicalKey && canonicalKey !in mem.consumed then
        (mem.(consumed := mem.consumed + {canonicalKey}), e.(eventKey := known))
      else (mem, e)
    else
      match FirstEquivalent(stored, e)
      case None => (mem.(canonical := mem.canonical[canonicalKey := incomingKey]), e)
      case Some(existing) =>
        var existingKey := Trim(existing.eventKey);
        if existingKey == "" then (mem.(canonical := mem.canonical[canonicalKey := incomingKey]), e)
        else
          var mem' := mem.(canonical := mem.canonical[canonicalKey := existingKey]);
          if incomingKey == canonicalKey then (mem', e.(eventKey := existingKey))
          else if existingKey == canonicalKey && !AlreadyReferenced(inbox, canonicalKey) then
            (mem'.(consumed := mem.consumed + {canonicalKey}), e.(eventKey := existingKey))
          else (mem', e)
  }

  /** The memory and the rewritten events after the whole batch, left to right. */
  function AlignRun(stored: seq<UsageEvent>, inbox: seq<InboxRow>,
                    events: seq<UsageEvent>): (r: (Memory, seq<UsageEvent>))
    ensures |r.1| == |events|
  {
    if events == [] then (FRESH, [])
    else
      var n := |events| - 1;
      var (mem, done) := AlignRun(stored, inbox, events[..n]);
      var (mem', e) := AlignStep(stored, inbox, mem, events[n]);
      (mem', done + [e])
  }

  function Aligned(stored: seq<UsageEvent>, inbox: seq<InboxRow>, events: seq<UsageEvent>): (r: seq<UsageEvent>)
    ensures |r| == |events|
  {
    AlignRun(stored, inbox, events).1
  }

  /** Whether aligning the i-th event consults the database. */
  predicate NeedsRead(stored: seq<UsageEvent>, inbox: seq<InboxRow>, events: seq<UsageEvent>, i: nat)
    requires i < |events|
  {
    Trim(events[i].requestId) == ""
    && Lookup(AlignRun(stored, inbox, events[..i]).0.canonical, CanonicalKey(events[i])) == ""
  }

  /** Whether aligning the i-th event goes on to ask if the inbox already references its key. */
  predicate NeedsReference(stored: seq<UsageEvent>, inbox: seq<InboxRow>, events: seq<UsageEvent>, i: nat)
    requires i < |events|
  {
    NeedsRead(stored, inbox, events, i) && AsksInbox(stored, events[i])
  }

  predicate AsksInbox(stored: seq<UsageEvent>, e: UsageEvent) {
    Trim(e.eventKey) != CanonicalKey(e)
    && match FirstEquivalent(stored, e)
       case None => false
       case Some(existing) => Trim(existing.eventKey) != "" && Trim(existing.eventKey) == CanonicalKey(e)
  }

  /** The positions at which either read of alignment fails, if it is made. */
  datatype ReadFaults = ReadFaults(events: set<nat>, references: set<nat>)

  predicate AlignFailsAt(stored: seq<UsageEvent>, inbox: seq<InboxRow>, events: seq<UsageEvent>, fails: ReadFaults,
                         i: nat)
    requires i < |events|
  {
    (i in fails.events && NeedsRead(stored, inbox, events, i))
    || (i in fails.references && NeedsReference(stored, inbox, events, i))
  }

  predicate AlignFailsBelow(stored: seq<UsageEvent>, inbox: seq<InboxRow>, events: seq<UsageEvent>, fails: ReadFaults,
                            n: nat) {
    exists i :: 0 <= i < n && i < |events| && AlignFailsAt(stored, inbox, events, fails, i)
  }

  predicate AlignFails(stored: seq<UsageEvent>, inbox: seq<InboxRow>, events: seq<UsageEvent>, fails: ReadFaults) {
    AlignFailsBelow(stored, inbox, events, fails, |events|)
  }

  lemma FailsBelowNext(stored: seq<UsageEvent>, inbox: seq<InboxRow>, events: seq<UsageEvent>, fails: ReadFaults,
                       n: nat)
    requires n < |events|
    ensures AlignFailsBelow(stored, inbox, events, fails, n + 1)
            <==> AlignFailsBelow(stored, inbox, events, fails, n) || AlignFailsAt(stored, inbox, events, fails, n)
  {
    if AlignFailsBelow(stored, inbox, events, fails, n + 1) {
      var i :| 0 <= i < n + 1 && i < |events| && AlignFailsAt(stored, inbox, events, fails, i);
      assert i < n || i == n;
    }
    if AlignFailsBelow(stored, inbox, events, fails, n) {
      var i :| 0 <= i < n && i < |events| && AlignFailsAt(stored, inbox, events, fails, i);
      assert i < n + 1;
    }
  }

  lemma FailingReadFails(stored: seq<UsageEvent>, inbox: seq<InboxRow>, events: seq<UsageEvent>, fails: ReadFaults,
                         i: nat)
    requires i < |events| && AlignFailsAt(stored, inbox, events, fails, i)
    ensures AlignFails(stored, inbox, events, fails)
  {
  }

  /** The database branch: look for an equivalent stored event and decide whose key to use. The second
      read, of the inbox, may fail. */
  method TakeStoredKey(db: UsageDatabase, canonicalKeys: map<string, string>, consumed: set<string>, event: UsageEvent,
                       referenceFails: bool)
    returns (ok: bool, canonicalKeys': map<string, string>, consumed': set<string>, key: string)
    requires Trim(event.requestId) == "" && Lookup(canonicalKeys, CanonicalKey(event)) == ""
    ensures ok ==> AlignStep(db.events, db.inbox, Memory(canonicalKeys, consumed), event)
                   == (Memory(canonicalKeys', consumed'), event.(eventKey := key))
    ensures !ok <==> referenceFails && AsksInbox(db.events, event)
  {
    var canonicalKey := CanonicalKey(event);
    var incomingKey := Trim(event.eventKey);
    ok, canonicalKeys', consumed', key := true, canonicalKeys, consumed, event.eventKey;
    match FirstEquivalent(db.events, event) {
      case None =>
        canonicalKeys' := canonicalKeys[canonicalKey := incomingKey];
      case Some(existing) =>
        var existingKey := Trim(existing.eventKey);
        if existingKey != "" {
          if incomingKey == canonicalKey {
            key := existingKey;
          } else if existingKey == canonicalKey {
            if referenceFails {
              ok := false;
              return;
            }
            var alreadyConsumed := AlreadyReferenced(db.inbox, canonicalKey);
            if !alreadyConsumed {
              key := existingKey;
              consumed' := consumed + {canonicalKey};
            }
          }
          canonicalKeys' := canonicalKeys[canonicalKey := existingKey];
        } else {
          canonicalKeys' := canonicalKeys[canonicalKey := incomingKey];
        }
    }
  }

  /** One iteration. `readFails` and `referenceFails` say which of its database reads fail, if made. */
  method AlignOne(db: UsageDatabase, canonicalKeys: map<string, string>, consumed: set<string>, event: UsageEvent,
                  readFails: bool, referenceFails: bool)
    returns (ok: bool, canonicalKeys': map<string, string>, consumed': set<string>, key: string)
    ensures ok ==> AlignStep(db.events, db.inbox, Memory(canonicalKeys, consumed), event)
                   == (Memory(canonicalKeys', consumed'), event.(eventKey := key))
    ensures !ok <==> Trim(event.requestId) == "" && Lookup(canonicalKeys, CanonicalKey(event)) == ""
                     && (readFails || (referenceFails && AsksInbox(db.events, event)))
  {
    var canonicalKey := CanonicalKey(event);
    var incomingKey := Trim(event.eventKey);
    ok, canonicalKeys', consumed', key := true, canonicalKeys, consumed, event.eventKey;
    if Trim(event.requestId) != "" {
      canonicalKeys' := canonicalKeys[canonicalKey := incomingKey];
      return;
    }
    var known := Lookup(canonicalKeys, canonicalKey);
    if known != "" {
      if incomingKey == canonicalKey {
        key := known;
      } else if known == canonicalKey {
        if canonicalKey !in consumed {
          key := known;
          consumed' := consumed + {canonicalKey};
        }
      }
      return;
    }
    if readFails {
      ok := false;
      return;
    }
    ok, canonicalKeys', consumed', key := TakeStoredKey(db, canonicalKeys, consumed, event, referenceFails);
  }

  /** The ghost bookkeeping of one iteration. */
  lemma AlignRunNext(stored: seq<UsageEvent>, inbox: seq<InboxRow>, was: seq<UsageEvent>, i: nat,
                     mem: Memory, done: seq<UsageEvent>, mem': Memory, aligned: UsageEvent)
    requires i < |was| && AlignRun(stored, inbox, was[..i]) == (mem, done)
    requires AlignStep(stored, inbox, mem, was[i]) == (mem', aligned)
    ensures AlignRun(stored, inbox, was[..i + 1]) == (mem', done + [aligned])
  {
    assert was[..i + 1][..i] == was[..i];
  }

  method AlignInPlace(db: UsageDatabase, events: array<UsageEvent>, i: nat, ghost was: seq<UsageEvent>,
                      canonicalKeys: map<string, string>, consumed: set<string>, fails: ReadFaults)
    returns (ok: bool, canonicalKeys': map<string, string>, consumed': set<string>)
    requires i < events.Length == |was| && events[i..] == was[i..]
    requires AlignRun(db.events, db.inbox, was[..i]) == (Memory(canonicalKeys, consumed), events[..i])
    modifies events
    ensures !ok <==> AlignFailsAt(db.events, db.inbox, was, fails, i)
    ensures ok ==> events[i + 1..] == was[i + 1..]
                   && AlignRun(db.events, db.inbox, was[..i + 1])
                      == (Memory(canonicalKeys', consumed'), events[..i + 1])
  {
    ghost var done := events[..i];
    ghost var rest := events[i + 1..];
    assert events[i] == events[i..][0] == was[i..][0] == was[i];
    assert rest == events[i..][1..] == was[i + 1..];
    var key: string;
    ok, canonicalKeys', consumed', key := AlignOne(db, canonicalKeys, consumed, events[i], i in fails.events,
                                                       i in fails.references);
    if ok {
      events[i] := events[i].(eventKey := key);
      AlignRunNext(db.events, db.inbox, was, i, Memory(canonicalKeys, consumed), done,
                   Memory(canonicalKeys', consumed'), events[i]);
      assert events[..i + 1] == done + [events[i]];
      assert events[i + 1..] == rest;
    }
  }

  /** The in-place pass over the caller's slice; on failure the slice may be left partly rewritten and
      is not used. */
  method AlignUsageEventKeys(db: UsageDatabase, events: array<UsageEvent>, fails: ReadFaults) returns (ok: bool)
    modifies events
    ensures ok ==> events[..] == Aligned(db.events, db.inbox, old(events[..]))
    ensures !ok <==> AlignFails(db.events, db.inbox, old(events[..]), fails)
  {
    ghost var was := events[..];
    var canonicalKeys: map<string, string> := map[];
    var consumed: set<string> := {};
    var i := 0;
    while i < events.Length
      invariant 0 <= i <= events.Length
      invariant events[i..] == was[i..]
      invariant AlignRun(db.events, db.inbox, was[..i]) == (Memory(canonicalKeys, consumed), events[..i])
      invariant !AlignFailsBelow(db.events, db.inbox, was, fails, i)
    {
      FailsBelowNext(db.events, db.inbox, was, fails, i);
      ok, canonicalKeys, consumed := AlignInPlace(db, events, i, was, canonicalKeys, consumed, fails);
      if !ok {
        FailingReadFails(db.events, db.inbox, was, fails, i);
        return;
      }
      i := i + 1;
    }
    assert was[..i] == was && events[..i] == events[..];
    ok := true;
  }

  // -------------------------------------------------- what alignment means for decoded events

  /** For the decoder's output the rules collapse: an event with a request id keeps its key; one
      without takes the key remembered for its canonical key, else the key of the first equivalent
      stored event, else keeps its canonical key. */
  function SimpleKey(stored: seq<UsageEvent>, m: map<string, string>, e: UsageEvent): string {
    var known := Lookup(m, CanonicalKey(e));
    if e.requestId != "" then e.eventKey
    else if known != "" then known
    else match FirstEquivalent(stored, e)
      case Some(existing) => existing.eventKey
      case None => CanonicalKey(e)
  }

  function SimpleRun(stored: seq<UsageEvent>, events: seq<UsageEvent>): (r: (map<string, string>, seq<UsageEvent>))
    ensures |r.1| == |events|
  {
    if events == [] then (map[], [])
    else
      var n := |events| - 1;
      var (m, done) := SimpleRun(stored, events[..n]);
      var key := SimpleKey(stored, m, events[n]);
      (m[CanonicalKey(events[n]) := key], done + [events[n].(eventKey := key)])
  }

  /** Decoded events never ask the inbox. */
  lemma DecodedNeedNoReference(stored: seq<UsageEvent>, inbox: seq<InboxRow>, events: seq<UsageEvent>, i: nat)
    requires i < |events| && Decoded(events[i])
    ensures !NeedsReference(stored, inbox, events, i)
  {
    TrimIsTrimmed(events[i].requestId);
    TrimIsTrimmed(events[i].eventKey);
  }

  predicate AllClean(events: seq<UsageEvent>) { forall i :: 0 <= i < |events| ==> Clean(events[i]) }

  predicate AllDecoded(events: seq<UsageEvent>) { forall i :: 0 <= i < |events| ==> Decoded(events[i]) }

  predicate KeysUsable(m: map<string, string>) { forall c :: c in m ==> Trimmed(m[c]) && m[c] != "" }

  lemma SimpleKeyUsable(stored: seq<UsageEvent>, m: map<string, string>, e: UsageEvent)
    requires AllClean(stored) && Decoded(e) && KeysUsable(m)
    ensures var key := SimpleKey(stored, m, e); Trimmed(key) && key != ""
  {
    var r := FirstEquivalent(stored, e);
    if r.Some? {
      var i :| 0 <= i < |stored| && stored[i] == r.value;
      assert Clean(stored[i]);
    }
  }

  lemma SimpleStep(stored: seq<UsageEvent>, inbox: seq<InboxRow>, m: map<string, string>, e: UsageEvent)
    requires AllClean(stored) && Decoded(e) && KeysUsable(m)
    ensures var key := SimpleKey(stored, m, e);
            AlignStep(stored, inbox, Memory(m, {}), e)
            == (Memory(m[CanonicalKey(e) := key], {}), e.(eventKey := key))
  {
    TrimIsTrimmed(e.eventKey);
    TrimIsTrimmed(e.requestId);
    var known := Lookup(m, CanonicalKey(e));
    if known != "" {
      assert m[CanonicalKey(e) := known] == m;
    }
    var r := FirstEquivalent(stored, e);
    if r.Some? {
      var i :| 0 <= i < |stored| && stored[i] == r.value;
      assert Clean(stored[i]);
      TrimIsTrimmed(r.value.eventKey);
    }
  }

  lemma {:induction false} SimpleMemoryUsable(stored: seq<UsageEvent>, events: seq<UsageEvent>)
    requires AllClean(stored) && AllDecoded(events)
    ensures KeysUsable(SimpleRun(stored, events).0)
  {
    if events != [] {
      var n := |events| - 1;
      SimpleMemoryUsable(stored, events[..n]);
      SimpleKeyUsable(stored, SimpleRun(stored, events[..n]).0, events[n]);
    }
  }

  lemma AlignRunLast(stored: seq<UsageEvent>, inbox: seq<InboxRow>, events: seq<UsageEvent>, m: map<string, string>,
                     done: seq<UsageEvent>, m': map<string, string>, e': UsageEvent)
    requires events != [] && AlignRun(stored, inbox, events[..|events| - 1]) == (Memory(m, {}), done)
    requires AlignStep(stored, inbox, Memory(m, {}), events[|events| - 1]) == (Memory(m', {}), e')
    ensures AlignRun(stored, inbox, events) == (Memory(m', {}), done + [e'])
  {
  }

  /** From the decoder no event ever consumes a canonical key: the branches that do are dead, the
      inbox is never consulted, and the full rewrite is the simple one. */
  lemma {:induction false} ConsumedBranchesAreDead(stored: seq<UsageEvent>, inbox: seq<InboxRow>,
                                                   events: seq<UsageEvent>)
    requires AllClean(stored) && AllDecoded(events)
    ensures AlignRun(stored, inbox, events) == (Memory(SimpleRun(stored, events).0, {}), SimpleRun(stored, events).1)
  {
    if events != [] {
      var n := |events| - 1;
      var e := events[n];
      ConsumedBranchesAreDead(stored, inbox, events[..n]);
      SimpleMemoryUsable(stored, events[..n]);
      var (m, done) := SimpleRun(stored, events[..n]);
      SimpleStep(stored, inbox, m, e);
      var key := SimpleKey(stored, m, e);
      AlignRunLast(stored, inbox, events, m, done, m[CanonicalKey(e) := key], e.(eventKey := key));
    }
  }

  lemma SimpleRunLast(stored: seq<UsageEvent>, events: seq<UsageEvent>)
    requires events != []
    ensures var n := |events| - 1;
            var (m, done) := SimpleRun(stored, events[..n]);
            SimpleRun(stored, events).1 == done + [events[n].(eventKey := SimpleKey(stored, m, events[n]))]
  {
  }

  lemma {:induction false} SimplePrefix(stored: seq<UsageEvent>, events: seq<UsageEvent>, i: nat)
    requires i <= |events|
    ensures SimpleRun(stored, events).1[..i] == SimpleRun(stored, events[..i]).1
    decreases |events|
  {
    if i == |events| {
      assert events[..i] == events;
    } else {
      var n := |events| - 1;
      SimpleRunLast(stored, events);
      SimplePrefix(stored, events[..n], i);
      assert events[..n][..i] == events[..i];
      PrefixOfSnoc(SimpleRun(stored, events).1, SimpleRun(stored, events[..n]).1, i);
    }
  }

  lemma PrefixOfSnoc(all: seq<UsageEvent>, init: seq<UsageEvent>, i: nat)
    requires i <= |init| < |all| && init <= all
    ensures all[..i] == init[..i]
  {
  }

  /** The aligned event at one position, from what the positions before it left behind. */
  lemma AlignedAt(stored: seq<UsageEvent>, inbox: seq<InboxRow>, events: seq<UsageEvent>, i: nat)
    requires AllClean(stored) && AllDecoded(events) && i < |events|
    ensures var aligned := Aligned(stored, inbox, events);
            var (m, done) := SimpleRun(stored, events[..i]);
            aligned[..i] == done && aligned[i] == events[i].(eventKey := SimpleKey(stored, m, events[i]))
  {
    ConsumedBranchesAreDead(stored, inbox, events);
    SimplePrefix(stored, events, i);
    SimplePrefix(stored, events, i + 1);
    var aligned := Aligned(stored, inbox, events);
    assert events[..i + 1][..i] == events[..i] && events[..i + 1][i] == events[i];
    assert aligned[i] == aligned[..i + 1][i];
  }

  // ------------------------------------------------------------ which rows add an event

  /** Whether the batch's i-th event is new when its turn to be inserted comes. */
  predicate Adds(stored: seq<UsageEvent>, inbox: seq<InboxRow>, events: seq<UsageEvent>, i: nat)
    requires i < |events|
  {
    var aligned := Aligned(stored, inbox, events);
    aligned[i].eventKey !in Keys(InsertAll(stored, aligned[..i]))
  }

  /** An event the table can already account for: its request id is a stored key, or it has none
      and an equivalent event, or its canonical key itself, is stored. */
  predicate Settled(stored: seq<UsageEvent>, e: UsageEvent) {
    if e.requestId != "" then e.eventKey in Keys(stored)
    else CanonicalKey(e) in Keys(stored) || FirstEquivalent(stored, e).Some?
  }

  lemma SettledMonotone(before: seq<UsageEvent>, after: seq<UsageEvent>, e: UsageEvent)
    requires before <= after && Settled(before, e)
    ensures Settled(after, e)
  {
    KeysOfPrefix(before, after);
    if FirstEquivalent(before, e).Some? {
      var i :| 0 <= i < |before| && before[i] == FirstEquivalent(before, e).value;
      assert after[i] == before[i];
    }
  }

  predicate KeysStored(m: map<string, string>, table: seq<UsageEvent>) { forall c :: c in m ==> m[c] in Keys(table) }

  /** Every key alignment remembers is stored by the time the rows so far are inserted. */
  lemma {:induction false} MemoryIsStored(stored: seq<UsageEvent>, events: seq<UsageEvent>)
    ensures var (m, aligned) := SimpleRun(stored, events); KeysStored(m, InsertAll(stored, aligned))
  {
    if events != [] {
      var n := |events| - 1;
      MemoryIsStored(stored, events[..n]);
      var (m, done) := SimpleRun(stored, events[..n]);
      var key := SimpleKey(stored, m, events[n]);
      StoreOneMore(m, stored, done, CanonicalKey(events[n]), events[n].(eventKey := key));
    }
  }

  lemma StoreOneMore(m: map<string, string>, stored: seq<UsageEvent>, done: seq<UsageEvent>, c: string, e: UsageEvent)
    requires KeysStored(m, InsertAll(stored, done))
    ensures KeysStored(m[c := e.eventKey], InsertAll(stored, done + [e]))
  {
    assert (done + [e])[..|done|] == done;
    InsertOneKeys(InsertAll(stored, done), e);
  }

  lemma EquivalentKeyStored(stored: seq<UsageEvent>, e: UsageEvent)
    requires FirstEquivalent(stored, e).Some?
    ensures FirstEquivalent(stored, e).value.eventKey in Keys(stored)
  {
    var i :| 0 <= i < |stored| && stored[i] == FirstEquivalent(stored, e).value;
    assert stored[i].eventKey in Keys(stored);
  }

  /** Adding or not, at one position, in terms of the key the simple rules give. */
  lemma AddsAt(stored: seq<UsageEvent>, inbox: seq<InboxRow>, events: seq<UsageEvent>, i: nat)
    requires AllClean(stored) && AllDecoded(events) && i < |events|
    ensures var (m, done) := SimpleRun(stored, events[..i]);
            var table := InsertAll(stored, done);
            Keys(stored) <= Keys(table) && KeysStored(m, table)
            && (Adds(stored, inbox, events, i) <==> SimpleKey(stored, m, events[i]) !in Keys(table))
  {
    AlignedAt(stored, inbox, events, i);
    MemoryIsStored(stored, events[..i]);
    InsertAllKeys(stored, SimpleRun(stored, events[..i]).1);
  }

  /** A settled event adds nothing, wherever it stands in a batch and however the table has grown. */
  lemma SettledAddsNothing(stored: seq<UsageEvent>, inbox: seq<InboxRow>, events: seq<UsageEvent>, i: nat)
    requires AllClean(stored) && AllDecoded(events) && i < |events|
    requires Settled(stored, events[i])
    ensures !Adds(stored, inbox, events, i)
  {
    AddsAt(stored, inbox, events, i);
    if FirstEquivalent(stored, events[i]).Some? {
      EquivalentKeyStored(stored, events[i]);
    }
  }

  /** The exact condition: some batch would add an event for e iff the table cannot account for it. */
  lemma AddsIffUnsettled(stored: seq<UsageEvent>, inbox: seq<InboxRow>, e: UsageEvent)
    requires AllClean(stored) && Decoded(e)
    ensures Adds(stored, inbox, [e], 0) <==> !Settled(stored, e)
    ensures Settled(stored, e) <==>
              forall before: seq<UsageEvent>, after: seq<UsageEvent> ::
                AllDecoded(before) && AllDecoded(after) ==> !Adds(stored, inbox, before + [e] + after, |before|)
  {
    AddsAt(stored, inbox, [e], 0);
    assert [e][..0] == [];
    if Settled(stored, e) {
      SettledAddsNothing(stored, inbox, [e], 0);
      forall before: seq<UsageEvent>, after: seq<UsageEvent> | AllDecoded(before) && AllDecoded(after)
        ensures !Adds(stored, inbox, before + [e] + after, |before|)
      {
        SettledAddsNothing(stored, inbox, before + [e] + after, |before|);
      }
    } else {
      var none: seq<UsageEvent> := [];
      assert none + [e] + none == [e];
      assert AllDecoded(none) && Adds(stored, inbox, none + [e] + none, |none|);
    }
  }

  /** Once a batch has added an event for a row, the row is settled for good: at most one attempt
      adds, with no assumption on what other events say. */
  lemma AddingSettles(stored: seq<UsageEvent>, inbox: seq<InboxRow>, events: seq<UsageEvent>, i: nat)
    requires AllClean(stored) && AllDecoded(events) && i < |events|
    requires Adds(stored, inbox, events, i)
    ensures Settled(InsertAll(stored, Aligned(stored, inbox, events)[..i + 1]), events[i])
  {
    var e := events[i];
    var aligned := Aligned(stored, inbox, events);
    var m := SimpleRun(stored, events[..i]).0;
    AddsAt(stored, inbox, events, i);
    AlignedAt(stored, inbox, events, i);
    InsertAllSnoc(stored, aligned, i);
    InsertOneKeys(InsertAll(stored, aligned[..i]), aligned[i]);
    if e.requestId == "" {
      if FirstEquivalent(stored, e).Some? {
        EquivalentKeyStored(stored, e);
      }
      assert SimpleKey(stored, m, e) == CanonicalKey(e);
    }
  }

  // ------------------------------------------------------------------------ contents

  /** Against a clean stored row the WHERE clause is equality of content. */
  lemma EquivalentIsSameContent(stored: UsageEvent, e: UsageEvent)
    requires Clean(stored)
    ensures Equivalent(stored, e) <==> ContentOf(stored) == ContentOf(e)
  {
    SqlTrimOnTrimmed(stored.apiGroupKey);
    SqlTrimOnTrimmed(stored.model);
    SqlTrimOnTrimmed(stored.source);
    SqlTrimOnTrimmed(stored.authIndex);
    TrimIsTrimmed(stored.apiGroupKey);
    TrimIsTrimmed(stored.model);
    TrimIsTrimmed(stored.source);
    TrimIsTrimmed(stored.authIndex);
  }

  lemma {:induction false} InsertAllKeepsClean(stored: seq<UsageEvent>, incoming: seq<UsageEvent>)
    requires AllClean(stored) && AllClean(incoming)
    ensures AllClean(InsertAll(stored, incoming))
  {
    if incoming != [] { InsertAllKeepsClean(stored, incoming[..|incoming| - 1]); }
  }
}

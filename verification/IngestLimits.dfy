/** Exactly which events of a batch add a row, and which are lost: an event without a request id may be
    merged into one whose request id is used again for other content. */
module IngestLimits {
  import opened Text
  import opened UsageEvents
  import opened Database
  import opened Alignment
  import opened Ingest

  // ------------------------------------------------------- what a batch accounts for

  predicate AddsKey(stored: seq<UsageEvent>, incoming: seq<UsageEvent>, i: nat)
    requires i < |incoming|
  {
    incoming[i].eventKey !in Keys(InsertAll(stored, incoming[..i]))
  }

  predicate RowOf(table: seq<UsageEvent>, k: nat, e: UsageEvent) { k < |table| && table[k] == e.(id := table[k].id) }

  /** Every row after an insert was there before or is one of the rows that were new at their turn. */
  lemma {:induction false} InsertedRowIsNew(stored: seq<UsageEvent>, incoming: seq<UsageEvent>, n: nat, k: nat)
    returns (i: nat)
    requires n <= |incoming| && |stored| <= k < |InsertAll(stored, incoming[..n])|
    ensures i < n && AddsKey(stored, incoming, i) && RowOf(InsertAll(stored, incoming[..n]), k, incoming[i])
    decreases n
  {
    assert incoming[..0] == [];
    if n == 0 {
      assert false;
    } else {
      InsertAllSnoc(stored, incoming, n - 1);
      if k < |InsertAll(stored, incoming[..n - 1])| {
        i := InsertedRowIsNew(stored, incoming, n - 1, k);
      } else {
        i := n - 1;
      }
    }
  }

  lemma NewRowIsInserted(stored: seq<UsageEvent>, incoming: seq<UsageEvent>, i: nat) returns (k: nat)
    requires i < |incoming| && AddsKey(stored, incoming, i)
    ensures RowOf(InsertAll(stored, incoming), k, incoming[i])
  {
    InsertAllSnoc(stored, incoming, i);
    InsertAllMonotone(stored, incoming, i + 1, |incoming|);
    assert incoming[..|incoming|] == incoming;
    k := |InsertAll(stored, incoming[..i])|;
  }

  /** A stored row that accounts for the id-less event c. */
  predicate Accounts(row: UsageEvent, c: UsageEvent) { row.eventKey == CanonicalKey(c) || Equivalent(row, c) }

  lemma SettledByRow(table: seq<UsageEvent>, c: UsageEvent)
    requires c.requestId == ""
    ensures Settled(table, c) <==> exists k :: 0 <= k < |table| && Accounts(table[k], c)
  {
    if CanonicalKey(c) in Keys(table) {
      var k :| 0 <= k < |table| && table[k].eventKey == CanonicalKey(c);
      assert Accounts(table[k], c);
    } else if FirstEquivalent(table, c).Some? {
      var k :| 0 <= k < |table| && table[k] == FirstEquivalent(table, c).value;
      assert Accounts(table[k], c);
    }
  }

  // ---------------------------------------------------------- which events are new

  /** The k-th event goes in under the key it came with: it has a request id, or nothing equivalent is
      stored and no event before it has its canonical key. */
  predicate KeepsKey(stored: seq<UsageEvent>, events: seq<UsageEvent>, k: nat)
    requires k < |events|
  {
    events[k].requestId != ""
    || (FirstEquivalent(stored, events[k]).None? && !Occurs(events, k, CanonicalKey(events[k])))
  }

  predicate Occurs(events: seq<UsageEvent>, n: nat, canonicalKey: string) {
    exists j :: 0 <= j < n && j < |events| && CanonicalKey(events[j]) == canonicalKey
  }

  predicate KeptBefore(stored: seq<UsageEvent>, events: seq<UsageEvent>, n: nat, key: string) {
    exists k :: 0 <= k < n && k < |events| && KeepsKey(stored, events, k) && events[k].eventKey == key
  }

  /** The i-th event is new: it keeps its key, which is neither stored nor kept by an event before it. */
  predicate IsNew(stored: seq<UsageEvent>, events: seq<UsageEvent>, i: nat)
    requires i < |events|
  {
    KeepsKey(stored, events, i) && events[i].eventKey !in Keys(stored)
    && !KeptBefore(stored, events, i, events[i].eventKey)
  }

  lemma OccursNext(events: seq<UsageEvent>, n: nat, c: string)
    requires n < |events|
    ensures Occurs(events, n + 1, c) <==> Occurs(events, n, c) || CanonicalKey(events[n]) == c
  {
    if j :| 0 <= j < n && CanonicalKey(events[j]) == c { assert j < n + 1; }
  }

  lemma SimpleRunNext(stored: seq<UsageEvent>, events: seq<UsageEvent>, n: nat)
    requires n < |events|
    ensures var m := SimpleRun(stored, events[..n]).0;
            SimpleRun(stored, events[..n + 1]).0 == m[CanonicalKey(events[n]) := SimpleKey(stored, m, events[n])]
  {
    assert events[..n + 1][..n] == events[..n] && events[..n + 1][n] == events[n];
  }

  /** Alignment remembers the canonical keys that occurred. */
  lemma {:induction false} RemembersWhatOccurred(stored: seq<UsageEvent>, events: seq<UsageEvent>, n: nat)
    requires n <= |events|
    ensures forall c :: c in SimpleRun(stored, events[..n]).0 <==> Occurs(events, n, c)
  {
    if n == 0 {
      assert events[..0] == [];
    } else {
      RemembersWhatOccurred(stored, events, n - 1);
      SimpleRunNext(stored, events, n - 1);
      forall c ensures c in SimpleRun(stored, events[..n]).0 <==> Occurs(events, n, c) { OccursNext(events, n - 1, c); }
    }
  }

  lemma ChosenKey(stored: seq<UsageEvent>, m: map<string, string>, e: UsageEvent, known: set<string>)
    requires KeysUsable(m) && Decoded(e) && Keys(stored) <= known && forall c :: c in m ==> m[c] in known
    ensures if e.requestId != "" || (FirstEquivalent(stored, e).None? && CanonicalKey(e) !in m)
            then SimpleKey(stored, m, e) == e.eventKey else SimpleKey(stored, m, e) in known
  {
    if FirstEquivalent(stored, e).Some? { EquivalentKeyStored(stored, e); }
  }

  /** An event keeps its key, or takes one that is stored or belongs to an event before it. */
  lemma AlignedKey(stored: seq<UsageEvent>, inbox: seq<InboxRow>, events: seq<UsageEvent>, k: nat)
    requires AllClean(stored) && AllDecoded(events) && k < |events|
    ensures var aligned := Aligned(stored, inbox, events);
            if KeepsKey(stored, events, k) then aligned[k].eventKey == events[k].eventKey
            else aligned[k].eventKey in Keys(stored) + Keys(aligned[..k])
  {
    var (m, done) := SimpleRun(stored, events[..k]);
    AlignedAt(stored, inbox, events, k);
    AddsAt(stored, inbox, events, k);
    InsertAllKeys(stored, done);
    SimpleMemoryUsable(stored, events[..k]);
    RemembersWhatOccurred(stored, events, k);
    ChosenKey(stored, m, events[k], Keys(stored) + Keys(done));
  }

  lemma KeptNext(stored: seq<UsageEvent>, events: seq<UsageEvent>, n: nat, key: string)
    requires n < |events|
    ensures KeptBefore(stored, events, n + 1, key)
            <==> KeptBefore(stored, events, n, key) || (KeepsKey(stored, events, n) && events[n].eventKey == key)
  {
    if k :| 0 <= k < n && KeepsKey(stored, events, k) && events[k].eventKey == key { assert k < n + 1; }
  }

  lemma KeysNext(aligned: seq<UsageEvent>, n: nat)
    requires n < |aligned|
    ensures Keys(aligned[..n + 1]) == Keys(aligned[..n]) + {aligned[n].eventKey}
  {
    assert aligned[..n + 1] == aligned[..n] + [aligned[n]] && [aligned[n]][0] == aligned[n];
    KeysAppend(aligned[..n], [aligned[n]]);
  }

  /** One more event puts a key of its own into use, or none. */
  lemma InUseNext(before: set<string>, key: string, kept: bool, taken: string, own: string, inUse: bool)
    requires if kept then taken == own else taken in before
    requires key in before <==> inUse
    ensures key in before + {taken} <==> inUse || (kept && own == key)
  {
  }

  /** The keys in use after n events are those stored and those the events kept. */
  lemma {:induction false} KeysInUse(stored: seq<UsageEvent>, inbox: seq<InboxRow>, events: seq<UsageEvent>, n: nat,
                                     key: string)
    requires AllClean(stored) && AllDecoded(events) && n <= |events|
    ensures key in Keys(stored) + Keys(Aligned(stored, inbox, events)[..n])
            <==> key in Keys(stored) || KeptBefore(stored, events, n, key)
  {
    var aligned := Aligned(stored, inbox, events);
    if n == 0 {
      assert aligned[..0] == [];
    } else {
      var before := Keys(stored) + Keys(aligned[..n - 1]);
      KeysInUse(stored, inbox, events, n - 1, key);
      KeysNext(aligned, n - 1);
      AlignedKey(stored, inbox, events, n - 1);
      KeptNext(stored, events, n - 1, key);
      InUseNext(before, key, KeepsKey(stored, events, n - 1), aligned[n - 1].eventKey, events[n - 1].eventKey,
                key in Keys(stored) || KeptBefore(stored, events, n - 1, key));
    }
  }

  /** Exactly which events of a batch add a row, in terms of the batch and the table alone; the inbox has
      no say in it. */
  lemma AddsIffNew(stored: seq<UsageEvent>, inbox: seq<InboxRow>, events: seq<UsageEvent>, i: nat)
    requires AllClean(stored) && AllDecoded(events) && i < |events|
    ensures Adds(stored, inbox, events, i) <==> IsNew(stored, events, i)
  {
    InsertAllKeys(stored, Aligned(stored, inbox, events)[..i]);
    AlignedKey(stored, inbox, events, i);
    KeysInUse(stored, inbox, events, i, events[i].eventKey);
  }

  // --------------------------------------------------------------- which rows are lost

  lemma AlignedRowAccounts(stored: seq<UsageEvent>, inbox: seq<InboxRow>, events: seq<UsageEvent>, i: nat,
                           row: UsageEvent, c: UsageEvent)
    requires AllClean(stored) && AllDecoded(events) && i < |events|
    requires row == Aligned(stored, inbox, events)[i].(id := row.id)
    ensures Accounts(row, c)
            <==> ContentOf(events[i]) == ContentOf(c) || Aligned(stored, inbox, events)[i].eventKey == CanonicalKey(c)
  {
    AlignedAt(stored, inbox, events, i);
    EquivalentIsSameContent(events[i], c);
  }

  /** The i-th event is new and accounts for c: it says the same, or its request id is c's canonical key. */
  predicate NewFor(stored: seq<UsageEvent>, events: seq<UsageEvent>, i: nat, c: UsageEvent)
    requires i < |events|
  {
    IsNew(stored, events, i) && (ContentOf(events[i]) == ContentOf(c) || events[i].eventKey == CanonicalKey(c))
  }

  predicate SomeNewFor(stored: seq<UsageEvent>, events: seq<UsageEvent>, c: UsageEvent) {
    exists i :: 0 <= i < |events| && NewFor(stored, events, i, c)
  }

  lemma NewEventKeepsKey(stored: seq<UsageEvent>, inbox: seq<InboxRow>, events: seq<UsageEvent>, i: nat)
    requires AllClean(stored) && AllDecoded(events) && i < |events| && Adds(stored, inbox, events, i)
    ensures IsNew(stored, events, i) && Aligned(stored, inbox, events)[i].eventKey == events[i].eventKey
  {
    AddsIffNew(stored, inbox, events, i);
    AlignedKey(stored, inbox, events, i);
  }

  /** An event without a request id that the table could not account for is accounted for after a batch,
      whether it is in the batch or not, exactly if some event of the batch is new for it. */
  lemma SettledAfterBatch(stored: seq<UsageEvent>, inbox: seq<InboxRow>, events: seq<UsageEvent>, c: UsageEvent)
    requires AllClean(stored) && AllDecoded(events) && c.requestId == "" && !Settled(stored, c)
    ensures Settled(InsertAll(stored, Aligned(stored, inbox, events)), c) <==> SomeNewFor(stored, events, c)
  {
    var aligned := Aligned(stored, inbox, events);
    var table := InsertAll(stored, aligned);
    SettledByRow(stored, c);
    SettledByRow(table, c);
    InsertAllKeys(stored, aligned);
    assert aligned[..|aligned|] == aligned;
    if Settled(table, c) {
      var k :| 0 <= k < |table| && Accounts(table[k], c);
      assert forall j :: 0 <= j < |stored| ==> !Accounts(stored[j], c) && table[j] == stored[j];
      var i := InsertedRowIsNew(stored, aligned, |aligned|, k);
      AlignedRowAccounts(stored, inbox, events, i, table[k], c);
      NewEventKeepsKey(stored, inbox, events, i);
      assert NewFor(stored, events, i, c);
    }
    if i :| 0 <= i < |events| && NewFor(stored, events, i, c) {
      AddsIffNew(stored, inbox, events, i);
      AlignedKey(stored, inbox, events, i);
      var k := NewRowIsInserted(stored, aligned, i);
      AlignedRowAccounts(stored, inbox, events, i, table[k], c);
      assert Accounts(table[k], c);
    }
  }

  lemma AlignedAreClean(stored: seq<UsageEvent>, inbox: seq<InboxRow>, events: seq<UsageEvent>)
    requires AllClean(stored) && AllDecoded(events)
    ensures AllClean(Aligned(stored, inbox, events))
  {
    forall i | 0 <= i < |events| ensures Clean(Aligned(stored, inbox, events)[i]) {
      AlignedAt(stored, inbox, events, i);
      SimpleMemoryUsable(stored, events[..i]);
      SimpleKeyUsable(stored, SimpleRun(stored, events[..i]).0, events[i]);
    }
  }

  /** The exact limit of merging by content, for any row of any batch: a row without a request id that the
      table cannot account for is lost exactly if no event of the batch is new for it, as when all that
      say the same before it carry request ids already in use. It is marked with a key that is stored all
      the same, and sending it once more adds an event after all. */
  lemma LostIffNoneIsNew(stored: seq<UsageEvent>, inbox: seq<InboxRow>, events: seq<UsageEvent>, q: nat)
    requires AllClean(stored) && AllDecoded(events) && q < |events|
    requires events[q].requestId == "" && !Settled(stored, events[q])
    ensures var aligned := Aligned(stored, inbox, events);
            var table := InsertAll(stored, aligned);
            aligned[q].eventKey in Keys(table)
            && (Adds(table, inbox, [events[q]], 0) <==> !SomeNewFor(stored, events, events[q]))
  {
    var aligned := Aligned(stored, inbox, events);
    InsertAllKeys(stored, aligned);
    SettledAfterBatch(stored, inbox, events, events[q]);
    AlignedAreClean(stored, inbox, events);
    InsertAllKeepsClean(stored, aligned);
    AddsIffUnsettled(InsertAll(stored, aligned), inbox, events[q]);
  }

  /** The smallest case: a request id and then none, for the same content. */
  lemma PairLosesSecond(stored: seq<UsageEvent>, inbox: seq<InboxRow>, a: UsageEvent, c: UsageEvent)
    requires AllClean(stored) && Decoded(a) && Decoded(c) && a.requestId != "" && c.requestId == ""
    requires ContentOf(a) == ContentOf(c) && !Settled(stored, c) && a.eventKey != CanonicalKey(c)
    ensures Settled(InsertAll(stored, Aligned(stored, inbox, [a, c])), c) <==> a.eventKey !in Keys(stored)
  {
    var events := [a, c];
    SettledAfterBatch(stored, inbox, events, c);
    assert CanonicalKey(events[0]) == CanonicalKey(events[1]);
    assert Occurs(events, 1, CanonicalKey(events[1]));
    assert !KeepsKey(stored, events, 1) && !KeptBefore(stored, events, 0, a.eventKey);
    assert SomeNewFor(stored, events, c) <==> NewFor(stored, events, 0, c);
  }

  /** The family of inputs that are lost: the request id of x is stored, and comes again with the content
      of c beside an event that says the same and has no request id. */
  lemma ReusedRequestIdLosesRow(x: UsageEvent, c: UsageEvent, inbox: seq<InboxRow>)
    requires Decoded(x) && x.requestId != "" && Decoded(c) && c.requestId == ""
    requires ContentOf(x) != ContentOf(c) && x.eventKey != CanonicalKey(c)
    ensures var a := c.(requestId := x.requestId, eventKey := x.eventKey);
            Decoded(a) && ContentOf(a) == ContentOf(c)
            && !Settled([x], c) && !Settled(InsertAll([x], Aligned([x], inbox, [a, c])), c)
  {
    var a := c.(requestId := x.requestId, eventKey := x.eventKey);
    assert ContentOf(a) == ContentOf(c);
    assert Keys([x]) == {x.eventKey} by { assert [x][0].eventKey == x.eventKey; }
    EquivalentIsSameContent(x, c);
    PairLosesSecond([x], inbox, a, c);
  }

  /** An event for a model, but for its key. */
  function Bare(model: string, requestId: string): UsageEvent {
    UsageEvent(0, requestId, "unknown", "", "", "", requestId, model, 0, "", "", false, 0, TokenStats(1, 0, 0, 0, 1))
  }

  lemma CanonicalKeyIgnoresKey(e: UsageEvent, key: string)
    ensures CanonicalKey(e.(eventKey := key)) == CanonicalKey(e) && |CanonicalKey(e)| >= 2
    ensures ContentOf(e.(eventKey := key)) == ContentOf(e)
  {
  }

  lemma BareIsDecoded(e: UsageEvent)
    requires e.apiGroupKey == "unknown" && Trimmed(e.model) && e.source == "" == e.authIndex
    requires e.tokens == TokenStats(1, 0, 0, 0, 1) && Trimmed(e.requestId)
    requires e.eventKey == if e.requestId == "" then CanonicalKey(e) else e.requestId
    ensures Decoded(e) && ContentOf(e).model == e.model
  {
    TrimIsTrimmed(e.model);
  }

  lemma WithId(model: string, requestId: string) returns (e: UsageEvent)
    requires Trimmed(model) && Trimmed(requestId) && requestId != ""
    ensures Decoded(e) && e.requestId == requestId == e.eventKey && e.model == model == ContentOf(e).model
  {
    e := Bare(model, requestId);
    BareIsDecoded(e);
  }

  lemma WithoutId(model: string) returns (e: UsageEvent)
    requires Trimmed(model)
    ensures Decoded(e) && e.requestId == "" && e.model == model == ContentOf(e).model && |CanonicalKey(e)| >= 2
  {
    var bare := Bare(model, "");
    e := bare.(eventKey := CanonicalKey(bare));
    CanonicalKeyIgnoresKey(bare, e.eventKey);
    BareIsDecoded(e);
  }

  /** One of them: "r" is stored for model "n", and then comes for model "m". */
  lemma SampleIsLost(inbox: seq<InboxRow>) returns (x: UsageEvent, a: UsageEvent, c: UsageEvent)
    ensures x.requestId == "r" == a.requestId && c.requestId == "" && x.model == "n" && a.model == "m" == c.model
    ensures Decoded(x) && Decoded(a) && Decoded(c) && ContentOf(a) == ContentOf(c)
    ensures !Settled([x], c) && !Settled(InsertAll([x], Aligned([x], inbox, [a, c])), c)
  {
    x := WithId("n", "r");
    c := WithoutId("m");
    a := c.(requestId := x.requestId, eventKey := x.eventKey);
    ReusedRequestIdLosesRow(x, c, inbox);
  }
}

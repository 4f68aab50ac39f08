/** Pulling messages into the inbox and draining the inbox into the event table, with every statement
    that can fail on the way (internal/service/sync.go). */
module Ingest {
  import opened Text
  import opened Calendar
  import opened UsageEvents
  import opened Database
  import opened Alignment

  /** Which statements of one Process call fail. A crash between two statements is the case in which
      every later mark fails too. */
  datatype Faults = Faults(markFails: set<nat>, readFails: ReadFaults, insertFailsAt: Option<nat>)

  datatype PullOutcome = PopFailed | NothingPopped | Lost | Stored(rows: nat)

  datatype Outcome =
    | Empty
    | Failed
    | Completed(inserted: nat, deduped: nat)
    | CompletedWithWarnings(inserted: nat, deduped: nat)

  datatype Target = Target(id: nat, mark: Mark)

  /** Writing marks row by row; `stop` is whether the first failing statement ends the pass. */
  function MarkPass(inbox: seq<InboxRow>, targets: seq<Target>, at: Instant, fails: set<nat>,
                    stop: bool): (r: (seq<InboxRow>, bool))
    ensures |r.0| == |inbox|
    ensures !stop || fails == {} ==> r.1
  {
    if targets == [] then (inbox, true)
    else
      var n := |targets| - 1;
      var (done, ok) := MarkPass(inbox, targets[..n], at, fails, stop);
      if !ok then (done, false)
      else if targets[n].id in fails then (done, !stop)
      else (MarkById(done, targets[n].id, targets[n].mark, at), true)
  }

  predicate DistinctTargets(targets: seq<Target>) {
    forall i, j :: 0 <= i < j < |targets| ==> targets[i].id != targets[j].id
  }

  /** Each row is left alone or carries exactly its own mark, and carries it if its statement worked. */
  lemma {:induction false} MarkPassRow(inbox: seq<InboxRow>, targets: seq<Target>, at: Instant, fails: set<nat>,
                                       stop: bool, k: nat)
    requires k < |inbox| && DistinctTargets(targets)
    ensures var (after, ok) := MarkPass(inbox, targets, at, fails, stop);
            after[k] == inbox[k]
            || exists j :: 0 <= j < |targets| && targets[j].id == inbox[k].id
                 && after[k] == MarkRow(inbox[k], targets[j].mark, at)
    ensures var (after, ok) := MarkPass(inbox, targets, at, fails, stop);
            (forall j :: 0 <= j < |targets| ==> targets[j].id != inbox[k].id) ==> after[k] == inbox[k]
    ensures var (after, ok) := MarkPass(inbox, targets, at, fails, stop);
            ok ==> forall j :: 0 <= j < |targets| && targets[j].id == inbox[k].id && targets[j].id !in fails
                               ==> after[k] == MarkRow(inbox[k], targets[j].mark, at)
  {
    if targets != [] {
      var n := |targets| - 1;
      MarkPassRow(inbox, targets[..n], at, fails, stop, k);
      assert forall j :: 0 <= j < n ==> targets[..n][j] == targets[j];
    }
  }

  // ----------------------------------------------------------- one Process call

  function DecodeTargets(listed: seq<InboxRow>): seq<Target> {
    if listed == [] then []
    else
      var n := |listed| - 1;
      DecodeTargets(listed[..n]) + if listed[n].message.Malformed? then [Target(listed[n].id, Undecodable)] else []
  }

  function ValidRows(listed: seq<InboxRow>): (valid: seq<InboxRow>)
    ensures forall i :: 0 <= i < |valid| ==> valid[i].message.Usage?
  {
    if listed == [] then []
    else
      var n := |listed| - 1;
      ValidRows(listed[..n]) + if listed[n].message.Usage? then [listed[n]] else []
  }

  function EventsOf(valid: seq<InboxRow>, at: Instant): (events: seq<UsageEvent>)
    requires forall i :: 0 <= i < |valid| ==> valid[i].message.Usage?
    ensures |events| == |valid|
    ensures forall i :: 0 <= i < |valid| ==> events[i] == ToUsageEvent(valid[i].message.detail, at)
  {
    seq(|valid|, i requires 0 <= i < |valid| => ToUsageEvent(valid[i].message.detail, at))
  }

  function FailTargets(valid: seq<InboxRow>): (targets: seq<Target>)
    ensures |targets| == |valid|
    ensures forall i :: 0 <= i < |valid| ==> targets[i] == Target(valid[i].id, Unprocessed)
  {
    seq(|valid|, i requires 0 <= i < |valid| => Target(valid[i].id, Unprocessed))
  }

  function DoneTargets(valid: seq<InboxRow>, aligned: seq<UsageEvent>): (targets: seq<Target>)
    requires |aligned| == |valid|
    ensures |targets| == |valid|
    ensures forall i :: 0 <= i < |valid| ==> targets[i] == Target(valid[i].id, Done(aligned[i].eventKey))
  {
    seq(|valid|, i requires 0 <= i < |valid| => Target(valid[i].id, Done(aligned[i].eventKey)))
  }

  datatype Db = Db(events: seq<UsageEvent>, inbox: seq<InboxRow>, nextInboxId: nat)

  /** What inserting a batch and marking its rows leaves behind. */
  datatype Persisted = Persisted(events: seq<UsageEvent>, inbox: seq<InboxRow>, ok: bool, inserted: nat)

  predicate InsertStops(f: Faults, n: nat) { f.insertFailsAt.Some? && f.insertFailsAt.value * 100 < n }

  /** How many rows of a batch of n are in committed chunks. */
  function InsertedRows(f: Faults, n: nat): (m: nat)
    ensures m <= n
  {
    if InsertStops(f, n) then f.insertFailsAt.value * 100 else n
  }

  function InsertAndMark(events: seq<UsageEvent>, inbox: seq<InboxRow>, valid: seq<InboxRow>, aligned: seq<UsageEvent>,
                         at: Instant, f: Faults): (r: Persisted)
    requires |aligned| == |valid|
    ensures r.inserted <= |valid|
  {
    var events' := InsertAll(events, aligned[..InsertedRows(f, |aligned|)]);
    if InsertStops(f, |aligned|)
      then Persisted(events', MarkPass(inbox, FailTargets(valid), at, f.markFails, false).0, false, 0)
    else
      var (inbox', ok) := MarkPass(inbox, DoneTargets(valid, aligned), at, f.markFails, true);
      InsertAllCount(events, aligned);
      Persisted(events', inbox', ok, if ok then NewRows(events, aligned) else 0)
  }

  function Persist(events: seq<UsageEvent>, inbox: seq<InboxRow>, valid: seq<InboxRow>, at: Instant,
                   f: Faults): (r: Persisted)
    requires forall i :: 0 <= i < |valid| ==> valid[i].message.Usage?
    ensures r.inserted <= |valid|
  {
    if AlignFails(events, inbox, EventsOf(valid, at), f.readFails) then
      Persisted(events, MarkPass(inbox, FailTargets(valid), at, f.markFails, false).0, false, 0)
    else InsertAndMark(events, inbox, valid, Aligned(events, inbox, EventsOf(valid, at)), at, f)
  }

  /** ProcessRedisUsageInbox as a function of the database it finds. */
  function Process(db: Db, at: Instant, f: Faults): (Db, Outcome) {
    var listed := ListProcessable(db.inbox);
    if listed == [] then (db, Empty) else ProcessListed(db, listed, at, f)
  }

  function ProcessListed(db: Db, listed: seq<InboxRow>, at: Instant, f: Faults): (Db, Outcome) {
    var (inbox, decoded) := MarkPass(db.inbox, DecodeTargets(listed), at, f.markFails, true);
    var valid := ValidRows(listed);
    if !decoded then (db.(inbox := inbox), Failed)
    else if valid == [] then (db.(inbox := inbox), CompletedWithWarnings(0, 0))
    else
      var r := Persist(db.events, inbox, valid, at, f);
      (Db(r.events, r.inbox, db.nextInboxId), Report(r.ok, r.inserted, |valid|, |listed|))
  }

  function Report(ok: bool, inserted: nat, valid: nat, listed: nat): Outcome
    requires inserted <= valid
  {
    if !ok then Failed
    else if valid < listed then CompletedWithWarnings(inserted, valid - inserted)
    else Completed(inserted, valid - inserted)
  }

  lemma ListedResult(db: Db, listed: seq<InboxRow>, at: Instant, f: Faults, inbox: seq<InboxRow>, valid: seq<InboxRow>,
                     r: Persisted)
    requires MarkPass(db.inbox, DecodeTargets(listed), at, f.markFails, true) == (inbox, true)
    requires valid == ValidRows(listed) && valid != []
    requires r == Persist(db.events, inbox, valid, at, f)
    ensures r.inserted <= |valid|
    ensures ProcessListed(db, listed, at, f)
            == (Db(r.events, r.inbox, db.nextInboxId), Report(r.ok, r.inserted, |valid|, |listed|))
  {
  }

  lemma AlignedResult(events: seq<UsageEvent>, inbox: seq<InboxRow>, valid: seq<InboxRow>, aligned: seq<UsageEvent>,
                      at: Instant, f: Faults, r: Persisted)
    requires forall i :: 0 <= i < |valid| ==> valid[i].message.Usage?
    requires !AlignFails(events, inbox, EventsOf(valid, at), f.readFails)
    requires aligned == Aligned(events, inbox, EventsOf(valid, at)) && |aligned| == |valid|
    requires r == InsertAndMark(events, inbox, valid, aligned, at, f)
    ensures Persist(events, inbox, valid, at, f) == r
  {
  }

  lemma UnalignedResult(stored: seq<UsageEvent>, inbox: seq<InboxRow>, valid: seq<InboxRow>, events: seq<UsageEvent>,
                        at: Instant, f: Faults, after: seq<InboxRow>)
    requires (forall i :: 0 <= i < |valid| ==> valid[i].message.Usage?) && events == EventsOf(valid, at)
    requires AlignFails(stored, inbox, events, f.readFails)
             && after == MarkPass(inbox, FailTargets(valid), at, f.markFails, false).0
    ensures Persist(stored, inbox, valid, at, f) == Persisted(stored, after, false, 0)
  {
  }

  class SyncService {
    const db: UsageDatabase

    constructor (db: UsageDatabase)
      ensures this.db == db
    {
      this.db := db;
    }

    function State(): Db
      reads this, db
    {
      Db(db.events, db.inbox, db.nextInboxId)
    }

    /** `popped` is what the pop returned, or None if it failed. When the insert after it fails, the
        messages have left the queue and are in no row. */
    method PullRedisUsageInbox(popped: Option<seq<Message>>, fetchedAt: Instant, insertFails: bool)
      returns (outcome: PullOutcome)
      modifies db
      ensures outcome == if popped.None? then PopFailed else if popped.value == [] then NothingPopped
                         else if insertFails then Lost else Stored(|popped.value|)
      ensures State() == if outcome.Stored? then Pull(old(State()), popped.value, fetchedAt) else old(State())
    {
      if popped.None? {
        return PopFailed;
      }
      if popped.value == [] {
        return NothingPopped;
      }
      var ok := db.InsertRedisUsageInboxMessages(popped.value, fetchedAt, insertFails);
      return if ok then Stored(|popped.value|) else Lost;
    }

    method ProcessRedisUsageInbox(fetchedAt: Instant, faults: Faults) returns (outcome: Outcome)
      modifies db
      ensures (State(), outcome) == Process(old(State()), fetchedAt, faults)
    {
      var listed := ListProcessable(db.inbox);
      if listed == [] {
        return Empty;
      }
      outcome := ProcessRedisInboxRows(listed, fetchedAt, faults);
    }

    method ProcessRedisInboxRows(listed: seq<InboxRow>, fetchedAt: Instant, faults: Faults) returns (outcome: Outcome)
      modifies db
      ensures (Db(db.events, db.inbox, db.nextInboxId), outcome)
              == ProcessListed(Db(old(db.events), old(db.inbox), old(db.nextInboxId)), listed, fetchedAt, faults)
    {
      var decoded, validRows, events := DecodeRows(listed, fetchedAt, faults.markFails);
      if !decoded {
        return Failed;
      }
      if |events| == 0 {
        return CompletedWithWarnings(0, 0);
      }
      ghost var inbox := db.inbox;
      var ok, inserted := PersistRows(validRows, events, fetchedAt, faults);
      ListedResult(Db(old(db.events), old(db.inbox), db.nextInboxId), listed, fetchedAt, faults, inbox, validRows,
                   Persisted(db.events, db.inbox, ok, inserted));
      outcome := Report(ok, inserted, |validRows|, |listed|);
    }

    method DecodeRows(listed: seq<InboxRow>, fetchedAt: Instant, markFails: set<nat>)
      returns (ok: bool, validRows: seq<InboxRow>, events: seq<UsageEvent>)
      modifies db`inbox
      ensures (db.inbox, ok) == MarkPass(old(db.inbox), DecodeTargets(listed), fetchedAt, markFails, true)
      ensures ok ==> validRows == ValidRows(listed) && events == EventsOf(validRows, fetchedAt)
    {
      validRows, events := [], [];
      var i := 0;
      while i < |listed|
        invariant 0 <= i <= |listed|
        invariant (db.inbox, true) == MarkPass(old(db.inbox), DecodeTargets(listed[..i]), fetchedAt, markFails, true)
        invariant validRows == ValidRows(listed[..i])
        invariant events == EventsOf(validRows, fetchedAt)
      {
        ListedSnoc(listed, i);
        var row := listed[i];
        if row.message.Malformed? {
          DecodePassNext(old(db.inbox), listed, i, fetchedAt, markFails);
          if row.id in markFails {
            return false, validRows, events;
          }
          db.MarkRedisUsageInbox(row.id, Undecodable, fetchedAt);
        } else {
          EventsOfSnoc(validRows, row, fetchedAt);
          validRows := validRows + [row];
          events := events + [ToUsageEvent(row.message.detail, fetchedAt)];
        }
        i := i + 1;
      }
      assert listed[..i] == listed;
      ok := true;
    }

    /** Aligns, inserts and marks. The rows are marked with the keys that alignment left in the slice
        the caller passed it. */
    method PersistRows(validRows: seq<InboxRow>, events: seq<UsageEvent>, fetchedAt: Instant, faults: Faults)
      returns (ok: bool, inserted: nat)
      requires forall i :: 0 <= i < |validRows| ==> validRows[i].message.Usage?
      requires events == EventsOf(validRows, fetchedAt)
      modifies db
      ensures Persisted(db.events, db.inbox, ok, inserted)
              == Persist(old(db.events), old(db.inbox), validRows, fetchedAt, faults)
      ensures db.nextInboxId == old(db.nextInboxId)
    {
      var aligned, slice := AlignBatch(events, faults.readFails);
      if !aligned {
        var _ := MarkRows(FailTargets(validRows), fetchedAt, faults.markFails, false);
        UnalignedResult(db.events, old(db.inbox), validRows, events, fetchedAt, faults, db.inbox);
        return false, 0;
      }
      ghost var batch, rows := slice[..], old(db.events);
      ok, inserted := InsertRows(validRows, slice, fetchedAt, faults);
      AlignedResult(rows, old(db.inbox), validRows, batch, fetchedAt, faults,
                    Persisted(db.events, db.inbox, ok, inserted));
    }

    /** The slice the caller goes on with is the one alignment rewrote. */
    method AlignBatch(events: seq<UsageEvent>, readFails: ReadFaults) returns (ok: bool, slice: array<UsageEvent>)
      ensures fresh(slice) && slice.Length == |events|
      ensures ok ==> slice[..] == Aligned(db.events, db.inbox, events)
      ensures !ok <==> AlignFails(db.events, db.inbox, events, readFails)
    {
      slice := new UsageEvent[|events|](i requires 0 <= i < |events| => events[i]);
      assert slice[..] == events;
      ok := AlignUsageEventKeys(db, slice, readFails);
    }

    method InsertRows(validRows: seq<InboxRow>, slice: array<UsageEvent>, fetchedAt: Instant, faults: Faults)
      returns (ok: bool, inserted: nat)
      requires slice.Length == |validRows|
      modifies db
      ensures Persisted(db.events, db.inbox, ok, inserted)
              == InsertAndMark(old(db.events), old(db.inbox), validRows, slice[..], fetchedAt, faults)
      ensures db.nextInboxId == old(db.nextInboxId)
    {
      var deduped: nat;
      ok, inserted, deduped := db.InsertUsageEvents(slice[..], faults.insertFailsAt);
      if !ok {
        var _ := MarkRows(FailTargets(validRows), fetchedAt, faults.markFails, false);
        return false, 0;
      }
      assert slice[..][..|slice[..]|] == slice[..];
      ok := MarkRows(DoneTargets(validRows, slice[..]), fetchedAt, faults.markFails, true);
      if !ok {
        inserted := 0;
      }
    }

    method MarkRows(targets: seq<Target>, fetchedAt: Instant, markFails: set<nat>, stop: bool) returns (ok: bool)
      modifies db`inbox
      ensures (db.inbox, ok) == MarkPass(old(db.inbox), targets, fetchedAt, markFails, stop)
    {
      ok := true;
      var i := 0;
      while i < |targets|
        invariant 0 <= i <= |targets|
        invariant (db.inbox, true) == MarkPass(old(db.inbox), targets[..i], fetchedAt, markFails, stop)
      {
        assert targets[..i + 1][..i] == targets[..i];
        if targets[i].id in markFails {
          if stop {
            MarkPassStops(old(db.inbox), targets, i + 1, fetchedAt, markFails);
            return false;
          }
        } else {
          db.MarkRedisUsageInbox(targets[i].id, targets[i].mark, fetchedAt);
        }
        i := i + 1;
      }
      assert targets[..i] == targets;
    }
  }

  lemma MarkPassSnoc(inbox: seq<InboxRow>, targets: seq<Target>, t: Target, at: Instant, fails: set<nat>, stop: bool)
    ensures var (done, ok) := MarkPass(inbox, targets, at, fails, stop);
            MarkPass(inbox, targets + [t], at, fails, stop)
            == if !ok then (done, false) else if t.id in fails then (done, !stop)
               else (MarkById(done, t.id, t.mark, at), true)
  {
    assert (targets + [t])[..|targets|] == targets;
  }

  lemma DecodePassNext(inbox: seq<InboxRow>, listed: seq<InboxRow>, i: nat, at: Instant, fails: set<nat>)
    requires i < |listed| && listed[i].message.Malformed?
    requires MarkPass(inbox, DecodeTargets(listed[..i]), at, fails, true).1
    ensures var done := MarkPass(inbox, DecodeTargets(listed[..i]), at, fails, true).0;
            if listed[i].id in fails then MarkPass(inbox, DecodeTargets(listed), at, fails, true) == (done, false)
            else MarkPass(inbox, DecodeTargets(listed[..i + 1]), at, fails, true)
                 == (MarkById(done, listed[i].id, Undecodable, at), true)
  {
    ListedSnoc(listed, i);
    DecodeTargetsPrefix(listed, i + 1);
    PassNext(inbox, DecodeTargets(listed), DecodeTargets(listed[..i]), Target(listed[i].id, Undecodable), at, fails);
  }

  /** A pass that starts with the given targets and then t either stops at t or goes on past it. */
  lemma PassNext(inbox: seq<InboxRow>, all: seq<Target>, first: seq<Target>, t: Target, at: Instant, fails: set<nat>)
    requires first + [t] <= all && MarkPass(inbox, first, at, fails, true).1
    ensures var done := MarkPass(inbox, first, at, fails, true).0;
            if t.id in fails then MarkPass(inbox, all, at, fails, true) == (done, false)
            else MarkPass(inbox, first + [t], at, fails, true) == (MarkById(done, t.id, t.mark, at), true)
  {
    MarkPassSnoc(inbox, first, t, at, fails, true);
    if t.id in fails {
      assert all[..|first| + 1] == first + [t];
      MarkPassStops(inbox, all, |first| + 1, at, fails);
    }
  }

  lemma ListedSnoc(listed: seq<InboxRow>, i: nat)
    requires i < |listed|
    ensures DecodeTargets(listed[..i + 1])
            == if listed[i].message.Malformed? then DecodeTargets(listed[..i]) + [Target(listed[i].id, Undecodable)]
               else DecodeTargets(listed[..i])
    ensures ValidRows(listed[..i + 1])
            == if listed[i].message.Usage? then ValidRows(listed[..i]) + [listed[i]] else ValidRows(listed[..i])
  {
    assert listed[..i + 1][..i] == listed[..i];
  }

  lemma EventsOfSnoc(valid: seq<InboxRow>, row: InboxRow, at: Instant)
    requires (forall i :: 0 <= i < |valid| ==> valid[i].message.Usage?) && row.message.Usage?
    ensures EventsOf(valid + [row], at) == EventsOf(valid, at) + [ToUsageEvent(row.message.detail, at)]
  {
    assert forall i :: 0 <= i < |valid| ==> (valid + [row])[i] == valid[i];
  }

  lemma {:induction false} MarkPassStops(inbox: seq<InboxRow>, targets: seq<Target>, n: nat, at: Instant,
                                         fails: set<nat>)
    requires n <= |targets| && !MarkPass(inbox, targets[..n], at, fails, true).1
    ensures MarkPass(inbox, targets, at, fails, true) == MarkPass(inbox, targets[..n], at, fails, true)
    decreases |targets|
  {
    if n == |targets| {
      assert targets[..n] == targets;
    } else {
      assert targets[..|targets| - 1][..n] == targets[..n];
      MarkPassStops(inbox, targets[..|targets| - 1], n, at, fails);
    }
  }

  lemma {:induction false} DecodeTargetsPrefix(listed: seq<InboxRow>, i: nat)
    requires i <= |listed|
    ensures DecodeTargets(listed[..i]) <= DecodeTargets(listed)
    decreases |listed|
  {
    if i == |listed| {
      assert listed[..i] == listed;
    } else {
      assert listed[..|listed| - 1][..i] == listed[..i];
      DecodeTargetsPrefix(listed[..|listed| - 1], i);
    }
  }

  // ------------------------------------------------------------------ a listing's rows

  predicate DecodeTargetOf(t: Target, listed: seq<InboxRow>) {
    exists i :: 0 <= i < |listed| && listed[i].message.Malformed? && t == Target(listed[i].id, Undecodable)
  }

  lemma DecodeTargetSnoc(t: Target, listed: seq<InboxRow>)
    requires listed != []
    ensures var n := |listed| - 1;
            DecodeTargetOf(t, listed)
            <==> DecodeTargetOf(t, listed[..n])
                 || (listed[n].message.Malformed? && t == Target(listed[n].id, Undecodable))
  {
    var n := |listed| - 1;
    var before := listed[..n];
    if DecodeTargetOf(t, before) {
      var i :| 0 <= i < n && before[i].message.Malformed? && t == Target(before[i].id, Undecodable);
      assert listed[i].message.Malformed?;
    }
    if DecodeTargetOf(t, listed) {
      var i :| 0 <= i < |listed| && listed[i].message.Malformed? && t == Target(listed[i].id, Undecodable);
      assert i < n ==> before[i].message.Malformed?;
    }
  }

  lemma {:induction false} DecodeTargetsAre(listed: seq<InboxRow>)
    requires IdsAscend(listed)
    ensures DistinctTargets(DecodeTargets(listed))
    ensures forall t :: t in DecodeTargets(listed) <==> DecodeTargetOf(t, listed)
  {
    if listed != [] {
      var n := |listed| - 1;
      var before := listed[..n];
      DecodeTargetsAre(before);
      forall t | t in DecodeTargets(before) ensures t.id < listed[n].id {
        var i :| 0 <= i < |before| && before[i].message.Malformed? && t == Target(before[i].id, Undecodable);
      }
      forall t ensures t in DecodeTargets(listed) <==> DecodeTargetOf(t, listed) { DecodeTargetSnoc(t, listed); }
    }
  }

  lemma {:induction false} ValidRowsAre(listed: seq<InboxRow>)
    requires IdsAscend(listed)
    ensures IdsAscend(ValidRows(listed))
    ensures forall r :: r in ValidRows(listed) <==> r in listed && r.message.Usage?
  {
    if listed != [] {
      var n := |listed| - 1;
      var before, v := listed[..n], ValidRows(listed[..n]);
      ValidRowsAre(before);
      assert listed == before + [listed[n]];
      forall i | 0 <= i < |v| ensures v[i].id < listed[n].id {
        assert v[i] in before;
        var j :| 0 <= j < n && listed[j] == v[i];
      }
    }
  }

  lemma SameIdSameRow(inbox: seq<InboxRow>, r: InboxRow, k: nat)
    requires IdsAscend(inbox) && r in inbox && k < |inbox| && r.id == inbox[k].id
    ensures r == inbox[k]
  {
    var j :| 0 <= j < |inbox| && inbox[j] == r;
    assert j == k;
  }

  function Pull(db: Db, messages: seq<Message>, at: Instant): Db {
    Db(db.events, db.inbox + NewInboxRows(messages, db.nextInboxId, at), db.nextInboxId + |messages|)
  }
}

/** The two tables the ingest pipeline writes, one SQL statement at a time
    (internal/repository/db.go, internal/repository/redis_usage_inbox.go). */
module Database {
  import opened Text
  import opened Calendar
  import opened UsageEvents

  // ------------------------------------------------------------- usage_events

  function Keys(events: seq<UsageEvent>): set<string> { set i | 0 <= i < |events| :: events[i].eventKey }

  function NextEventId(events: seq<UsageEvent>): nat { if events == [] then 1 else events[|events| - 1].id + 1 }

  /** One row of INSERT ... ON CONFLICT (event_key) DO NOTHING. */
  function InsertOne(events: seq<UsageEvent>, e: UsageEvent): seq<UsageEvent> {
    if e.eventKey in Keys(events) then events else events + [e.(id := NextEventId(events))]
  }

  /** The rows in order: an insert-if-absent fold. */
  function InsertAll(events: seq<UsageEvent>, incoming: seq<UsageEvent>): seq<UsageEvent> {
    if incoming == [] then events
    else InsertOne(InsertAll(events, incoming[..|incoming| - 1]), incoming[|incoming| - 1])
  }

  lemma InsertOneKeys(events: seq<UsageEvent>, e: UsageEvent)
    ensures Keys(InsertOne(events, e)) == Keys(events) + {e.eventKey}
  {
    var r := InsertOne(events, e);
    if e.eventKey !in Keys(events) {
      assert forall i :: 0 <= i < |events| ==> r[i] == events[i];
      assert r[|events|].eventKey == e.eventKey;
      forall k | k in Keys(r) ensures k in Keys(events) + {e.eventKey} {
        var i :| 0 <= i < |r| && r[i].eventKey == k;
        if i < |events| { assert events[i].eventKey == k; }
      }
      forall k | k in Keys(events) ensures k in Keys(r) {
        var i :| 0 <= i < |events| && events[i].eventKey == k;
        assert r[i].eventKey == k;
      }
    }
  }

  /** Inserting never touches a stored row, and stores exactly the missing keys. */
  lemma {:induction false} InsertAllKeys(events: seq<UsageEvent>, incoming: seq<UsageEvent>)
    ensures events <= InsertAll(events, incoming)
    ensures Keys(InsertAll(events, incoming)) == Keys(events) + Keys(incoming)
  {
    if incoming == [] {
    } else {
      var n := |incoming| - 1;
      InsertAllKeys(events, incoming[..n]);
      InsertOneKeys(InsertAll(events, incoming[..n]), incoming[n]);
      assert incoming == incoming[..n] + [incoming[n]];
      forall k | k in Keys(incoming) ensures k in Keys(incoming[..n]) + {incoming[n].eventKey} {
        var i :| 0 <= i < |incoming| && incoming[i].eventKey == k;
        if i < n { assert incoming[..n][i].eventKey == k; }
      }
      forall k | k in Keys(incoming[..n]) ensures k in Keys(incoming) {
        var i :| 0 <= i < n && incoming[..n][i].eventKey == k;
        assert incoming[i].eventKey == k;
      }
    }
  }

  lemma KeysOfPrefix(a: seq<UsageEvent>, b: seq<UsageEvent>)
    requires a <= b
    ensures Keys(a) <= Keys(b)
  {
    forall k | k in Keys(a) ensures k in Keys(b) {
      var i :| 0 <= i < |a| && a[i].eventKey == k;
      assert b[i].eventKey == k;
    }
  }

  lemma KeysAppend(a: seq<UsageEvent>, b: seq<UsageEvent>)
    ensures Keys(a + b) == Keys(a) + Keys(b)
  {
    forall i | 0 <= i < |a| ensures a[i].eventKey in Keys(a + b) { assert (a + b)[i] == a[i]; }
    forall i | 0 <= i < |b| ensures b[i].eventKey in Keys(a + b) { assert (a + b)[|a| + i] == b[i]; }
  }

  /** Inserting chunk after chunk is inserting the whole list. */
  lemma {:induction false} InsertAllAppend(events: seq<UsageEvent>, a: seq<UsageEvent>, b: seq<UsageEvent>)
    ensures InsertAll(events, a + b) == InsertAll(InsertAll(events, a), b)
  {
    if b == [] {
      assert a + b == a;
    } else {
      InsertAllAppend(events, a, b[..|b| - 1]);
      assert (a + b)[..|a + b| - 1] == a + b[..|b| - 1];
    }
  }

  lemma InsertAllSnoc(events: seq<UsageEvent>, incoming: seq<UsageEvent>, i: nat)
    requires i < |incoming|
    ensures InsertAll(events, incoming[..i + 1]) == InsertOne(InsertAll(events, incoming[..i]), incoming[i])
  {
    assert incoming[..i + 1][..i] == incoming[..i];
  }

  lemma InsertAllMonotone(events: seq<UsageEvent>, incoming: seq<UsageEvent>, i: nat, j: nat)
    requires i <= j <= |incoming|
    ensures InsertAll(events, incoming[..i]) <= InsertAll(events, incoming[..j])
  {
    assert incoming[..j] == incoming[..i] + incoming[i..j];
    InsertAllAppend(events, incoming[..i], incoming[i..j]);
    InsertAllKeys(InsertAll(events, incoming[..i]), incoming[i..j]);
  }

  /** How many of the incoming rows are new when their turn comes. */
  function NewRows(events: seq<UsageEvent>, incoming: seq<UsageEvent>): nat {
    if incoming == [] then 0
    else
      var n := |incoming| - 1;
      NewRows(events, incoming[..n])
      + if incoming[n].eventKey in Keys(InsertAll(events, incoming[..n])) then 0 else 1
  }

  lemma {:induction false} InsertAllCount(events: seq<UsageEvent>, incoming: seq<UsageEvent>)
    ensures |InsertAll(events, incoming)| == |events| + NewRows(events, incoming)
    ensures NewRows(events, incoming) <= |incoming|
  {
    if incoming != [] { InsertAllCount(events, incoming[..|incoming| - 1]); }
  }

  /** The unique index and the strictly increasing row ids. */
  predicate TableOk(events: seq<UsageEvent>) {
    (forall i, j :: 0 <= i < j < |events| ==> events[i].id < events[j].id && events[i].eventKey != events[j].eventKey)
    && (forall i :: 0 <= i < |events| ==> events[i].id > 0)
  }

  lemma {:induction false} InsertAllTableOk(events: seq<UsageEvent>, incoming: seq<UsageEvent>)
    requires TableOk(events)
    ensures TableOk(InsertAll(events, incoming))
  {
    if incoming != [] {
      var n := |incoming| - 1;
      InsertAllTableOk(events, incoming[..n]);
      var t, e := InsertAll(events, incoming[..n]), incoming[n];
      if e.eventKey !in Keys(t) {
        forall i | 0 <= i < |t| ensures t[i].id < NextEventId(t) && t[i].eventKey != e.eventKey {
          assert t[i].eventKey in Keys(t);
          if i < |t| - 1 { assert t[i].id < t[|t| - 1].id; }
        }
      }
    }
  }

  // -------------------------------------------------------- redis_usage_inboxes

  datatype Status = Pending | Processed | DecodeFailed | ProcessFailed | Discarded

  const MAX_PROCESS_ATTEMPTS: nat := 5
  const PROCESS_LIMIT: nat := 1000

  datatype InboxRow = InboxRow(id: nat, message: Message, status: Status, attempts: nat, usageEventKey: string,
                               processedAt: Option<Instant>, updatedAt: Instant)

  predicate Processable(r: InboxRow) { r.status == Pending || r.status == ProcessFailed }

  predicate Terminal(r: InboxRow) { !Processable(r) }

  /** UPDATE redis_usage_inboxes SET ... WHERE id = ?. */
  function UpdateRow(rows: seq<InboxRow>, id: nat, update: InboxRow -> InboxRow): (r: seq<InboxRow>)
    ensures |r| == |rows|
    ensures forall i :: 0 <= i < |rows| ==> r[i] == if rows[i].id == id then update(rows[i]) else rows[i]
  {
    seq(|rows|, i requires 0 <= i < |rows| => if rows[i].id == id then update(rows[i]) else rows[i])
  }

  /** What one Mark* statement writes. */
  datatype Mark = Done(key: string) | Undecodable | Unprocessed

  function MarkRow(r: InboxRow, mark: Mark, at: Instant): InboxRow {
    match mark
    case Done(key) => r.(status := Processed, usageEventKey := key, processedAt := Some(at), updatedAt := at)
    case Undecodable => r.(status := DecodeFailed, attempts := r.attempts + 1, updatedAt := at)
    case Unprocessed =>
      r.(status := if r.attempts + 1 >= MAX_PROCESS_ATTEMPTS then Discarded else ProcessFailed,
         attempts := r.attempts + 1, updatedAt := at)
  }

  /** The same effect column by column. */
  predicate Marked(r: InboxRow, r': InboxRow, mark: Mark, at: Instant) {
    r'.id == r.id && r'.message == r.message && r'.updatedAt == at
    && match mark
       case Done(key) =>
         r'.status == Processed && r'.usageEventKey == key && r'.processedAt == Some(at) && r'.attempts == r.attempts
       case Undecodable =>
         r'.status == DecodeFailed && r'.attempts == r.attempts + 1
         && r'.usageEventKey == r.usageEventKey && r'.processedAt == r.processedAt
       case Unprocessed =>
         r'.attempts == r.attempts + 1 && (r'.status == Discarded || r'.status == ProcessFailed)
         && (r'.status == Discarded <==> r'.attempts >= MAX_PROCESS_ATTEMPTS)
         && r'.usageEventKey == r.usageEventKey && r'.processedAt == r.processedAt
  }

  function MarkById(rows: seq<InboxRow>, id: nat, mark: Mark, at: Instant): seq<InboxRow> {
    UpdateRow(rows, id, r => MarkRow(r, mark, at))
  }

  function Filter(rows: seq<InboxRow>, keep: InboxRow -> bool): seq<InboxRow> {
    if rows == [] then []
    else if keep(rows[0]) then [rows[0]] + Filter(rows[1..], keep)
    else Filter(rows[1..], keep)
  }

  lemma {:induction false} FilterMembers(rows: seq<InboxRow>, keep: InboxRow -> bool)
    ensures forall r :: r in Filter(rows, keep) <==> r in rows && keep(r)
    ensures |Filter(rows, keep)| <= |rows|
  {
    if rows != [] {
      FilterMembers(rows[1..], keep);
      assert rows == [rows[0]] + rows[1..];
    }
  }

  predicate IdsAscend(rows: seq<InboxRow>) { forall i, j :: 0 <= i < j < |rows| ==> rows[i].id < rows[j].id }

  lemma {:induction false} FilterAscends(rows: seq<InboxRow>, keep: InboxRow -> bool)
    requires IdsAscend(rows)
    ensures IdsAscend(Filter(rows, keep))
  {
    if rows != [] {
      var f := Filter(rows[1..], keep);
      assert forall i, j :: 0 <= i < j < |rows[1..]|
               ==> rows[1..][i].id == rows[i + 1].id && rows[1..][j].id == rows[j + 1].id;
      FilterAscends(rows[1..], keep);
      FilterMembers(rows[1..], keep);
      forall j | 0 <= j < |f| ensures rows[0].id < f[j].id {
        assert f[j] in rows[1..];
        var k :| 0 <= k < |rows[1..]| && rows[1..][k] == f[j];
        assert f[j].id == rows[k + 1].id;
      }
    }
  }

  /** ListProcessableRedisUsageInbox with the service's limit; rows are kept in id order. */
  function ListProcessable(rows: seq<InboxRow>): (listed: seq<InboxRow>)
    ensures |listed| <= PROCESS_LIMIT
  {
    var all := Filter(rows, Processable);
    if |all| > PROCESS_LIMIT then all[..PROCESS_LIMIT] else all
  }

  /** The listing holds processable rows only, in id order: all of them unless it is full, and then
      those with the smallest ids. */
  lemma ListProcessableMembers(rows: seq<InboxRow>)
    requires IdsAscend(rows)
    ensures IdsAscend(ListProcessable(rows))
    ensures forall r :: r in ListProcessable(rows) ==> r in rows && Processable(r)
    ensures |ListProcessable(rows)| < PROCESS_LIMIT ==>
              forall r :: r in rows && Processable(r) ==> r in ListProcessable(rows)
    ensures forall r, q :: r in ListProcessable(rows) && q in rows && Processable(q) && q.id < r.id ==>
                             q in ListProcessable(rows)
  {
    FilterMembers(rows, Processable);
    FilterAscends(rows, Processable);
    var all, listed := Filter(rows, Processable), ListProcessable(rows);
    forall r, q | r in listed && q in all && q.id < r.id ensures q in listed {
      var i :| 0 <= i < |listed| && listed[i] == r;
      var j :| 0 <= j < |all| && all[j] == q;
      assert all[i] == listed[i];
      assert !(i < j);
      assert listed[j] == q;
    }
  }

  /** The first delete spares this row: the local day starts at midnight of the fixed-offset zone. */
  predicate SparedAsProcessed(r: InboxRow, now: Instant, zone: int) {
    var processedCutoff := Truncate(now + zone, DAY) - zone;
    !(r.status == Processed && r.processedAt.Some? && r.processedAt.value < processedCutoff)
  }

  /** The second delete spares this row. */
  predicate SparedAsFailed(r: InboxRow, now: Instant) {
    var failedCutoff := now - 7 * DAY;
    !((r.status == DecodeFailed || r.status == ProcessFailed || r.status == Discarded) && r.updatedAt < failedCutoff)
  }

  function DeleteProcessed(rows: seq<InboxRow>, now: Instant, zone: int): seq<InboxRow> {
    Filter(rows, r => SparedAsProcessed(r, now, zone))
  }

  function DeleteFailed(rows: seq<InboxRow>, now: Instant): seq<InboxRow> { Filter(rows, r => SparedAsFailed(r, now)) }

  /** CleanupRedisUsageInbox when both of its statements work. */
  function Cleanup(rows: seq<InboxRow>, now: Instant, zone: int): seq<InboxRow> {
    DeleteFailed(DeleteProcessed(rows, now, zone), now)
  }

  /** What a row needs to outlive the cleanup. */
  predicate Kept(r: InboxRow, now: Instant, zone: int) {
    match r.status
    case Pending => true
    case Processed => r.processedAt.Some? ==> (r.processedAt.value + zone) / DAY >= (now + zone) / DAY
    case _ => r.updatedAt >= now - 7 * DAY
  }

  lemma LocalDayCutoff(p: int, n: int)
    ensures p < n - n % DAY <==> p / DAY < n / DAY
  {
    assert n - n % DAY == n / DAY * DAY;
    assert p == p / DAY * DAY + p % DAY;
    if p / DAY >= n / DAY { MulMonotone(n / DAY, p / DAY, DAY); } else { MulMonotone(p / DAY + 1, n / DAY, DAY); }
  }

  /** Cleanup keeps exactly the pending rows, the rows processed on the current local day or later,
      and the failed rows touched within the last seven days. */
  lemma CleanupKeepsExactly(rows: seq<InboxRow>, now: Instant, zone: int, r: InboxRow)
    ensures r in Cleanup(rows, now, zone) <==> r in rows && Kept(r, now, zone)
  {
    FilterMembers(rows, r => SparedAsProcessed(r, now, zone));
    FilterMembers(DeleteProcessed(rows, now, zone), r => SparedAsFailed(r, now));
    if r.processedAt.Some? { LocalDayCutoff(r.processedAt.value + zone, now + zone); }
  }

  function NewInboxRows(messages: seq<Message>, nextId: nat, at: Instant): (rows: seq<InboxRow>)
    ensures |rows| == |messages|
    ensures forall i :: 0 <= i < |rows| ==> rows[i] == InboxRow(nextId + i, messages[i], Pending, 0, "", None, at)
  {
    seq(|messages|, i requires 0 <= i < |messages| => InboxRow(nextId + i, messages[i], Pending, 0, "", None, at))
  }

  lemma NextChunk(events: seq<UsageEvent>, incoming: seq<UsageEvent>, start: nat, end: nat)
    requires start <= end <= |incoming|
    ensures InsertAll(InsertAll(events, incoming[..start]), incoming[start..end]) == InsertAll(events, incoming[..end])
    ensures |InsertAll(events, incoming[..start])| <= |InsertAll(events, incoming[..end])|
  {
    assert incoming[..end] == incoming[..start] + incoming[start..end];
    InsertAllAppend(events, incoming[..start], incoming[start..end]);
    InsertAllKeys(InsertAll(events, incoming[..start]), incoming[start..end]);
  }

  // ------------------------------------------------------------------ the store

  class UsageDatabase {
    var events: seq<UsageEvent>
    var inbox: seq<InboxRow>
    var nextInboxId: nat

    constructor ()
      ensures events == [] && inbox == [] && nextInboxId == 1
    {
      events, inbox, nextInboxId := [], [], 1;
    }

    /** InsertUsageEvents: chunks of 100, each one atomic statement. `failsAt` is the chunk whose
        statement fails, if any; chunks committed before it stay. */
    method InsertUsageEvents(incoming: seq<UsageEvent>, failsAt: Option<nat>)
      returns (ok: bool, inserted: nat, deduped: nat)
      modifies this`events
      ensures ok <==> failsAt.None? || failsAt.value * 100 >= |incoming|
      ensures ok ==> events == InsertAll(old(events), incoming)
                     && inserted == NewRows(old(events), incoming) && inserted + deduped == |incoming|
      ensures !ok ==> events == InsertAll(old(events), incoming[..failsAt.value * 100]) && inserted == deduped == 0
    {
      var batchSize := 100;
      inserted, deduped := 0, 0;
      var start, chunk := 0, 0;
      while start < |incoming|
        invariant start == chunk * batchSize || (start == |incoming| <= chunk * batchSize)
        invariant start <= |incoming|
        invariant failsAt.Some? ==> chunk <= failsAt.value || start == |incoming| <= failsAt.value * 100
        invariant failsAt.Some? && start < |incoming| ==> chunk <= failsAt.value
        invariant events == InsertAll(old(events), incoming[..start])
        invariant |events| == |old(events)| + inserted
      {
        var end := if start + batchSize < |incoming| then start + batchSize else |incoming|;
        if failsAt == Some(chunk) {
          return false, 0, 0;
        }
        var before := |events|;
        NextChunk(old(events), incoming, start, end);
        events := InsertAll(events, incoming[start..end]);
        inserted := inserted + (|events| - before);
        start, chunk := end, chunk + 1;
      }
      assert incoming[..start] == incoming;
      InsertAllCount(old(events), incoming);
      ok, deduped := true, |incoming| - inserted;
    }

    /** One transaction: all rows or none. */
    method InsertRedisUsageInboxMessages(messages: seq<Message>, poppedAt: Instant, fails: bool) returns (ok: bool)
      modifies this`inbox, this`nextInboxId
      ensures ok <==> messages == [] || !fails
      ensures ok ==> inbox == old(inbox) + NewInboxRows(messages, old(nextInboxId), poppedAt)
                     && nextInboxId == old(nextInboxId) + |messages|
      ensures !ok ==> inbox == old(inbox) && nextInboxId == old(nextInboxId)
    {
      if messages != [] && fails {
        return false;
      }
      var i := 0;
      while i < |messages|
        invariant 0 <= i <= |messages|
        invariant inbox == old(inbox) + NewInboxRows(messages, old(nextInboxId), poppedAt)[..i]
        invariant nextInboxId == old(nextInboxId) + i
      {
        inbox := inbox + [InboxRow(nextInboxId, messages[i], Pending, 0, "", None, poppedAt)];
        nextInboxId := nextInboxId + 1;
        i := i + 1;
      }
      ok := true;
    }

    /** MarkRedisUsageInboxProcessed, ...DecodeFailed and ...ProcessFailed, as `mark` says: rows with the
        id get the columns of their mark, and everything else stays. */
    method MarkRedisUsageInbox(id: nat, mark: Mark, at: Instant)
      modifies this`inbox
      ensures |inbox| == |old(inbox)|
      ensures forall i :: 0 <= i < |inbox| ==>
                if old(inbox)[i].id == id then Marked(old(inbox)[i], inbox[i], mark, at) else inbox[i] == old(inbox)[i]
      ensures inbox == MarkById(old(inbox), id, mark, at)
    {
      var i := 0;
      while i < |inbox|
        invariant 0 <= i <= |inbox| == |old(inbox)|
        invariant forall k :: 0 <= k < i ==>
                    inbox[k] == if old(inbox)[k].id == id then MarkRow(old(inbox)[k], mark, at) else old(inbox)[k]
        invariant forall k :: i <= k < |inbox| ==> inbox[k] == old(inbox)[k]
      {
        var r := inbox[i];
        if r.id == id {
          r := r.(updatedAt := at);
          match mark {
            case Done(key) =>
              r := r.(status := Processed, usageEventKey := key, processedAt := Some(at));
            case Undecodable =>
              r := r.(status := DecodeFailed, attempts := r.attempts + 1);
            case Unprocessed =>
              var spent := r.attempts + 1 >= MAX_PROCESS_ATTEMPTS;
              r := r.(status := if spent then Discarded else ProcessFailed, attempts := r.attempts + 1);
          }
          inbox := inbox[i := r];
        }
        i := i + 1;
      }
    }

    /** Two delete statements without a transaction; `failsAt` is the one that fails, if any. Whatever
        fails, pending rows stay, and no row changes. */
    method CleanupRedisUsageInbox(now: Instant, zone: int, failsAt: Option<nat>) returns (ok: bool)
      modifies this`inbox
      ensures ok <==> failsAt.None? || failsAt.value >= 2
      ensures ok ==> inbox == Cleanup(old(inbox), now, zone)
                     && forall r :: r in inbox <==> r in old(inbox) && Kept(r, now, zone)
      ensures failsAt == Some(0) ==> inbox == old(inbox)
      ensures failsAt == Some(1) ==> inbox == DeleteProcessed(old(inbox), now, zone)
      ensures forall r :: r in old(inbox) && r.status == Pending ==> r in inbox
      ensures forall r :: r in inbox ==> r in old(inbox)
      ensures IdsAscend(old(inbox)) ==> IdsAscend(inbox)
    {
      forall r ensures r in Cleanup(inbox, now, zone) <==> r in inbox && Kept(r, now, zone) {
        CleanupKeepsExactly(inbox, now, zone, r);
      }
      if failsAt == Some(0) {
        return false;
      }
      FilterMembers(inbox, r => SparedAsProcessed(r, now, zone));
      if IdsAscend(inbox) { FilterAscends(inbox, r => SparedAsProcessed(r, now, zone)); }
      inbox := DeleteProcessed(inbox, now, zone);
      if failsAt == Some(1) {
        return false;
      }
      FilterMembers(inbox, r => SparedAsFailed(r, now));
      if IdsAscend(inbox) { FilterAscends(inbox, r => SparedAsFailed(r, now)); }
      inbox := DeleteFailed(inbox, now);
      ok := true;
    }
  }
}

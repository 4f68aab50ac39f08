/** Histories of the ingest pipeline, statement by statement: one Process call at a time, and pulls,
    other inserts and cleanups anywhere between its statements. */
module IngestHistory {
  import opened Text
  import opened Calendar
  import opened UsageEvents
  import opened Database
  import opened Alignment
  import opened Ingest

  /** How far a Process call has come. `targets` are the decode marks still to be written, `done` the
      events aligned so far, and `next` the first row not yet inserted, or not yet marked. */
  datatype Stage =
    | Decoding(targets: seq<Target>)
    | Aligning(mem: Memory, done: seq<UsageEvent>)
    | Inserting(aligned: seq<UsageEvent>, next: nat)
    | MarkingDone(aligned: seq<UsageEvent>, next: nat)
    | MarkingFailed(next: nat)

  /** A Process call in flight: its clock reading, its decodable rows as they were listed, their events
      as they were decoded. */
  datatype Call = Call(at: Instant, rows: seq<InboxRow>, events: seq<UsageEvent>, stage: Stage)

  datatype World = World(db: Db, call: Option<Call>)

  /** `Statement` is the next statement of the call in flight, which works or fails; in a crash the call
      ends where it is. */
  datatype Step =
    | PullMessages(messages: seq<Message>, at: Instant)
    | OtherInsert(events: seq<UsageEvent>)
    | DeleteProcessedRows(now: Instant, zone: int)
    | DeleteFailedRows(now: Instant)
    | Begin(at: Instant)
    | Statement(ok: bool)
    | Crash

  function BeginCall(inbox: seq<InboxRow>, at: Instant): Option<Call> {
    var listed := ListProcessable(inbox);
    var rows := ValidRows(listed);
    if listed == [] then None else Some(Call(at, rows, EventsOf(rows, at), Decoding(DecodeTargets(listed))))
  }

  function At(c: Call, stage: Stage): Option<Call> { Some(c.(stage := stage)) }

  function Mark(db: Db, id: nat, mark: Mark, at: Instant): Db { db.(inbox := MarkById(db.inbox, id, mark, at)) }

  function Decode(db: Db, c: Call, targets: seq<Target>, ok: bool): World {
    if targets == [] then World(db, if c.rows == [] then None else At(c, Aligning(FRESH, [])))
    else if !ok then World(db, None)
    else World(Mark(db, targets[0].id, targets[0].mark, c.at), At(c, Decoding(targets[1..])))
  }

  /** Aligning the next event looks into the event table. */
  predicate LooksUp(mem: Memory, e: UsageEvent) {
    Trim(e.requestId) == "" && Lookup(mem.canonical, CanonicalKey(e)) == ""
  }

  function Align(db: Db, c: Call, mem: Memory, done: seq<UsageEvent>, ok: bool): World {
    if |done| >= |c.events| then World(db, At(c, Inserting(done, 0)))
    else
      var e := c.events[|done|];
      if !ok && LooksUp(mem, e) then World(db, At(c, MarkingFailed(0)))
      else
        var (mem', e') := AlignStep(db.events, db.inbox, mem, e);
        World(db, At(c, Aligning(mem', done + [e'])))
  }

  function ChunkEnd(next: nat, n: nat): (end: nat)
    ensures next <= n ==> next <= end <= n
    ensures next < n ==> next < end
  {
    if next + 100 < n then next + 100 else n
  }

  function Insert(db: Db, c: Call, aligned: seq<UsageEvent>, next: nat, ok: bool): World {
    if next >= |aligned| then World(db, At(c, MarkingDone(aligned, 0)))
    else if !ok then World(db, At(c, MarkingFailed(0)))
    else
      var end := ChunkEnd(next, |aligned|);
      World(db.(events := InsertAll(db.events, aligned[next..end])), At(c, Inserting(aligned, end)))
  }

  function MarkDone(db: Db, c: Call, aligned: seq<UsageEvent>, next: nat, ok: bool): World {
    if next >= |c.rows| || next >= |aligned| || !ok then World(db, None)
    else World(Mark(db, c.rows[next].id, Done(aligned[next].eventKey), c.at), At(c, MarkingDone(aligned, next + 1)))
  }

  function MarkFailed(db: Db, c: Call, next: nat, ok: bool): World {
    if next >= |c.rows| then World(db, None)
    else World(if ok then Mark(db, c.rows[next].id, Unprocessed, c.at) else db, At(c, MarkingFailed(next + 1)))
  }

  function AfterStatement(db: Db, c: Call, ok: bool): World {
    match c.stage
    case Decoding(targets) => Decode(db, c, targets, ok)
    case Aligning(mem, done) => Align(db, c, mem, done, ok)
    case Inserting(aligned, next) => Insert(db, c, aligned, next, ok)
    case MarkingDone(aligned, next) => MarkDone(db, c, aligned, next, ok)
    case MarkingFailed(next) => MarkFailed(db, c, next, ok)
  }

  function Apply(w: World, s: Step): World {
    match s
    case PullMessages(messages, at) => w.(db := Pull(w.db, messages, at))
    case OtherInsert(events) => w.(db := w.db.(events := InsertAll(w.db.events, events)))
    case DeleteProcessedRows(now, zone) => w.(db := w.db.(inbox := DeleteProcessed(w.db.inbox, now, zone)))
    case DeleteFailedRows(now) => w.(db := w.db.(inbox := DeleteFailed(w.db.inbox, now)))
    case Begin(at) => if w.call.Some? then w else World(w.db, BeginCall(w.db.inbox, at))
    case Statement(ok) => if w.call.None? then w else AfterStatement(w.db, w.call.value, ok)
    case Crash => World(w.db, None)
  }

  function Run(w: World, steps: seq<Step>): World
    decreases |steps|
  {
    if steps == [] then w else Run(Apply(w, steps[0]), steps[1..])
  }

  /** Other writers, such as the auth-file fill, store clean events too. */
  predicate StepOk(s: Step) { s.OtherInsert? ==> AllClean(s.events) }

  predicate StepsOk(steps: seq<Step>) { forall i :: 0 <= i < |steps| ==> StepOk(steps[i]) }

  // -------------------------------------------------------- the database invariant

  /** The inbox state machine: which statuses go with which attempt counts and messages. */
  predicate RowOk(r: InboxRow) {
    match r.status
    case Pending => r.attempts == 0
    case ProcessFailed => 1 <= r.attempts < MAX_PROCESS_ATTEMPTS && r.message.Usage?
    case Discarded => r.attempts == MAX_PROCESS_ATTEMPTS && r.message.Usage?
    case DecodeFailed => r.attempts == 1 && r.message.Malformed?
    case Processed => r.attempts < MAX_PROCESS_ATTEMPTS && r.message.Usage? && r.processedAt.Some?
  }

  /** A processed row names a stored event. */
  predicate Referenced(r: InboxRow, table: seq<UsageEvent>) {
    r.status == Processed ==> r.usageEventKey in Keys(table)
  }

  predicate InboxOk(db: Db) {
    IdsAscend(db.inbox)
    && forall i :: 0 <= i < |db.inbox| ==>
         db.inbox[i].id < db.nextInboxId && RowOk(db.inbox[i]) && Referenced(db.inbox[i], db.events)
  }

  predicate Ok(db: Db) { AllClean(db.events) && TableOk(db.events) && InboxOk(db) }

  // ------------------------------------------------------------ the call invariant

  /** Wherever the row still is, it is as it was listed. */
  predicate Waiting(inbox: seq<InboxRow>, r: InboxRow) {
    forall i :: 0 <= i < |inbox| && inbox[i].id == r.id ==> inbox[i] == r
  }

  predicate SameMessage(inbox: seq<InboxRow>, r: InboxRow) {
    forall i :: 0 <= i < |inbox| && inbox[i].id == r.id ==> inbox[i].message == r.message
  }

  predicate Undecoded(inbox: seq<InboxRow>, t: Target) {
    t.mark == Undecodable
    && forall i :: 0 <= i < |inbox| && inbox[i].id == t.id ==> Processable(inbox[i]) && inbox[i].message.Malformed?
  }

  predicate BatchOk(c: Call) {
    |c.events| == |c.rows| && IdsAscend(c.rows)
    && forall i :: 0 <= i < |c.rows| ==>
         c.rows[i].message.Usage? && Processable(c.rows[i])
         && c.events[i] == ToUsageEvent(c.rows[i].message.detail, c.at)
  }

  predicate RowsKnown(db: Db, c: Call) {
    forall i :: 0 <= i < |c.rows| ==> c.rows[i].id < db.nextInboxId && SameMessage(db.inbox, c.rows[i])
  }

  predicate RowsWait(inbox: seq<InboxRow>, rows: seq<InboxRow>, first: nat) {
    forall i :: first <= i < |rows| ==> Waiting(inbox, rows[i])
  }

  /** An aligned event still has the key it came with, or, if it came without a request id, one that is
      stored or belongs to an event before it. */
  predicate KeyOk(known: set<string>, events: seq<UsageEvent>, done: seq<UsageEvent>, j: nat)
    requires j < |done| <= |events|
  {
    done[j] == events[j].(eventKey := done[j].eventKey) && Clean(done[j])
    && (done[j].eventKey == events[j].eventKey
        || (events[j].requestId == "" && done[j].eventKey in known + Keys(done[..j])))
  }

  predicate KeysOk(known: set<string>, events: seq<UsageEvent>, done: seq<UsageEvent>) {
    |done| <= |events| && forall j :: 0 <= j < |done| ==> KeyOk(known, events, done, j)
  }

  predicate MemoryOk(known: set<string>, mem: Memory, done: seq<UsageEvent>) {
    mem.consumed == {} && KeysUsable(mem.canonical)
    && forall c :: c in mem.canonical ==> mem.canonical[c] in known + Keys(done)
  }

  predicate KeysIn(known: set<string>, aligned: seq<UsageEvent>, n: nat) {
    forall j :: 0 <= j < n && j < |aligned| ==> aligned[j].eventKey in known
  }

  predicate TargetsOk(db: Db, c: Call, targets: seq<Target>) {
    DistinctTargets(targets)
    && forall j :: 0 <= j < |targets| ==>
         targets[j].id < db.nextInboxId && Undecoded(db.inbox, targets[j])
         && forall i :: 0 <= i < |c.rows| ==> c.rows[i].id != targets[j].id
  }

  predicate StageOk(db: Db, c: Call) {
    var known := Keys(db.events);
    match c.stage
    case Decoding(targets) => RowsWait(db.inbox, c.rows, 0) && TargetsOk(db, c, targets)
    case Aligning(mem, done) =>
      RowsWait(db.inbox, c.rows, 0) && KeysOk(known, c.events, done) && MemoryOk(known, mem, done)
    case Inserting(aligned, next) =>
      RowsWait(db.inbox, c.rows, 0) && |aligned| == |c.events| && KeysOk(known, c.events, aligned)
      && next <= |aligned| && KeysIn(known, aligned, next)
    case MarkingDone(aligned, next) =>
      RowsWait(db.inbox, c.rows, next) && |aligned| == |c.events| && KeysOk(known, c.events, aligned)
      && KeysIn(known, aligned, |aligned|)
    case MarkingFailed(next) => RowsWait(db.inbox, c.rows, next)
  }

  predicate CallOk(db: Db, c: Call) { BatchOk(c) && RowsKnown(db, c) && StageOk(db, c) }

  predicate Inv(w: World) { Ok(w.db) && (w.call.Some? ==> CallOk(w.db, w.call.value)) }

  // ------------------------------------------------------------ what others may do

  /** The database moved on without touching the rows it had, except by deleting some. */
  predicate Onward(db: Db, after: Db) {
    db.events <= after.events && db.nextInboxId <= after.nextInboxId
    && forall i :: 0 <= i < |after.inbox| ==> after.inbox[i] in db.inbox || after.inbox[i].id >= db.nextInboxId
  }

  lemma OnwardRows(db: Db, after: Db, c: Call)
    requires Onward(db, after) && RowsKnown(db, c)
    ensures RowsKnown(after, c)
    ensures forall i :: 0 <= i < |c.rows| && Waiting(db.inbox, c.rows[i]) ==> Waiting(after.inbox, c.rows[i])
  {
    forall i, k | 0 <= i < |c.rows| && 0 <= k < |after.inbox| && after.inbox[k].id == c.rows[i].id
      ensures after.inbox[k] in db.inbox && after.inbox[k].message == c.rows[i].message
      ensures Waiting(db.inbox, c.rows[i]) ==> after.inbox[k] == c.rows[i]
    {
      var m :| 0 <= m < |db.inbox| && db.inbox[m] == after.inbox[k];
    }
  }

  lemma OnwardTargets(db: Db, after: Db, c: Call, targets: seq<Target>)
    requires Onward(db, after) && TargetsOk(db, c, targets)
    ensures TargetsOk(after, c, targets)
  {
    forall j, k | 0 <= j < |targets| && 0 <= k < |after.inbox| && after.inbox[k].id == targets[j].id
      ensures Processable(after.inbox[k]) && after.inbox[k].message.Malformed?
    {
      assert Undecoded(db.inbox, targets[j]);
      var m :| 0 <= m < |db.inbox| && db.inbox[m] == after.inbox[k];
    }
  }

  lemma MoreKeys(known: set<string>, more: set<string>, events: seq<UsageEvent>, done: seq<UsageEvent>)
    requires known <= more && KeysOk(known, events, done)
    ensures KeysOk(more, events, done)
  {
    forall j | 0 <= j < |done| ensures KeyOk(more, events, done, j) { assert KeyOk(known, events, done, j); }
  }

  lemma OnwardKeepsCall(db: Db, after: Db, c: Call)
    requires Onward(db, after) && CallOk(db, c)
    ensures CallOk(after, c)
  {
    OnwardRows(db, after, c);
    KeysOfPrefix(db.events, after.events);
    match c.stage
    case Decoding(targets) => OnwardTargets(db, after, c, targets);
    case Aligning(mem, done) => MoreKeys(Keys(db.events), Keys(after.events), c.events, done);
    case Inserting(aligned, next) => MoreKeys(Keys(db.events), Keys(after.events), c.events, aligned);
    case MarkingDone(aligned, next) => MoreKeys(Keys(db.events), Keys(after.events), c.events, aligned);
    case MarkingFailed(next) =>
  }

  lemma PullIsOnward(db: Db, messages: seq<Message>, at: Instant)
    requires Ok(db)
    ensures Onward(db, Pull(db, messages, at)) && Ok(Pull(db, messages, at))
  {
    var after := Pull(db, messages, at);
    var n := |db.inbox|;
    forall i | 0 <= i < |after.inbox|
      ensures after.inbox[i] in db.inbox || after.inbox[i].id >= db.nextInboxId
    {
      if i < n { assert after.inbox[i] == db.inbox[i]; }
    }
  }

  lemma InsertIsOnward(db: Db, events: seq<UsageEvent>)
    requires Ok(db) && AllClean(events)
    ensures var after := db.(events := InsertAll(db.events, events)); Onward(db, after) && Ok(after)
  {
    InsertAllKeepsClean(db.events, events);
    InsertAllTableOk(db.events, events);
    InsertAllKeys(db.events, events);
  }

  lemma DeleteIsOnward(db: Db, keep: InboxRow -> bool)
    requires Ok(db)
    ensures var after := db.(inbox := Filter(db.inbox, keep)); Onward(db, after) && Ok(after)
  {
    FilterMembers(db.inbox, keep);
    FilterAscends(db.inbox, keep);
    var after := db.(inbox := Filter(db.inbox, keep));
    forall i | 0 <= i < |after.inbox|
      ensures after.inbox[i] in db.inbox && after.inbox[i].id < db.nextInboxId
              && RowOk(after.inbox[i]) && Referenced(after.inbox[i], db.events)
    {
      assert after.inbox[i] in after.inbox;
    }
  }

  predicate FromOutside(s: Step) {
    s.PullMessages? || s.OtherInsert? || s.DeleteProcessedRows? || s.DeleteFailedRows?
  }

  lemma OutsideIsOnward(w: World, s: Step)
    requires Ok(w.db) && StepOk(s) && FromOutside(s)
    ensures Onward(w.db, Apply(w, s).db) && Ok(Apply(w, s).db) && Apply(w, s).call == w.call
  {
    match s
    case PullMessages(messages, at) => PullIsOnward(w.db, messages, at);
    case OtherInsert(events) => InsertIsOnward(w.db, events);
    case DeleteProcessedRows(now, zone) => DeleteIsOnward(w.db, (r: InboxRow) => SparedAsProcessed(r, now, zone));
    case DeleteFailedRows(now) => DeleteIsOnward(w.db, (r: InboxRow) => SparedAsFailed(r, now));
  }

  // ---------------------------------------------------------- what a call may do

  /** A mark fits the rows with its id: retryable, and with a message that decodes, or not. */
  predicate Fits(inbox: seq<InboxRow>, id: nat, mark: Mark, table: seq<UsageEvent>) {
    forall i :: 0 <= i < |inbox| && inbox[i].id == id ==>
      Processable(inbox[i]) && (inbox[i].message.Malformed? <==> mark == Undecodable)
      && (mark.Done? ==> mark.key in Keys(table))
  }

  lemma MarkKeepsOk(db: Db, id: nat, mark: Mark, at: Instant)
    requires Ok(db) && Fits(db.inbox, id, mark, db.events)
    ensures Ok(Mark(db, id, mark, at))
  {
    var after := Mark(db, id, mark, at);
    forall i | 0 <= i < |after.inbox|
      ensures after.inbox[i].id == db.inbox[i].id && RowOk(after.inbox[i]) && Referenced(after.inbox[i], db.events)
    {
      assert after.inbox[i] == if db.inbox[i].id == id then MarkRow(db.inbox[i], mark, at) else db.inbox[i];
    }
  }

  /** A mark leaves the messages, and every row with another id, as they are. */
  lemma MarkLeaves(inbox: seq<InboxRow>, id: nat, mark: Mark, at: Instant, r: InboxRow)
    ensures SameMessage(inbox, r) ==> SameMessage(MarkById(inbox, id, mark, at), r)
    ensures r.id != id && Waiting(inbox, r) ==> Waiting(MarkById(inbox, id, mark, at), r)
  {
  }

  lemma MarkLeavesRows(db: Db, c: Call, id: nat, mark: Mark, at: Instant, first: nat)
    requires RowsKnown(db, c) && RowsWait(db.inbox, c.rows, first)
    requires forall i :: first <= i < |c.rows| ==> c.rows[i].id != id
    ensures RowsKnown(Mark(db, id, mark, at), c) && RowsWait(MarkById(db.inbox, id, mark, at), c.rows, first)
  {
    forall i | 0 <= i < |c.rows|
      ensures SameMessage(MarkById(db.inbox, id, mark, at), c.rows[i])
      ensures first <= i ==> Waiting(MarkById(db.inbox, id, mark, at), c.rows[i])
    {
      MarkLeaves(db.inbox, id, mark, at, c.rows[i]);
    }
  }

  lemma BatchIsDecoded(c: Call)
    requires BatchOk(c)
    ensures AllDecoded(c.events)
  {
    forall i | 0 <= i < |c.events| ensures Decoded(c.events[i]) { DecoderOutput(c.rows[i].message.detail, c.at); }
  }

  lemma DecodeKeepsInv(db: Db, c: Call, targets: seq<Target>, ok: bool)
    requires Ok(db) && CallOk(db, c) && c.stage == Decoding(targets)
    ensures Inv(Decode(db, c, targets, ok))
  {
    if targets == [] {
    } else if ok {
      var t, rest := targets[0], targets[1..];
      assert Undecoded(db.inbox, t);
      MarkKeepsOk(db, t.id, t.mark, c.at);
      MarkLeavesRows(db, c, t.id, t.mark, c.at, 0);
      var after := Mark(db, t.id, t.mark, c.at);
      forall j | 0 <= j < |rest| ensures Undecoded(after.inbox, rest[j]) {
        assert Undecoded(db.inbox, targets[j + 1]) && targets[0].id != targets[j + 1].id;
      }
    }
  }

  lemma KeysOkSnoc(known: set<string>, events: seq<UsageEvent>, done: seq<UsageEvent>, a: UsageEvent)
    requires KeysOk(known, events, done) && |done| < |events|
    requires a == events[|done|].(eventKey := a.eventKey) && Clean(a)
    requires a.eventKey == events[|done|].eventKey
             || (events[|done|].requestId == "" && a.eventKey in known + Keys(done))
    ensures KeysOk(known, events, done + [a])
  {
    var all := done + [a];
    forall j | 0 <= j < |all| ensures KeyOk(known, events, all, j) {
      if j < |done| {
        assert KeyOk(known, events, done, j) && all[..j] == done[..j] && all[j] == done[j];
      } else {
        assert all[..j] == done;
      }
    }
  }

  lemma KeysSnoc(done: seq<UsageEvent>, a: UsageEvent)
    ensures Keys(done + [a]) == Keys(done) + {a.eventKey}
  {
    KeysAppend(done, [a]);
    assert [a][0] == a;
  }

  /** The key one alignment step gives: the event's own, a remembered one, or a stored one. */
  lemma AlignedKeyIsKnown(db: Db, c: Call, mem: Memory, done: seq<UsageEvent>)
    requires Ok(db) && CallOk(db, c) && c.stage == Aligning(mem, done) && |done| < |c.events|
    ensures var e := c.events[|done|];
            var key := SimpleKey(db.events, mem.canonical, e);
            Decoded(e) && Trimmed(key) && key != ""
            && (key == e.eventKey || (e.requestId == "" && key in Keys(db.events) + Keys(done)))
            && AlignStep(db.events, db.inbox, mem, e)
               == (Memory(mem.canonical[CanonicalKey(e) := key], {}), e.(eventKey := key))
  {
    var e := c.events[|done|];
    BatchIsDecoded(c);
    SimpleKeyUsable(db.events, mem.canonical, e);
    SimpleStep(db.events, db.inbox, mem.canonical, e);
    assert mem == Memory(mem.canonical, {});
    if FirstEquivalent(db.events, e).Some? { EquivalentKeyStored(db.events, e); }
  }

  lemma MemoryNext(known: set<string>, mem: Memory, done: seq<UsageEvent>, canonicalKey: string, a: UsageEvent)
    requires MemoryOk(known, mem, done) && Clean(a)
    ensures MemoryOk(known, Memory(mem.canonical[canonicalKey := a.eventKey], {}), done + [a])
  {
    KeysSnoc(done, a);
  }

  lemma AlignedStage(db: Db, c: Call, mem: Memory, done: seq<UsageEvent>, mem': Memory, a: UsageEvent)
    requires CallOk(db, c) && c.stage == Aligning(mem, done) && |done| < |c.events|
    requires a == c.events[|done|].(eventKey := a.eventKey) && Clean(a)
    requires a.eventKey == c.events[|done|].eventKey
             || (c.events[|done|].requestId == "" && a.eventKey in Keys(db.events) + Keys(done))
    requires mem' == Memory(mem.canonical[CanonicalKey(c.events[|done|]) := a.eventKey], {})
    ensures CallOk(db, c.(stage := Aligning(mem', done + [a])))
  {
    KeysOkSnoc(Keys(db.events), c.events, done, a);
    MemoryNext(Keys(db.events), mem, done, CanonicalKey(c.events[|done|]), a);
  }

  lemma AlignKeepsInv(db: Db, c: Call, mem: Memory, done: seq<UsageEvent>, ok: bool)
    requires Ok(db) && CallOk(db, c) && c.stage == Aligning(mem, done)
    ensures Inv(Align(db, c, mem, done, ok))
  {
    if |done| < |c.events| && (ok || !LooksUp(mem, c.events[|done|])) {
      var e := c.events[|done|];
      AlignedKeyIsKnown(db, c, mem, done);
      var key := SimpleKey(db.events, mem.canonical, e);
      AlignedStage(db, c, mem, done, Memory(mem.canonical[CanonicalKey(e) := key], {}), e.(eventKey := key));
    }
  }

  lemma ChunkIsClean(known: set<string>, c: Call, aligned: seq<UsageEvent>, next: nat, end: nat)
    requires KeysOk(known, c.events, aligned) && next <= end <= |aligned|
    ensures AllClean(aligned[next..end])
  {
    forall i | 0 <= i < end - next ensures Clean(aligned[next..end][i]) {
      assert KeyOk(known, c.events, aligned, next + i);
    }
  }

  lemma ChunkIsStored(stored: seq<UsageEvent>, aligned: seq<UsageEvent>, next: nat, end: nat)
    requires next <= end <= |aligned| && KeysIn(Keys(stored), aligned, next)
    ensures KeysIn(Keys(InsertAll(stored, aligned[next..end])), aligned, end)
  {
    var chunk := aligned[next..end];
    InsertAllKeys(stored, chunk);
    forall j | 0 <= j < end ensures aligned[j].eventKey in Keys(stored) + Keys(chunk) {
      if j >= next { assert chunk[j - next].eventKey in Keys(chunk); }
    }
  }

  lemma InsertedStage(db: Db, after: Db, c: Call, aligned: seq<UsageEvent>, next: nat, end: nat)
    requires CallOk(db, c) && CallOk(after, c) && c.stage == Inserting(aligned, next)
    requires next <= end <= |aligned| && KeysIn(Keys(after.events), aligned, end)
    ensures CallOk(after, c.(stage := Inserting(aligned, end)))
  {
  }

  lemma InsertKeepsInv(db: Db, c: Call, aligned: seq<UsageEvent>, next: nat, ok: bool)
    requires Ok(db) && CallOk(db, c) && c.stage == Inserting(aligned, next)
    ensures Inv(Insert(db, c, aligned, next, ok))
  {
    if next < |aligned| && ok {
      var end := ChunkEnd(next, |aligned|);
      ChunkIsClean(Keys(db.events), c, aligned, next, end);
      InsertIsOnward(db, aligned[next..end]);
      var after := db.(events := InsertAll(db.events, aligned[next..end]));
      OnwardKeepsCall(db, after, c);
      ChunkIsStored(db.events, aligned, next, end);
      InsertedStage(db, after, c, aligned, next, end);
    }
  }

  lemma RowFits(db: Db, c: Call, next: nat, mark: Mark)
    requires BatchOk(c) && next < |c.rows| && Waiting(db.inbox, c.rows[next])
    requires mark != Undecodable && (mark.Done? ==> mark.key in Keys(db.events))
    ensures Fits(db.inbox, c.rows[next].id, mark, db.events)
  {
  }

  lemma MarkNextRow(db: Db, c: Call, next: nat, mark: Mark)
    requires Ok(db) && BatchOk(c) && RowsKnown(db, c) && RowsWait(db.inbox, c.rows, next) && next < |c.rows|
    requires mark != Undecodable && (mark.Done? ==> mark.key in Keys(db.events))
    ensures var after := Mark(db, c.rows[next].id, mark, c.at);
            Ok(after) && RowsKnown(after, c) && RowsWait(after.inbox, c.rows, next + 1)
  {
    RowFits(db, c, next, mark);
    MarkKeepsOk(db, c.rows[next].id, mark, c.at);
    MarkLeavesRows(db, c, c.rows[next].id, mark, c.at, next + 1);
  }

  lemma MarkDoneKeepsInv(db: Db, c: Call, aligned: seq<UsageEvent>, next: nat, ok: bool)
    requires Ok(db) && CallOk(db, c) && c.stage == MarkingDone(aligned, next)
    ensures Inv(MarkDone(db, c, aligned, next, ok))
  {
    if next < |c.rows| && ok { MarkNextRow(db, c, next, Done(aligned[next].eventKey)); }
  }

  lemma MarkFailedKeepsInv(db: Db, c: Call, next: nat, ok: bool)
    requires Ok(db) && CallOk(db, c) && c.stage == MarkingFailed(next)
    ensures Inv(MarkFailed(db, c, next, ok))
  {
    if next < |c.rows| && ok { MarkNextRow(db, c, next, Unprocessed); }
  }

  /** The listing a call begins with. */
  lemma BeginKeepsInv(db: Db, at: Instant)
    requires Ok(db)
    ensures Inv(World(db, BeginCall(db.inbox, at)))
  {
    var listed := ListProcessable(db.inbox);
    var rows, targets := ValidRows(listed), DecodeTargets(listed);
    ListProcessableMembers(db.inbox);
    ValidRowsAre(listed);
    DecodeTargetsAre(listed);
    forall i | 0 <= i < |rows|
      ensures rows[i].id < db.nextInboxId && Processable(rows[i]) && Waiting(db.inbox, rows[i])
    {
      assert rows[i] in rows && rows[i] in db.inbox;
      forall k | 0 <= k < |db.inbox| && db.inbox[k].id == rows[i].id ensures db.inbox[k] == rows[i] {
        SameIdSameRow(db.inbox, rows[i], k);
      }
    }
    forall j | 0 <= j < |targets|
      ensures targets[j].id < db.nextInboxId && Undecoded(db.inbox, targets[j])
      ensures forall i :: 0 <= i < |rows| ==> rows[i].id != targets[j].id
    {
      ListedTarget(db.inbox, listed, targets[j]);
      forall i | 0 <= i < |rows| ensures rows[i].id != targets[j].id {
        assert rows[i] in rows && rows[i] in db.inbox;
        var k :| 0 <= k < |db.inbox| && db.inbox[k] == rows[i];
      }
    }
  }

  lemma ListedTarget(inbox: seq<InboxRow>, listed: seq<InboxRow>, t: Target)
    requires IdsAscend(inbox) && listed == ListProcessable(inbox) && t in DecodeTargets(listed)
    ensures Undecoded(inbox, t) && exists k :: 0 <= k < |inbox| && inbox[k].id == t.id
  {
    ListProcessableMembers(inbox);
    DecodeTargetsAre(listed);
    var i :| 0 <= i < |listed| && listed[i].message.Malformed? && t == Target(listed[i].id, Undecodable);
    assert listed[i] in listed && listed[i] in inbox;
    var m :| 0 <= m < |inbox| && inbox[m] == listed[i];
    forall k | 0 <= k < |inbox| && inbox[k].id == t.id ensures inbox[k] == listed[i] {
      SameIdSameRow(inbox, listed[i], k);
    }
  }

  lemma StatementKeepsInv(db: Db, c: Call, ok: bool)
    requires Ok(db) && CallOk(db, c)
    ensures Inv(AfterStatement(db, c, ok))
  {
    match c.stage
    case Decoding(targets) => DecodeKeepsInv(db, c, targets, ok);
    case Aligning(mem, done) => AlignKeepsInv(db, c, mem, done, ok);
    case Inserting(aligned, next) => InsertKeepsInv(db, c, aligned, next, ok);
    case MarkingDone(aligned, next) => MarkDoneKeepsInv(db, c, aligned, next, ok);
    case MarkingFailed(next) => MarkFailedKeepsInv(db, c, next, ok);
  }

  lemma StepKeepsInv(w: World, s: Step)
    requires Inv(w) && StepOk(s)
    ensures Inv(Apply(w, s))
  {
    if FromOutside(s) {
      OutsideIsOnward(w, s);
      if w.call.Some? { OnwardKeepsCall(w.db, Apply(w, s).db, w.call.value); }
    } else {
      match s
      case Begin(at) => BeginKeepsInv(w.db, at);
      case Statement(ok) => if w.call.Some? { StatementKeepsInv(w.db, w.call.value, ok); }
      case Crash =>
    }
  }

  /** Every reachable database, also in the middle of a call: unique event keys and rising ids, each row
      in a legal state of the inbox state machine, and every processed row naming a stored event. */
  lemma {:induction false} RunKeepsOk(w: World, steps: seq<Step>)
    requires Inv(w) && StepsOk(steps)
    ensures Inv(Run(w, steps)) && Ok(Run(w, steps).db)
    decreases |steps|
  {
    if steps != [] {
      StepKeepsInv(w, steps[0]);
      RunKeepsOk(Apply(w, steps[0]), steps[1..]);
    }
  }

  // --------------------------------------------------------- terminal rows

  lemma MarkSparesTerminal(inbox: seq<InboxRow>, id: nat, mark: Mark, at: Instant, r: InboxRow, table: seq<UsageEvent>)
    requires Waiting(inbox, r) && Terminal(r) && Fits(inbox, id, mark, table)
    ensures Waiting(MarkById(inbox, id, mark, at), r)
  {
  }

  lemma RowMarkSparesTerminal(db: Db, c: Call, next: nat, mark: Mark, r: InboxRow)
    requires BatchOk(c) && next < |c.rows| && Waiting(db.inbox, c.rows[next]) && mark != Undecodable
    requires mark.Done? ==> mark.key in Keys(db.events)
    requires Waiting(db.inbox, r) && Terminal(r)
    ensures Waiting(MarkById(db.inbox, c.rows[next].id, mark, c.at), r)
  {
    RowFits(db, c, next, mark);
    MarkSparesTerminal(db.inbox, c.rows[next].id, mark, c.at, r, db.events);
  }

  lemma DecodeSparesTerminal(db: Db, c: Call, targets: seq<Target>, ok: bool, r: InboxRow)
    requires TargetsOk(db, c, targets) && Waiting(db.inbox, r) && Terminal(r)
    ensures Waiting(Decode(db, c, targets, ok).db.inbox, r)
  {
    if targets != [] {
      assert Undecoded(db.inbox, targets[0]);
      MarkSparesTerminal(db.inbox, targets[0].id, targets[0].mark, c.at, r, db.events);
    }
  }

  lemma MarkDoneSparesTerminal(db: Db, c: Call, aligned: seq<UsageEvent>, next: nat, ok: bool, r: InboxRow)
    requires BatchOk(c) && RowsWait(db.inbox, c.rows, next) && |aligned| == |c.events|
    requires KeysIn(Keys(db.events), aligned, |aligned|) && Waiting(db.inbox, r) && Terminal(r)
    ensures Waiting(MarkDone(db, c, aligned, next, ok).db.inbox, r)
  {
    if next < |c.rows| { RowMarkSparesTerminal(db, c, next, Done(aligned[next].eventKey), r); }
  }

  lemma MarkFailedSparesTerminal(db: Db, c: Call, next: nat, ok: bool, r: InboxRow)
    requires BatchOk(c) && RowsWait(db.inbox, c.rows, next) && Waiting(db.inbox, r) && Terminal(r)
    ensures Waiting(MarkFailed(db, c, next, ok).db.inbox, r)
  {
    if next < |c.rows| { RowMarkSparesTerminal(db, c, next, Unprocessed, r); }
  }

  lemma StatementSparesTerminal(db: Db, c: Call, ok: bool, r: InboxRow)
    requires CallOk(db, c) && Waiting(db.inbox, r) && Terminal(r)
    ensures Waiting(AfterStatement(db, c, ok).db.inbox, r)
  {
    if c.stage.Decoding? {
      DecodingSpares(db, c, ok, r);
    } else if c.stage.MarkingDone? || c.stage.MarkingFailed? {
      MarkingSpares(db, c, ok, r);
    } else {
      StatementKeepsInbox(db, c, ok);
    }
  }

  lemma DecodingSpares(db: Db, c: Call, ok: bool, r: InboxRow)
    requires CallOk(db, c) && c.stage.Decoding? && Waiting(db.inbox, r) && Terminal(r)
    ensures Waiting(AfterStatement(db, c, ok).db.inbox, r)
  {
    DecodeSparesTerminal(db, c, c.stage.targets, ok, r);
  }

  lemma MarkingSpares(db: Db, c: Call, ok: bool, r: InboxRow)
    requires CallOk(db, c) && (c.stage.MarkingDone? || c.stage.MarkingFailed?) && Waiting(db.inbox, r) && Terminal(r)
    ensures Waiting(AfterStatement(db, c, ok).db.inbox, r)
  {
    if c.stage.MarkingDone? {
      MarkDoneSparesTerminal(db, c, c.stage.aligned, c.stage.next, ok, r);
    } else {
      MarkFailedSparesTerminal(db, c, c.stage.next, ok, r);
    }
  }

  lemma StatementKeepsInbox(db: Db, c: Call, ok: bool)
    requires c.stage.Aligning? || c.stage.Inserting?
    ensures AfterStatement(db, c, ok).db.inbox == db.inbox
  {
  }

  lemma OnwardKeepsRow(db: Db, after: Db, r: InboxRow)
    requires Onward(db, after) && Waiting(db.inbox, r) && r.id < db.nextInboxId
    ensures Waiting(after.inbox, r)
  {
    forall k | 0 <= k < |after.inbox| && after.inbox[k].id == r.id ensures after.inbox[k] == r {
      var m :| 0 <= m < |db.inbox| && db.inbox[m] == after.inbox[k];
    }
  }

  /** Statements of a call neither add inbox rows nor take ids. */
  lemma StatementKeepsIds(db: Db, c: Call, ok: bool)
    ensures AfterStatement(db, c, ok).db.nextInboxId == db.nextInboxId
    ensures |AfterStatement(db, c, ok).db.inbox| == |db.inbox|
    ensures forall i :: 0 <= i < |db.inbox| ==>
              var r := AfterStatement(db, c, ok).db.inbox[i];
              r.id == db.inbox[i].id && r.message == db.inbox[i].message
  {
  }

  lemma TerminalStep(w: World, s: Step, r: InboxRow)
    requires Inv(w) && StepOk(s) && r.id < w.db.nextInboxId && Terminal(r) && Waiting(w.db.inbox, r)
    ensures r.id < Apply(w, s).db.nextInboxId && Waiting(Apply(w, s).db.inbox, r)
  {
    if FromOutside(s) {
      OutsideIsOnward(w, s);
      OnwardKeepsRow(w.db, Apply(w, s).db, r);
    } else if s.Statement? && w.call.Some? {
      StatementSparesTerminal(w.db, w.call.value, s.ok, r);
      StatementKeepsIds(w.db, w.call.value, s.ok);
    }
  }

  /** A row that reached a terminal status keeps it, word for word, until cleanup removes it; a row
      removed never returns. */
  lemma {:induction false} TerminalRowsNeverChange(w: World, steps: seq<Step>, r: InboxRow)
    requires Inv(w) && StepsOk(steps) && r.id < w.db.nextInboxId && Terminal(r)
    requires forall q :: q in w.db.inbox && q.id == r.id ==> q == r
    ensures forall q :: q in Run(w, steps).db.inbox && q.id == r.id ==> q == r
    decreases |steps|
  {
    if steps != [] {
      var after := Apply(w, steps[0]);
      assert forall i :: 0 <= i < |w.db.inbox| ==> w.db.inbox[i] in w.db.inbox;
      StepKeepsInv(w, steps[0]);
      TerminalStep(w, steps[0], r);
      TerminalRowsNeverChange(after, steps[1..], r);
    }
  }
}

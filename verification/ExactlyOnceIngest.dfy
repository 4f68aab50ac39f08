/** Exactly-once effect and retry safety of the ingest pipeline, over histories in which anything may
    happen between any two statements of a Process call. */
module ExactlyOnceIngest {
  import opened Text
  import opened Calendar
  import opened UsageEvents
  import opened Database
  import opened Alignment
  import opened Ingest
  import opened IngestHistory

  // ------------------------------------------------- each row adds at most one event

  predicate Identified(m: Message) { m.Malformed? || HasRequestId(m) || HasTimestamp(m) }

  predicate StepIdentified(s: Step) {
    s.PullMessages? ==> forall i :: 0 <= i < |s.messages| ==> Identified(s.messages[i])
  }

  /** The row with this id, if it is there, carries a request id or a timestamp. */
  predicate RowIdentified(db: Db, id: nat) {
    forall i :: 0 <= i < |db.inbox| && db.inbox[i].id == id ==> Identified(db.inbox[i].message)
  }

  predicate AllIdentified(db: Db) { forall i :: 0 <= i < |db.inbox| ==> Identified(db.inbox[i].message) }

  /** The j-th row is new when its turn comes in a chunk that starts at `next`. */
  predicate NewAt(stored: seq<UsageEvent>, aligned: seq<UsageEvent>, next: nat, j: nat)
    requires next <= j < |aligned|
  {
    aligned[j].eventKey !in Keys(InsertAll(stored, aligned[next..j]))
  }

  /** The ids of the rows from `next` to `end` that are new when their turn comes. */
  function NewIds(stored: seq<UsageEvent>, rows: seq<InboxRow>, aligned: seq<UsageEvent>, next: nat, end: nat): set<nat>
    requires next <= end <= |aligned| <= |rows|
  {
    if next == end then {}
    else
      NewIds(stored, rows, aligned, next, end - 1)
      + if NewAt(stored, aligned, next, end - 1) then {rows[end - 1].id} else {}
  }

  /** The ids of the rows for which this step adds an event of their own. */
  function AddedBy(w: World, s: Step): set<nat> {
    if s == Statement(true) && w.call.Some? then AddedByCall(w.db, w.call.value) else {}
  }

  function AddedByCall(db: Db, c: Call): set<nat> {
    if c.stage.Inserting? && c.stage.next < |c.stage.aligned| <= |c.rows| then
      ChunkIds(db.events, c.rows, c.stage.aligned, c.stage.next)
    else {}
  }

  function ChunkIds(stored: seq<UsageEvent>, rows: seq<InboxRow>, aligned: seq<UsageEvent>, next: nat): set<nat>
    requires next < |aligned| <= |rows|
  {
    NewIds(stored, rows, aligned, next, ChunkEnd(next, |aligned|))
  }

  /** The ids of the rows that added an event anywhere in a history. */
  function AllAdded(w: World, steps: seq<Step>): set<nat>
    decreases |steps|
  {
    if steps == [] then {} else AddedBy(w, steps[0]) + AllAdded(Apply(w, steps[0]), steps[1..])
  }

  /** The number of steps that add an event for this row. */
  function Times(w: World, steps: seq<Step>, id: nat): nat
    decreases |steps|
  {
    if steps == [] then 0
    else (if id in AddedBy(w, steps[0]) then 1 else 0) + Times(Apply(w, steps[0]), steps[1..], id)
  }

  /** The same for all rows with smaller ids. */
  function TimesUpTo(w: World, steps: seq<Step>, n: nat): nat {
    if n == 0 then 0 else TimesUpTo(w, steps, n - 1) + Times(w, steps, n - 1)
  }

  function OtherAdded(w: World, steps: seq<Step>): nat
    decreases |steps|
  {
    if steps == [] then 0
    else (if steps[0].OtherInsert? then NewRows(w.db.events, steps[0].events) else 0)
         + OtherAdded(Apply(w, steps[0]), steps[1..])
  }

  // ------------------------------------------------------------------------ growth

  lemma {:induction false} NewIdsMembers(stored: seq<UsageEvent>, rows: seq<InboxRow>, aligned: seq<UsageEvent>,
                                         next: nat, end: nat)
    requires next <= end <= |aligned| <= |rows|
    ensures forall id :: id in NewIds(stored, rows, aligned, next, end) <==>
                           exists j :: next <= j < end && NewAt(stored, aligned, next, j) && rows[j].id == id
  {
    if next < end {
      NewIdsMembers(stored, rows, aligned, next, end - 1);
      if NewAt(stored, aligned, next, end - 1) { assert rows[end - 1].id in NewIds(stored, rows, aligned, next, end); }
    }
  }

  lemma NewRowsSnoc(stored: seq<UsageEvent>, aligned: seq<UsageEvent>, next: nat, m: nat)
    requires next <= m < |aligned|
    ensures NewRows(stored, aligned[next..m + 1])
            == NewRows(stored, aligned[next..m]) + if NewAt(stored, aligned, next, m) then 1 else 0
  {
    var chunk := aligned[next..m + 1];
    assert chunk[..m - next] == aligned[next..m] && chunk[m - next] == aligned[m];
  }

  lemma NewIdsEarlier(stored: seq<UsageEvent>, rows: seq<InboxRow>, aligned: seq<UsageEvent>, next: nat, m: nat)
    requires next <= m < |aligned| <= |rows| && IdsAscend(rows)
    ensures rows[m].id !in NewIds(stored, rows, aligned, next, m)
  {
    NewIdsMembers(stored, rows, aligned, next, m);
  }

  lemma OneMoreId(ids: set<nat>, id: nat, isNew: bool)
    requires id !in ids
    ensures |ids + if isNew then {id} else {}| == |ids| + if isNew then 1 else 0
  {
    if isNew { assert |ids + {id}| == |ids| + 1; } else { assert ids + {} == ids; }
  }

  lemma {:induction false} NewIdsCount(stored: seq<UsageEvent>, rows: seq<InboxRow>, aligned: seq<UsageEvent>,
                                       next: nat, end: nat)
    requires next <= end <= |aligned| <= |rows| && IdsAscend(rows)
    ensures |NewIds(stored, rows, aligned, next, end)| == NewRows(stored, aligned[next..end])
  {
    if next == end {
      assert aligned[next..end] == [];
    } else {
      var m := end - 1;
      NewIdsCount(stored, rows, aligned, next, m);
      NewIdsEarlier(stored, rows, aligned, next, m);
      NewRowsSnoc(stored, aligned, next, m);
      OneMoreId(NewIds(stored, rows, aligned, next, m), rows[m].id, NewAt(stored, aligned, next, m));
    }
  }

  /** What the call invariant says about a batch that is being inserted. */
  predicate InsertingOk(stored: seq<UsageEvent>, c: Call, aligned: seq<UsageEvent>, next: nat) {
    |aligned| == |c.events| == |c.rows| && IdsAscend(c.rows) && next <= |aligned|
    && KeysOk(Keys(stored), c.events, aligned) && KeysIn(Keys(stored), aligned, next)
  }

  lemma InsertingIsOk(db: Db, c: Call)
    requires CallOk(db, c) && c.stage.Inserting?
    ensures InsertingOk(db.events, c, c.stage.aligned, c.stage.next)
  {
  }

  lemma ChunkGrowth(stored: seq<UsageEvent>, rows: seq<InboxRow>, aligned: seq<UsageEvent>, next: nat)
    requires next < |aligned| <= |rows| && IdsAscend(rows)
    ensures |InsertAll(stored, aligned[next..ChunkEnd(next, |aligned|)])|
            == |stored| + |ChunkIds(stored, rows, aligned, next)|
  {
    var end := ChunkEnd(next, |aligned|);
    NewIdsCount(stored, rows, aligned, next, end);
    InsertAllCount(stored, aligned[next..end]);
  }

  lemma InsertGrowth(db: Db, c: Call, aligned: seq<UsageEvent>, next: nat)
    requires InsertingOk(db.events, c, aligned, next) && c.stage == Inserting(aligned, next)
    ensures |Insert(db, c, aligned, next, true).db.events| == |db.events| + |AddedByCall(db, c)|
  {
    if next < |aligned| { ChunkGrowth(db.events, c.rows, aligned, next); }
  }

  lemma StepGrowth(w: World, s: Step)
    requires Inv(w)
    ensures |Apply(w, s).db.events|
            == |w.db.events| + |AddedBy(w, s)| + if s.OtherInsert? then NewRows(w.db.events, s.events) else 0
  {
    match s
    case OtherInsert(events) => InsertAllCount(w.db.events, events);
    case Statement(ok) =>
      if w.call.Some? && w.call.value.stage.Inserting? && ok {
        InsertingIsOk(w.db, w.call.value);
        InsertGrowth(w.db, w.call.value, w.call.value.stage.aligned, w.call.value.stage.next);
      }
    case _ =>
  }

  // -------------------------------------------------------------------- quiet rows

  /** The j-th row of the call will not add an event any more: its chunk is committed, or its key is
      stored or comes earlier in the batch, or it is still to be aligned and already settled. */
  predicate Harmless(db: Db, c: Call, j: nat)
    requires j < |c.events|
  {
    match c.stage
    case Decoding(targets) => Settled(db.events, c.events[j])
    case Aligning(mem, done) =>
      if j < |done| then done[j].eventKey in Keys(db.events) + Keys(done[..j]) else Settled(db.events, c.events[j])
    case Inserting(aligned, next) =>
      j < next || (j < |aligned| ==> aligned[j].eventKey in Keys(db.events) + Keys(aligned[..j]))
    case _ => true
  }

  /** The row with this id, if it is still there, can be accounted for whenever it is decoded, and the
      call in flight will not add an event for it. */
  ghost predicate Quiet(w: World, id: nat) {
    id < w.db.nextInboxId && QuietRow(w.db, id)
    && (w.call.Some? ==> QuietInCall(w.db, w.call.value, id))
  }

  ghost predicate QuietRow(db: Db, id: nat) {
    forall i, at: Instant :: 0 <= i < |db.inbox| && db.inbox[i].id == id && db.inbox[i].message.Usage? ==>
                               Settled(db.events, ToUsageEvent(db.inbox[i].message.detail, at))
  }

  predicate QuietInCall(db: Db, c: Call, id: nat) {
    forall j :: 0 <= j < |c.rows| && j < |c.events| && c.rows[j].id == id ==> Harmless(db, c, j)
  }

  /** With everything before the chunk stored, a row is new exactly if its key is neither stored nor
      earlier in the batch. */
  lemma NewMeansUnknown(stored: seq<UsageEvent>, aligned: seq<UsageEvent>, next: nat, j: nat)
    requires next <= j < |aligned| && KeysIn(Keys(stored), aligned, next)
    ensures NewAt(stored, aligned, next, j) <==> aligned[j].eventKey !in Keys(stored) + Keys(aligned[..j])
  {
    InsertAllKeys(stored, aligned[next..j]);
    assert aligned[..j] == aligned[..next] + aligned[next..j];
    KeysAppend(aligned[..next], aligned[next..j]);
    forall k | k in Keys(aligned[..next]) ensures k in Keys(stored) {
      var i :| 0 <= i < next && aligned[..next][i].eventKey == k;
    }
  }

  /** Which rows of a chunk are new. */
  lemma ChunkIdsMembers(stored: seq<UsageEvent>, rows: seq<InboxRow>, aligned: seq<UsageEvent>, next: nat, id: nat)
    requires next < |aligned| <= |rows| && KeysIn(Keys(stored), aligned, next)
    ensures id in ChunkIds(stored, rows, aligned, next) <==>
              exists j :: next <= j < ChunkEnd(next, |aligned|) && rows[j].id == id
                          && aligned[j].eventKey !in Keys(stored) + Keys(aligned[..j])
  {
    NewIdsMembers(stored, rows, aligned, next, ChunkEnd(next, |aligned|));
    forall j | next <= j < |aligned|
      ensures NewAt(stored, aligned, next, j) <==> aligned[j].eventKey !in Keys(stored) + Keys(aligned[..j])
    {
      NewMeansUnknown(stored, aligned, next, j);
    }
  }

  lemma QuietCallAddsNothing(db: Db, c: Call, id: nat)
    requires CallOk(db, c) && QuietInCall(db, c, id)
    ensures id !in AddedByCall(db, c)
  {
    if c.stage.Inserting? && c.stage.next < |c.stage.aligned| {
      InsertingIsOk(db, c);
      QuietChunk(db, c, c.stage.aligned, c.stage.next, id);
    }
  }

  lemma QuietChunk(db: Db, c: Call, aligned: seq<UsageEvent>, next: nat, id: nat)
    requires InsertingOk(db.events, c, aligned, next) && c.stage == Inserting(aligned, next) && next < |aligned|
    requires QuietInCall(db, c, id)
    ensures id !in ChunkIds(db.events, c.rows, aligned, next)
  {
    ChunkIdsMembers(db.events, c.rows, aligned, next, id);
    forall j | next <= j < |aligned| && c.rows[j].id == id
      ensures aligned[j].eventKey in Keys(db.events) + Keys(aligned[..j])
    {
      assert Harmless(db, c, j);
    }
  }

  lemma QuietAddsNothing(w: World, s: Step, id: nat)
    requires Inv(w) && Quiet(w, id)
    ensures id !in AddedBy(w, s)
  {
    if w.call.Some? { QuietCallAddsNothing(w.db, w.call.value, id); }
  }

  lemma QuietRowOnward(db: Db, after: Db, id: nat)
    requires Onward(db, after) && QuietRow(db, id) && id < db.nextInboxId
    ensures QuietRow(after, id)
  {
    forall i, at: Instant | 0 <= i < |after.inbox| && after.inbox[i].id == id && after.inbox[i].message.Usage?
      ensures Settled(after.events, ToUsageEvent(after.inbox[i].message.detail, at))
    {
      var k :| 0 <= k < |db.inbox| && db.inbox[k] == after.inbox[i];
      SettledMonotone(db.events, after.events, ToUsageEvent(db.inbox[k].message.detail, at));
    }
  }

  lemma HarmlessOnward(db: Db, after: Db, c: Call, j: nat)
    requires Onward(db, after) && j < |c.events| && Harmless(db, c, j)
    ensures Harmless(after, c, j)
  {
    KeysOfPrefix(db.events, after.events);
    if Settled(db.events, c.events[j]) { SettledMonotone(db.events, after.events, c.events[j]); }
  }

  lemma QuietOnward(db: Db, after: Db, c: Option<Call>, id: nat)
    requires Onward(db, after) && Quiet(World(db, c), id)
    ensures Quiet(World(after, c), id)
  {
    QuietRowOnward(db, after, id);
    if c.Some? {
      forall j | 0 <= j < |c.value.rows| && j < |c.value.events| && c.value.rows[j].id == id
        ensures Harmless(after, c.value, j)
      {
        HarmlessOnward(db, after, c.value, j);
      }
    }
  }

  /** Statements of a call only add events. */
  lemma StatementKeepsEvents(db: Db, c: Call, ok: bool)
    ensures db.events <= AfterStatement(db, c, ok).db.events
  {
    if c.stage.Inserting? && c.stage.next < |c.stage.aligned| {
      InsertAllKeys(db.events, c.stage.aligned[c.stage.next..ChunkEnd(c.stage.next, |c.stage.aligned|)]);
    }
  }

  lemma QuietRowAfterStatement(db: Db, c: Call, ok: bool, id: nat)
    requires QuietRow(db, id)
    ensures QuietRow(AfterStatement(db, c, ok).db, id)
  {
    var after := AfterStatement(db, c, ok).db;
    StatementKeepsIds(db, c, ok);
    StatementKeepsEvents(db, c, ok);
    forall i, at: Instant | 0 <= i < |after.inbox| && after.inbox[i].id == id && after.inbox[i].message.Usage?
      ensures Settled(after.events, ToUsageEvent(after.inbox[i].message.detail, at))
    {
      assert db.inbox[i].id == id && db.inbox[i].message == after.inbox[i].message;
      SettledMonotone(db.events, after.events, ToUsageEvent(db.inbox[i].message.detail, at));
    }
  }

  /** A settled event is aligned to a key that is stored or comes earlier in the batch. */
  lemma SettledIsAlignedToKnown(db: Db, c: Call, mem: Memory, done: seq<UsageEvent>)
    requires Ok(db) && CallOk(db, c) && c.stage == Aligning(mem, done) && |done| < |c.events|
    requires Settled(db.events, c.events[|done|])
    ensures SimpleKey(db.events, mem.canonical, c.events[|done|]) in Keys(db.events) + Keys(done)
  {
    AlignedKeyIsKnown(db, c, mem, done);
    var e := c.events[|done|];
    if e.requestId == "" && FirstEquivalent(db.events, e).Some? { EquivalentKeyStored(db.events, e); }
  }

  lemma HarmlessWhileAligning(db: Db, c: Call, mem: Memory, done: seq<UsageEvent>, ok: bool, j: nat)
    requires Ok(db) && CallOk(db, c) && c.stage == Aligning(mem, done) && j < |c.events| && Harmless(db, c, j)
    ensures Harmless(db, Align(db, c, mem, done, ok).call.value, j)
  {
    if |done| < |c.events| && (ok || !LooksUp(mem, c.events[|done|])) {
      AlignedKeyIsKnown(db, c, mem, done);
      var e := c.events[|done|];
      var all := done + [e.(eventKey := SimpleKey(db.events, mem.canonical, e))];
      if j == |done| {
        SettledIsAlignedToKnown(db, c, mem, done);
        assert all[..j] == done;
      } else if j < |done| {
        assert all[..j] == done[..j];
      }
    }
  }

  lemma HarmlessWhileInserting(db: Db, c: Call, aligned: seq<UsageEvent>, next: nat, ok: bool, j: nat)
    requires Ok(db) && CallOk(db, c) && c.stage == Inserting(aligned, next) && j < |c.events| && Harmless(db, c, j)
    ensures var w := Insert(db, c, aligned, next, ok); Harmless(w.db, w.call.value, j)
  {
    if next < |aligned| && ok {
      var chunk := aligned[next..ChunkEnd(next, |aligned|)];
      InsertAllKeys(db.events, chunk);
    }
  }

  lemma HarmlessAfterStatement(db: Db, c: Call, ok: bool, j: nat)
    requires Ok(db) && CallOk(db, c) && j < |c.events| && Harmless(db, c, j)
    ensures var w := AfterStatement(db, c, ok);
            w.call.Some?
            ==> w.call.value.rows == c.rows && w.call.value.events == c.events && Harmless(w.db, w.call.value, j)
  {
    match c.stage
    case Decoding(targets) =>
    case Aligning(mem, done) => HarmlessWhileAligning(db, c, mem, done, ok, j);
    case Inserting(aligned, next) => HarmlessWhileInserting(db, c, aligned, next, ok, j);
    case _ =>
  }

  lemma StatementKeepsRows(db: Db, c: Call, ok: bool)
    ensures var w := AfterStatement(db, c, ok);
            w.call.Some? ==> w.call.value.rows == c.rows && w.call.value.events == c.events && w.call.value.at == c.at
  {
  }

  lemma QuietAfterStatement(db: Db, c: Call, ok: bool, id: nat)
    requires Ok(db) && CallOk(db, c) && Quiet(World(db, Some(c)), id)
    ensures Quiet(AfterStatement(db, c, ok), id)
  {
    var w := AfterStatement(db, c, ok);
    QuietRowAfterStatement(db, c, ok, id);
    StatementKeepsIds(db, c, ok);
    StatementKeepsRows(db, c, ok);
    forall j | w.call.Some? && 0 <= j < |c.rows| && j < |c.events| && c.rows[j].id == id
      ensures Harmless(w.db, w.call.value, j)
    {
      HarmlessAfterStatement(db, c, ok, j);
    }
  }

  lemma QuietAtBegin(db: Db, at: Instant, id: nat)
    requires Ok(db) && Quiet(World(db, None), id)
    ensures Quiet(World(db, BeginCall(db.inbox, at)), id)
  {
    BeginKeepsInv(db, at);
    var call := BeginCall(db.inbox, at);
    if call.Some? {
      var c := call.value;
      var listed := ListProcessable(db.inbox);
      ListProcessableMembers(db.inbox);
      ValidRowsAre(listed);
      forall j | 0 <= j < |c.rows| && c.rows[j].id == id ensures Harmless(db, c, j) {
        assert c.rows[j] in c.rows && c.rows[j] in db.inbox;
        var k :| 0 <= k < |db.inbox| && db.inbox[k] == c.rows[j];
      }
    }
  }

  lemma QuietStep(w: World, s: Step, id: nat)
    requires Inv(w) && StepOk(s) && Quiet(w, id)
    ensures Quiet(Apply(w, s), id)
  {
    if FromOutside(s) {
      OutsideIsOnward(w, s);
      QuietOnward(w.db, Apply(w, s).db, w.call, id);
    } else {
      match s
      case Begin(at) => if w.call.None? { QuietAtBegin(w.db, at, id); }
      case Statement(ok) => if w.call.Some? { QuietAfterStatement(w.db, w.call.value, ok, id); }
      case Crash =>
    }
  }

  /** A quiet row never adds an event again, whatever happens. */
  lemma {:induction false} QuietForever(w: World, steps: seq<Step>, id: nat)
    requires Inv(w) && Quiet(w, id) && StepsOk(steps)
    ensures id !in AllAdded(w, steps)
    decreases |steps|
  {
    if steps != [] {
      QuietAddsNothing(w, steps[0], id);
      QuietStep(w, steps[0], id);
      StepKeepsInv(w, steps[0]);
      QuietForever(Apply(w, steps[0]), steps[1..], id);
    }
  }

  // ------------------------------------------------------------ what makes a row quiet

  lemma SettledWheneverDecoded(events: seq<UsageEvent>, m: Message, at: Instant, later: Instant)
    requires m.Usage? && Identified(m) && Settled(events, ToUsageEvent(m.detail, at))
    ensures Settled(events, ToUsageEvent(m.detail, later))
  {
    DecoderOutput(m.detail, at);
    DecoderOutput(m.detail, later);
    if HasTimestamp(m) { DecodingIsStable(m, at, later); }
  }

  /** The chunk with the j-th row is committed. */
  predicate Committed(c: Call, j: nat) {
    (c.stage.Inserting? && j < c.stage.next) || c.stage.MarkingDone?
  }

  lemma IdsTellApart(rows: seq<InboxRow>, j: nat, k: nat)
    requires IdsAscend(rows) && j < |rows| && k < |rows|
    ensures rows[j].id == rows[k].id ==> j == k
  {
  }

  /** A row whose chunk is committed, and whose event the table accounts for, is quiet. */
  lemma CommittedAndSettledIsQuiet(w: World, j: nat)
    requires Inv(w) && w.call.Some? && j < |w.call.value.rows| && Committed(w.call.value, j)
    requires Settled(w.db.events, w.call.value.events[j]) && Identified(w.call.value.rows[j].message)
    ensures Quiet(w, w.call.value.rows[j].id)
  {
    var c := w.call.value;
    var r := c.rows[j];
    forall i, at: Instant | 0 <= i < |w.db.inbox| && w.db.inbox[i].id == r.id && w.db.inbox[i].message.Usage?
      ensures Settled(w.db.events, ToUsageEvent(w.db.inbox[i].message.detail, at))
    {
      assert SameMessage(w.db.inbox, r);
      SettledWheneverDecoded(w.db.events, r.message, c.at, at);
    }
    forall k | 0 <= k < |c.rows| && c.rows[k].id == r.id ensures Harmless(w.db, c, k) {
      IdsTellApart(c.rows, j, k);
    }
  }

  /** An event that kept its own key is accounted for once that key is stored. */
  lemma OwnKeySettles(stored: seq<UsageEvent>, e: UsageEvent)
    requires Decoded(e) && e.eventKey in Keys(stored)
    ensures Settled(stored, e)
  {
  }

  /** A row that adds an event had kept its own key. */
  lemma NewKeyIsOwn(stored: seq<UsageEvent>, c: Call, aligned: seq<UsageEvent>, next: nat, id: nat) returns (j: nat)
    requires InsertingOk(stored, c, aligned, next) && next < |aligned|
    requires id in ChunkIds(stored, c.rows, aligned, next)
    ensures next <= j < ChunkEnd(next, |aligned|)
    ensures c.rows[j].id == id && aligned[j].eventKey == c.events[j].eventKey
  {
    ChunkIdsMembers(stored, c.rows, aligned, next, id);
    j :| next <= j < ChunkEnd(next, |aligned|) && c.rows[j].id == id
         && aligned[j].eventKey !in Keys(stored) + Keys(aligned[..j]);
    assert KeyOk(Keys(stored), c.events, aligned, j);
  }

  lemma AddingQuiets(w: World, s: Step, id: nat)
    requires Inv(w) && RowIdentified(w.db, id) && id in AddedBy(w, s)
    ensures Quiet(Apply(w, s), id)
  {
    var c := w.call.value;
    InsertingIsOk(w.db, c);
    var j := NewKeyIsOwn(w.db.events, c, c.stage.aligned, c.stage.next, id);
    StepKeepsInv(w, s);
    CommitKeepsInbox(w.db, c);
    AddedRowIsQuiet(Apply(w, s), j);
  }

  lemma CommitKeepsInbox(db: Db, c: Call)
    requires c.stage.Inserting? && c.stage.next < |c.stage.aligned|
    ensures var w := AfterStatement(db, c, true);
            w.db.inbox == db.inbox
            && w.call == At(c, Inserting(c.stage.aligned, ChunkEnd(c.stage.next, |c.stage.aligned|)))
  {
  }

  /** After a commit, a row that kept its own key is quiet, or gone from the inbox. */
  lemma AddedRowIsQuiet(w: World, j: nat)
    requires Inv(w) && w.call.Some? && w.call.value.stage.Inserting? && j < w.call.value.stage.next
    requires RowIdentified(w.db, w.call.value.rows[j].id)
    requires w.call.value.stage.aligned[j].eventKey == w.call.value.events[j].eventKey
    ensures Quiet(w, w.call.value.rows[j].id)
  {
    var c := w.call.value;
    BatchIsDecoded(c);
    OwnKeySettles(w.db.events, c.events[j]);
    if Identified(c.rows[j].message) {
      CommittedAndSettledIsQuiet(w, j);
    } else {
      GoneIsQuiet(w, j);
    }
  }

  /** A row that cannot be the one in the inbox is no longer there. */
  lemma GoneIsQuiet(w: World, j: nat)
    requires Inv(w) && w.call.Some? && j < |w.call.value.rows| && Committed(w.call.value, j)
    requires RowIdentified(w.db, w.call.value.rows[j].id) && !Identified(w.call.value.rows[j].message)
    ensures Quiet(w, w.call.value.rows[j].id)
  {
    var c := w.call.value;
    var r := c.rows[j];
    forall i | 0 <= i < |w.db.inbox| ensures w.db.inbox[i].id != r.id { assert SameMessage(w.db.inbox, r); }
    forall k | 0 <= k < |c.rows| && c.rows[k].id == r.id ensures Harmless(w.db, c, k) {
      IdsTellApart(c.rows, j, k);
    }
  }

  // -------------------------------------------------------------------- at most once

  /** Whenever the row is in the inbox, its message is identified; of other rows nothing is said. */
  predicate StaysIdentified(w: World, steps: seq<Step>, id: nat)
    decreases |steps|
  {
    RowIdentified(w.db, id) && (steps != [] ==> StaysIdentified(Apply(w, steps[0]), steps[1..], id))
  }

  lemma {:induction false} QuietIsNeverCounted(w: World, steps: seq<Step>, id: nat)
    requires id !in AllAdded(w, steps)
    ensures Times(w, steps, id) == 0
    decreases |steps|
  {
    if steps != [] { QuietIsNeverCounted(Apply(w, steps[0]), steps[1..], id); }
  }

  lemma {:induction false} AddsAtMostOnce(w: World, steps: seq<Step>, id: nat)
    requires Inv(w) && StepsOk(steps) && StaysIdentified(w, steps, id)
    ensures Times(w, steps, id) <= 1
    decreases |steps|
  {
    if steps != [] {
      var s, after := steps[0], Apply(w, steps[0]);
      StepKeepsInv(w, s);
      if id in AddedBy(w, s) {
        AddingQuiets(w, s, id);
        QuietForever(after, steps[1..], id);
        QuietIsNeverCounted(after, steps[1..], id);
      } else {
        AddsAtMostOnce(after, steps[1..], id);
      }
    }
  }

  /** A row keeps its message, and ids are not used again. */
  lemma RowKeepsIdentity(w: World, s: Step, id: nat)
    requires Inv(w) && StepOk(s) && id < w.db.nextInboxId && RowIdentified(w.db, id)
    ensures id < Apply(w, s).db.nextInboxId && RowIdentified(Apply(w, s).db, id)
  {
    var after := Apply(w, s).db;
    if FromOutside(s) {
      OutsideIsOnward(w, s);
      forall i | 0 <= i < |after.inbox| && after.inbox[i].id == id ensures Identified(after.inbox[i].message) {
        var k :| 0 <= k < |w.db.inbox| && w.db.inbox[k] == after.inbox[i];
      }
    } else if s.Statement? && w.call.Some? {
      StatementKeepsIds(w.db, w.call.value, s.ok);
    }
  }

  lemma {:induction false} RowStaysIdentified(w: World, steps: seq<Step>, id: nat)
    requires Inv(w) && StepsOk(steps) && id < w.db.nextInboxId && RowIdentified(w.db, id)
    ensures StaysIdentified(w, steps, id)
    decreases |steps|
  {
    if steps != [] {
      StepKeepsInv(w, steps[0]);
      RowKeepsIdentity(w, steps[0], id);
      RowStaysIdentified(Apply(w, steps[0]), steps[1..], id);
    }
  }

  /** At most once, row by row: a row whose message carries a request id or a timestamp adds at most one
      event over any history, with any failing statements, crashes and other writers between any two
      statements. Nothing is asked of any other row, nor of what messages say. */
  lemma AtMostOnce(w: World, steps: seq<Step>, id: nat)
    requires Inv(w) && StepsOk(steps) && id < w.db.nextInboxId && RowIdentified(w.db, id)
    ensures Times(w, steps, id) <= 1
  {
    RowStaysIdentified(w, steps, id);
    AddsAtMostOnce(w, steps, id);
  }

  // -------------------------------------------------------------- growth of the table

  function CountBelow(ids: set<nat>, n: nat): nat {
    if n == 0 then 0 else CountBelow(ids, n - 1) + if n - 1 in ids then 1 else 0
  }

  lemma {:induction false} CountBelowAll(ids: set<nat>, n: nat)
    requires forall id :: id in ids ==> id < n
    ensures CountBelow(ids, n) == |ids|
    decreases n
  {
    if n == 0 {
      assert ids == {};
    } else {
      var rest := ids - {n - 1};
      CountBelowAll(rest, n - 1);
      CountBelowSame(ids, rest, n - 1);
      assert ids == rest + if n - 1 in ids then {n - 1} else {};
    }
  }

  lemma {:induction false} CountBelowSame(a: set<nat>, b: set<nat>, n: nat)
    requires forall id :: id < n ==> (id in a <==> id in b)
    ensures CountBelow(a, n) == CountBelow(b, n)
  {
    if n > 0 { CountBelowSame(a, b, n - 1); }
  }

  lemma {:induction false} TimesUpToNext(w: World, steps: seq<Step>, n: nat)
    requires steps != []
    ensures TimesUpTo(w, steps, n) == CountBelow(AddedBy(w, steps[0]), n) + TimesUpTo(Apply(w, steps[0]), steps[1..], n)
  {
    if n > 0 { TimesUpToNext(w, steps, n - 1); }
  }

  lemma {:induction false} NoStepsNoTimes(w: World, n: nat)
    ensures TimesUpTo(w, [], n) == 0
  {
    if n > 0 { NoStepsNoTimes(w, n - 1); }
  }

  lemma AddedAreKnown(w: World, s: Step)
    requires Inv(w)
    ensures forall id :: id in AddedBy(w, s) ==> id < w.db.nextInboxId
  {
    forall id | id in AddedBy(w, s) ensures id < w.db.nextInboxId {
      var c := w.call.value;
      InsertingIsOk(w.db, c);
      var j := NewKeyIsOwn(w.db.events, c, c.stage.aligned, c.stage.next, id);
      assert c.rows[j].id < w.db.nextInboxId;
    }
  }

  lemma {:induction false} IdsOnlyGrow(w: World, steps: seq<Step>)
    requires Inv(w) && StepsOk(steps)
    ensures w.db.nextInboxId <= Run(w, steps).db.nextInboxId
    decreases |steps|
  {
    if steps != [] {
      StepKeepsInv(w, steps[0]);
      if FromOutside(steps[0]) { OutsideIsOnward(w, steps[0]); }
      if steps[0].Statement? && w.call.Some? { StatementKeepsIds(w.db, w.call.value, steps[0].ok); }
      IdsOnlyGrow(Apply(w, steps[0]), steps[1..]);
    }
  }

  /** Exactly-once effect under at-least-once retry. Over any history the event table grows by what other
      writers inserted and by one event for each time a row adds one; and a row that is identified
      whenever it is there does so at most once, whatever the other rows are. */
  lemma {:induction false} ExactlyOnce(w: World, steps: seq<Step>, n: nat)
    requires Inv(w) && StepsOk(steps) && Run(w, steps).db.nextInboxId <= n
    ensures |Run(w, steps).db.events| == |w.db.events| + OtherAdded(w, steps) + TimesUpTo(w, steps, n)
    ensures forall id: nat :: StaysIdentified(w, steps, id) ==> Times(w, steps, id) <= 1
    decreases |steps|
  {
    if steps == [] {
      NoStepsNoTimes(w, n);
    } else {
      var s := steps[0];
      StepKeepsInv(w, s);
      ExactlyOnce(Apply(w, s), steps[1..], n);
      StepGrowth(w, s);
      IdsOnlyGrow(w, steps);
      AddedAreKnown(w, s);
      CountBelowAll(AddedBy(w, s), n);
      TimesUpToNext(w, steps, n);
    }
    forall id: nat | StaysIdentified(w, steps, id) ensures Times(w, steps, id) <= 1 { AddsAtMostOnce(w, steps, id); }
  }

  lemma IdentifiedStep(w: World, s: Step)
    requires Inv(w) && StepOk(s) && AllIdentified(w.db) && StepIdentified(s)
    ensures AllIdentified(Apply(w, s).db)
  {
    var after := Apply(w, s).db;
    match s
    case PullMessages(messages, at) =>
      forall i | 0 <= i < |after.inbox| ensures Identified(after.inbox[i].message) {
        if i < |w.db.inbox| { assert after.inbox[i] == w.db.inbox[i]; }
      }
    case DeleteProcessedRows(now, zone) =>
      FilterMembers(w.db.inbox, (r: InboxRow) => SparedAsProcessed(r, now, zone));
      KeptRowsIdentified(w.db, after);
    case DeleteFailedRows(now) =>
      FilterMembers(w.db.inbox, (r: InboxRow) => SparedAsFailed(r, now));
      KeptRowsIdentified(w.db, after);
    case Statement(ok) => if w.call.Some? { StatementKeepsIds(w.db, w.call.value, ok); }
    case _ =>
  }

  lemma KeptRowsIdentified(db: Db, after: Db)
    requires AllIdentified(db) && forall r :: r in after.inbox ==> r in db.inbox
    ensures AllIdentified(after)
  {
    forall i | 0 <= i < |after.inbox| ensures Identified(after.inbox[i].message) {
      assert after.inbox[i] in after.inbox;
      var k :| 0 <= k < |db.inbox| && db.inbox[k] == after.inbox[i];
    }
  }

  /** If every message is identified, the rows that ever added an event are as many as the events the
      pipeline added. */
  lemma {:induction false} GrowthCountsRows(w: World, steps: seq<Step>)
    requires Inv(w) && AllIdentified(w.db)
    requires StepsOk(steps) && forall i :: 0 <= i < |steps| ==> StepIdentified(steps[i])
    ensures |Run(w, steps).db.events| == |w.db.events| + OtherAdded(w, steps) + |AllAdded(w, steps)|
    decreases |steps|
  {
    if steps != [] {
      var s := steps[0];
      var after := Apply(w, s);
      StepKeepsInv(w, s);
      IdentifiedStep(w, s);
      GrowthCountsRows(after, steps[1..]);
      StepGrowth(w, s);
      forall id | id in AddedBy(w, s) ensures id !in AllAdded(after, steps[1..]) {
        AddingQuiets(w, s, id);
        QuietForever(after, steps[1..], id);
      }
      assert AddedBy(w, s) !! AllAdded(after, steps[1..]);
    }
  }

  /** Retry safety needs nothing but the request id: once the chunk with the row is committed, added or
      merged, no later attempt adds an event for it, even if the row was never marked. */
  lemma RequestIdsAreRetrySafe(w: World, j: nat, later: seq<Step>)
    requires Inv(w) && w.call.Some? && j < |w.call.value.rows| && Committed(w.call.value, j)
    requires HasRequestId(w.call.value.rows[j].message) && StepsOk(later)
    ensures w.call.value.rows[j].id !in AllAdded(w, later)
  {
    var c := w.call.value;
    BatchIsDecoded(c);
    DecoderOutput(c.rows[j].message.detail, c.at);
    assert KeyOk(Keys(w.db.events), c.events, c.stage.aligned, j);
    OwnKeySettles(w.db.events, c.events[j]);
    CommittedAndSettledIsQuiet(w, j);
    QuietForever(w, later, c.rows[j].id);
  }
}

/** Under one meaning per key: processed rows name events with their content, and no committed row is
    ever added again. */
module FaithfulIngest {
  import opened Text
  import opened Calendar
  import opened UsageEvents
  import opened Database
  import opened Alignment
  import opened Ingest
  import opened IngestHistory
  import opened ExactlyOnceIngest

  // ---------------------------------------------------------------------- meanings

  predicate SameButTime(a: Content, b: Content) { a == b.(timestamp := a.timestamp) }

  /** What a key stands for: one content, or one content at whatever time. The second is for request ids
      of messages without a timestamp, which take one at each attempt. */
  datatype Meaning = Exactly(content: Content) | ButForTime(content: Content)

  predicate Says(m: Meaning, c: Content) {
    match m
    case Exactly(content) => c == content
    case ButForTime(content) => SameButTime(c, content)
  }

  /** A key without a meaning is left alone: `meaning` need cover only the keys one is interested in. */
  predicate Means(meaning: map<string, Meaning>, e: UsageEvent) {
    e.eventKey in meaning && Says(meaning[e.eventKey], ContentOf(e))
  }

  predicate Pins(meaning: map<string, Meaning>, e: UsageEvent) {
    e.eventKey in meaning && meaning[e.eventKey] == Exactly(ContentOf(e))
  }

  /** No stored event contradicts the meanings. */
  predicate TableMeans(meaning: map<string, Meaning>, table: seq<UsageEvent>) {
    forall i :: 0 <= i < |table| && table[i].eventKey in meaning ==> Means(meaning, table[i])
  }

  /** What is asked of a batch: where a key or a canonical key has a meaning, no event contradicts it; and
      no event with a request id that is not pinned shares its canonical key with an event that has none
      and is. Events whose keys have no meaning may say anything. */
  predicate BatchSpeaks(meaning: map<string, Meaning>, events: seq<UsageEvent>) {
    (forall j :: 0 <= j < |events| ==> EventSpeaks(meaning, events[j]))
    && forall i, j :: 0 <= i < |events| && 0 <= j < |events| && Misleads(meaning, events[i], events[j]) ==>
         CanonicalKey(events[i]) != CanonicalKey(events[j])
  }

  predicate EventSpeaks(meaning: map<string, Meaning>, e: UsageEvent) {
    (e.eventKey in meaning ==> Means(meaning, e))
    && (CanonicalKey(e) in meaning ==> Says(meaning[CanonicalKey(e)], ContentOf(e)))
  }

  predicate Misleads(meaning: map<string, Meaning>, a: UsageEvent, c: UsageEvent) {
    a.requestId != "" && !Pins(meaning, a) && c.requestId == "" && Pins(meaning, c)
  }

  /** A stored event that answers for a row: it has the row's key and says what its message says. */
  predicate Represents(table: seq<UsageEvent>, k: nat, key: string, e: UsageEvent) {
    k < |table| && table[k].eventKey == key && ContentOf(table[k]) == ContentOf(e)
  }

  /** A key that stands, or will stand once it is stored, for an event with e's content. */
  ghost predicate Answers(meaning: map<string, Meaning>, table: seq<UsageEvent>, key: string, e: UsageEvent) {
    (key in meaning && meaning[key] == Exactly(ContentOf(e))) || exists k: nat :: Represents(table, k, key, e)
  }

  ghost predicate MemoryAnswers(meaning: map<string, Meaning>, table: seq<UsageEvent>, m: map<string, string>,
                                events: seq<UsageEvent>)
  {
    forall j :: 0 <= j < |events| && Pins(meaning, events[j]) && events[j].requestId == ""
                && CanonicalKey(events[j]) in m ==>
                  Answers(meaning, table, m[CanonicalKey(events[j])], events[j])
  }

  ghost predicate DoneAnswers(meaning: map<string, Meaning>, table: seq<UsageEvent>, done: seq<UsageEvent>,
                              events: seq<UsageEvent>)
  {
    forall j :: 0 <= j < |done| && j < |events| && Pins(meaning, events[j]) ==>
                  Answers(meaning, table, done[j].eventKey, events[j])
  }

  ghost predicate StageMeans(meaning: map<string, Meaning>, table: seq<UsageEvent>, c: Call) {
    match c.stage
    case Aligning(mem, done) =>
      MemoryAnswers(meaning, table, mem.canonical, c.events) && DoneAnswers(meaning, table, done, c.events)
    case Inserting(aligned, next) => DoneAnswers(meaning, table, aligned, c.events)
    case MarkingDone(aligned, next) => DoneAnswers(meaning, table, aligned, c.events)
    case _ => true
  }

  ghost predicate CallMeans(meaning: map<string, Meaning>, table: seq<UsageEvent>, c: Call) {
    |c.rows| == |c.events| && BatchSpeaks(meaning, c.events) && StageMeans(meaning, table, c)
  }

  // --------------------------------------------------------------------- alignment

  lemma AnswersOnward(meaning: map<string, Meaning>, before: seq<UsageEvent>, after: seq<UsageEvent>, key: string,
                      e: UsageEvent)
    requires before <= after && Answers(meaning, before, key, e)
    ensures Answers(meaning, after, key, e)
  {
    if k: nat :| Represents(before, k, key, e) { assert Represents(after, k, key, e); }
  }

  lemma FoundRepresents(table: seq<UsageEvent>, e: UsageEvent, c: UsageEvent)
    requires AllClean(table) && FirstEquivalent(table, e).Some? && ContentOf(e) == ContentOf(c)
    ensures exists k: nat :: Represents(table, k, FirstEquivalent(table, e).value.eventKey, c)
  {
    var found := FirstEquivalent(table, e).value;
    var k :| 0 <= k < |table| && table[k] == found;
    EquivalentIsSameContent(found, e);
    assert Represents(table, k, found.eventKey, c);
  }

  /** The key alignment gives an event answers for every pinned event with its canonical key. */
  lemma AlignedKeyAnswers(meaning: map<string, Meaning>, table: seq<UsageEvent>, m: map<string, string>,
                          events: seq<UsageEvent>, e: UsageEvent, j: nat)
    requires AllClean(table) && KeysUsable(m) && MemoryAnswers(meaning, table, m, events)
    requires j < |events| && Decoded(events[j]) && EventSpeaks(meaning, e)
    requires Pins(meaning, events[j]) && events[j].requestId == "" && CanonicalKey(events[j]) == CanonicalKey(e)
    requires !Misleads(meaning, e, events[j])
    ensures Answers(meaning, table, SimpleKey(table, m, e), events[j])
  {
    assert events[j].eventKey == CanonicalKey(e) && ContentOf(e) == ContentOf(events[j]);
    if e.requestId == "" && CanonicalKey(e) !in m && FirstEquivalent(table, e).Some? {
      FoundRepresents(table, e, events[j]);
    }
  }

  /** The key of a pinned event answers for it. */
  lemma OwnKeyAnswers(meaning: map<string, Meaning>, table: seq<UsageEvent>, m: map<string, string>,
                      events: seq<UsageEvent>, n: nat)
    requires AllClean(table) && KeysUsable(m) && MemoryAnswers(meaning, table, m, events)
    requires n < |events| && Decoded(events[n]) && EventSpeaks(meaning, events[n]) && Pins(meaning, events[n])
    ensures Answers(meaning, table, SimpleKey(table, m, events[n]), events[n])
  {
    if events[n].requestId == "" { AlignedKeyAnswers(meaning, table, m, events, events[n], n); }
  }

  lemma RememberedKeyAnswers(meaning: map<string, Meaning>, table: seq<UsageEvent>, m: map<string, string>,
                             events: seq<UsageEvent>, n: nat)
    requires AllClean(table) && KeysUsable(m) && MemoryAnswers(meaning, table, m, events)
    requires BatchSpeaks(meaning, events) && AllDecoded(events) && n < |events|
    ensures MemoryAnswers(meaning, table, m[CanonicalKey(events[n]) := SimpleKey(table, m, events[n])], events)
  {
    forall j | 0 <= j < |events| && Pins(meaning, events[j]) && events[j].requestId == ""
               && CanonicalKey(events[j]) == CanonicalKey(events[n])
      ensures Answers(meaning, table, SimpleKey(table, m, events[n]), events[j])
    {
      AlignedKeyAnswers(meaning, table, m, events, events[n], j);
    }
  }

  lemma DoneAnswersSnoc(meaning: map<string, Meaning>, table: seq<UsageEvent>, done: seq<UsageEvent>,
                        events: seq<UsageEvent>, a: UsageEvent)
    requires DoneAnswers(meaning, table, done, events) && |done| < |events|
    requires Pins(meaning, events[|done|]) ==> Answers(meaning, table, a.eventKey, events[|done|])
    ensures DoneAnswers(meaning, table, done + [a], events)
  {
  }

  lemma AlignKeepsMeaning(meaning: map<string, Meaning>, db: Db, c: Call, mem: Memory, done: seq<UsageEvent>, ok: bool)
    requires Ok(db) && CallOk(db, c) && c.stage == Aligning(mem, done) && CallMeans(meaning, db.events, c)
    ensures CallMeans(meaning, db.events, Align(db, c, mem, done, ok).call.value)
  {
    if |done| < |c.events| && (ok || !LooksUp(mem, c.events[|done|])) {
      var e := c.events[|done|];
      var key := SimpleKey(db.events, mem.canonical, e);
      AlignedKeyIsKnown(db, c, mem, done);
      BatchIsDecoded(c);
      RememberedKeyAnswers(meaning, db.events, mem.canonical, c.events, |done|);
      if Pins(meaning, e) { OwnKeyAnswers(meaning, db.events, mem.canonical, c.events, |done|); }
      DoneAnswersSnoc(meaning, db.events, done, c.events, e.(eventKey := key));
    }
  }

  // -------------------------------------------------------------------- insertion

  lemma StageMeansOnward(meaning: map<string, Meaning>, before: seq<UsageEvent>, after: seq<UsageEvent>, c: Call)
    requires before <= after && CallMeans(meaning, before, c)
    ensures CallMeans(meaning, after, c)
  {
    forall key, e | Answers(meaning, before, key, e) ensures Answers(meaning, after, key, e) {
      AnswersOnward(meaning, before, after, key, e);
    }
  }

  lemma InsertOneMeans(meaning: map<string, Meaning>, table: seq<UsageEvent>, e: UsageEvent)
    requires TableMeans(meaning, table)
    requires e.eventKey !in Keys(table) && e.eventKey in meaning ==> Means(meaning, e)
    ensures TableMeans(meaning, InsertOne(table, e))
  {
  }

  lemma {:induction false} InsertAllMeans(meaning: map<string, Meaning>, table: seq<UsageEvent>,
                                          incoming: seq<UsageEvent>)
    requires TableMeans(meaning, table) && TableMeans(meaning, incoming)
    ensures TableMeans(meaning, InsertAll(table, incoming))
  {
    if incoming != [] {
      var n := |incoming| - 1;
      InsertAllMeans(meaning, table, incoming[..n]);
      InsertOneMeans(meaning, InsertAll(table, incoming[..n]), incoming[n]);
    }
  }

  lemma ChunkSnoc(stored: seq<UsageEvent>, aligned: seq<UsageEvent>, next: nat, m: nat)
    requires next <= m < |aligned|
    ensures InsertAll(stored, aligned[next..m + 1]) == InsertOne(InsertAll(stored, aligned[next..m]), aligned[m])
  {
    var chunk := aligned[next..m + 1];
    assert chunk[..m - next] == aligned[next..m] && chunk[m - next] == aligned[m];
  }

  /** A committed chunk contradicts no meaning: what it adds kept its own key. */
  lemma {:induction false} ChunkMeans(meaning: map<string, Meaning>, stored: seq<UsageEvent>, c: Call,
                                      aligned: seq<UsageEvent>, next: nat, end: nat)
    requires TableMeans(meaning, stored) && InsertingOk(stored, c, aligned, next) && next <= end <= |aligned|
    requires BatchSpeaks(meaning, c.events)
    ensures TableMeans(meaning, InsertAll(stored, aligned[next..end]))
  {
    if next == end {
      assert aligned[next..end] == [];
    } else {
      var m := end - 1;
      ChunkMeans(meaning, stored, c, aligned, next, m);
      ChunkSnoc(stored, aligned, next, m);
      NewMeansUnknown(stored, aligned, next, m);
      assert KeyOk(Keys(stored), c.events, aligned, m);
      InsertOneMeans(meaning, InsertAll(stored, aligned[next..m]), aligned[m]);
    }
  }

  lemma InsertKeepsMeaning(meaning: map<string, Meaning>, db: Db, c: Call, aligned: seq<UsageEvent>, next: nat,
                           ok: bool)
    requires CallOk(db, c) && c.stage == Inserting(aligned, next)
    requires TableMeans(meaning, db.events) && CallMeans(meaning, db.events, c)
    ensures var w := Insert(db, c, aligned, next, ok);
            TableMeans(meaning, w.db.events) && CallMeans(meaning, w.db.events, w.call.value)
  {
    if next < |aligned| && ok {
      var end := ChunkEnd(next, |aligned|);
      InsertingIsOk(db, c);
      ChunkMeans(meaning, db.events, c, aligned, next, end);
      InsertAllKeys(db.events, aligned[next..end]);
      StageMeansOnward(meaning, db.events, InsertAll(db.events, aligned[next..end]), c);
    }
  }

  // ------------------------------------------------------------- what committed rows get

  /** Every committed row that is pinned has a stored event with its final key and its own content. */
  lemma CommittedRowsAreRepresented(meaning: map<string, Meaning>, db: Db, c: Call, j: nat)
    requires CallOk(db, c) && Committed(c, j) && j < |c.rows| && Pins(meaning, c.events[j])
    requires TableMeans(meaning, db.events) && CallMeans(meaning, db.events, c)
    ensures exists k: nat :: Represents(db.events, k, c.stage.aligned[j].eventKey, c.events[j])
  {
    var key := c.stage.aligned[j].eventKey;
    assert Answers(meaning, db.events, key, c.events[j]) && key in Keys(db.events);
    if !(exists k: nat :: Represents(db.events, k, key, c.events[j])) {
      var k :| 0 <= k < |db.events| && db.events[k].eventKey == key;
      assert Means(meaning, db.events[k]);
      assert Represents(db.events, k, key, c.events[j]);
    }
  }

  /** A stored event with the row's key that says what its message says, but for the time. */
  predicate Resembles(table: seq<UsageEvent>, k: nat, key: string, e: UsageEvent) {
    k < |table| && table[k].eventKey == key && SameButTime(ContentOf(table[k]), ContentOf(e))
  }

  /** Every committed row with a request id that has a meaning keeps it as its key, and a stored event with
      that key says the same, at least but for the time. */
  lemma CommittedIdsAreResembled(meaning: map<string, Meaning>, db: Db, c: Call, j: nat)
    requires CallOk(db, c) && Committed(c, j) && j < |c.rows|
    requires c.events[j].requestId != "" && c.events[j].eventKey in meaning
    requires TableMeans(meaning, db.events) && CallMeans(meaning, db.events, c)
    ensures c.stage.aligned[j].eventKey == c.events[j].eventKey
    ensures exists k: nat :: Resembles(db.events, k, c.events[j].eventKey, c.events[j])
  {
    var key := c.events[j].eventKey;
    assert KeyOk(Keys(db.events), c.events, c.stage.aligned, j);
    assert key in Keys(db.events) && EventSpeaks(meaning, c.events[j]);
    var k :| 0 <= k < |db.events| && db.events[k].eventKey == key;
    assert Means(meaning, db.events[k]);
    assert Resembles(db.events, k, key, c.events[j]);
  }

  lemma RepresentedIsSettled(table: seq<UsageEvent>, e: UsageEvent, k: nat, key: string)
    requires AllClean(table) && e.requestId == "" && Represents(table, k, key, e)
    ensures Settled(table, e)
  {
    EquivalentIsSameContent(table[k], e);
  }

  /** Every committed row that has a request id or is pinned is accounted for, added or merged. */
  lemma CommittedRowsAreSettled(meaning: map<string, Meaning>, db: Db, c: Call, j: nat)
    requires Ok(db) && CallOk(db, c) && Committed(c, j) && j < |c.rows|
    requires c.events[j].requestId == "" ==> Pins(meaning, c.events[j])
    requires TableMeans(meaning, db.events) && CallMeans(meaning, db.events, c)
    ensures Settled(db.events, c.events[j])
  {
    BatchIsDecoded(c);
    if c.events[j].requestId == "" {
      CommittedRowsAreRepresented(meaning, db, c, j);
      var k: nat :| Represents(db.events, k, c.stage.aligned[j].eventKey, c.events[j]);
      RepresentedIsSettled(db.events, c.events[j], k, c.stage.aligned[j].eventKey);
    } else {
      assert KeyOk(Keys(db.events), c.events, c.stage.aligned, j);
      OwnKeySettles(db.events, c.events[j]);
    }
  }

  // --------------------------------------------------------------------- histories

  /** What a step may not contradict: events of other writers, and the batch a call begins with. */
  predicate StepMeans(meaning: map<string, Meaning>, w: World, s: Step) {
    (s.OtherInsert? ==> TableMeans(meaning, s.events))
    && (s.Begin? && w.call.None? ==>
          var c := BeginCall(w.db.inbox, s.at); c.Some? ==> BatchSpeaks(meaning, c.value.events))
  }

  predicate StepsMean(meaning: map<string, Meaning>, w: World, steps: seq<Step>)
    decreases |steps|
  {
    steps != [] ==> StepMeans(meaning, w, steps[0]) && StepsMean(meaning, Apply(w, steps[0]), steps[1..])
  }

  ghost predicate WorldMeans(meaning: map<string, Meaning>, w: World) {
    TableMeans(meaning, w.db.events) && (w.call.Some? ==> CallMeans(meaning, w.db.events, w.call.value))
  }

  lemma StatementKeepsMeaning(meaning: map<string, Meaning>, db: Db, c: Call, ok: bool)
    requires Ok(db) && CallOk(db, c) && WorldMeans(meaning, World(db, Some(c)))
    ensures WorldMeans(meaning, AfterStatement(db, c, ok))
  {
    if c.stage.Aligning? {
      AlignKeepsMeaning(meaning, db, c, c.stage.mem, c.stage.done, ok);
    } else if c.stage.Inserting? {
      InsertKeepsMeaning(meaning, db, c, c.stage.aligned, c.stage.next, ok);
    } else {
      OtherStageKeepsMeaning(meaning, db, c, ok);
    }
  }

  /** The other stages store no event and keep the aligned batch, if there is one. */
  lemma OtherStageMoves(db: Db, c: Call, ok: bool)
    requires !c.stage.Aligning? && !c.stage.Inserting?
    ensures var w := AfterStatement(db, c, ok);
            w.db.events == db.events
            && (w.call.Some? ==> w.call == At(c, w.call.value.stage) && MovesOn(c.stage, w.call.value.stage))
  {
  }

  predicate MovesOn(before: Stage, after: Stage) {
    after.Decoding? || after.MarkingFailed? || after == Aligning(FRESH, [])
    || (before.MarkingDone? && after.MarkingDone? && after.aligned == before.aligned)
  }

  lemma MovedOnMeans(meaning: map<string, Meaning>, table: seq<UsageEvent>, c: Call, after: Stage)
    requires CallMeans(meaning, table, c) && MovesOn(c.stage, after)
    ensures CallMeans(meaning, table, c.(stage := after))
  {
  }

  lemma OtherStageKeepsMeaning(meaning: map<string, Meaning>, db: Db, c: Call, ok: bool)
    requires !c.stage.Aligning? && !c.stage.Inserting? && WorldMeans(meaning, World(db, Some(c)))
    ensures WorldMeans(meaning, AfterStatement(db, c, ok))
  {
    var w := AfterStatement(db, c, ok);
    OtherStageMoves(db, c, ok);
    if w.call.Some? { MovedOnMeans(meaning, db.events, c, w.call.value.stage); }
  }

  lemma StepKeepsMeaning(meaning: map<string, Meaning>, w: World, s: Step)
    requires Inv(w) && StepOk(s) && WorldMeans(meaning, w) && StepMeans(meaning, w, s)
    ensures WorldMeans(meaning, Apply(w, s))
  {
    if FromOutside(s) {
      OutsideIsOnward(w, s);
      if s.OtherInsert? { InsertAllMeans(meaning, w.db.events, s.events); }
      if w.call.Some? { StageMeansOnward(meaning, w.db.events, Apply(w, s).db.events, w.call.value); }
    } else if s.Statement? && w.call.Some? {
      StatementKeepsMeaning(meaning, w.db, w.call.value, s.ok);
    }
  }

  lemma {:induction false} RunKeepsMeaning(meaning: map<string, Meaning>, w: World, steps: seq<Step>)
    requires Inv(w) && StepsOk(steps) && WorldMeans(meaning, w) && StepsMean(meaning, w, steps)
    ensures Inv(Run(w, steps)) && WorldMeans(meaning, Run(w, steps))
    decreases |steps|
  {
    if steps != [] {
      StepKeepsInv(w, steps[0]);
      StepKeepsMeaning(meaning, w, steps[0]);
      RunKeepsMeaning(meaning, Apply(w, steps[0]), steps[1..]);
    }
  }

  /** Retry safety over histories: once the chunk with a row is committed, added or merged, no later
      attempt adds an event for it, even if the row was never marked. Nothing is asked of anything that
      happens later, nor of events whose keys have no meaning; to speak of one row it is enough that its
      own key has one, and those of the events of its batch that share its canonical key. */
  lemma RetriesAddNothing(meaning: map<string, Meaning>, w0: World, steps: seq<Step>, j: nat, later: seq<Step>)
    requires Inv(w0) && WorldMeans(meaning, w0) && StepsOk(steps) && StepsMean(meaning, w0, steps) && StepsOk(later)
    requires var call := Run(w0, steps).call;
             call.Some? && j < |call.value.rows| && j < |call.value.events| && Committed(call.value, j)
             && Identified(call.value.rows[j].message)
             && (call.value.events[j].requestId == "" ==> Pins(meaning, call.value.events[j]))
    ensures Run(w0, steps).call.value.rows[j].id !in AllAdded(Run(w0, steps), later)
  {
    var w := Run(w0, steps);
    RunKeepsMeaning(meaning, w0, steps);
    CommittedRowsAreSettled(meaning, w.db, w.call.value, j);
    CommittedAndSettledIsQuiet(w, j);
    QuietForever(w, later, w.call.value.rows[j].id);
  }

  // ------------------------------------------------------------------- faithful rows

  /** The stored event that a processed row names says what the row's message says: exactly, if it has a
      timestamp and its key is pinned, and but for the time, if it has a request id with a meaning. */
  ghost predicate Faithful(meaning: map<string, Meaning>, r: InboxRow, table: seq<UsageEvent>) {
    r.status == Processed && r.message.Usage? ==>
      var e := ToUsageEvent(r.message.detail, 0);
      (HasTimestamp(r.message) && Pins(meaning, e) ==> exists k: nat :: Represents(table, k, r.usageEventKey, e))
      && (HasRequestId(r.message) && e.eventKey in meaning ==> exists k: nat :: Resembles(table, k, r.usageEventKey, e))
  }

  ghost predicate AllFaithful(meaning: map<string, Meaning>, db: Db) {
    forall i :: 0 <= i < |db.inbox| ==> Faithful(meaning, db.inbox[i], db.events)
  }

  lemma FaithfulOnward(meaning: map<string, Meaning>, r: InboxRow, before: seq<UsageEvent>, after: seq<UsageEvent>)
    requires before <= after && Faithful(meaning, r, before)
    ensures Faithful(meaning, r, after)
  {
    if r.status == Processed && r.message.Usage? {
      var e := ToUsageEvent(r.message.detail, 0);
      if k: nat :| Represents(before, k, r.usageEventKey, e) { assert Represents(after, k, r.usageEventKey, e); }
      if k: nat :| Resembles(before, k, r.usageEventKey, e) { assert Resembles(after, k, r.usageEventKey, e); }
    }
  }

  lemma AllFaithfulOnward(meaning: map<string, Meaning>, w: World, s: Step)
    requires Ok(w.db) && StepOk(s) && FromOutside(s) && AllFaithful(meaning, w.db)
    ensures AllFaithful(meaning, Apply(w, s).db)
  {
    OutsideIsOnward(w, s);
    var after := Apply(w, s).db;
    forall i | 0 <= i < |after.inbox| ensures Faithful(meaning, after.inbox[i], after.events) {
      NewRowsArePending(w, s, i);
      if after.inbox[i] in w.db.inbox {
        var k :| 0 <= k < |w.db.inbox| && w.db.inbox[k] == after.inbox[i];
        FaithfulOnward(meaning, w.db.inbox[k], w.db.events, after.events);
      }
    }
  }

  lemma NewRowsArePending(w: World, s: Step, i: nat)
    requires FromOutside(s) && i < |Apply(w, s).db.inbox|
    ensures Apply(w, s).db.inbox[i] in w.db.inbox || Apply(w, s).db.inbox[i].status == Pending
  {
    assert Apply(w, s).db.inbox[i] in Apply(w, s).db.inbox;
    match s
    case PullMessages(messages, at) =>
    case OtherInsert(events) =>
    case DeleteProcessedRows(now, zone) =>
      FilterMembers(w.db.inbox, (r: InboxRow) => SparedAsProcessed(r, now, zone));
    case DeleteFailedRows(now) => FilterMembers(w.db.inbox, (r: InboxRow) => SparedAsFailed(r, now));
  }

  /** Any mark but Done leaves nothing new to be faithful about. */
  lemma OtherMarksKeepFaith(meaning: map<string, Meaning>, db: Db, id: nat, mark: Mark, at: Instant)
    requires AllFaithful(meaning, db) && !mark.Done?
    ensures AllFaithful(meaning, IngestHistory.Mark(db, id, mark, at))
  {
    var after := IngestHistory.Mark(db, id, mark, at);
    forall i | 0 <= i < |after.inbox| ensures Faithful(meaning, after.inbox[i], db.events) {
      assert Faithful(meaning, db.inbox[i], db.events);
    }
  }

  /** Two readings of the clock make a difference to the timestamp only. */
  lemma ReadingsDifferInTime(d: QueuedUsageDetail, at1: Instant, at2: Instant)
    ensures SameButTime(ContentOf(ToUsageEvent(d, at1)), ContentOf(ToUsageEvent(d, at2)))
    ensures Trim(d.requestId) != "" ==> ToUsageEvent(d, at1).eventKey == ToUsageEvent(d, at2).eventKey
  {
  }

  /** A committed row is faithful once it is marked with its final key. */
  lemma DoneRowIsFaithful(meaning: map<string, Meaning>, db: Db, c: Call, j: nat, r: InboxRow)
    requires CallOk(db, c) && c.stage.MarkingDone? && j < |c.rows|
    requires TableMeans(meaning, db.events) && CallMeans(meaning, db.events, c)
    requires r.message == c.rows[j].message && r.usageEventKey == c.stage.aligned[j].eventKey
    ensures Faithful(meaning, r, db.events)
  {
    var e, now := ToUsageEvent(r.message.detail, 0), c.events[j];
    ReadingsDifferInTime(r.message.detail, c.at, 0);
    DecoderOutput(r.message.detail, c.at);
    if HasTimestamp(r.message) && Pins(meaning, e) {
      DecodingIsStable(r.message, c.at, 0);
      CommittedRowsAreRepresented(meaning, db, c, j);
    }
    if HasRequestId(r.message) && e.eventKey in meaning {
      CommittedIdsAreResembled(meaning, db, c, j);
      var k: nat :| Resembles(db.events, k, now.eventKey, now);
      assert Resembles(db.events, k, r.usageEventKey, e);
    }
  }

  lemma MarkDoneKeepsFaith(meaning: map<string, Meaning>, db: Db, c: Call, aligned: seq<UsageEvent>, next: nat,
                           ok: bool)
    requires Ok(db) && CallOk(db, c) && c.stage == MarkingDone(aligned, next) && AllFaithful(meaning, db)
    requires TableMeans(meaning, db.events) && CallMeans(meaning, db.events, c)
    ensures AllFaithful(meaning, MarkDone(db, c, aligned, next, ok).db)
  {
    if next < |c.rows| && ok {
      var after := MarkDone(db, c, aligned, next, ok).db;
      forall i | 0 <= i < |after.inbox| ensures Faithful(meaning, after.inbox[i], db.events) {
        assert Faithful(meaning, db.inbox[i], db.events);
        if db.inbox[i].id == c.rows[next].id {
          assert Waiting(db.inbox, c.rows[next]);
          DoneRowIsFaithful(meaning, db, c, next, after.inbox[i]);
        }
      }
    }
  }

  lemma StatementKeepsFaith(meaning: map<string, Meaning>, db: Db, c: Call, ok: bool)
    requires Ok(db) && CallOk(db, c) && WorldMeans(meaning, World(db, Some(c))) && AllFaithful(meaning, db)
    ensures AllFaithful(meaning, AfterStatement(db, c, ok).db)
  {
    match c.stage
    case Decoding(targets) =>
      if targets != [] {
        assert Undecoded(db.inbox, targets[0]);
        OtherMarksKeepFaith(meaning, db, targets[0].id, targets[0].mark, c.at);
      }
    case MarkingDone(aligned, next) => MarkDoneKeepsFaith(meaning, db, c, aligned, next, ok);
    case MarkingFailed(next) => if next < |c.rows| { OtherMarksKeepFaith(meaning, db, c.rows[next].id, Unprocessed,
                                                                         c.at); }
    case Inserting(aligned, next) =>
      StatementKeepsEvents(db, c, ok);
      var after := AfterStatement(db, c, ok).db;
      forall i | 0 <= i < |after.inbox| ensures Faithful(meaning, after.inbox[i], after.events) {
        FaithfulOnward(meaning, db.inbox[i], db.events, after.events);
      }
    case _ =>
  }

  /** In every reachable database, also in the middle of a call, each processed row whose key has a meaning
      names a stored event that says what the row's message says: exactly, if the message has a timestamp,
      and but for the time, if it has a request id. Of keys without a meaning nothing is asked. */
  lemma {:induction false} ProcessedRowsAreFaithful(meaning: map<string, Meaning>, w: World, steps: seq<Step>)
    requires Inv(w) && WorldMeans(meaning, w) && AllFaithful(meaning, w.db)
    requires StepsOk(steps) && StepsMean(meaning, w, steps)
    ensures AllFaithful(meaning, Run(w, steps).db)
    decreases |steps|
  {
    if steps != [] {
      var s := steps[0];
      StepKeepsInv(w, s);
      StepKeepsMeaning(meaning, w, s);
      if FromOutside(s) {
        AllFaithfulOnward(meaning, w, s);
      } else if s.Statement? && w.call.Some? {
        StatementKeepsFaith(meaning, w.db, w.call.value, s.ok);
      }
      ProcessedRowsAreFaithful(meaning, Apply(w, s), steps[1..]);
    }
  }

  // ---------------------------------------------------- from single messages to histories

  /** What is enough to ask of a single message: wherever its key or its canonical key has a meaning, it
      does not contradict it; and if it has both a request id and a timestamp, and its content is what its
      canonical key exactly means, it is what its request id exactly means. */
  ghost predicate Speaks(meaning: map<string, Meaning>, m: Message) {
    m.Usage? ==>
      forall at: Instant ::
        var e := ToUsageEvent(m.detail, at);
        EventSpeaks(meaning, e)
        && (HasRequestId(m) && HasTimestamp(m) && CanonicalKey(e) in meaning && meaning[CanonicalKey(e)].Exactly? ==>
              Pins(meaning, e))
  }

  /** A message with a request id but no timestamp takes the clock reading of its call for one; no pinned
      message without a request id should say the same at just that reading. */
  predicate ClockApart(meaning: map<string, Meaning>, inbox: seq<InboxRow>, at: Instant) {
    forall i :: 0 <= i < |inbox| && Processable(inbox[i])
                && HasRequestId(inbox[i].message) && !HasTimestamp(inbox[i].message) ==>
                  CanonicalKey(ToUsageEvent(inbox[i].message.detail, at)) !in meaning
  }

  ghost predicate InboxSpeaks(meaning: map<string, Meaning>, inbox: seq<InboxRow>) {
    forall i :: 0 <= i < |inbox| && Processable(inbox[i]) ==> Speaks(meaning, inbox[i].message)
  }

  lemma ListedRow(db: Db, at: Instant, j: nat)
    requires Ok(db) && BeginCall(db.inbox, at).Some? && j < |BeginCall(db.inbox, at).value.rows|
    ensures var r := BeginCall(db.inbox, at).value.rows[j]; r in db.inbox && Processable(r)
  {
    var c := BeginCall(db.inbox, at).value;
    ListProcessableMembers(db.inbox);
    ValidRowsAre(ListProcessable(db.inbox));
    assert c.rows[j] in c.rows;
  }

  lemma ApartKeys(meaning: map<string, Meaning>, c: Call, i: nat, j: nat)
    requires BatchOk(c) && i < |c.rows| && j < |c.rows| && Speaks(meaning, c.rows[i].message)
    requires HasRequestId(c.rows[i].message) && !HasTimestamp(c.rows[i].message) ==>
               CanonicalKey(c.events[i]) !in meaning
    requires Misleads(meaning, c.events[i], c.events[j])
    ensures CanonicalKey(c.events[i]) != CanonicalKey(c.events[j])
  {
    DecoderOutput(c.rows[i].message.detail, c.at);
    DecoderOutput(c.rows[j].message.detail, c.at);
  }

  /** If the retryable rows speak and the clock reading is apart, the batch of a call speaks. */
  lemma SpeakingRowsMakeBatch(meaning: map<string, Meaning>, db: Db, at: Instant)
    requires Ok(db) && BeginCall(db.inbox, at).Some?
    requires InboxSpeaks(meaning, db.inbox) && ClockApart(meaning, db.inbox, at)
    ensures BatchSpeaks(meaning, BeginCall(db.inbox, at).value.events)
  {
    var c := BeginCall(db.inbox, at).value;
    BeginKeepsInv(db, at);
    forall j | 0 <= j < |c.rows|
      ensures Speaks(meaning, c.rows[j].message) && EventSpeaks(meaning, c.events[j])
      ensures HasRequestId(c.rows[j].message) && !HasTimestamp(c.rows[j].message) ==>
                CanonicalKey(c.events[j]) !in meaning
    {
      ListedRow(db, at, j);
      var k :| 0 <= k < |db.inbox| && db.inbox[k] == c.rows[j];
    }
    forall i, j | 0 <= i < |c.events| && 0 <= j < |c.events| && Misleads(meaning, c.events[i], c.events[j])
      ensures CanonicalKey(c.events[i]) != CanonicalKey(c.events[j])
    {
      ApartKeys(meaning, c, i, j);
    }
  }

  ghost predicate StepSpeaks(meaning: map<string, Meaning>, w: World, s: Step) {
    match s
    case PullMessages(messages, _) => forall i :: 0 <= i < |messages| ==> Speaks(meaning, messages[i])
    case OtherInsert(events) => TableMeans(meaning, events)
    case Begin(at) => ClockApart(meaning, w.db.inbox, at)
    case _ => true
  }

  ghost predicate StepsSpeak(meaning: map<string, Meaning>, w: World, steps: seq<Step>)
    decreases |steps|
  {
    steps != [] ==> StepSpeaks(meaning, w, steps[0]) && StepsSpeak(meaning, Apply(w, steps[0]), steps[1..])
  }

  /** A statement makes no row retryable again, and changes no message. */
  lemma StatementKeepsSpeaking(meaning: map<string, Meaning>, db: Db, c: Call, ok: bool)
    requires Ok(db) && CallOk(db, c) && InboxSpeaks(meaning, db.inbox)
    ensures InboxSpeaks(meaning, AfterStatement(db, c, ok).db.inbox)
  {
    var after := AfterStatement(db, c, ok).db;
    StatementKeepsIds(db, c, ok);
    forall i | 0 <= i < |after.inbox| && Processable(after.inbox[i]) ensures Speaks(meaning, after.inbox[i].message) {
      if Terminal(db.inbox[i]) { StatementSparesTerminal(db, c, ok, db.inbox[i]); }
    }
  }

  lemma OutsideKeepsSpeaking(meaning: map<string, Meaning>, w: World, s: Step)
    requires Ok(w.db) && FromOutside(s) && StepSpeaks(meaning, w, s) && InboxSpeaks(meaning, w.db.inbox)
    ensures InboxSpeaks(meaning, Apply(w, s).db.inbox)
  {
    var after := Apply(w, s).db;
    forall i | 0 <= i < |after.inbox| && Processable(after.inbox[i]) ensures Speaks(meaning, after.inbox[i].message) {
      match s
      case PullMessages(messages, at) =>
        if i < |w.db.inbox| { assert after.inbox[i] == w.db.inbox[i]; }
      case OtherInsert(events) =>
      case DeleteProcessedRows(now, zone) =>
        FilterMembers(w.db.inbox, (r: InboxRow) => SparedAsProcessed(r, now, zone));
        assert after.inbox[i] in after.inbox;
      case DeleteFailedRows(now) =>
        FilterMembers(w.db.inbox, (r: InboxRow) => SparedAsFailed(r, now));
        assert after.inbox[i] in after.inbox;
    }
  }

  /** The whole of it in terms of single messages: if the retryable rows and every message pulled later
      speak, other writers contradict no meaning and the clock readings are apart, every step means what
      it should, and so every result above applies to the history. */
  lemma {:induction false} SpeakingMessagesSuffice(meaning: map<string, Meaning>, w: World, steps: seq<Step>)
    requires Inv(w) && StepsOk(steps) && InboxSpeaks(meaning, w.db.inbox) && StepsSpeak(meaning, w, steps)
    ensures StepsMean(meaning, w, steps)
    decreases |steps|
  {
    if steps != [] {
      var s := steps[0];
      StepKeepsInv(w, s);
      if FromOutside(s) {
        OutsideKeepsSpeaking(meaning, w, s);
      } else if s.Begin? && w.call.None? {
        if BeginCall(w.db.inbox, s.at).Some? { SpeakingRowsMakeBatch(meaning, w.db, s.at); }
      } else if s.Statement? && w.call.Some? {
        StatementKeepsSpeaking(meaning, w.db, w.call.value, s.ok);
      }
      SpeakingMessagesSuffice(meaning, Apply(w, s), steps[1..]);
    }
  }
}

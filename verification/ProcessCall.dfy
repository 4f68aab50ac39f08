/** What one Process call does when nothing comes between its statements: it is a run of statements, it
    moves each row by at most one mark, and with working marks it makes progress. */
module ProcessCall {
  import opened Text
  import opened Calendar
  import opened UsageEvents
  import opened Database
  import opened Alignment
  import opened Ingest
  import opened IngestHistory

  // -------------------------------------------------------------------- row by row

  /** The moves one Process call may make with a row: none, or one mark on a retryable row; a row
      marked processed names a stored event. */
  predicate RowMove(r: InboxRow, r': InboxRow, at: Instant, table: seq<UsageEvent>) {
    r' == r
    || (Processable(r) && r.message.Malformed? && r' == MarkRow(r, Undecodable, at))
    || (Processable(r) && r.message.Usage? && r' == MarkRow(r, Unprocessed, at))
    || (Processable(r) && r.message.Usage? && r'.usageEventKey in Keys(table)
        && r' == MarkRow(r, Done(r'.usageEventKey), at))
  }

  lemma DecodePassRow(inbox: seq<InboxRow>, at: Instant, fails: set<nat>, k: nat)
    requires IdsAscend(inbox) && k < |inbox|
    ensures var after := MarkPass(inbox, DecodeTargets(ListProcessable(inbox)), at, fails, true).0;
            after[k] == inbox[k]
            || (Processable(inbox[k]) && inbox[k].message.Malformed? && after[k] == MarkRow(inbox[k], Undecodable, at))
  {
    var listed := ListProcessable(inbox);
    var targets := DecodeTargets(listed);
    ListProcessableMembers(inbox);
    DecodeTargetsAre(listed);
    MarkPassRow(inbox, targets, at, fails, true, k);
    var after := MarkPass(inbox, targets, at, fails, true).0;
    if after[k] != inbox[k] {
      var j :| 0 <= j < |targets| && targets[j].id == inbox[k].id && after[k] == MarkRow(inbox[k], targets[j].mark, at);
      assert targets[j] in targets;
      var i :| 0 <= i < |listed| && listed[i].message.Malformed? && targets[j] == Target(listed[i].id, Undecodable);
      SameIdSameRow(inbox, listed[i], k);
    }
  }

  /** The second pass touches only rows whose message decodes, which the first pass left alone. */
  lemma SecondPassRow(inbox: seq<InboxRow>, middle: seq<InboxRow>, targets: seq<Target>, at: Instant, fails: set<nat>,
                      stop: bool, k: nat)
    requires IdsAscend(inbox) && k < |inbox| == |middle|
    requires middle[k] == inbox[k]
             || (Processable(inbox[k]) && inbox[k].message.Malformed?
                 && middle[k] == MarkRow(inbox[k], Undecodable, at))
    requires var valid := ValidRows(ListProcessable(inbox));
             |targets| == |valid| && forall j :: 0 <= j < |targets| ==> targets[j].id == valid[j].id
    ensures var after := MarkPass(middle, targets, at, fails, stop).0;
            after[k] == middle[k]
            || (middle[k] == inbox[k] && Processable(inbox[k]) && inbox[k].message.Usage?
                && exists j :: 0 <= j < |targets| && targets[j].id == inbox[k].id
                     && after[k] == MarkRow(inbox[k], targets[j].mark, at))
  {
    var valid := ValidRows(ListProcessable(inbox));
    ListProcessableMembers(inbox);
    ValidRowsAre(ListProcessable(inbox));
    forall i, j | 0 <= i < j < |targets| ensures targets[i].id != targets[j].id {
      assert valid[i].id < valid[j].id;
    }
    MarkPassRow(middle, targets, at, fails, stop, k);
    var after := MarkPass(middle, targets, at, fails, stop).0;
    if after[k] != middle[k] {
      var j :| 0 <= j < |targets| && targets[j].id == middle[k].id
          && after[k] == MarkRow(middle[k], targets[j].mark, at);
      assert valid[j] in ListProcessable(inbox);
      SameIdSameRow(inbox, valid[j], k);
    }
  }

  lemma PersistRow(db: Db, at: Instant, f: Faults, k: nat)
    requires IdsAscend(db.inbox) && k < |db.inbox|
    ensures var listed := ListProcessable(db.inbox);
            var middle := MarkPass(db.inbox, DecodeTargets(listed), at, f.markFails, true).0;
            var r := Persist(db.events, middle, ValidRows(listed), at, f);
            |r.inbox| == |db.inbox| && RowMove(db.inbox[k], r.inbox[k], at, r.events)
  {
    var listed := ListProcessable(db.inbox);
    var middle := MarkPass(db.inbox, DecodeTargets(listed), at, f.markFails, true).0;
    var valid := ValidRows(listed);
    DecodePassRow(db.inbox, at, f.markFails, k);
    var events := EventsOf(valid, at);
    var aligned := Aligned(db.events, middle, events);
    SecondPassRow(db.inbox, middle, FailTargets(valid), at, f.markFails, false, k);
    SecondPassRow(db.inbox, middle, DoneTargets(valid, aligned), at, f.markFails, true, k);
    if !AlignFails(db.events, middle, events, f.readFails) && !InsertStops(f, |aligned|) {
      DoneKeysStored(db.events, valid, aligned);
    }
  }

  lemma DoneKeysStored(events: seq<UsageEvent>, valid: seq<InboxRow>, aligned: seq<UsageEvent>)
    requires |aligned| == |valid|
    ensures forall j :: 0 <= j < |valid|
              ==> DoneTargets(valid, aligned)[j].mark.key in Keys(InsertAll(events, aligned[..|aligned|]))
  {
    assert aligned[..|aligned|] == aligned;
    InsertAllKeys(events, aligned);
    forall j | 0 <= j < |valid| ensures DoneTargets(valid, aligned)[j].mark.key in Keys(InsertAll(events, aligned)) {
      assert aligned[j].eventKey in Keys(aligned);
    }
  }

  /** Whatever fails, a Process call moves every row as RowMove allows. */
  lemma ProcessMovesRows(db: Db, at: Instant, f: Faults, k: nat)
    requires IdsAscend(db.inbox) && k < |db.inbox|
    ensures var after := Process(db, at, f).0;
            |after.inbox| == |db.inbox| && RowMove(db.inbox[k], after.inbox[k], at, after.events)
  {
    var listed := ListProcessable(db.inbox);
    DecodePassRow(db.inbox, at, f.markFails, k);
    var (middle, decoded) := MarkPass(db.inbox, DecodeTargets(listed), at, f.markFails, true);
    if listed != [] && decoded && ValidRows(listed) != [] {
      PersistRow(db, at, f, k);
      ListedResult(db, listed, at, f, middle, ValidRows(listed), Persist(db.events, middle, ValidRows(listed), at, f));
    }
  }

  /** The inbox after the first pass, and the rows, keys and number of events of the batch. */
  function BatchInbox(db: Db, at: Instant, f: Faults): seq<InboxRow> {
    MarkPass(db.inbox, DecodeTargets(ListProcessable(db.inbox)), at, f.markFails, true).0
  }

  function BatchRows(db: Db): (valid: seq<InboxRow>)
    ensures forall i :: 0 <= i < |valid| ==> valid[i].message.Usage?
  {
    ValidRows(ListProcessable(db.inbox))
  }

  function BatchAligned(db: Db, at: Instant, f: Faults): (aligned: seq<UsageEvent>)
    ensures |aligned| == |BatchRows(db)|
  {
    Aligned(db.events, BatchInbox(db, at, f), EventsOf(BatchRows(db), at))
  }

  lemma ProcessLength(db: Db, at: Instant, f: Faults)
    ensures |Process(db, at, f).0.inbox| == |db.inbox|
  {
  }

  /** The three ways a Process call can leave the inbox after its first pass. */
  ghost predicate EndsAs(inbox: seq<InboxRow>, middle: seq<InboxRow>, valid: seq<InboxRow>, aligned: seq<UsageEvent>,
                         at: Instant, fails: set<nat>)
    requires |aligned| == |valid|
  {
    inbox == middle
    || inbox == MarkPass(middle, FailTargets(valid), at, fails, false).0
    || inbox == MarkPass(middle, DoneTargets(valid, aligned), at, fails, true).0
  }

  lemma ProcessEnds(db: Db, at: Instant, f: Faults)
    ensures EndsAs(Process(db, at, f).0.inbox, BatchInbox(db, at, f), BatchRows(db), BatchAligned(db, at, f), at,
                   f.markFails)
  {
  }

  // ---------------------------------------------------------------------- progress

  function Remaining(r: InboxRow): nat {
    if Processable(r) && r.attempts < MAX_PROCESS_ATTEMPTS then MAX_PROCESS_ATTEMPTS - r.attempts else 0
  }

  function Backlog(rows: seq<InboxRow>): nat {
    if rows == [] then 0 else Backlog(rows[..|rows| - 1]) + Remaining(rows[|rows| - 1])
  }

  lemma {:induction false} BacklogShrinks(before: seq<InboxRow>, after: seq<InboxRow>)
    requires |before| == |after|
    requires forall i :: 0 <= i < |before| ==> Remaining(after[i]) <= Remaining(before[i])
    ensures Backlog(after) <= Backlog(before)
    ensures (exists i :: 0 <= i < |before| && Remaining(after[i]) < Remaining(before[i]))
              ==> Backlog(after) < Backlog(before)
  {
    if before != [] {
      var n := |before| - 1;
      BacklogShrinks(before[..n], after[..n]);
      if i :| 0 <= i < |before| && Remaining(after[i]) < Remaining(before[i]) {
        if i < n { assert Remaining(after[..n][i]) < Remaining(before[..n][i]); }
      }
    }
  }

  /** With working marks the first listed row moves on, whatever else fails. */
  lemma FirstListedMoves(db: Db, at: Instant, f: Faults) returns (k: nat)
    requires Ok(db) && f.markFails == {} && ListProcessable(db.inbox) != []
    ensures k < |db.inbox| == |Process(db, at, f).0.inbox| && Processable(db.inbox[k])
    ensures Process(db, at, f).0.inbox[k] != db.inbox[k]
  {
    var listed := ListProcessable(db.inbox);
    ListProcessableMembers(db.inbox);
    assert listed[0] in db.inbox;
    k :| 0 <= k < |db.inbox| && db.inbox[k] == listed[0];
    if listed[0].message.Malformed? { UndecodableMoves(db, at, f, k); } else { UsageMoves(db, at, f, k); }
  }

  lemma UndecodableMoves(db: Db, at: Instant, f: Faults, k: nat)
    requires Ok(db) && f.markFails == {} && k < |db.inbox| && db.inbox[k] in ListProcessable(db.inbox)
             && db.inbox[k].message.Malformed?
    ensures |Process(db, at, f).0.inbox| == |db.inbox| && Process(db, at, f).0.inbox[k] != db.inbox[k]
  {
    MalformedMoves(db, at, k);
    PersistLeaves(db, at, f, k);
    ListProcessableMembers(db.inbox);
    assert BatchInbox(db, at, f)[k] == MarkRow(db.inbox[k], Undecodable, at);
  }

  lemma MalformedMoves(db: Db, at: Instant, k: nat)
    requires Ok(db) && k < |db.inbox| && db.inbox[k] in ListProcessable(db.inbox) && db.inbox[k].message.Malformed?
    ensures MarkPass(db.inbox, DecodeTargets(ListProcessable(db.inbox)), at, {}, true).0[k]
            == MarkRow(db.inbox[k], Undecodable, at)
  {
    var listed := ListProcessable(db.inbox);
    var targets := DecodeTargets(listed);
    ListProcessableMembers(db.inbox);
    DecodeTargetsAre(listed);
    MarkPassRow(db.inbox, targets, at, {}, true, k);
    var i :| 0 <= i < |listed| && listed[i] == db.inbox[k];
    assert Target(listed[i].id, Undecodable) in targets;
    var j :| 0 <= j < |targets| && targets[j] == Target(listed[i].id, Undecodable);
  }

  /** The second pass leaves a malformed row as the first pass left it. */
  lemma PersistLeaves(db: Db, at: Instant, f: Faults, k: nat)
    requires Ok(db) && k < |db.inbox| && db.inbox[k].message.Malformed?
    ensures |Process(db, at, f).0.inbox| == |db.inbox|
            && (ListProcessable(db.inbox) != [] ==> Process(db, at, f).0.inbox[k] == BatchInbox(db, at, f)[k])
  {
    ProcessLength(db, at, f);
    ProcessEnds(db, at, f);
    DecodePassRow(db.inbox, at, f.markFails, k);
    LeftRow(db, BatchInbox(db, at, f), BatchAligned(db, at, f), Process(db, at, f).0.inbox, at, f.markFails, k);
  }

  lemma LeftRow(db: Db, middle: seq<InboxRow>, aligned: seq<UsageEvent>, inbox: seq<InboxRow>, at: Instant,
                fails: set<nat>, k: nat)
    requires Ok(db) && k < |db.inbox| == |middle| == |inbox| && |aligned| == |BatchRows(db)|
             && db.inbox[k].message.Malformed?
    requires middle[k] == db.inbox[k]
             || (Processable(db.inbox[k]) && middle[k] == MarkRow(db.inbox[k], Undecodable, at))
    requires EndsAs(inbox, middle, BatchRows(db), aligned, at, fails)
    ensures inbox[k] == middle[k]
  {
    SecondPassRow(db.inbox, middle, FailTargets(BatchRows(db)), at, fails, false, k);
    SecondPassRow(db.inbox, middle, DoneTargets(BatchRows(db), aligned), at, fails, true, k);
  }

  lemma SecondPassMoves(db: Db, middle: seq<InboxRow>, targets: seq<Target>, at: Instant, stop: bool, k: nat)
    requires Ok(db) && k < |db.inbox| == |middle| && middle[k] == db.inbox[k] && db.inbox[k] in BatchRows(db)
    requires |targets| == |BatchRows(db)| && forall j :: 0 <= j < |targets| ==> targets[j].id == BatchRows(db)[j].id
    ensures MarkPass(middle, targets, at, {}, stop).0[k] != db.inbox[k]
  {
    var valid := BatchRows(db);
    ListProcessableMembers(db.inbox);
    ValidRowsAre(ListProcessable(db.inbox));
    forall i, j | 0 <= i < j < |targets| ensures targets[i].id != targets[j].id {
      assert valid[i].id < valid[j].id;
    }
    MarkPassRow(middle, targets, at, {}, stop, k);
    var j :| 0 <= j < |valid| && valid[j] == db.inbox[k];
    assert targets[j].id == middle[k].id;
    assert MarkRow(db.inbox[k], targets[j].mark, at) != db.inbox[k];
  }

  lemma DecodePassSkips(db: Db, at: Instant, f: Faults, k: nat)
    requires Ok(db) && k < |db.inbox| && db.inbox[k] in ListProcessable(db.inbox) && db.inbox[k].message.Usage?
    ensures |BatchInbox(db, at, f)| == |db.inbox| && BatchInbox(db, at, f)[k] == db.inbox[k]
            && db.inbox[k] in BatchRows(db)
  {
    ListProcessableMembers(db.inbox);
    ValidRowsAre(ListProcessable(db.inbox));
    DecodePassRow(db.inbox, at, f.markFails, k);
  }

  /** With working marks and a decodable row listed, the call ends in one of the two second passes. */
  lemma ProcessInboxCases(db: Db, at: Instant, f: Faults)
    requires f.markFails == {} && BatchRows(db) != []
    ensures var inbox := Process(db, at, f).0.inbox;
            inbox == MarkPass(BatchInbox(db, at, f), FailTargets(BatchRows(db)), at, {}, false).0
            || inbox
               == MarkPass(BatchInbox(db, at, f), DoneTargets(BatchRows(db), BatchAligned(db, at, f)), at, {}, true).0
  {
    var listed, valid := ListProcessable(db.inbox), BatchRows(db);
    assert listed != [];
    var (middle, decoded) := MarkPass(db.inbox, DecodeTargets(listed), at, {}, true);
    ListedResult(db, listed, at, f, middle, valid, Persist(db.events, middle, valid, at, f));
    PersistCases(db.events, middle, valid, at, f);
  }

  lemma PersistCases(events: seq<UsageEvent>, inbox: seq<InboxRow>, valid: seq<InboxRow>, at: Instant, f: Faults)
    requires f.markFails == {} && forall i :: 0 <= i < |valid| ==> valid[i].message.Usage?
    ensures var after := Persist(events, inbox, valid, at, f).inbox;
            after == MarkPass(inbox, FailTargets(valid), at, {}, false).0
            || after == MarkPass(inbox, DoneTargets(valid, Aligned(events, inbox, EventsOf(valid, at))), at, {}, true).0
  {
  }

  lemma UsageMoves(db: Db, at: Instant, f: Faults, k: nat)
    requires Ok(db) && f.markFails == {} && k < |db.inbox| && db.inbox[k] in ListProcessable(db.inbox)
             && db.inbox[k].message.Usage?
    ensures |Process(db, at, f).0.inbox| == |db.inbox| && Process(db, at, f).0.inbox[k] != db.inbox[k]
  {
    var middle := BatchInbox(db, at, f);
    DecodePassSkips(db, at, f, k);
    SecondPassMoves(db, middle, FailTargets(BatchRows(db)), at, false, k);
    SecondPassMoves(db, middle, DoneTargets(BatchRows(db), BatchAligned(db, at, f)), at, true, k);
    ProcessInboxCases(db, at, f);
  }

  /** If the mark statements work, every Process call that finds work strictly shrinks the backlog,
      the attempts left over all retryable rows, even when aligning or inserting fails. */
  lemma ProcessMakesProgress(db: Db, at: Instant, f: Faults)
    requires Ok(db) && f.markFails == {} && ListProcessable(db.inbox) != []
    ensures Backlog(Process(db, at, f).0.inbox) < Backlog(db.inbox)
  {
    var k := FirstListedMoves(db, at, f);
    ProcessLength(db, at, f);
    var after := Process(db, at, f).0;
    forall i | 0 <= i < |db.inbox| ensures RowMove(db.inbox[i], after.inbox[i], at, after.events) {
      ProcessMovesRows(db, at, f, i);
    }
    MovedBacklog(db, after, at, k);
  }

  lemma MovedBacklog(db: Db, after: Db, at: Instant, k: nat)
    requires Ok(db) && |after.inbox| == |db.inbox|
    requires forall i :: 0 <= i < |db.inbox| ==> RowMove(db.inbox[i], after.inbox[i], at, after.events)
    requires k < |db.inbox| && Processable(db.inbox[k]) && after.inbox[k] != db.inbox[k]
    ensures Backlog(after.inbox) < Backlog(db.inbox)
  {
    forall i | 0 <= i < |db.inbox|
      ensures Remaining(after.inbox[i]) <= Remaining(db.inbox[i])
      ensures after.inbox[i] != db.inbox[i] ==> Remaining(after.inbox[i]) < Remaining(db.inbox[i])
    {
      assert RowMove(db.inbox[i], after.inbox[i], at, after.events);
    }
    BacklogShrinks(db.inbox, after.inbox);
  }

  // ------------------------------------------------------------------ what is reported

  lemma {:induction false} StoppingPass(inbox: seq<InboxRow>, targets: seq<Target>, at: Instant, fails: set<nat>)
    ensures MarkPass(inbox, targets, at, fails, true).1 <==> forall i :: 0 <= i < |targets| ==> targets[i].id !in fails
  {
    if targets != [] {
      var n := |targets| - 1;
      StoppingPass(inbox, targets[..n], at, fails);
      assert forall i :: 0 <= i < n ==> targets[..n][i] == targets[i];
    }
  }

  predicate SomeMarkFails(rows: seq<InboxRow>, fails: set<nat>) {
    exists i :: 0 <= i < |rows| && rows[i].id in fails
  }

  predicate SomeDecodeMarkFails(listed: seq<InboxRow>, fails: set<nat>) {
    exists i :: 0 <= i < |listed| && listed[i].message.Malformed? && listed[i].id in fails
  }

  /** Some statement of the second half fails: a read of alignment, a chunk, or a processed mark. */
  predicate PersistFails(events: seq<UsageEvent>, inbox: seq<InboxRow>, valid: seq<InboxRow>, at: Instant, f: Faults)
    requires forall i :: 0 <= i < |valid| ==> valid[i].message.Usage?
  {
    AlignFails(events, inbox, EventsOf(valid, at), f.readFails)
    || (f.insertFailsAt.Some? && f.insertFailsAt.value * 100 < |valid|) || SomeMarkFails(valid, f.markFails)
  }

  lemma PersistedCounts(events: seq<UsageEvent>, inbox: seq<InboxRow>, valid: seq<InboxRow>, at: Instant, f: Faults)
    requires forall i :: 0 <= i < |valid| ==> valid[i].message.Usage?
    ensures var r := Persist(events, inbox, valid, at, f);
            (r.ok <==> !PersistFails(events, inbox, valid, at, f))
            && (r.ok ==> |r.events| == |events| + r.inserted)
  {
    if !AlignFails(events, inbox, EventsOf(valid, at), f.readFails) {
      InsertedCounts(events, inbox, valid, Aligned(events, inbox, EventsOf(valid, at)), at, f);
    }
  }

  lemma InsertedCounts(events: seq<UsageEvent>, inbox: seq<InboxRow>, valid: seq<InboxRow>, aligned: seq<UsageEvent>,
                       at: Instant, f: Faults)
    requires |aligned| == |valid|
    ensures var r := InsertAndMark(events, inbox, valid, aligned, at, f);
            (r.ok
             <==> !(f.insertFailsAt.Some? && f.insertFailsAt.value * 100 < |valid|)
                  && !SomeMarkFails(valid, f.markFails))
            && (r.ok ==> |r.events| == |events| + r.inserted)
  {
    var targets := DoneTargets(valid, aligned);
    StoppingPass(inbox, targets, at, f.markFails);
    assert forall i :: 0 <= i < |valid| ==> targets[i].id == valid[i].id;
    assert aligned[..|aligned|] == aligned;
    InsertAllCount(events, aligned);
  }

  lemma {:induction false} DecodePassOk(inbox: seq<InboxRow>, listed: seq<InboxRow>, at: Instant, fails: set<nat>)
    ensures MarkPass(inbox, DecodeTargets(listed), at, fails, true).1 <==> !SomeDecodeMarkFails(listed, fails)
  {
    if listed != [] {
      var n := |listed| - 1;
      DecodePassOk(inbox, listed[..n], at, fails);
      assert SomeDecodeMarkFails(listed, fails)
             <==> SomeDecodeMarkFails(listed[..n], fails)
                  || (listed[n].message.Malformed? && listed[n].id in fails) by {
        if i :| 0 <= i < n && listed[..n][i].message.Malformed? && listed[..n][i].id in fails {
          assert listed[i].message.Malformed? && listed[i].id in fails;
        }
        if i :| 0 <= i < |listed| && listed[i].message.Malformed? && listed[i].id in fails {
          assert i < n ==> listed[..n][i].message.Malformed? && listed[..n][i].id in fails;
        }
      }
      if listed[n].message.Malformed? {
        MarkPassSnoc(inbox, DecodeTargets(listed[..n]), Target(listed[n].id, Undecodable), at, fails, true);
      } else {
        assert DecodeTargets(listed) == DecodeTargets(listed[..n]);
      }
    }
  }

  lemma {:induction false} AllValid(listed: seq<InboxRow>)
    ensures |ValidRows(listed)| <= |listed|
    ensures |ValidRows(listed)| < |listed| <==> exists i :: 0 <= i < |listed| && listed[i].message.Malformed?
  {
    if listed != [] {
      var n := |listed| - 1;
      AllValid(listed[..n]);
      if i :| 0 <= i < n && listed[..n][i].message.Malformed? { assert listed[i].message.Malformed?; }
      if i :| 0 <= i < |listed| && listed[i].message.Malformed? { assert i < n ==> listed[..n][i].message.Malformed?; }
    }
  }

  predicate Completes(outcome: Outcome) { outcome.Completed? || outcome.CompletedWithWarnings? }

  /** What the counts of a completed call are: the events by which the table has grown, and the other
      decodable rows of the listing. */
  predicate CountsAre(db: Db, after: Db, outcome: Outcome, listed: seq<InboxRow>)
    requires Completes(outcome)
  {
    |after.events| == |db.events| + outcome.inserted && outcome.inserted + outcome.deduped == |ValidRows(listed)|
    && (outcome.CompletedWithWarnings? <==> exists i :: 0 <= i < |listed| && listed[i].message.Malformed?)
  }

  lemma ListedCounts(db: Db, listed: seq<InboxRow>, at: Instant, f: Faults)
    requires listed != []
    ensures var (after, outcome) := ProcessListed(db, listed, at, f);
            !outcome.Empty? && (Completes(outcome) ==> CountsAre(db, after, outcome, listed))
  {
    var (inbox, decoded) := MarkPass(db.inbox, DecodeTargets(listed), at, f.markFails, true);
    var valid := ValidRows(listed);
    AllValid(listed);
    if decoded && valid != [] {
      ListedResult(db, listed, at, f, inbox, valid, Persist(db.events, inbox, valid, at, f));
      PersistedCounts(db.events, inbox, valid, at, f);
    }
  }

  lemma ListedFails(db: Db, listed: seq<InboxRow>, at: Instant, f: Faults)
    requires listed != []
    ensures var (inbox, valid) := (MarkPass(db.inbox, DecodeTargets(listed), at, f.markFails, true).0,
                                   ValidRows(listed));
            ProcessListed(db, listed, at, f).1.Failed?
            <==> SomeDecodeMarkFails(listed, f.markFails)
                 || (valid != [] && PersistFails(db.events, inbox, valid, at, f))
  {
    var (inbox, decoded) := MarkPass(db.inbox, DecodeTargets(listed), at, f.markFails, true);
    var valid := ValidRows(listed);
    DecodePassOk(db.inbox, listed, at, f.markFails);
    if decoded && valid != [] {
      ListedResult(db, listed, at, f, inbox, valid, Persist(db.events, inbox, valid, at, f));
      PersistedCounts(db.events, inbox, valid, at, f);
    }
  }

  /** What a Process call reports, whatever fails. Nothing listed: empty. A failing statement that is
      reached: failed. Otherwise the number of events it has added and of decodable rows it has not, with
      a warning exactly if some listed row does not decode. */
  lemma ReportIsTrue(db: Db, at: Instant, f: Faults)
    ensures var (after, outcome) := Process(db, at, f);
            var listed := ListProcessable(db.inbox);
            (outcome.Empty? <==> listed == [])
            && (outcome.Failed?
                <==> listed != []
                     && (SomeDecodeMarkFails(listed, f.markFails)
                         || (BatchRows(db) != []
                             && PersistFails(db.events, BatchInbox(db, at, f), BatchRows(db), at, f))))
            && (Completes(outcome) ==> CountsAre(db, after, outcome, listed))
  {
    var listed := ListProcessable(db.inbox);
    if listed != [] {
      ListedCounts(db, listed, at, f);
      ListedFails(db, listed, at, f);
    }
  }

  lemma CompletedSecondPass(db: Db, at: Instant, f: Faults)
    requires Completes(Process(db, at, f).1) && BatchRows(db) != []
    ensures var (inbox, ok) := MarkPass(BatchInbox(db, at, f), DoneTargets(BatchRows(db), BatchAligned(db, at, f)), at,
                                        f.markFails, true);
            ok && Process(db, at, f).0.inbox == inbox
  {
    var listed, valid, middle := ListProcessable(db.inbox), BatchRows(db), BatchInbox(db, at, f);
    ListedFails(db, listed, at, f);
    DecodePassOk(db.inbox, listed, at, f.markFails);
    ListedResult(db, listed, at, f, middle, valid, Persist(db.events, middle, valid, at, f));
    PersistedMarks(db.events, middle, valid, at, f);
  }

  lemma PersistedMarks(events: seq<UsageEvent>, inbox: seq<InboxRow>, valid: seq<InboxRow>, at: Instant, f: Faults)
    requires (forall i :: 0 <= i < |valid| ==> valid[i].message.Usage?) && Persist(events, inbox, valid, at, f).ok
    ensures var aligned := Aligned(events, inbox, EventsOf(valid, at));
            MarkPass(inbox, DoneTargets(valid, aligned), at, f.markFails, true)
            == (Persist(events, inbox, valid, at, f).inbox, true)
  {
  }

  lemma CompletedDecodes(db: Db, at: Instant, f: Faults)
    requires Completes(Process(db, at, f).1)
    ensures MarkPass(db.inbox, DecodeTargets(ListProcessable(db.inbox)), at, f.markFails, true).1
    ensures !SomeDecodeMarkFails(ListProcessable(db.inbox), f.markFails)
  {
    var listed := ListProcessable(db.inbox);
    ReportIsTrue(db, at, f);
    DecodePassOk(db.inbox, listed, at, f.markFails);
  }

  lemma CompletedMalformed(db: Db, at: Instant, f: Faults, k: nat)
    requires Ok(db) && k < |db.inbox| && db.inbox[k] in ListProcessable(db.inbox) && db.inbox[k].message.Malformed?
    requires Completes(Process(db, at, f).1)
    ensures BatchInbox(db, at, f)[k].status == DecodeFailed
  {
    var listed := ListProcessable(db.inbox);
    var targets := DecodeTargets(listed);
    ListProcessableMembers(db.inbox);
    DecodeTargetsAre(listed);
    CompletedDecodes(db, at, f);
    MarkPassRow(db.inbox, targets, at, f.markFails, true, k);
    var i :| 0 <= i < |listed| && listed[i] == db.inbox[k];
    assert Target(listed[i].id, Undecodable) in targets && listed[i].id !in f.markFails;
    var j :| 0 <= j < |targets| && targets[j] == Target(listed[i].id, Undecodable);
  }

  lemma CompletedUsage(db: Db, at: Instant, f: Faults, k: nat)
    requires Ok(db) && k < |db.inbox| && db.inbox[k] in ListProcessable(db.inbox) && db.inbox[k].message.Usage?
    requires Completes(Process(db, at, f).1)
    ensures |Process(db, at, f).0.inbox| == |db.inbox| && Process(db, at, f).0.inbox[k].status == Processed
  {
    var middle, valid := BatchInbox(db, at, f), BatchRows(db);
    DecodePassSkips(db, at, f, k);
    CompletedSecondPass(db, at, f);
    DoneRow(middle, valid, DoneTargets(valid, BatchAligned(db, at, f)), at, f.markFails, k, db);
  }

  lemma DoneRow(middle: seq<InboxRow>, valid: seq<InboxRow>, targets: seq<Target>, at: Instant, fails: set<nat>, k: nat,
                db: Db)
    requires Ok(db) && valid == BatchRows(db) && k < |middle| && middle[k] in valid
    requires |targets| == |valid|
    requires forall j :: 0 <= j < |targets| ==> targets[j].id == valid[j].id && targets[j].mark.Done?
    requires MarkPass(middle, targets, at, fails, true).1
    ensures MarkPass(middle, targets, at, fails, true).0[k].status == Processed
  {
    ListProcessableMembers(db.inbox);
    ValidRowsAre(ListProcessable(db.inbox));
    forall i, j | 0 <= i < j < |targets| ensures targets[i].id != targets[j].id {
      assert valid[i].id < valid[j].id;
    }
    StoppingPass(middle, targets, at, fails);
    MarkPassRow(middle, targets, at, fails, true, k);
    var j :| 0 <= j < |valid| && valid[j] == middle[k];
    assert targets[j].id == middle[k].id;
  }

  /** A call that completes has settled every row it listed: marked processed, or undecodable. */
  lemma CompletedSettlesListed(db: Db, at: Instant, f: Faults, k: nat)
    requires Ok(db) && k < |db.inbox| && db.inbox[k] in ListProcessable(db.inbox)
    requires Completes(Process(db, at, f).1)
    ensures var after := Process(db, at, f).0;
            |after.inbox| == |db.inbox|
            && after.inbox[k].status == if db.inbox[k].message.Usage? then Processed else DecodeFailed
  {
    if db.inbox[k].message.Usage? {
      CompletedUsage(db, at, f, k);
    } else {
      CompletedMalformed(db, at, f, k);
      PersistLeaves(db, at, f, k);
    }
  }

  // -------------------------------------------------------------- a run of statements

  predicate AllStatements(steps: seq<Step>) { forall i :: 0 <= i < |steps| ==> steps[i].Statement? }

  /** Statements of the call in flight, and nothing else, lead from one world to the other. */
  ghost predicate Reaches(w: World, after: World) { exists steps :: AllStatements(steps) && Run(w, steps) == after }

  lemma {:induction false} RunAppend(w: World, a: seq<Step>, b: seq<Step>)
    ensures Run(w, a + b) == Run(Run(w, a), b)
    decreases |a|
  {
    if a == [] {
      assert a + b == b;
    } else {
      assert (a + b)[0] == a[0] && (a + b)[1..] == a[1..] + b;
      RunAppend(Apply(w, a[0]), a[1..], b);
    }
  }

  lemma ReachesSelf(w: World)
    ensures Reaches(w, w)
  {
    var none: seq<Step> := [];
    assert AllStatements(none) && Run(w, none) == w;
  }

  lemma ReachesFurther(w: World, middle: World, after: World)
    requires Reaches(w, middle) && Reaches(middle, after)
    ensures Reaches(w, after)
  {
    var a :| AllStatements(a) && Run(w, a) == middle;
    var b :| AllStatements(b) && Run(middle, b) == after;
    RunAppend(w, a, b);
    assert AllStatements(a + b);
  }

  lemma ReachesNext(w: World, db: Db, c: Call, ok: bool)
    requires Reaches(w, World(db, Some(c)))
    ensures Reaches(w, AfterStatement(db, c, ok))
  {
    var here, step := World(db, Some(c)), [Statement(ok)];
    assert step[1..] == [] && Run(Apply(here, step[0]), []) == Apply(here, step[0]);
    assert AllStatements(step) && Run(here, step) == AfterStatement(db, c, ok);
    ReachesFurther(w, here, AfterStatement(db, c, ok));
  }

  function Inboxed(db: Db, inbox: seq<InboxRow>): Db { db.(inbox := inbox) }

  lemma MarkPassPrefix(inbox: seq<InboxRow>, targets: seq<Target>, i: nat, at: Instant, fails: set<nat>, stop: bool)
    requires i < |targets|
    ensures var (done, ok) := MarkPass(inbox, targets[..i], at, fails, stop);
            MarkPass(inbox, targets[..i + 1], at, fails, stop)
            == if !ok then (done, false) else if targets[i].id in fails then (done, !stop)
               else (MarkById(done, targets[i].id, targets[i].mark, at), true)
  {
    assert targets[..i + 1] == targets[..i] + [targets[i]];
    MarkPassSnoc(inbox, targets[..i], targets[i], at, fails, stop);
  }

  /** The decode marks, as far as they work. */
  lemma {:induction false} DecodeReaches(db: Db, c: Call, targets: seq<Target>, i: nat, fails: set<nat>)
    requires i <= |targets| && c.stage == Decoding(targets)
    ensures var (inbox, ok) := MarkPass(db.inbox, targets[..i], c.at, fails, true);
            Reaches(World(db, Some(c)), World(Inboxed(db, inbox), if ok then At(c, Decoding(targets[i..])) else None))
  {
    var w := World(db, Some(c));
    if i == 0 {
      assert targets[..0] == [] && targets[0..] == targets;
      ReachesSelf(w);
    } else {
      var t := targets[i - 1];
      DecodeReaches(db, c, targets, i - 1, fails);
      MarkPassPrefix(db.inbox, targets, i - 1, c.at, fails, true);
      var (inbox, ok) := MarkPass(db.inbox, targets[..i - 1], c.at, fails, true);
      if ok {
        assert targets[i - 1..][1..] == targets[i..];
        ReachesNext(w, Inboxed(db, inbox), c.(stage := Decoding(targets[i - 1..])), t.id !in fails);
      }
    }
  }

  lemma DecodedFailsAt(db: Db, events: seq<UsageEvent>, fails: ReadFaults, n: nat)
    requires n < |events| && Decoded(events[n])
    ensures AlignFailsAt(db.events, db.inbox, events, fails, n)
            <==> n in fails.events && LooksUp(AlignRun(db.events, db.inbox, events[..n]).0, events[n])
  {
    DecodedNeedNoReference(db.events, db.inbox, events, n);
  }

  lemma AlignRunSnoc(stored: seq<UsageEvent>, inbox: seq<InboxRow>, events: seq<UsageEvent>, n: nat)
    requires n < |events|
    ensures var (mem, done) := AlignRun(stored, inbox, events[..n]);
            var (mem', e) := AlignStep(stored, inbox, mem, events[n]);
            AlignRun(stored, inbox, events[..n + 1]) == (mem', done + [e])
  {
    assert events[..n + 1][..n] == events[..n] && events[..n + 1][n] == events[n];
  }

  /** Alignment, up to the first read that fails. */
  lemma {:induction false} AlignReaches(db: Db, c: Call, i: nat, fails: ReadFaults)
    requires i <= |c.events| && c.stage == Aligning(FRESH, []) && AllDecoded(c.events)
    ensures var (mem, done) := AlignRun(db.events, db.inbox, c.events[..i]);
            Reaches(World(db, Some(c)),
                    World(db,
                          At(c, if AlignFailsBelow(db.events, db.inbox, c.events, fails, i) then MarkingFailed(0)
                                else Aligning(mem, done))))
  {
    var w := World(db, Some(c));
    if i == 0 {
      assert c.events[..0] == [] && c == c.(stage := Aligning(FRESH, []));
      ReachesSelf(w);
    } else {
      var n := i - 1;
      AlignReaches(db, c, n, fails);
      FailsBelowNext(db.events, db.inbox, c.events, fails, n);
      DecodedFailsAt(db, c.events, fails, n);
      if !AlignFailsBelow(db.events, db.inbox, c.events, fails, n) {
        AlignReachesNext(w, db, c, n, n !in fails.events);
      }
    }
  }

  lemma AlignReachesNext(w: World, db: Db, c: Call, n: nat, ok: bool)
    requires n < |c.events|
    requires var (mem, done) := AlignRun(db.events, db.inbox, c.events[..n]);
             Reaches(w, World(db, At(c, Aligning(mem, done))))
    ensures var mem := AlignRun(db.events, db.inbox, c.events[..n]).0;
            var (mem', done') := AlignRun(db.events, db.inbox, c.events[..n + 1]);
            Reaches(w,
                    World(db,
                          At(c, if !ok && LooksUp(mem, c.events[n]) then MarkingFailed(0) else Aligning(mem', done'))))
  {
    var (mem, done) := AlignRun(db.events, db.inbox, c.events[..n]);
    AlignRunSnoc(db.events, db.inbox, c.events, n);
    ReachesNext(w, db, c.(stage := Aligning(mem, done)), ok);
  }

  /** The rows in the first k chunks of a batch of n. */
  function Chunked(k: nat, n: nat): (m: nat)
    ensures m <= n
  {
    if 100 * k < n then 100 * k else n
  }

  lemma {:induction false} InsertReaches(db: Db, c: Call, aligned: seq<UsageEvent>, k: nat)
    requires c.stage == Inserting(aligned, 0)
    ensures var m := Chunked(k, |aligned|);
            Reaches(World(db, Some(c)),
                    World(db.(events := InsertAll(db.events, aligned[..m])), At(c, Inserting(aligned, m))))
  {
    var w := World(db, Some(c));
    if k == 0 {
      assert aligned[..0] == [] && c == c.(stage := Inserting(aligned, 0));
      ReachesSelf(w);
    } else {
      var next, end := Chunked(k - 1, |aligned|), Chunked(k, |aligned|);
      InsertReaches(db, c, aligned, k - 1);
      if next < |aligned| {
        NextChunk(db.events, aligned, next, end);
        ReachesNext(w, db.(events := InsertAll(db.events, aligned[..next])), c.(stage := Inserting(aligned, next)),
                    true);
      }
    }
  }

  lemma {:induction false} MarkDoneReaches(db: Db, c: Call, aligned: seq<UsageEvent>, i: nat, fails: set<nat>)
    requires i <= |aligned| == |c.rows| && c.stage == MarkingDone(aligned, 0)
    ensures var (inbox, ok) := MarkPass(db.inbox, DoneTargets(c.rows, aligned)[..i], c.at, fails, true);
            Reaches(World(db, Some(c)), World(Inboxed(db, inbox), if ok then At(c, MarkingDone(aligned, i)) else None))
  {
    var w, targets := World(db, Some(c)), DoneTargets(c.rows, aligned);
    if i == 0 {
      assert targets[..0] == [] && c == c.(stage := MarkingDone(aligned, 0));
      ReachesSelf(w);
    } else {
      MarkDoneReaches(db, c, aligned, i - 1, fails);
      MarkPassPrefix(db.inbox, targets, i - 1, c.at, fails, true);
      var (inbox, ok) := MarkPass(db.inbox, targets[..i - 1], c.at, fails, true);
      if ok {
        ReachesNext(w, Inboxed(db, inbox), c.(stage := MarkingDone(aligned, i - 1)), c.rows[i - 1].id !in fails);
      }
    }
  }

  lemma {:induction false} MarkFailedReaches(db: Db, c: Call, i: nat, fails: set<nat>)
    requires i <= |c.rows| && c.stage == MarkingFailed(0)
    ensures var inbox := MarkPass(db.inbox, FailTargets(c.rows)[..i], c.at, fails, false).0;
            Reaches(World(db, Some(c)), World(Inboxed(db, inbox), At(c, MarkingFailed(i))))
  {
    var w, targets := World(db, Some(c)), FailTargets(c.rows);
    if i == 0 {
      assert targets[..0] == [] && c == c.(stage := MarkingFailed(0));
      ReachesSelf(w);
    } else {
      MarkFailedReaches(db, c, i - 1, fails);
      MarkPassPrefix(db.inbox, targets, i - 1, c.at, fails, false);
      var inbox := MarkPass(db.inbox, targets[..i - 1], c.at, fails, false).0;
      ReachesNext(w, Inboxed(db, inbox), c.(stage := MarkingFailed(i - 1)), c.rows[i - 1].id !in fails);
    }
  }

  lemma MarkFailedEnds(w: World, db: Db, c: Call, fails: set<nat>)
    requires Reaches(w, World(db, At(c, MarkingFailed(0))))
    ensures Reaches(w, World(Inboxed(db, MarkPass(db.inbox, FailTargets(c.rows), c.at, fails, false).0), None))
  {
    var start, n := c.(stage := MarkingFailed(0)), |c.rows|;
    MarkFailedReaches(db, start, n, fails);
    assert FailTargets(c.rows)[..n] == FailTargets(c.rows);
    var inbox := MarkPass(db.inbox, FailTargets(c.rows), c.at, fails, false).0;
    ReachesFurther(w, World(db, Some(start)), World(Inboxed(db, inbox), At(c, MarkingFailed(n))));
    ReachesNext(w, Inboxed(db, inbox), c.(stage := MarkingFailed(n)), true);
  }

  lemma MarkDoneEnds(w: World, db: Db, c: Call, aligned: seq<UsageEvent>, fails: set<nat>)
    requires |aligned| == |c.rows| && Reaches(w, World(db, At(c, MarkingDone(aligned, 0))))
    ensures Reaches(w, World(Inboxed(db, MarkPass(db.inbox, DoneTargets(c.rows, aligned), c.at, fails, true).0), None))
  {
    var start, n := c.(stage := MarkingDone(aligned, 0)), |c.rows|;
    MarkDoneReaches(db, start, aligned, n, fails);
    var targets := DoneTargets(c.rows, aligned);
    assert targets[..n] == targets;
    var (inbox, ok) := MarkPass(db.inbox, targets, c.at, fails, true);
    ReachesFurther(w, World(db, Some(start)),
                   World(Inboxed(db, inbox), if ok then At(c, MarkingDone(aligned, n)) else None));
    if ok { ReachesNext(w, Inboxed(db, inbox), c.(stage := MarkingDone(aligned, n)), true); }
  }

  lemma InsertEnds(w: World, db: Db, c: Call, aligned: seq<UsageEvent>, f: Faults)
    requires |aligned| == |c.rows| && Reaches(w, World(db, At(c, Inserting(aligned, 0))))
    ensures var r := InsertAndMark(db.events, db.inbox, c.rows, aligned, c.at, f);
            Reaches(w, World(Db(r.events, r.inbox, db.nextInboxId), None))
  {
    var start, n := c.(stage := Inserting(aligned, 0)), |aligned|;
    var m := InsertedRows(f, n);
    var k := if InsertStops(f, n) then f.insertFailsAt.value else n;
    InsertReaches(db, start, aligned, k);
    assert Chunked(k, n) == m;
    var after := db.(events := InsertAll(db.events, aligned[..m]));
    ReachesFurther(w, World(db, Some(start)), World(after, At(c, Inserting(aligned, m))));
    ReachesNext(w, after, c.(stage := Inserting(aligned, m)), false);
    if InsertStops(f, n) {
      MarkFailedEnds(w, after, c, f.markFails);
    } else {
      MarkDoneEnds(w, after, c, aligned, f.markFails);
    }
  }

  lemma PersistEnds(w: World, db: Db, c: Call, f: Faults)
    requires BatchOk(c) && Reaches(w, World(db, At(c, Aligning(FRESH, []))))
    ensures (forall i :: 0 <= i < |c.rows| ==> c.rows[i].message.Usage?)
            && var r := Persist(db.events, db.inbox, c.rows, c.at, f);
               Reaches(w, World(Db(r.events, r.inbox, db.nextInboxId), None))
  {
    var start, n := c.(stage := Aligning(FRESH, [])), |c.events|;
    BatchIsDecoded(c);
    assert c.events == EventsOf(c.rows, c.at);
    AlignReaches(db, start, n, f.readFails);
    assert c.events[..n] == c.events;
    var (mem, aligned) := AlignRun(db.events, db.inbox, c.events);
    if AlignFails(db.events, db.inbox, c.events, f.readFails) {
      ReachesFurther(w, World(db, Some(start)), World(db, At(c, MarkingFailed(0))));
      MarkFailedEnds(w, db, c, f.markFails);
    } else {
      ReachesFurther(w, World(db, Some(start)), World(db, At(c, Aligning(mem, aligned))));
      ReachesNext(w, db, c.(stage := Aligning(mem, aligned)), true);
      InsertEnds(w, db, c, aligned, f);
      AlignedResult(db.events, db.inbox, c.rows, aligned, c.at, f,
                    InsertAndMark(db.events, db.inbox, c.rows, aligned, c.at, f));
    }
  }

  /** The refinement: what a Process call does to the database in one go, with whatever faults, is what
      the beginning of a call and some run of its statements do. So everything proved of histories holds
      of it. */
  lemma ProcessIsARun(db: Db, at: Instant, f: Faults)
    requires Ok(db)
    ensures Reaches(World(db, BeginCall(db.inbox, at)), World(Process(db, at, f).0, None))
  {
    var w := World(db, BeginCall(db.inbox, at));
    var listed := ListProcessable(db.inbox);
    if listed == [] {
      ReachesSelf(w);
    } else {
      var c, targets := w.call.value, DecodeTargets(listed);
      BeginKeepsInv(db, at);
      DecodeReaches(db, c, targets, |targets|, f.markFails);
      assert targets[..|targets|] == targets && targets[|targets|..] == [];
      var (inbox, decoded) := MarkPass(db.inbox, targets, at, f.markFails, true);
      if decoded {
        var middle := Inboxed(db, inbox);
        ReachesNext(w, middle, c.(stage := Decoding([])), true);
        if c.rows != [] {
          PersistEnds(w, middle, c, f);
          ListedResult(db, listed, at, f, inbox, c.rows, Persist(db.events, inbox, c.rows, at, f));
        }
      }
    }
  }
}

/** A Pull may come between any two statements of a Process call: it only appends pending rows, and every
    statement of the call does the same with or without them (internal/poller/redis_drain.go). */
module PullDuringProcess {
  import opened Calendar
  import opened UsageEvents
  import opened Database
  import opened Alignment
  import opened Ingest
  import opened IngestHistory

  /** Pulled rows: pending, with ids no earlier row has. */
  predicate Later(pulled: seq<InboxRow>, nextId: nat) {
    forall i :: 0 <= i < |pulled| ==> pulled[i].status == Pending && pulled[i].id >= nextId
  }

  lemma MarkOvertaken(inbox: seq<InboxRow>, pulled: seq<InboxRow>, nextId: nat, id: nat, mark: Mark, at: Instant)
    requires Later(pulled, nextId) && id < nextId
    ensures MarkById(inbox + pulled, id, mark, at) == MarkById(inbox, id, mark, at) + pulled
  {
    var n := |inbox|;
    var all, own := MarkById(inbox + pulled, id, mark, at), MarkById(inbox, id, mark, at);
    forall k | 0 <= k < n + |pulled| ensures all[k] == (own + pulled)[k] {
      assert k >= n ==> (inbox + pulled)[k] == pulled[k - n];
    }
  }

  lemma ReferencedOvertaken(inbox: seq<InboxRow>, pulled: seq<InboxRow>, nextId: nat, key: string)
    requires Later(pulled, nextId)
    ensures AlreadyReferenced(inbox + pulled, key) <==> AlreadyReferenced(inbox, key)
  {
    var all := inbox + pulled;
    assert forall i :: 0 <= i < |inbox| ==> all[i] == inbox[i];
    assert forall i :: |inbox| <= i < |all| ==> all[i] == pulled[i - |inbox|];
  }

  lemma AlignOvertaken(stored: seq<UsageEvent>, inbox: seq<InboxRow>, pulled: seq<InboxRow>, nextId: nat, mem: Memory,
                       e: UsageEvent)
    requires Later(pulled, nextId)
    ensures AlignStep(stored, inbox + pulled, mem, e) == AlignStep(stored, inbox, mem, e)
  {
    ReferencedOvertaken(inbox, pulled, nextId, CanonicalKey(e));
  }

  /** The database with these rows appended and this many ids taken. */
  function With(db: Db, pulled: seq<InboxRow>, ids: nat): Db {
    Db(db.events, db.inbox + pulled, db.nextInboxId + ids)
  }

  function WithRows(w: World, pulled: seq<InboxRow>, ids: nat): World { World(With(w.db, pulled, ids), w.call) }

  lemma MarkStatementOvertaken(db: Db, id: nat, mark: Mark, at: Instant, pulled: seq<InboxRow>, ids: nat)
    requires Later(pulled, db.nextInboxId) && id < db.nextInboxId
    ensures IngestHistory.Mark(With(db, pulled, ids), id, mark, at)
            == With(IngestHistory.Mark(db, id, mark, at), pulled, ids)
  {
    MarkOvertaken(db.inbox, pulled, db.nextInboxId, id, mark, at);
  }

  lemma DecodeOvertaken(db: Db, c: Call, targets: seq<Target>, ok: bool, pulled: seq<InboxRow>, ids: nat)
    requires TargetsOk(db, c, targets) && Later(pulled, db.nextInboxId)
    ensures Decode(With(db, pulled, ids), c, targets, ok) == WithRows(Decode(db, c, targets, ok), pulled, ids)
  {
    if targets != [] { MarkStatementOvertaken(db, targets[0].id, targets[0].mark, c.at, pulled, ids); }
  }

  lemma AlignStageOvertaken(db: Db, c: Call, mem: Memory, done: seq<UsageEvent>, ok: bool, pulled: seq<InboxRow>,
                            ids: nat)
    requires Later(pulled, db.nextInboxId)
    ensures Align(With(db, pulled, ids), c, mem, done, ok) == WithRows(Align(db, c, mem, done, ok), pulled, ids)
  {
    if |done| < |c.events| { AlignOvertaken(db.events, db.inbox, pulled, db.nextInboxId, mem, c.events[|done|]); }
  }

  lemma MarksOvertaken(db: Db, c: Call, aligned: seq<UsageEvent>, next: nat, ok: bool, pulled: seq<InboxRow>, ids: nat)
    requires RowsKnown(db, c) && Later(pulled, db.nextInboxId)
    ensures MarkDone(With(db, pulled, ids), c, aligned, next, ok)
            == WithRows(MarkDone(db, c, aligned, next, ok), pulled, ids)
    ensures MarkFailed(With(db, pulled, ids), c, next, ok) == WithRows(MarkFailed(db, c, next, ok), pulled, ids)
  {
    if next < |c.rows| {
      MarkStatementOvertaken(db, c.rows[next].id, Unprocessed, c.at, pulled, ids);
      if next < |aligned| {
        MarkStatementOvertaken(db, c.rows[next].id, Done(aligned[next].eventKey), c.at, pulled, ids);
      }
    }
  }

  lemma StatementOvertaken(db: Db, c: Call, ok: bool, pulled: seq<InboxRow>, ids: nat)
    requires CallOk(db, c) && Later(pulled, db.nextInboxId)
    ensures AfterStatement(With(db, pulled, ids), c, ok) == WithRows(AfterStatement(db, c, ok), pulled, ids)
  {
    match c.stage
    case Decoding(targets) => DecodeOvertaken(db, c, targets, ok, pulled, ids);
    case Aligning(mem, done) => AlignStageOvertaken(db, c, mem, done, ok, pulled, ids);
    case Inserting(aligned, next) =>
    case MarkingDone(aligned, next) => MarksOvertaken(db, c, aligned, next, ok, pulled, ids);
    case MarkingFailed(next) => MarksOvertaken(db, c, [], next, ok, pulled, ids);
  }

  predicate OfCallOrPull(s: Step) { s.PullMessages? || s.Statement? || s.Crash? }

  function Pulls(steps: seq<Step>): seq<Step> {
    if steps == [] then [] else (if steps[0].PullMessages? then [steps[0]] else []) + Pulls(steps[1..])
  }

  function Others(steps: seq<Step>): seq<Step> {
    if steps == [] then [] else (if steps[0].PullMessages? then [] else [steps[0]]) + Others(steps[1..])
  }

  /** A pull and the next statement of the call may change places. */
  lemma PullCommutes(w: World, messages: seq<Message>, at: Instant, s: Step)
    requires Inv(w) && OfCallOrPull(s) && !s.PullMessages?
    ensures Apply(Apply(w, PullMessages(messages, at)), s) == Apply(Apply(w, s), PullMessages(messages, at))
  {
    if s.Statement? && w.call.Some? {
      var pulled := NewInboxRows(messages, w.db.nextInboxId, at);
      StatementOvertaken(w.db, w.call.value, s.ok, pulled, |messages|);
      StatementKeepsIds(w.db, w.call.value, s.ok);
    }
  }

  /** A pull may wait for any number of statements. */
  lemma {:induction false} PullWaits(w: World, messages: seq<Message>, at: Instant, steps: seq<Step>)
    requires Inv(w) && forall i :: 0 <= i < |steps| ==> OfCallOrPull(steps[i]) && !steps[i].PullMessages?
    ensures Run(Apply(w, PullMessages(messages, at)), steps) == Apply(Run(w, steps), PullMessages(messages, at))
    decreases |steps|
  {
    if steps != [] {
      PullCommutes(w, messages, at, steps[0]);
      StepKeepsInv(w, steps[0]);
      PullWaits(Apply(w, steps[0]), messages, at, steps[1..]);
    }
  }

  lemma {:induction false} OthersAreOfTheCall(steps: seq<Step>)
    requires forall i :: 0 <= i < |steps| ==> OfCallOrPull(steps[i])
    ensures forall i :: 0 <= i < |Others(steps)| ==> OfCallOrPull(Others(steps)[i]) && !Others(steps)[i].PullMessages?
  {
    if steps != [] { OthersAreOfTheCall(steps[1..]); }
  }

  /** A Process call overtaken by Pulls, at whatever points, ends as if it had run alone and the Pulls had
      come after it. */
  lemma {:induction false} PullsMayOvertakeProcess(w: World, steps: seq<Step>)
    requires Inv(w) && forall i :: 0 <= i < |steps| ==> OfCallOrPull(steps[i])
    ensures Run(w, steps) == Run(Run(w, Others(steps)), Pulls(steps))
    decreases |steps|
  {
    if steps != [] {
      var s, rest := steps[0], steps[1..];
      StepKeepsInv(w, s);
      PullsMayOvertakeProcess(Apply(w, s), rest);
      OthersAreOfTheCall(rest);
      if s.PullMessages? {
        assert Others(steps) == Others(rest) && Pulls(steps) == [s] + Pulls(rest);
        PullWaits(w, s.messages, s.at, Others(rest));
        assert ([s] + Pulls(rest))[1..] == Pulls(rest);
      } else {
        assert Pulls(steps) == Pulls(rest) && Others(steps) == [s] + Others(rest);
        assert ([s] + Others(rest))[1..] == Others(rest);
      }
    }
  }
}

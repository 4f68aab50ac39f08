/** Rows whose message has neither a request id nor a timestamp are exactly those that may add more than
    one event. */
module UnidentifiedRows {
  import opened Text
  import opened Calendar
  import opened UsageEvents
  import opened Database
  import opened Alignment
  import opened Ingest
  import opened IngestHistory
  import opened ExactlyOnceIngest
  import opened ProcessCall

  // ------------------------------------------------- messages without id and timestamp

  function JoinHead(before: seq<string>, sep: char): string {
    if before == [] then "" else before[0] + [sep] + JoinHead(before[1..], sep)
  }

  function JoinTail(after: seq<string>, sep: char): string { if after == [] then "" else [sep] + Join(after, sep) }

  lemma {:induction false} JoinAround(before: seq<string>, s: string, after: seq<string>, sep: char)
    ensures Join(before + [s] + after, sep) == JoinHead(before, sep) + s + JoinTail(after, sep)
    decreases |before|
  {
    var parts := before + [s] + after;
    if before == [] {
      assert parts[0] == s && parts[1..] == after;
    } else {
      assert parts[0] == before[0] && parts[1..] == before[1..] + [s] + after;
      JoinAround(before[1..], s, after, sep);
    }
  }

  lemma {:induction false} FieldTextsAppend(a: seq<Field>, b: seq<Field>)
    ensures FieldTexts(a + b) == FieldTexts(a) + FieldTexts(b)
    decreases |a|
  {
    if a == [] {
      assert a + b == b;
    } else {
      assert (a + b)[0] == a[0] && (a + b)[1..] == a[1..] + b;
      FieldTextsAppend(a[1..], b);
    }
  }

  /** The payload of an event around its timestamp. */
  lemma PayloadAround(e: UsageEvent)
    ensures var texts := FieldTexts(EventFields(e));
            texts == FieldTexts(EventFields(e)[..2]) + [RFC3339Nano(e.timestamp)] + FieldTexts(EventFields(e)[3..])
  {
    var fields := EventFields(e);
    assert fields == fields[..2] + ([fields[2]] + fields[3..]);
    FieldTextsAppend(fields[..2], [fields[2]] + fields[3..]);
    FieldTextsAppend([fields[2]], fields[3..]);
    assert fields[2] == TimeField(e.timestamp) && [fields[2]][1..] == [];
    assert FieldTexts([fields[2]]) == [RFC3339Nano(e.timestamp)];
  }

  /** The timestamp alone tells canonical keys apart, whatever the text fields hold. */
  lemma TimestampsTellApart(e: UsageEvent, t: Instant)
    requires e.timestamp != t
    ensures CanonicalKey(e) != CanonicalKey(e.(timestamp := t))
  {
    var e' := e.(timestamp := t);
    var before, after := FieldTexts(EventFields(e)[..2]), FieldTexts(EventFields(e)[3..]);
    assert EventFields(e)[..2] == EventFields(e')[..2] && EventFields(e)[3..] == EventFields(e')[3..];
    PayloadAround(e);
    PayloadAround(e');
    JoinAround(before, RFC3339Nano(e.timestamp), after, '|');
    JoinAround(before, RFC3339Nano(t), after, '|');
    if CanonicalKey(e) == CanonicalKey(e') {
      DigestInjective(Join(FieldTexts(EventFields(e)), '|'), Join(FieldTexts(EventFields(e')), '|'));
      SameMiddle(JoinHead(before, '|'), RFC3339Nano(e.timestamp), RFC3339Nano(t), JoinTail(after, '|'));
      RFC3339NanoInjective(e.timestamp, t);
    }
  }

  /** A message without id and timestamp, decoded at two instants: the same but for timestamp and key. */
  lemma TwoReadings(d: QueuedUsageDetail, at1: Instant, at2: Instant)
    requires !Identified(Usage(d)) && at1 != at2
    ensures var e1, e2 := ToUsageEvent(d, at1), ToUsageEvent(d, at2);
            e1.requestId == "" == e2.requestId && e1.timestamp != e2.timestamp && CanonicalKey(e1) != CanonicalKey(e2)
  {
    var e1, e2 := ToUsageEvent(d, at1), ToUsageEvent(d, at2);
    TimestampsTellApart(e1, at2);
    assert e2 == e1.(timestamp := at2, eventKey := e2.eventKey);
  }

  /** An instant, as late as wanted, at which such a message decodes to an event the table cannot account
      for. */
  lemma {:induction false} FreshReading(d: QueuedUsageDetail, keys: set<string>, from: Instant) returns (at: Instant)
    requires !Identified(Usage(d))
    ensures at >= from && CanonicalKey(ToUsageEvent(d, at)) !in keys
    decreases |keys|
  {
    at := from;
    var key := CanonicalKey(ToUsageEvent(d, from));
    if key in keys {
      at := FreshReading(d, keys - {key}, from + 1);
      TwoReadings(d, from, at);
    }
  }

  lemma {:induction false} LaterThanAll(table: seq<UsageEvent>) returns (t: Instant)
    ensures forall i :: 0 <= i < |table| ==> table[i].timestamp < t
  {
    t := 0;
    if table != [] {
      var n := |table| - 1;
      t := LaterThanAll(table[..n]);
      assert forall i :: 0 <= i < n ==> table[..n][i].timestamp < t;
      if t <= table[n].timestamp { t := table[n].timestamp + 1; }
    }
  }

  lemma UnsettledReading(table: seq<UsageEvent>, d: QueuedUsageDetail, from: Instant) returns (at: Instant)
    requires !Identified(Usage(d))
    ensures at >= from && !Settled(table, ToUsageEvent(d, at))
  {
    var late := LaterThanAll(table);
    at := FreshReading(d, Keys(table), if late > from then late else from);
    DecoderOutput(d, at);
  }

  // ------------------------------------------------------------ a call with one row

  const NO_READ_FAULTS: ReadFaults := ReadFaults({}, {})

  /** Every statement works but the marks of these rows. */
  function MarksFail(ids: set<nat>): Faults { Faults(ids, NO_READ_FAULTS, None) }

  lemma OneRowListed(r: InboxRow)
    requires Processable(r)
    ensures ListProcessable([r]) == [r]
    ensures r.message.Usage? ==> DecodeTargets([r]) == [] && ValidRows([r]) == [r]
  {
    assert [r][..0] == [] && [r][1..] == [];
    assert Filter([r], Processable) == [r] + Filter([], Processable);
  }

  predicate Appended(before: seq<UsageEvent>, after: seq<UsageEvent>, e: UsageEvent) {
    after == before + [e.(id := NextEventId(before))]
  }

  lemma OneEventInserted(stored: seq<UsageEvent>, inbox: seq<InboxRow>, e: UsageEvent)
    requires AllClean(stored) && Decoded(e)
    ensures var after := InsertAll(stored, Aligned(stored, inbox, [e]));
            if Settled(stored, e) then after == stored else Appended(stored, after, e)
  {
    var aligned := Aligned(stored, inbox, [e]);
    AddsIffUnsettled(stored, inbox, e);
    AlignedAt(stored, inbox, [e], 0);
    assert [e][..0] == [] && aligned[..0] == [] && aligned == [aligned[0]];
    assert InsertAll(stored, aligned) == InsertOne(stored, aligned[0]);
  }

  lemma OneRowInserted(events: seq<UsageEvent>, inbox: seq<InboxRow>, r: InboxRow, aligned: seq<UsageEvent>,
                       at: Instant, f: Faults)
    requires |aligned| == 1
    ensures var p, after := InsertAndMark(events, inbox, [r], aligned, at, f), InsertAll(events, aligned);
            (p.events == events || p.events == after) && (f.insertFailsAt.None? ==> p.events == after)
            && (f == MarksFail({r.id}) ==> p.inbox == inbox)
  {
    assert aligned[..1] == aligned && aligned[..0] == [];
    var targets := DoneTargets([r], aligned);
    assert targets[..0] == [] && MarkPass(inbox, [], at, f.markFails, true) == (inbox, true);
  }

  /** One decodable row: its event is appended if the insert is reached and the table cannot account for
      it, and otherwise the table stays. */
  lemma OneRowPersisted(events: seq<UsageEvent>, inbox: seq<InboxRow>, r: InboxRow, at: Instant, f: Faults)
    requires AllClean(events) && r.message.Usage?
    ensures var e, p := ToUsageEvent(r.message.detail, at), Persist(events, inbox, [r], at, f);
            (p.events == events || (!Settled(events, e) && Appended(events, p.events, e)))
            && (f == MarksFail(f.markFails) && !Settled(events, e) ==> Appended(events, p.events, e))
            && (f == MarksFail({r.id}) ==> p.inbox == inbox)
  {
    var e := ToUsageEvent(r.message.detail, at);
    DecoderOutput(r.message.detail, at);
    assert EventsOf([r], at) == [e];
    OneEventInserted(events, inbox, e);
    OneRowInserted(events, inbox, r, Aligned(events, inbox, [e]), at, f);
  }

  lemma OneRowProcess(db: Db, r: InboxRow, at: Instant, f: Faults)
    requires db.inbox == [r] && Processable(r) && r.message.Usage?
    ensures var p := Persist(db.events, [r], [r], at, f);
            Process(db, at, f).0.events == p.events && Process(db, at, f).0.inbox == p.inbox
  {
    OneRowListed(r);
    ListedResult(db, [r], at, f, [r], [r], Persist(db.events, [r], [r], at, f));
  }

  lemma OneRowCall(db: Db, r: InboxRow, at: Instant, f: Faults)
    requires AllClean(db.events) && db.inbox == [r] && Processable(r) && r.message.Usage?
    ensures var e, after := ToUsageEvent(r.message.detail, at), Process(db, at, f).0;
            (after.events == db.events || (!Settled(db.events, e) && Appended(db.events, after.events, e)))
            && (f == MarksFail(f.markFails) && !Settled(db.events, e) ==> Appended(db.events, after.events, e))
            && (f == MarksFail({r.id}) ==> after.inbox == [r])
  {
    OneRowProcess(db, r, at, f);
    OneRowPersisted(db.events, [r], r, at, f);
  }

  lemma AppendedIsClean(before: seq<UsageEvent>, after: seq<UsageEvent>, e: UsageEvent)
    requires AllClean(before) && Decoded(e) && Appended(before, after, e)
    ensures AllClean(after) && before <= after && Keys(after) == Keys(before) + {e.eventKey}
  {
    KeysAppend(before, [e.(id := NextEventId(before))]);
    assert Keys([e.(id := NextEventId(before))]) == {e.eventKey} by {
      assert [e.(id := NextEventId(before))][0].eventKey == e.eventKey;
    }
  }

  /** Without id and timestamp a row whose mark fails once is added a second time at another instant. */
  lemma UnidentifiedMessageAddsTwice(db: Db, r: InboxRow, at1: Instant, at2: Instant)
    requires AllClean(db.events) && db.inbox == [r] && Processable(r) && !Identified(r.message) && at1 != at2
    requires !Settled(db.events, ToUsageEvent(r.message.detail, at1))
             && !Settled(db.events, ToUsageEvent(r.message.detail, at2))
    ensures |Process(Process(db, at1, MarksFail({r.id})).0, at2, MarksFail({})).0.events| == |db.events| + 2
  {
    var first := Process(db, at1, MarksFail({r.id})).0;
    var e1, e2 := ToUsageEvent(r.message.detail, at1), ToUsageEvent(r.message.detail, at2);
    DecoderOutput(r.message.detail, at1);
    OneRowCall(db, r, at1, MarksFail({r.id}));
    AppendedIsClean(db.events, first.events, e1);
    TwoReadings(r.message.detail, at1, at2);
    StillUnsettled(db.events, first.events, e1, e2);
    OneRowCall(first, r, at2, MarksFail({}));
  }

  lemma StillUnsettled(before: seq<UsageEvent>, after: seq<UsageEvent>, e1: UsageEvent, e2: UsageEvent)
    requires AllClean(before) && Decoded(e1) && Appended(before, after, e1)
    requires e1.requestId == "" == e2.requestId && e1.timestamp != e2.timestamp && CanonicalKey(e1) != CanonicalKey(e2)
    requires !Settled(before, e2)
    ensures !Settled(after, e2)
  {
    AppendedIsClean(before, after, e1);
    forall k | 0 <= k < |after| ensures !Equivalent(after[k], e2) {
      if k < |before| { assert after[k] == before[k]; }
    }
  }

  // ------------------------------------------------------------- a row among others

  /** No retryable row comes before this one. */
  predicate First(db: Db, r: InboxRow) {
    r in db.inbox && Processable(r) && forall q :: q in db.inbox && Processable(q) ==> r.id <= q.id
  }

  /** The ids of the retryable rows before this one. */
  function Before(inbox: seq<InboxRow>, r: InboxRow): set<nat> {
    set i | 0 <= i < |inbox| && Processable(inbox[i]) && inbox[i].id < r.id :: inbox[i].id
  }

  function Decodings(db: Db, at: Instant): seq<InboxRow> {
    MarkPass(db.inbox, DecodeTargets(ListProcessable(db.inbox)), at, {}, true).0
  }

  lemma ReachesAligning(db: Db, c: Call)
    requires BeginCall(db.inbox, c.at) == Some(c) && c.rows != []
    ensures Reaches(World(db, Some(c)), World(Inboxed(db, Decodings(db, c.at)), At(c, Aligning(FRESH, []))))
  {
    var w, targets := World(db, Some(c)), DecodeTargets(ListProcessable(db.inbox));
    DecodeReaches(db, c, targets, |targets|, {});
    assert targets[..|targets|] == targets && targets[|targets|..] == [];
    ReachesNext(w, Inboxed(db, Decodings(db, c.at)), c.(stage := Decoding([])), true);
  }

  lemma AlignsThrough(db: Db, c: Call)
    requires c.stage == Aligning(FRESH, []) && AllDecoded(c.events)
    ensures Reaches(World(db, Some(c)), World(db, At(c, Inserting(Aligned(db.events, db.inbox, c.events), 0))))
  {
    AlignReaches(db, c, |c.events|, NO_READ_FAULTS);
    assert c.events[..|c.events|] == c.events;
    assert !AlignFailsBelow(db.events, db.inbox, c.events, NO_READ_FAULTS, |c.events|);
    var (mem, aligned) := AlignRun(db.events, db.inbox, c.events);
    ReachesNext(World(db, Some(c)), db, c.(stage := Aligning(mem, aligned)), true);
  }

  /** With every statement working, a call comes to its inserts, and then to its marks. */
  lemma ReachesInserting(db: Db, c: Call)
    requires Ok(db) && BeginCall(db.inbox, c.at) == Some(c) && c.rows != []
    ensures var middle := Inboxed(db, Decodings(db, c.at));
            Reaches(World(db, Some(c)),
                    World(middle, At(c, Inserting(Aligned(db.events, middle.inbox, c.events), 0))))
  {
    var middle, aligning := Inboxed(db, Decodings(db, c.at)), c.(stage := Aligning(FRESH, []));
    BeginKeepsInv(db, c.at);
    BatchIsDecoded(c);
    ReachesAligning(db, c);
    AlignsThrough(middle, aligning);
    ReachesFurther(World(db, Some(c)), World(middle, Some(aligning)),
                   World(middle, At(c, Inserting(Aligned(db.events, middle.inbox, c.events), 0))));
  }

  lemma InsertsThrough(db: Db, c: Call, aligned: seq<UsageEvent>)
    requires c.stage == Inserting(aligned, 0)
    ensures Reaches(World(db, Some(c)),
                    World(db.(events := InsertAll(db.events, aligned)), At(c, MarkingDone(aligned, 0))))
  {
    var n := |aligned|;
    InsertReaches(db, c, aligned, n);
    assert Chunked(n, n) == n && aligned[..n] == aligned;
    ReachesNext(World(db, Some(c)), db.(events := InsertAll(db.events, aligned)), c.(stage := Inserting(aligned, n)),
                true);
  }

  lemma MarksThrough(db: Db, c: Call, aligned: seq<UsageEvent>, q: nat)
    requires c.stage == MarkingDone(aligned, 0) && q <= |aligned| == |c.rows|
    ensures Reaches(World(db, Some(c)),
                    World(Inboxed(db, MarkPass(db.inbox, DoneTargets(c.rows, aligned)[..q], c.at, {}, true).0),
                          At(c, MarkingDone(aligned, q))))
  {
    MarkDoneReaches(db, c, aligned, q, {});
  }

  lemma ReachesMarking(db: Db, c: Call, q: nat)
    requires Ok(db) && BeginCall(db.inbox, c.at) == Some(c) && c.rows != [] && q <= |c.rows| == |c.events|
    ensures var middle := Inboxed(db, Decodings(db, c.at));
            var aligned := Aligned(db.events, middle.inbox, c.events);
            var inbox := MarkPass(middle.inbox, DoneTargets(c.rows, aligned)[..q], c.at, {}, true).0;
            Reaches(World(db, Some(c)),
                    World(Db(InsertAll(db.events, aligned), inbox, db.nextInboxId), At(c, MarkingDone(aligned, q))))
  {
    var w, middle := World(db, Some(c)), Inboxed(db, Decodings(db, c.at));
    var aligned := Aligned(db.events, middle.inbox, c.events);
    var inserting, marking := c.(stage := Inserting(aligned, 0)), c.(stage := MarkingDone(aligned, 0));
    var stored := middle.(events := InsertAll(db.events, aligned));
    var inbox := MarkPass(middle.inbox, DoneTargets(c.rows, aligned)[..q], c.at, {}, true).0;
    ReachesInserting(db, c);
    InsertsThrough(middle, inserting, aligned);
    ReachesFurther(w, World(middle, Some(inserting)), World(stored, Some(marking)));
    MarksThrough(stored, marking, aligned, q);
    ReachesFurther(w, World(stored, Some(marking)), World(Inboxed(stored, inbox), At(c, MarkingDone(aligned, q))));
  }

  lemma {:induction false} TimesAppend(w: World, a: seq<Step>, b: seq<Step>, id: nat)
    ensures Times(w, a + b, id) == Times(w, a, id) + Times(Run(w, a), b, id)
    decreases |a|
  {
    if a == [] {
      assert a + b == b;
    } else {
      assert (a + b)[0] == a[0] && (a + b)[1..] == a[1..] + b;
      TimesAppend(Apply(w, a[0]), a[1..], b, id);
    }
  }

  lemma TwoSteps(w: World, s: Step, t: Step, id: nat)
    ensures Run(w, [s, t]) == Apply(Apply(w, s), t)
    ensures Times(w, [s, t], id) >= if id in AddedBy(w, s) then 1 else 0
  {
    var both, rest := [s, t], [t];
    assert both[0] == s && both[1..] == rest && rest[0] == t && rest[1..] == [];
    assert Run(Apply(w, s), rest) == Run(Apply(Apply(w, s), t), []);
  }

  /** The steps of a call that crashes after it has come to a certain point. */
  lemma CallSteps(db: Db, at: Instant, point: World) returns (steps: seq<Step>)
    requires Reaches(World(db, BeginCall(db.inbox, at)), point)
    ensures StepsOk(steps) && Run(World(db, None), steps) == point
  {
    var begun := World(db, BeginCall(db.inbox, at));
    var rest :| AllStatements(rest) && Run(begun, rest) == point;
    steps := [Begin(at)] + rest;
    assert steps[0] == Begin(at) && steps[1..] == rest;
    assert forall i :: 0 <= i < |rest| ==> steps[i + 1] == rest[i];
  }

  // -------------------------------------------------------- coming to the front

  /** Which rows the decode marks touch. */
  lemma DecodingsRow(db: Db, at: Instant, k: nat)
    requires Ok(db) && k < |db.inbox|
    ensures var after := Decodings(db, at);
            |after| == |db.inbox|
            && (after[k] == db.inbox[k]
                || (db.inbox[k].message.Malformed? && after[k] == MarkRow(db.inbox[k], Undecodable, at)))
            && (db.inbox[k] in ListProcessable(db.inbox) && db.inbox[k].message.Malformed? ==> Terminal(after[k]))
  {
    DecodePassRow(db.inbox, at, {}, k);
    if db.inbox[k] in ListProcessable(db.inbox) && db.inbox[k].message.Malformed? { MalformedMoves(db, at, k); }
  }

  /** The first listed row is the first retryable one. */
  lemma FirstListed(db: Db, q: InboxRow)
    requires Ok(db) && q in db.inbox && Processable(q)
    ensures var listed := ListProcessable(db.inbox); listed != [] && listed[0].id <= q.id && listed[0] in db.inbox
  {
    var listed := ListProcessable(db.inbox);
    ListProcessableMembers(db.inbox);
    assert listed != [];
    assert listed[0] in listed;
    if q in listed { var j :| 0 <= j < |listed| && listed[j] == q; }
  }

  /** How many of the decodable rows come before this one. */
  function Earlier(rows: seq<InboxRow>, id: nat): (q: nat)
    ensures q <= |rows| && (forall i :: 0 <= i < q ==> rows[i].id < id) && (q < |rows| ==> rows[q].id >= id)
  {
    if rows == [] || rows[0].id >= id then 0
    else
      var q := Earlier(rows[1..], id);
      assert forall i :: 1 <= i < q + 1 ==> rows[i] == rows[1..][i - 1];
      q + 1
  }

  /** Done marks for some of the rows make just those terminal. */
  lemma DoneMarksRow(inbox: seq<InboxRow>, rows: seq<InboxRow>, targets: seq<Target>, at: Instant, k: nat)
    requires k < |inbox| && IdsAscend(rows) && |targets| <= |rows|
    requires forall j :: 0 <= j < |targets| ==> targets[j].id == rows[j].id && targets[j].mark.Done?
    ensures var after := MarkPass(inbox, targets, at, {}, true).0;
            ((forall j :: 0 <= j < |targets| ==> rows[j].id != inbox[k].id) ==> after[k] == inbox[k])
            && ((exists j :: 0 <= j < |targets| && rows[j].id == inbox[k].id) ==> Terminal(after[k]))
            && after[k].id == inbox[k].id && (after[k] == inbox[k] || Terminal(after[k]))
  {
    assert DistinctTargets(targets);
    MarkPassRow(inbox, targets, at, {}, true, k);
  }

  function Doings(db: Db, c: Call, q: nat): seq<InboxRow>
    requires q <= |c.rows| == |c.events|
  {
    var middle := Decodings(db, c.at);
    MarkPass(middle, DoneTargets(c.rows, Aligned(db.events, middle, c.events))[..q], c.at, {}, true).0
  }

  lemma BatchRowsAreListed(db: Db, c: Call)
    requires Ok(db) && BeginCall(db.inbox, c.at) == Some(c)
    ensures IdsAscend(c.rows) && |c.rows| == |c.events|
    ensures forall r :: r in c.rows <==> r in ListProcessable(db.inbox) && r.message.Usage?
    ensures forall r :: r in c.rows ==> r in db.inbox && Processable(r)
  {
    ListProcessableMembers(db.inbox);
    ValidRowsAre(ListProcessable(db.inbox));
  }

  lemma MovedOrTerminal(before: InboxRow, middle: InboxRow, after: InboxRow)
    requires middle.id == before.id && (middle == before || Terminal(middle))
    requires after.id == middle.id && (after == middle || Terminal(after))
    ensures after.id == before.id && (after == before || Terminal(after))
  {
  }

  lemma FirstTargets(rows: seq<InboxRow>, aligned: seq<UsageEvent>, q: nat)
    requires q <= |rows| == |aligned|
    ensures var targets := DoneTargets(rows, aligned)[..q];
            |targets| == q && forall j :: 0 <= j < q ==> targets[j].id == rows[j].id && targets[j].mark.Done?
  {
  }

  predicate MarkedAs(before: InboxRow, middle: InboxRow, after: InboxRow, rows: seq<InboxRow>, q: nat)
    requires q <= |rows|
  {
    after.id == before.id && (after == before || Terminal(after))
    && ((forall j :: 0 <= j < q ==> rows[j].id != before.id) ==> after == middle)
    && ((exists j :: 0 <= j < q && rows[j].id == before.id) ==> Terminal(after))
  }

  lemma MarkedIn(before: InboxRow, middle: seq<InboxRow>, rows: seq<InboxRow>, targets: seq<Target>, at: Instant,
                 k: nat)
    requires k < |middle| && middle[k].id == before.id && (middle[k] == before || Terminal(middle[k]))
    requires IdsAscend(rows) && |targets| <= |rows|
    requires forall j :: 0 <= j < |targets| ==> targets[j].id == rows[j].id && targets[j].mark.Done?
    ensures MarkedAs(before, middle[k], MarkPass(middle, targets, at, {}, true).0[k], rows, |targets|)
  {
    DoneMarksRow(middle, rows, targets, at, k);
    MovedOrTerminal(before, middle[k], MarkPass(middle, targets, at, {}, true).0[k]);
  }

  /** What a call that marks the first q rows of its batch does to a row. */
  lemma MarkedRow(db: Db, c: Call, q: nat, k: nat)
    requires Ok(db) && BeginCall(db.inbox, c.at) == Some(c) && q <= |c.rows| == |c.events| && k < |db.inbox|
    ensures var after := Doings(db, c, q);
            |after| == |db.inbox| == |Decodings(db, c.at)|
            && MarkedAs(db.inbox[k], Decodings(db, c.at)[k], after[k], c.rows, q)
  {
    var middle := Decodings(db, c.at);
    var aligned := Aligned(db.events, middle, c.events);
    BatchRowsAreListed(db, c);
    DecodingsRow(db, c.at, k);
    FirstTargets(c.rows, aligned, q);
    MarkedIn(db.inbox[k], middle, c.rows, DoneTargets(c.rows, aligned)[..q], c.at, k);
  }

  lemma ReachesNoBatch(db: Db, c: Call)
    requires BeginCall(db.inbox, c.at) == Some(c) && c.rows == []
    ensures Reaches(World(db, Some(c)), World(Inboxed(db, Decodings(db, c.at)), None))
  {
    var w, targets := World(db, Some(c)), DecodeTargets(ListProcessable(db.inbox));
    DecodeReaches(db, c, targets, |targets|, {});
    assert targets[..|targets|] == targets && targets[|targets|..] == [];
    ReachesNext(w, Inboxed(db, Decodings(db, c.at)), c.(stage := Decoding([])), true);
  }

  lemma ReachesDoings(db: Db, c: Call, q: nat) returns (point: World)
    requires Ok(db) && BeginCall(db.inbox, c.at) == Some(c) && q <= |c.rows| == |c.events|
    ensures Reaches(World(db, Some(c)), point) && point.db.inbox == Doings(db, c, q)
  {
    var middle := Decodings(db, c.at);
    var aligned := Aligned(db.events, middle, c.events);
    if c.rows == [] {
      ReachesNoBatch(db, c);
      point := World(Inboxed(db, middle), None);
      assert DoneTargets(c.rows, aligned)[..0] == [];
    } else {
      ReachesMarking(db, c, q);
      point := World(Db(InsertAll(db.events, aligned), Doings(db, c, q), db.nextInboxId),
                     At(c, MarkingDone(aligned, q)));
    }
  }

  lemma CrashEnds(w: World, begun: seq<Step>, point: World)
    requires StepsOk(begun) && Run(w, begun) == point
    ensures StepsOk(begun + [Crash]) && Run(w, begun + [Crash]) == World(point.db, None)
  {
    RunAppend(w, begun, [Crash]);
    assert [Crash][0] == Crash && [Crash][1..] == [] && Run(point, [Crash]) == Run(Apply(point, Crash), []);
  }

  /** A call that crashes when it has marked the first q rows of its batch. */
  lemma PartialCall(db: Db, c: Call, q: nat) returns (steps: seq<Step>, after: Db)
    requires Ok(db) && BeginCall(db.inbox, c.at) == Some(c) && q <= |c.rows| == |c.events|
    ensures StepsOk(steps) && Run(World(db, None), steps) == World(after, None)
    ensures Ok(after) && after.inbox == Doings(db, c, q)
  {
    var point := ReachesDoings(db, c, q);
    var begun := CallSteps(db, c.at, point);
    CrashEnds(World(db, None), begun, point);
    after, steps := point.db, begun + [Crash];
    RunKeepsOk(World(db, None), steps);
  }

  lemma SmallerSet(a: set<nat>, b: set<nat>)
    requires a <= b && a != b
    ensures |a| < |b|
  {
    assert b == a + (b - a) && b - a != {};
  }

  lemma RowStays(db: Db, c: Call, q: nat, r: InboxRow)
    requires Ok(db) && BeginCall(db.inbox, c.at) == Some(c) && |c.rows| == |c.events| && q <= |c.rows|
    requires r in db.inbox && r.message.Usage? && forall j :: 0 <= j < q ==> c.rows[j].id != r.id
    ensures r in Doings(db, c, q)
  {
    var k :| 0 <= k < |db.inbox| && db.inbox[k] == r;
    MarkedRow(db, c, q, k);
    DecodingsRow(db, c.at, k);
    assert Doings(db, c, q)[k] == r;
  }

  lemma EarlierRow(rows: seq<InboxRow>, id: nat, f: InboxRow) returns (j: nat)
    requires IdsAscend(rows) && f in rows && f.id < id
    ensures j < Earlier(rows, id) && rows[j] == f
  {
    j :| 0 <= j < |rows| && rows[j] == f;
  }

  lemma ListedIsMarked(db: Db, c: Call, id: nat, k: nat)
    requires Ok(db) && BeginCall(db.inbox, c.at) == Some(c) && |c.rows| == |c.events| && k < |db.inbox|
    requires db.inbox[k] in ListProcessable(db.inbox) && db.inbox[k].id < id
    ensures |Doings(db, c, Earlier(c.rows, id))| == |db.inbox| && Terminal(Doings(db, c, Earlier(c.rows, id))[k])
  {
    MarkedRow(db, c, Earlier(c.rows, id), k);
    if db.inbox[k].message.Malformed? {
      DecodingsRow(db, c.at, k);
    } else {
      BatchRowsAreListed(db, c);
      var j := EarlierRow(c.rows, id, db.inbox[k]);
      assert c.rows[j].id == db.inbox[k].id;
    }
  }

  lemma FewerBefore(before: seq<InboxRow>, after: seq<InboxRow>, r: InboxRow, k: nat)
    requires |after| == |before| && IdsAscend(before)
    requires forall i :: 0 <= i < |before| ==>
               after[i].id == before[i].id && (after[i] == before[i] || Terminal(after[i]))
    requires k < |before| && Processable(before[k]) && before[k].id < r.id && Terminal(after[k])
    ensures |Before(after, r)| < |Before(before, r)|
  {
    assert before[k].id in Before(before, r) && before[k].id !in Before(after, r);
    SmallerSet(Before(after, r), Before(before, r));
  }

  lemma FirstListedRow(db: Db, r: InboxRow) returns (k: nat)
    requires Ok(db) && r in db.inbox && Processable(r) && !First(db, r)
    ensures k < |db.inbox| && db.inbox[k] in ListProcessable(db.inbox) && Processable(db.inbox[k])
            && db.inbox[k].id < r.id
  {
    var p :| p in db.inbox && Processable(p) && p.id < r.id;
    FirstListed(db, p);
    ListProcessableMembers(db.inbox);
    var listed := ListProcessable(db.inbox);
    assert listed[0] in listed;
    k :| 0 <= k < |db.inbox| && db.inbox[k] == listed[0];
  }

  /** A row that is not the first gets one place further. */
  lemma BeforeShrinks(db: Db, c: Call, r: InboxRow)
    requires Ok(db) && BeginCall(db.inbox, c.at) == Some(c) && |c.rows| == |c.events|
    requires r in db.inbox && Processable(r) && r.message.Usage? && !First(db, r)
    ensures var after := Doings(db, c, Earlier(c.rows, r.id));
            r in after && |Before(after, r)| < |Before(db.inbox, r)|
  {
    var q := Earlier(c.rows, r.id);
    var k := FirstListedRow(db, r);
    RowStays(db, c, q, r);
    ListedIsMarked(db, c, r.id, k);
    forall i | 0 <= i < |db.inbox|
      ensures Doings(db, c, q)[i].id == db.inbox[i].id
      ensures Doings(db, c, q)[i] == db.inbox[i] || Terminal(Doings(db, c, q)[i])
    {
      MarkedRow(db, c, q, i);
    }
    FewerBefore(db.inbox, Doings(db, c, q), r, k);
  }

  lemma BeginsCall(db: Db, at: Instant, q: InboxRow) returns (c: Call)
    requires Ok(db) && q in db.inbox && Processable(q)
    ensures BeginCall(db.inbox, at) == Some(c) && c.at == at && |c.rows| == |c.events|
  {
    FirstListed(db, q);
    c := BeginCall(db.inbox, at).value;
  }

  /** Whatever is before it, a retryable row can come to the front. */
  lemma {:induction false} ComesToFront(db: Db, r: InboxRow) returns (steps: seq<Step>, after: Db)
    requires Ok(db) && r in db.inbox && Processable(r) && r.message.Usage?
    ensures StepsOk(steps) && Run(World(db, None), steps) == World(after, None) && Ok(after) && First(after, r)
    decreases |Before(db.inbox, r)|
  {
    if First(db, r) {
      steps, after := [], db;
    } else {
      var c := BeginsCall(db, 0, r);
      BeforeShrinks(db, c, r);
      var once, middle := PartialCall(db, c, Earlier(c.rows, r.id));
      var more;
      more, after := ComesToFront(middle, r);
      steps := once + more;
      RunAppend(World(db, None), once, more);
    }
  }

  // ------------------------------------------------------------------- adding again

  lemma FirstIsDecodedFirst(db: Db, c: Call, r: InboxRow)
    requires Ok(db) && BeginCall(db.inbox, c.at) == Some(c) && First(db, r) && r.message.Usage?
    ensures |c.rows| == |c.events| && c.rows != [] && c.rows[0] == r
            && c.events[0] == ToUsageEvent(r.message.detail, c.at)
  {
    var listed := ListProcessable(db.inbox);
    FirstListed(db, r);
    ListProcessableMembers(db.inbox);
    BatchRowsAreListed(db, c);
    assert listed[0] in listed;
    var k :| 0 <= k < |db.inbox| && db.inbox[k] == r;
    SameIdSameRow(db.inbox, listed[0], k);
    var j :| 0 <= j < |c.rows| && c.rows[j] == r;
    assert c.rows[0] in c.rows;
  }

  lemma FirstIsNew(stored: seq<UsageEvent>, inbox: seq<InboxRow>, events: seq<UsageEvent>)
    requires AllClean(stored) && AllDecoded(events) && events != [] && !Settled(stored, events[0])
    ensures var aligned := Aligned(stored, inbox, events); aligned[0].eventKey !in Keys(stored) + Keys(aligned[..0])
  {
    AlignedAt(stored, inbox, events, 0);
    assert events[..0] == [] && Aligned(stored, inbox, events)[..0] == [];
    FirstKeepsKey(stored, events[0]);
  }

  lemma NewIsAdded(db: Db, c: Call, aligned: seq<UsageEvent>)
    requires c.stage == Inserting(aligned, 0) && |aligned| == |c.rows| && aligned != []
    requires aligned[0].eventKey !in Keys(db.events) + Keys(aligned[..0])
    ensures c.rows[0].id in AddedBy(World(db, Some(c)), Statement(true))
  {
    ChunkIdsMembers(db.events, c.rows, aligned, 0, c.rows[0].id);
  }

  /** The first row of a batch adds its event if the table cannot account for it. */
  lemma FirstRowAdds(db: Db, c: Call, r: InboxRow)
    requires Ok(db) && BeginCall(db.inbox, c.at) == Some(c) && First(db, r) && r.message.Usage?
    requires !Settled(db.events, ToUsageEvent(r.message.detail, c.at))
    ensures var middle := Inboxed(db, Decodings(db, c.at));
            var aligned := Aligned(db.events, middle.inbox, c.events);
            r.id in AddedBy(World(middle, At(c, Inserting(aligned, 0))), Statement(true))
  {
    var middle := Inboxed(db, Decodings(db, c.at));
    var aligned := Aligned(db.events, middle.inbox, c.events);
    FirstIsDecodedFirst(db, c, r);
    BeginKeepsInv(db, c.at);
    BatchIsDecoded(c);
    FirstIsNew(db.events, middle.inbox, c.events);
    NewIsAdded(middle, c.(stage := Inserting(aligned, 0)), aligned);
  }

  lemma FirstKeepsKey(stored: seq<UsageEvent>, e: UsageEvent)
    requires Decoded(e) && !Settled(stored, e)
    ensures SimpleKey(stored, map[], e) == e.eventKey && e.eventKey !in Keys(stored)
  {
  }

  lemma CommitThenCrash(db: Db, c: Call)
    requires c.stage.Inserting? && c.stage.next < |c.stage.aligned|
    ensures var after := Run(World(db, Some(c)), [Statement(true), Crash]);
            after.call == None && after.db.inbox == db.inbox
  {
    TwoSteps(World(db, Some(c)), Statement(true), Crash, 0);
    CommitKeepsInbox(db, c);
  }

  /** One attempt: the chunk with the row is committed, and then the call crashes. */
  lemma Attempt(db: Db, r: InboxRow, at: Instant) returns (steps: seq<Step>, after: Db)
    requires Ok(db) && First(db, r) && r.message.Usage? && !Settled(db.events, ToUsageEvent(r.message.detail, at))
    ensures StepsOk(steps) && Run(World(db, None), steps) == World(after, None)
    ensures Ok(after) && First(after, r) && Times(World(db, None), steps, r.id) >= 1
  {
    var c := BeginsCall(db, at, r);
    FirstIsDecodedFirst(db, c, r);
    ReachesInserting(db, c);
    FirstRowAdds(db, c, r);
    var middle := Inboxed(db, Decodings(db, at));
    var inserting := c.(stage := Inserting(Aligned(db.events, middle.inbox, c.events), 0));
    var begun := CallSteps(db, at, World(middle, Some(inserting)));
    CommitThenCrash(middle, inserting);
    steps := AttemptSteps(db, r, begun, middle, inserting);
    after := Run(World(db, None), steps).db;
    RunKeepsOk(World(db, None), steps);
    FirstStays(db, at, r, after);
  }

  lemma AttemptSteps(db: Db, r: InboxRow, begun: seq<Step>, middle: Db, c: Call) returns (steps: seq<Step>)
    requires StepsOk(begun) && Run(World(db, None), begun) == World(middle, Some(c))
    requires r.id in AddedBy(World(middle, Some(c)), Statement(true))
    ensures StepsOk(steps) && Times(World(db, None), steps, r.id) >= 1
    ensures Run(World(db, None), steps) == Run(World(middle, Some(c)), [Statement(true), Crash])
  {
    var commit := [Statement(true), Crash];
    steps := begun + commit;
    RunAppend(World(db, None), begun, commit);
    TimesAppend(World(db, None), begun, commit, r.id);
    TwoSteps(World(middle, Some(c)), Statement(true), Crash, r.id);
  }

  lemma FirstAmong(before: seq<InboxRow>, after: seq<InboxRow>, r: InboxRow)
    requires |after| == |before| && r in before && r.message.Usage?
    requires forall q :: q in before && Processable(q) ==> r.id <= q.id
    requires forall k :: 0 <= k < |before| ==>
               after[k] == before[k] || (Terminal(after[k]) && before[k].message.Malformed?)
    ensures r in after && forall q :: q in after && Processable(q) ==> r.id <= q.id
  {
    var k :| 0 <= k < |before| && before[k] == r;
    assert after[k] == r;
    forall q | q in after && Processable(q) ensures r.id <= q.id {
      var i :| 0 <= i < |after| && after[i] == q;
      assert before[i] in before;
    }
  }

  lemma FirstStays(db: Db, at: Instant, r: InboxRow, after: Db)
    requires Ok(db) && First(db, r) && r.message.Usage? && after.inbox == Decodings(db, at)
    ensures First(after, r)
  {
    forall k | 0 <= k < |db.inbox|
      ensures |after.inbox| == |db.inbox|
      ensures after.inbox[k] == db.inbox[k] || (Terminal(after.inbox[k]) && db.inbox[k].message.Malformed?)
    {
      DecodingsRow(db, at, k);
    }
    FirstAmong(db.inbox, after.inbox, r);
  }

  /** A retryable row with neither request id nor timestamp, wherever it stands in whatever inbox, adds two
      events in some history in which every statement works and calls crash. */
  lemma UnidentifiedRowAddsTwice(db: Db, r: InboxRow) returns (steps: seq<Step>)
    requires Ok(db) && r in db.inbox && Processable(r) && !Identified(r.message)
    ensures StepsOk(steps) && Times(World(db, None), steps, r.id) >= 2
  {
    var w := World(db, None);
    var front, db1 := ComesToFront(db, r);
    var at1 := UnsettledReading(db1.events, r.message.detail, 0);
    var first, db2 := Attempt(db1, r, at1);
    var at2 := UnsettledReading(db2.events, r.message.detail, 0);
    var second, db3 := Attempt(db2, r, at2);
    steps := front + (first + second);
    TimesAppend(w, front, first + second, r.id);
    TimesAppend(World(db1, None), first, second, r.id);
    assert forall i :: 0 <= i < |first + second| ==> StepOk((first + second)[i]);
  }

  /** The exact limit of at-most-once, for any retryable row of any inbox and over all histories: it adds at
      most one event exactly if its message carries a request id or a timestamp. */
  lemma AtMostOnceIffIdentified(db: Db, r: InboxRow)
    requires Ok(db) && r in db.inbox && Processable(r)
    ensures Identified(r.message)
            <==> forall steps: seq<Step> :: StepsOk(steps) ==> Times(World(db, None), steps, r.id) <= 1
  {
    var k :| 0 <= k < |db.inbox| && db.inbox[k] == r;
    if Identified(r.message) {
      forall i | 0 <= i < |db.inbox| && db.inbox[i].id == r.id ensures Identified(db.inbox[i].message) {
        SameIdSameRow(db.inbox, r, i);
      }
      forall steps: seq<Step> | StepsOk(steps) ensures Times(World(db, None), steps, r.id) <= 1 {
        AtMostOnce(World(db, None), steps, r.id);
      }
    } else {
      var steps := UnidentifiedRowAddsTwice(db, r);
    }
  }
}

/** Every interleaving of event inserts, metadata replacements and aggregator calls that read the
    identities before their transaction (internal/repository/usage_identities.go). */
module IdentityHistory {
  import opened Text
  import opened Calendar
  import opened UsageEvents
  import opened Database
  import opened IdentityStats

  /** `pending` holds, per aggregator call in flight, the identities it listed. */
  datatype World = World(events: seq<UsageEvent>, rows: seq<UsageIdentity>, pending: map<nat, seq<UsageIdentity>>)

  datatype Step =
    | Insert(events: seq<UsageEvent>)
    | Replace(authType: int, normalized: seq<IdentityInput>, kinds: Option<set<string>>, now: Instant)
    | Read(call: nat)
    | Commit(call: nat, now: Instant)
    | Abort(call: nat)

  function Apply(w: World, s: Step): World {
    match s
    case Insert(events) => w.(events := InsertAll(w.events, events))
    case Replace(authType, normalized, kinds, now) => w.(rows := Replaced(w.rows, authType, normalized, kinds, now))
    case Read(call) => w.(pending := w.pending[call := w.rows])
    case Commit(call, now) =>
      if call in w.pending then
        World(w.events, Committed(w.rows, w.events, w.pending[call], now), w.pending - {call})
      else w
    case Abort(call) => w.(pending := w.pending - {call})
  }

  function Run(w: World, steps: seq<Step>): World
    decreases |steps|
  {
    if steps == [] then w else Run(Apply(w, steps[0]), steps[1..])
  }

  /** A list of identities, as the table was at some earlier moment. */
  predicate Precedes(read: seq<UsageIdentity>, rows: seq<UsageIdentity>) {
    |read| <= |rows| && forall i :: 0 <= i < |read| ==> Older(read[i], rows[i])
  }

  predicate AllExact(rows: seq<UsageIdentity>, events: seq<UsageEvent>) {
    forall i :: 0 <= i < |rows| ==> Exact(rows[i], events)
  }

  predicate GoodRead(read: seq<UsageIdentity>, rows: seq<UsageIdentity>, events: seq<UsageEvent>) {
    Precedes(read, rows) && AllExact(read, events)
  }

  predicate GoodRows(rows: seq<UsageIdentity>, events: seq<UsageEvent>) {
    AscendingIds(rows) && UniqueIdentities(rows) && AllExact(rows, events)
  }

  predicate Inv(w: World) {
    TableOk(w.events) && GoodRows(w.rows, w.events)
    && forall c :: c in w.pending ==> GoodRead(w.pending[c], w.rows, w.events)
  }

  lemma PrecedesTransitive(a: seq<UsageIdentity>, b: seq<UsageIdentity>, c: seq<UsageIdentity>)
    requires Precedes(a, b) && Precedes(b, c)
    ensures Precedes(a, c)
  {
    forall i | 0 <= i < |a| ensures Older(a[i], c[i]) { assert Older(a[i], b[i]) && Older(b[i], c[i]); }
  }

  lemma AllExactStable(rows: seq<UsageIdentity>, before: seq<UsageEvent>, after: seq<UsageEvent>)
    requires AllExact(rows, before) && before <= after && TableOk(after)
    ensures AllExact(rows, after)
  {
    forall i | 0 <= i < |rows| ensures Exact(rows[i], after) { ExactStable(rows[i], before, after); }
  }

  lemma InsertKeepsInv(w: World, incoming: seq<UsageEvent>)
    requires Inv(w)
    ensures Inv(w.(events := InsertAll(w.events, incoming)))
  {
    var events := InsertAll(w.events, incoming);
    InsertAllKeys(w.events, incoming);
    InsertAllTableOk(w.events, incoming);
    AllExactStable(w.rows, w.events, events);
    forall c | c in w.pending ensures GoodRead(w.pending[c], w.rows, events) {
      AllExactStable(w.pending[c], w.events, events);
    }
  }

  /** A new row starts with the statistics of the empty window. */
  lemma ZeroIsExact(row: UsageIdentity, events: seq<UsageEvent>)
    requires row.stats == ZERO
    ensures Exact(row, events)
  {
    WindowEmpty(events, row.authType, row.identity, 0, 0);
  }

  lemma MetadataKeepsRows(before: seq<UsageIdentity>, after: seq<UsageIdentity>, events: seq<UsageEvent>)
    requires AllExact(before, events) && MetadataMove(before, after)
    ensures AllExact(after, events) && Precedes(before, after)
  {
    forall i | 0 <= i < |after| ensures Exact(after[i], events) {
      if i < |before| { assert Exact(before[i], events); } else { ZeroIsExact(after[i], events); }
    }
  }

  lemma RowsAdvance(w: World, rows: seq<UsageIdentity>)
    requires Inv(w) && GoodRows(rows, w.events) && Precedes(w.rows, rows)
    ensures Inv(w.(rows := rows))
  {
    forall c | c in w.pending ensures GoodRead(w.pending[c], rows, w.events) {
      PrecedesTransitive(w.pending[c], w.rows, rows);
    }
  }

  lemma SameIdSameRow(rows: seq<UsageIdentity>, j: nat, k: nat)
    requires AscendingIds(rows) && j < |rows| && k < |rows|
    ensures rows[j].id == rows[k].id ==> j == k
  {
    if j < k { assert rows[j].id < rows[k].id; } else if k < j { assert rows[k].id < rows[j].id; }
  }

  lemma AscendingIdsAreDistinct(read: seq<UsageIdentity>, rows: seq<UsageIdentity>)
    requires AscendingIds(rows) && Precedes(read, rows)
    ensures DistinctIds(read)
    ensures forall j, k :: 0 <= j < |read| && 0 <= k < |rows| && read[j].id == rows[k].id ==> j == k
  {
    forall j, k | 0 <= j < |read| && 0 <= k < |rows| && read[j].id == rows[k].id ensures j == k {
      assert Older(read[j], rows[j]);
      SameIdSameRow(rows, j, k);
    }
    forall i, j | 0 <= i < j < |read| ensures read[i].id != read[j].id { assert Older(read[j], rows[j]); }
  }

  /** What a commit does to one row, read or not. */
  lemma CommitRow(rows: seq<UsageIdentity>, events: seq<UsageEvent>, read: seq<UsageIdentity>, now: Instant, k: nat)
    requires TableOk(events) && GoodRows(rows, events) && GoodRead(read, rows, events) && k < |rows|
    ensures var r := Committed(rows, events, read, now)[k];
            Exact(r, events) && Older(rows[k], r)
            && r == rows[k].(stats := r.stats, statsUpdatedAt := r.statsUpdatedAt)
            && (k < |read| ==> r.stats == Full(events, r.authType, r.identity))
            && (k >= |read| ==> r == rows[k])
  {
    AscendingIdsAreDistinct(read, rows);
    assert Exact(rows[k], events);
    forall j | 0 <= j < |read|
      ensures Exact(read[j], events) && (read[j].id == rows[k].id ==> Older(read[j], rows[k]))
    {
      assert Older(read[j], rows[j]);
    }
    if k < |read| { assert Older(read[k], rows[k]); }
    CommittedRow(rows, events, read, now, k);
    CommitIsExact(rows, events, read, now, k);
  }

  lemma CommitKeepsRows(rows: seq<UsageIdentity>, events: seq<UsageEvent>, read: seq<UsageIdentity>, now: Instant)
    requires TableOk(events) && GoodRows(rows, events) && GoodRead(read, rows, events)
    ensures GoodRows(Committed(rows, events, read, now), events) && Precedes(rows, Committed(rows, events, read, now))
  {
    var after := Committed(rows, events, read, now);
    forall k | 0 <= k < |rows|
      ensures Exact(after[k], events) && Older(rows[k], after[k])
    {
      CommitRow(rows, events, read, now, k);
    }
    SameKeysKeepIndexes(rows, after);
  }

  lemma SameKeysKeepIndexes(before: seq<UsageIdentity>, after: seq<UsageIdentity>)
    requires |after| == |before| && Precedes(before, after) && AscendingIds(before) && UniqueIdentities(before)
    ensures AscendingIds(after) && UniqueIdentities(after)
  {
    forall i, j | 0 <= i < j < |after| ensures after[i].id < after[j].id {
      assert Older(before[i], after[i]) && Older(before[j], after[j]);
    }
    forall i, j | 0 <= i < |after| && 0 <= j < |after| && Same(after[i], after[j].authType, after[j].identity)
      ensures i == j
    {
      assert Older(before[i], after[i]) && Older(before[j], after[j]);
      assert Same(before[i], before[j].authType, before[j].identity);
    }
  }

  /** Every step keeps the invariant, and moves each identity row only forward. */
  lemma StepKeepsInv(w: World, s: Step)
    requires Inv(w)
    ensures Inv(Apply(w, s)) && Precedes(w.rows, Apply(w, s).rows)
  {
    match s
    case Insert(events) => InsertKeepsInv(w, events);
    case Replace(authType, normalized, kinds, now) =>
      var rows := Replaced(w.rows, authType, normalized, kinds, now);
      ReplacedMoves(w.rows, authType, normalized, kinds, now);
      MetadataKeepsRows(w.rows, rows, w.events);
      RowsAdvance(w, rows);
    case Read(call) =>
    case Commit(call, now) =>
      if call in w.pending {
        CommitKeepsRows(w.rows, w.events, w.pending[call], now);
        RowsAdvance(w, Committed(w.rows, w.events, w.pending[call], now));
      }
    case Abort(call) =>
  }

  /** Over every run the statistics of every identity stay exact up to its watermark, and neither a
      row nor its watermark is ever lost or moved back. */
  lemma {:induction false} WatermarksNeverRegress(w: World, steps: seq<Step>)
    requires Inv(w)
    ensures Inv(Run(w, steps)) && Precedes(w.rows, Run(w, steps).rows)
    decreases |steps|
  {
    if steps != [] {
      StepKeepsInv(w, steps[0]);
      WatermarksNeverRegress(Apply(w, steps[0]), steps[1..]);
      PrecedesTransitive(w.rows, Apply(w, steps[0]).rows, Run(w, steps).rows);
    }
  }

  /** Incremental equals from scratch: after any run, an aggregator that commits leaves every identity it
      had read with the aggregate over all events stored now, however old its read is and whatever other
      aggregators committed meanwhile. The run may start from an empty table, from a migrated one, or from
      any state an earlier run has led to. */
  lemma IncrementalEqualsFromScratch(w0: World, steps: seq<Step>, call: nat, now: Instant, k: nat)
    requires Inv(w0)
    requires var w := Run(w0, steps); call in w.pending && k < |w.pending[call]|
    ensures var w := Run(w0, steps);
            var after := Apply(w, Commit(call, now));
            k < |w.rows| && k < |after.rows| && after.rows[k].id == w.pending[call][k].id
            && after.rows[k].stats == Full(after.events, after.rows[k].authType, after.rows[k].identity)
            && StatsSay(after.rows[k].stats, after.events, after.rows[k].authType, after.rows[k].identity)
  {
    var w := Run(w0, steps);
    WatermarksNeverRegress(w0, steps);
    assert GoodRead(w.pending[call], w.rows, w.events);
    assert Older(w.pending[call][k], w.rows[k]);
    CommitRow(w.rows, w.events, w.pending[call], now, k);
    FullSays(w.events, w.rows[k].authType, w.rows[k].identity);
  }

  // ------------------------------------------------------- no event counted twice

  predicate MatchedBySome(rows: seq<UsageIdentity>, e: UsageEvent) {
    exists i :: 0 <= i < |rows| && Matches(rows[i].authType, rows[i].identity, e)
  }

  function TotalRequests(rows: seq<UsageIdentity>): int {
    if rows == [] then 0 else TotalRequests(rows[..|rows| - 1]) + rows[|rows| - 1].stats.total
  }

  function MatchedEvents(rows: seq<UsageIdentity>, events: seq<UsageEvent>): nat {
    if events == [] then 0
    else MatchedEvents(rows, events[..|events| - 1]) + if MatchedBySome(rows, events[|events| - 1]) then 1 else 0
  }

  lemma MatchedOnce(rows: seq<UsageIdentity>, e: UsageEvent, i: nat, j: nat)
    requires UniqueIdentities(rows) && i < |rows| && j < |rows|
    ensures Matches(rows[i].authType, rows[i].identity, e) && Matches(rows[j].authType, rows[j].identity, e) ==> i == j
  {
    assert Same(rows[i], rows[j].authType, rows[j].identity)
           || !(Matches(rows[i].authType, rows[i].identity, e) && Matches(rows[j].authType, rows[j].identity, e));
  }

  /** The event lies in what the statistics of some identity cover: it matches, up to the watermark. */
  predicate CountedBySome(rows: seq<UsageIdentity>, e: UsageEvent) {
    exists i :: 0 <= i < |rows| && CountedBy(rows[i], e)
  }

  predicate CountedBy(row: UsageIdentity, e: UsageEvent) {
    Selected(row.authType, row.identity, 0, row.stats.watermark, e)
  }

  function CountedEvents(rows: seq<UsageIdentity>, events: seq<UsageEvent>): nat {
    if events == [] then 0
    else CountedEvents(rows, events[..|events| - 1]) + if CountedBySome(rows, events[|events| - 1]) then 1 else 0
  }

  function WindowTotals(rows: seq<UsageIdentity>, events: seq<UsageEvent>): int {
    if rows == [] then 0
    else
      var row := rows[|rows| - 1];
      WindowTotals(rows[..|rows| - 1], events)
      + Window(events, row.authType, row.identity, 0, row.stats.watermark).total
  }

  lemma CountedLast(rows: seq<UsageIdentity>, e: UsageEvent)
    requires UniqueIdentities(rows) && rows != []
    ensures var n := |rows| - 1;
            (CountedBySome(rows, e) <==> CountedBySome(rows[..n], e) || CountedBy(rows[n], e))
            && !(CountedBySome(rows[..n], e) && CountedBy(rows[n], e))
  {
    var n := |rows| - 1;
    if i :| 0 <= i < n && CountedBy(rows[..n][i], e) {
      assert CountedBy(rows[i], e);
      MatchedOnce(rows, e, i, n);
    }
    if i :| 0 <= i < |rows| && CountedBy(rows[i], e) { assert i < n ==> CountedBy(rows[..n][i], e); }
  }

  lemma {:induction false} OneMoreEvent(rows: seq<UsageIdentity>, events: seq<UsageEvent>)
    requires UniqueIdentities(rows) && events != []
    ensures WindowTotals(rows, events)
            == WindowTotals(rows, events[..|events| - 1]) + if CountedBySome(rows, events[|events| - 1]) then 1 else 0
  {
    if rows != [] {
      OneMoreEvent(rows[..|rows| - 1], events);
      CountedLast(rows, events[|events| - 1]);
    }
  }

  lemma {:induction false} WindowTotalsCount(rows: seq<UsageIdentity>, events: seq<UsageEvent>)
    requires UniqueIdentities(rows)
    ensures WindowTotals(rows, events) == CountedEvents(rows, events)
  {
    if events != [] {
      WindowTotalsCount(rows, events[..|events| - 1]);
      OneMoreEvent(rows, events);
    } else {
      NoEvents(rows);
    }
  }

  lemma {:induction false} NoEvents(rows: seq<UsageIdentity>)
    ensures WindowTotals(rows, []) == 0
  {
    if rows != [] { NoEvents(rows[..|rows| - 1]); }
  }

  lemma {:induction false} TotalsAreWindows(rows: seq<UsageIdentity>, events: seq<UsageEvent>)
    requires AllExact(rows, events)
    ensures TotalRequests(rows) == WindowTotals(rows, events)
  {
    if rows != [] { TotalsAreWindows(rows[..|rows| - 1], events); }
  }

  /** At every moment of every run, whatever has been read or committed: the requests summed over all
      identities are the stored events that match one up to its watermark, each counted once. */
  lemma EachEventIsCountedOnce(w0: World, steps: seq<Step>)
    requires Inv(w0)
    ensures var w := Run(w0, steps); TotalRequests(w.rows) == CountedEvents(w.rows, w.events)
  {
    var w := Run(w0, steps);
    WatermarksNeverRegress(w0, steps);
    TotalsAreWindows(w.rows, w.events);
    WindowTotalsCount(w.rows, w.events);
  }

  predicate AllFull(rows: seq<UsageIdentity>, events: seq<UsageEvent>) {
    forall i :: 0 <= i < |rows| ==> rows[i].stats == Full(events, rows[i].authType, rows[i].identity)
  }

  lemma {:induction false} FullReachesAll(events: seq<UsageEvent>, authType: int, identity: string, i: nat)
    requires i < |events| && Matches(authType, identity, events[i])
    ensures events[i].id <= Full(events, authType, identity).watermark
  {
    if i < |events| - 1 { FullReachesAll(events[..|events| - 1], authType, identity, i); }
  }

  lemma FullCountsMatches(rows: seq<UsageIdentity>, events: seq<UsageEvent>, i: nat)
    requires AllFull(rows, events) && TableOk(events) && i < |events|
    ensures CountedBySome(rows, events[i]) <==> MatchedBySome(rows, events[i])
  {
    if k :| 0 <= k < |rows| && CountedBy(rows[k], events[i]) {
      assert Matches(rows[k].authType, rows[k].identity, events[i]);
    }
    if k :| 0 <= k < |rows| && Matches(rows[k].authType, rows[k].identity, events[i]) {
      FullReachesAll(events, rows[k].authType, rows[k].identity, i);
      assert CountedBy(rows[k], events[i]);
    }
  }

  lemma {:induction false} SameCounts(rows: seq<UsageIdentity>, events: seq<UsageEvent>)
    requires forall i :: 0 <= i < |events| ==> (CountedBySome(rows, events[i]) <==> MatchedBySome(rows, events[i]))
    ensures CountedEvents(rows, events) == MatchedEvents(rows, events)
  {
    if events != [] { SameCounts(rows, events[..|events| - 1]); }
  }

  /** After a commit that had read the whole table, the requests counted over all identities are the
      stored events that match any identity, each counted once. */
  lemma NoEventIsCountedTwice(w0: World, steps: seq<Step>, call: nat, now: Instant)
    requires Inv(w0)
    requires var w := Run(w0, steps); call in w.pending && |w.pending[call]| == |w.rows|
    ensures var after := Apply(Run(w0, steps), Commit(call, now));
            TotalRequests(after.rows) == MatchedEvents(after.rows, after.events)
  {
    var w := Run(w0, steps);
    WatermarksNeverRegress(w0, steps);
    assert GoodRead(w.pending[call], w.rows, w.events);
    StepKeepsInv(w, Commit(call, now));
    var after := Apply(w, Commit(call, now));
    forall k | 0 <= k < |after.rows|
      ensures after.rows[k].stats == Full(after.events, after.rows[k].authType, after.rows[k].identity)
    {
      CommitRow(w.rows, w.events, w.pending[call], now, k);
    }
    TotalsAreWindows(after.rows, after.events);
    WindowTotalsCount(after.rows, after.events);
    forall i | 0 <= i < |after.events|
      ensures CountedBySome(after.rows, after.events[i]) <==> MatchedBySome(after.rows, after.events[i])
    {
      FullCountsMatches(after.rows, after.events, i);
    }
    SameCounts(after.rows, after.events);
  }
}

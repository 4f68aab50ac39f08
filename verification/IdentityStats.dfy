/** Incremental statistics per usage identity (internal/repository/usage_identities.go). */
module IdentityStats {
  import opened Text
  import opened Calendar
  import opened UsageEvents
  import opened Database

  const AUTH_FILE: int := 1
  const AI_PROVIDER: int := 2

  /** Which identities a decoded message can count for: an API key those of its source, an OAuth login those
      of its auth index, in whatever case and with whatever white space around; anything else none. */
  lemma DecodedMatches(d: QueuedUsageDetail, at: Instant, authType: int, identity: string)
    ensures var how, e := ToLowerAscii(Trim(d.authType)), ToUsageEvent(d, at);
            Matches(authType, identity, e)
            <==> ((how == "api_key" || how == "apikey") && authType == AI_PROVIDER && identity == Trim(d.source))
                 || (how == "oauth" && authType == AUTH_FILE && identity == Trim(d.authIndex))
  {
  }

  /** The statistics columns of an identity row; `watermark` is last_aggregated_usage_event_id. */
  datatype Stats = Stats(total: int, success: int, failure: int, input: int, output: int, reasoning: int, cached: int,
                         tokens: int, firstUsedAt: Option<Instant>, lastUsedAt: Option<Instant>, watermark: nat)

  const ZERO: Stats := Stats(0, 0, 0, 0, 0, 0, 0, 0, None, None, 0)

  datatype UsageIdentity = UsageIdentity(id: nat, name: string, authType: int, authTypeName: string, identity: string,
                                         kind: string, provider: string, stats: Stats, statsUpdatedAt: Option<Instant>,
                                         isDeleted: bool, deletedAt: Option<Instant>)

  /** usageIdentityEventsQuery; any other auth type selects nothing. */
  predicate Matches(authType: int, identity: string, e: UsageEvent) {
    (authType == AUTH_FILE && e.authType == "oauth" && e.authIndex == identity)
    || (authType == AI_PROVIDER && e.authType == "apikey" && e.source == identity)
  }

  function Earlier(a: Option<Instant>, b: Option<Instant>): Option<Instant> {
    if a.None? then b else if b.None? then a else if b.value < a.value then b else a
  }

  function Later(a: Option<Instant>, b: Option<Instant>): Option<Instant> {
    if a.None? then b else if b.None? then a else if b.value > a.value then b else a
  }

  function Max(a: nat, b: nat): nat { if a < b then b else a }

  /** What one event contributes to the aggregate columns. */
  function OneEvent(e: UsageEvent): Stats {
    Stats(1, if e.failed then 0 else 1, if e.failed then 1 else 0, e.tokens.input, e.tokens.output, e.tokens.reasoning,
          e.tokens.cached, e.tokens.total, Some(e.timestamp), Some(e.timestamp), e.id)
  }

  function Combine(a: Stats, b: Stats): Stats {
    Stats(a.total + b.total, a.success + b.success, a.failure + b.failure, a.input + b.input, a.output + b.output,
          a.reasoning + b.reasoning, a.cached + b.cached, a.tokens + b.tokens,
          Earlier(a.firstUsedAt, b.firstUsedAt), Later(a.lastUsedAt, b.lastUsedAt), Max(a.watermark, b.watermark))
  }

  /** COUNT, SUM, first, last and MAX(id) over the matching events with lo < id <= hi. */
  function Window(events: seq<UsageEvent>, authType: int, identity: string, lo: nat, hi: nat): Stats {
    if events == [] then ZERO
    else
      var n := |events| - 1;
      Add(Window(events[..n], authType, identity, lo, hi), events[n], Selected(authType, identity, lo, hi, events[n]))
  }

  predicate Selected(authType: int, identity: string, lo: nat, hi: nat, e: UsageEvent) {
    Matches(authType, identity, e) && lo < e.id <= hi
  }

  function Add(w: Stats, e: UsageEvent, selected: bool): Stats { if selected then Combine(w, OneEvent(e)) else w }

  function LastId(events: seq<UsageEvent>): nat { if events == [] then 0 else events[|events| - 1].id }

  /** The matching events with lo < id. */
  function Above(events: seq<UsageEvent>, authType: int, identity: string, lo: nat): Stats {
    if events == [] then ZERO
    else
      var n := |events| - 1;
      Add(Above(events[..n], authType, identity, lo), events[n],
          Matches(authType, identity, events[n]) && lo < events[n].id)
  }

  /** The from-scratch aggregate over every matching event. */
  function Full(events: seq<UsageEvent>, authType: int, identity: string): Stats {
    if events == [] then ZERO
    else
      var n := |events| - 1;
      Add(Full(events[..n], authType, identity), events[n], Matches(authType, identity, events[n]))
  }

  // ------------------------------------------------------- what the columns mean

  datatype TokenColumn = InputTokens | OutputTokens | ReasoningTokens | CachedTokens | AllTokens

  function TokensOf(e: UsageEvent, column: TokenColumn): int {
    match column
    case InputTokens => e.tokens.input
    case OutputTokens => e.tokens.output
    case ReasoningTokens => e.tokens.reasoning
    case CachedTokens => e.tokens.cached
    case AllTokens => e.tokens.total
  }

  /** How many matching events failed, or did not. */
  function MatchingEvents(events: seq<UsageEvent>, authType: int, identity: string, failed: bool): nat {
    if events == [] then 0
    else
      var n := |events| - 1;
      MatchingEvents(events[..n], authType, identity, failed)
      + if Matches(authType, identity, events[n]) && events[n].failed == failed then 1 else 0
  }

  /** The sum of one token column over the matching events. */
  function TokenSum(events: seq<UsageEvent>, authType: int, identity: string, column: TokenColumn): int {
    if events == [] then 0
    else
      var n := |events| - 1;
      TokenSum(events[..n], authType, identity, column)
      + if Matches(authType, identity, events[n]) then TokensOf(events[n], column) else 0
  }

  predicate IsFirstUse(t: Option<Instant>, events: seq<UsageEvent>, authType: int, identity: string) {
    if t.None? then forall i :: 0 <= i < |events| ==> !Matches(authType, identity, events[i])
    else
      (exists i :: 0 <= i < |events| && Matches(authType, identity, events[i]) && events[i].timestamp == t.value)
      && forall i :: 0 <= i < |events| && Matches(authType, identity, events[i]) ==> t.value <= events[i].timestamp
  }

  predicate IsLastUse(t: Option<Instant>, events: seq<UsageEvent>, authType: int, identity: string) {
    if t.None? then forall i :: 0 <= i < |events| ==> !Matches(authType, identity, events[i])
    else
      (exists i :: 0 <= i < |events| && Matches(authType, identity, events[i]) && events[i].timestamp == t.value)
      && forall i :: 0 <= i < |events| && Matches(authType, identity, events[i]) ==> events[i].timestamp <= t.value
  }

  predicate IsLastEvent(id: nat, events: seq<UsageEvent>, authType: int, identity: string) {
    (id == 0 || exists i :: 0 <= i < |events| && Matches(authType, identity, events[i]) && events[i].id == id)
    && forall i :: 0 <= i < |events| && Matches(authType, identity, events[i]) ==> events[i].id <= id
  }

  /** Column by column, what the statistics of an identity say about its events. */
  predicate StatsSay(s: Stats, events: seq<UsageEvent>, authType: int, identity: string) {
    s.success == MatchingEvents(events, authType, identity, false)
    && s.failure == MatchingEvents(events, authType, identity, true)
    && s.total == s.success + s.failure
    && s.input == TokenSum(events, authType, identity, InputTokens)
    && s.output == TokenSum(events, authType, identity, OutputTokens)
    && s.reasoning == TokenSum(events, authType, identity, ReasoningTokens)
    && s.cached == TokenSum(events, authType, identity, CachedTokens)
    && s.tokens == TokenSum(events, authType, identity, AllTokens)
    && IsFirstUse(s.firstUsedAt, events, authType, identity) && IsLastUse(s.lastUsedAt, events, authType, identity)
    && IsLastEvent(s.watermark, events, authType, identity)
  }

  lemma FirstUseNext(t: Option<Instant>, t': Option<Instant>, events: seq<UsageEvent>, authType: int, identity: string)
    requires events != [] && IsFirstUse(t, events[..|events| - 1], authType, identity)
    requires var e := events[|events| - 1];
             t' == if !Matches(authType, identity, e) then t
                   else if t.None? || e.timestamp < t.value then Some(e.timestamp) else t
    ensures IsFirstUse(t', events, authType, identity)
  {
    var n := |events| - 1;
    assert forall i :: 0 <= i < n ==> events[..n][i] == events[i];
    if t.Some? {
      var i :| 0 <= i < n && Matches(authType, identity, events[..n][i]) && events[..n][i].timestamp == t.value;
      assert Matches(authType, identity, events[i]);
    }
  }

  lemma LastUseNext(t: Option<Instant>, t': Option<Instant>, events: seq<UsageEvent>, authType: int, identity: string)
    requires events != [] && IsLastUse(t, events[..|events| - 1], authType, identity)
    requires var e := events[|events| - 1];
             t' == if !Matches(authType, identity, e) then t
                   else if t.None? || e.timestamp > t.value then Some(e.timestamp) else t
    ensures IsLastUse(t', events, authType, identity)
  {
    var n := |events| - 1;
    assert forall i :: 0 <= i < n ==> events[..n][i] == events[i];
    if t.Some? {
      var i :| 0 <= i < n && Matches(authType, identity, events[..n][i]) && events[..n][i].timestamp == t.value;
      assert Matches(authType, identity, events[i]);
    }
  }

  lemma LastEventNext(id: nat, id': nat, events: seq<UsageEvent>, authType: int, identity: string)
    requires events != [] && IsLastEvent(id, events[..|events| - 1], authType, identity)
    requires var e := events[|events| - 1];
             id' == if !Matches(authType, identity, e) || e.id < id then id else e.id
    ensures IsLastEvent(id', events, authType, identity)
  {
    var n := |events| - 1;
    assert forall i :: 0 <= i < n ==> events[..n][i] == events[i];
    if id != 0 {
      var i :| 0 <= i < n && Matches(authType, identity, events[..n][i]) && events[..n][i].id == id;
      assert Matches(authType, identity, events[i]);
    }
  }

  /** Column by column, the from-scratch aggregate. */
  lemma {:induction false} FullSays(events: seq<UsageEvent>, authType: int, identity: string)
    ensures StatsSay(Full(events, authType, identity), events, authType, identity)
  {
    if events != [] {
      var n := |events| - 1;
      var before, full := Full(events[..n], authType, identity), Full(events, authType, identity);
      FullSays(events[..n], authType, identity);
      FirstUseNext(before.firstUsedAt, full.firstUsedAt, events, authType, identity);
      LastUseNext(before.lastUsedAt, full.lastUsedAt, events, authType, identity);
      LastEventNext(before.watermark, full.watermark, events, authType, identity);
    }
  }

  // ------------------------------------------------------------------ the delta

  /** aggregateUsageIdentityDelta: the matching events above the watermark. */
  function Delta(events: seq<UsageEvent>, row: UsageIdentity): Stats {
    Above(events, row.authType, row.identity, row.stats.watermark)
  }

  /** The columns the aggregator writes for a row it read, given a non-empty delta. */
  function NewStats(read: Stats, delta: Stats): Stats {
    Stats(read.total + delta.total, read.success + delta.success, read.failure + delta.failure,
          read.input + delta.input, read.output + delta.output, read.reasoning + delta.reasoning,
          read.cached + delta.cached, read.tokens + delta.tokens,
          if delta.firstUsedAt.Some? && (read.firstUsedAt.None? || delta.firstUsedAt.value < read.firstUsedAt.value)
            then delta.firstUsedAt else read.firstUsedAt,
          if delta.lastUsedAt.Some? && (read.lastUsedAt.None? || delta.lastUsedAt.value > read.lastUsedAt.value)
            then delta.lastUsedAt else read.lastUsedAt,
          delta.watermark)
  }

  /** UPDATE usage_identities SET <stats> WHERE id = ?: no other column changes. */
  function WriteStats(rows: seq<UsageIdentity>, id: nat, stats: Stats, now: Instant): (r: seq<UsageIdentity>)
    ensures |r| == |rows|
    ensures forall i :: 0 <= i < |rows| ==>
              r[i] == if rows[i].id == id then rows[i].(stats := stats, statsUpdatedAt := Some(now)) else rows[i]
  {
    seq(|rows|, i requires 0 <= i < |rows| =>
      if rows[i].id == id then rows[i].(stats := stats, statsUpdatedAt := Some(now)) else rows[i])
  }

  /** The aggregator's transaction, for the rows it read earlier. */
  function Committed(rows: seq<UsageIdentity>, events: seq<UsageEvent>, read: seq<UsageIdentity>,
                     now: Instant): (r: seq<UsageIdentity>)
    ensures |r| == |rows|
  {
    if read == [] then rows
    else
      var n := |read| - 1;
      var before := Committed(rows, events, read[..n], now);
      var delta := Delta(events, read[n]);
      if delta.total == 0 then before else WriteStats(before, read[n].id, NewStats(read[n].stats, delta), now)
  }

  // ------------------------------------------------------------- window algebra

  lemma {:induction false} WindowEmpty(events: seq<UsageEvent>, authType: int, identity: string, lo: nat, hi: nat)
    ensures var w := Window(events, authType, identity, lo, hi);
            w.total >= 0 && (w.total == 0 ==> w == ZERO) && (w.total > 0 ==> w.firstUsedAt.Some? && w.lastUsedAt.Some?)
            && (w.total > 0 ==> lo < w.watermark <= hi)
    ensures lo >= hi ==> Window(events, authType, identity, lo, hi) == ZERO
  {
    if events != [] { WindowEmpty(events[..|events| - 1], authType, identity, lo, hi); }
  }

  /** An event joins at most one half of a split window. */
  lemma AddToOneHalf(a: Stats, b: Stats, whole: Stats, e: UsageEvent, inA: bool, inB: bool, inWhole: bool)
    requires whole == Combine(a, b) && !(inA && inB) && inWhole == (inA || inB)
    ensures Add(whole, e, inWhole) == Combine(Add(a, e, inA), Add(b, e, inB))
  {
    var one := OneEvent(e);
    if inA {
      assert Combine(Combine(a, b), one) == Combine(Combine(a, one), b) by { CombineSwaps(a, b, one); }
    } else if inB {
      assert Combine(Combine(a, b), one) == Combine(a, Combine(b, one)) by { CombineAssociates(a, b, one); }
    }
  }

  lemma CombineAssociates(a: Stats, b: Stats, c: Stats)
    ensures Combine(Combine(a, b), c) == Combine(a, Combine(b, c))
  {
  }

  lemma CombineSwaps(a: Stats, b: Stats, c: Stats)
    requires c.firstUsedAt.Some? && c.lastUsedAt.Some?
    ensures Combine(Combine(a, b), c) == Combine(Combine(a, c), b)
  {
  }

  lemma WindowLast(events: seq<UsageEvent>, authType: int, identity: string, lo: nat, hi: nat, w: Stats, selected: bool)
    requires events != []
    requires w == Window(events[..|events| - 1], authType, identity, lo, hi)
    requires selected == Selected(authType, identity, lo, hi, events[|events| - 1])
    ensures Window(events, authType, identity, lo, hi) == Add(w, events[|events| - 1], selected)
  {
  }

  /** A window splits at any id in between. */
  lemma {:induction false} WindowSplit(events: seq<UsageEvent>, authType: int, identity: string, lo: nat, mid: nat,
                                       hi: nat)
    requires lo <= mid <= hi
    ensures Window(events, authType, identity, lo, hi)
            == Combine(Window(events, authType, identity, lo, mid), Window(events, authType, identity, mid, hi))
  {
    if events == [] {
      CombineZero(ZERO);
    } else {
      var before, e := events[..|events| - 1], events[|events| - 1];
      WindowSplit(before, authType, identity, lo, mid, hi);
      var a, b := Window(before, authType, identity, lo, mid), Window(before, authType, identity, mid, hi);
      var whole := Window(before, authType, identity, lo, hi);
      var inA, inB := Selected(authType, identity, lo, mid, e), Selected(authType, identity, mid, hi, e);
      var inWhole := Selected(authType, identity, lo, hi, e);
      WindowLast(events, authType, identity, lo, mid, a, inA);
      WindowLast(events, authType, identity, mid, hi, b, inB);
      WindowLast(events, authType, identity, lo, hi, whole, inWhole);
      SelectedInOneHalf(authType, identity, lo, mid, hi, e, inA, inB, inWhole);
      AddToOneHalf(a, b, whole, e, inA, inB, inWhole);
    }
  }

  lemma SelectedInOneHalf(authType: int, identity: string, lo: nat, mid: nat, hi: nat, e: UsageEvent, inA: bool,
                          inB: bool, inWhole: bool)
    requires lo <= mid <= hi
    requires inA == Selected(authType, identity, lo, mid, e) && inB == Selected(authType, identity, mid, hi, e)
    requires inWhole == Selected(authType, identity, lo, hi, e)
    ensures !(inA && inB) && inWhole == (inA || inB)
  {
  }

  /** In an ascending table the queries without an upper bound are windows up to any id from the last one on. */
  lemma {:induction false} Unbounded(events: seq<UsageEvent>, authType: int, identity: string, lo: nat, hi: nat)
    requires TableOk(events) && LastId(events) <= hi
    ensures Above(events, authType, identity, lo) == Window(events, authType, identity, lo, hi)
    ensures Full(events, authType, identity) == Window(events, authType, identity, 0, hi)
  {
    if events != [] {
      var n := |events| - 1;
      assert n > 0 ==> events[..n][n - 1].id < events[n].id;
      Unbounded(events[..n], authType, identity, lo, hi);
    }
  }

  /** Events appended with larger ids do not reach into an older window. */
  lemma {:induction false} WindowStable(before: seq<UsageEvent>, after: seq<UsageEvent>, authType: int,
                                        identity: string, lo: nat, hi: nat)
    requires before <= after && TableOk(after) && hi <= LastId(before)
    ensures Window(after, authType, identity, lo, hi) == Window(before, authType, identity, lo, hi)
    decreases |after|
  {
    if |after| == |before| {
      assert after == before;
    } else {
      var n := |after| - 1;
      assert after[n].id > hi by {
        if before != [] { assert after[|before| - 1].id < after[n].id; }
      }
      WindowStable(before, after[..n], authType, identity, lo, hi);
    }
  }

  lemma LastIdGrows(before: seq<UsageEvent>, after: seq<UsageEvent>)
    requires before <= after && TableOk(after)
    ensures LastId(before) <= LastId(after)
  {
    if before != [] && |before| < |after| { assert after[|before| - 1].id < after[|after| - 1].id; }
  }

  // ------------------------------------------------------------- the invariant

  /** A row's statistics are the from-scratch aggregate of the matching events up to its watermark. */
  predicate Exact(row: UsageIdentity, events: seq<UsageEvent>) {
    row.stats.watermark <= LastId(events)
    && row.stats == Window(events, row.authType, row.identity, 0, row.stats.watermark)
  }

  lemma ExactStable(row: UsageIdentity, before: seq<UsageEvent>, after: seq<UsageEvent>)
    requires before <= after && TableOk(after) && Exact(row, before)
    ensures Exact(row, after)
  {
    WindowStable(before, after, row.authType, row.identity, 0, row.stats.watermark);
    LastIdGrows(before, after);
  }

  /** Adding the delta above a row's watermark gives the from-scratch aggregate over all events. */
  lemma DeltaCompletes(row: UsageIdentity, events: seq<UsageEvent>)
    requires TableOk(events) && Exact(row, events)
    ensures var delta := Delta(events, row); var full := Full(events, row.authType, row.identity);
            if delta.total == 0 then full == row.stats else full == NewStats(row.stats, delta)
  {
    var w := row.stats.watermark;
    Unbounded(events, row.authType, row.identity, w, LastId(events));
    WindowSplit(events, row.authType, row.identity, 0, w, LastId(events));
    WindowEmpty(events, row.authType, row.identity, w, LastId(events));
    WindowEmpty(events, row.authType, row.identity, 0, w);
  }

  /** If nothing matched above an older watermark, a row already further on is complete too. */
  lemma NothingNewAbove(row: UsageIdentity, read: UsageIdentity, events: seq<UsageEvent>)
    requires TableOk(events) && Exact(row, events) && Exact(read, events)
    requires row.authType == read.authType && row.identity == read.identity
             && read.stats.watermark <= row.stats.watermark
    requires Delta(events, read).total == 0
    ensures row.stats == Full(events, row.authType, row.identity)
  {
    var a, i := row.authType, row.identity;
    var r, w, top := read.stats.watermark, row.stats.watermark, LastId(events);
    Unbounded(events, a, i, r, top);
    WindowSplit(events, a, i, r, w, top);
    assert Window(events, a, i, w, top) == ZERO by {
      WindowEmpty(events, a, i, r, w);
      WindowEmpty(events, a, i, w, top);
    }
    WindowSplit(events, a, i, 0, w, top);
    WindowEmpty(events, a, i, 0, w);
    CombineZero(row.stats);
  }

  lemma CombineZero(s: Stats)
    ensures Combine(s, ZERO) == s
  {
  }

  predicate DistinctIds(rows: seq<UsageIdentity>) { forall i, j :: 0 <= i < j < |rows| ==> rows[i].id != rows[j].id }

  /** The row as the aggregator read it is an earlier version of the row as it is now. */
  predicate Older(read: UsageIdentity, row: UsageIdentity) {
    read.id == row.id && read.authType == row.authType && read.identity == row.identity
    && read.stats.watermark <= row.stats.watermark
  }

  lemma {:induction false} CommittedRow(rows: seq<UsageIdentity>, events: seq<UsageEvent>, read: seq<UsageIdentity>,
                                        now: Instant, k: nat)
    requires k < |rows| && DistinctIds(read)
    ensures var r := Committed(rows, events, read, now)[k];
            r == rows[k].(stats := r.stats, statsUpdatedAt := r.statsUpdatedAt)
    ensures (forall j :: 0 <= j < |read| ==> read[j].id != rows[k].id)
              ==> Committed(rows, events, read, now)[k] == rows[k]
    ensures forall j :: 0 <= j < |read| && read[j].id == rows[k].id ==>
              var delta := Delta(events, read[j]);
              var r := Committed(rows, events, read, now)[k];
              if delta.total == 0 then r == rows[k]
              else r.stats == NewStats(read[j].stats, delta) && r.statsUpdatedAt == Some(now)
  {
    if read != [] {
      var n := |read| - 1;
      CommittedRow(rows, events, read[..n], now, k);
      assert forall j :: 0 <= j < n ==> read[..n][j] == read[j];
    }
  }

  /** Incremental equals from-scratch: whatever was inserted and whatever other aggregators committed
      since the identities were read, the commit leaves every row that was read with the aggregate over
      all events now in the table, and every other row untouched. */
  lemma CommitIsExact(rows: seq<UsageIdentity>, events: seq<UsageEvent>, read: seq<UsageIdentity>, now: Instant, k: nat)
    requires TableOk(events) && k < |rows| && DistinctIds(read) && Exact(rows[k], events)
    requires forall j :: 0 <= j < |read|
               ==> Exact(read[j], events) && (read[j].id == rows[k].id ==> Older(read[j], rows[k]))
    ensures var r := Committed(rows, events, read, now)[k];
            Exact(r, events) && rows[k].stats.watermark <= r.stats.watermark
            && if exists j :: 0 <= j < |read| && read[j].id == rows[k].id
               then r.stats == Full(events, r.authType, r.identity)
                    && StatsSay(r.stats, events, r.authType, r.identity)
                    && (r == rows[k] || r.statsUpdatedAt == Some(now))
               else r == rows[k]
  {
    CommittedRow(rows, events, read, now, k);
    if j :| 0 <= j < |read| && read[j].id == rows[k].id {
      DeltaCompletes(read[j], events);
      if Delta(events, read[j]).total == 0 {
        NothingNewAbove(rows[k], read[j], events);
      }
      FullIsExact(rows[k], events);
      FullSays(events, rows[k].authType, rows[k].identity);
    }
  }

  lemma FullIsExact(row: UsageIdentity, events: seq<UsageEvent>)
    requires TableOk(events) && Exact(row, events)
    ensures var full := Full(events, row.authType, row.identity);
            row.stats.watermark <= full.watermark <= LastId(events)
            && full == Window(events, row.authType, row.identity, 0, full.watermark)
  {
    var a, i := row.authType, row.identity;
    var full := Full(events, a, i);
    Unbounded(events, a, i, 0, LastId(events));
    WindowEmpty(events, a, i, 0, LastId(events));
    WindowSplit(events, a, i, 0, row.stats.watermark, LastId(events));
    WindowAtItsMax(events, a, i, 0, LastId(events));
  }

  /** Nothing lies between a window's largest id and its upper bound. */
  lemma {:induction false} WindowAtItsMax(events: seq<UsageEvent>, authType: int, identity: string, lo: nat, hi: nat)
    ensures var w := Window(events, authType, identity, lo, hi);
            forall m: nat :: w.watermark <= m <= hi ==> Window(events, authType, identity, lo, m) == w
  {
    if events != [] { WindowAtItsMax(events[..|events| - 1], authType, identity, lo, hi); }
  }

  // -------------------------------------------------------------------- metadata

  datatype IdentityInput = IdentityInput(name: string, authTypeName: string, identity: string, kind: string,
                                         provider: string)

  predicate Same(row: UsageIdentity, authType: int, identity: string) {
    row.authType == authType && row.identity == identity
  }

  predicate HasRow(rows: seq<UsageIdentity>, authType: int, identity: string) {
    exists i :: 0 <= i < |rows| && Same(rows[i], authType, identity)
  }

  function NextId(rows: seq<UsageIdentity>): nat { if rows == [] then 1 else rows[|rows| - 1].id + 1 }

  /** INSERT ... ON CONFLICT (auth_type, identity) DO UPDATE SET <metadata>: statistics stay as they are. */
  function UpsertOne(rows: seq<UsageIdentity>, authType: int, x: IdentityInput): seq<UsageIdentity> {
    if HasRow(rows, authType, x.identity) then
      seq(|rows|, i requires 0 <= i < |rows| =>
        if Same(rows[i], authType, x.identity) then
          rows[i].(name := x.name, authTypeName := x.authTypeName, kind := x.kind, provider := x.provider,
                   isDeleted := false, deletedAt := None)
        else rows[i])
    else
      rows + [UsageIdentity(NextId(rows), x.name, authType, x.authTypeName, x.identity, x.kind, x.provider, ZERO, None,
                            false, None)]
  }

  function Upsert(rows: seq<UsageIdentity>, authType: int, xs: seq<IdentityInput>): seq<UsageIdentity> {
    if xs == [] then rows else UpsertOne(Upsert(rows, authType, xs[..|xs| - 1]), authType, xs[|xs| - 1])
  }

  function MarkDeleted(rows: seq<UsageIdentity>, authType: int, keep: set<string>, kinds: Option<set<string>>,
                       now: Instant): (r: seq<UsageIdentity>)
    ensures |r| == |rows|
  {
    seq(|rows|, i requires 0 <= i < |rows| =>
      if rows[i].authType == authType && rows[i].identity !in keep && (kinds.Some? ==> rows[i].kind in kinds.value)
      then rows[i].(isDeleted := true, deletedAt := Some(now)) else rows[i])
  }

  function Identities(xs: seq<IdentityInput>): set<string> { set i | 0 <= i < |xs| :: xs[i].identity }

  /** The metadata replacement of both kinds; for providers only the fetched types are swept. */
  function Replaced(rows: seq<UsageIdentity>, authType: int, normalized: seq<IdentityInput>, kinds: Option<set<string>>,
                    now: Instant): seq<UsageIdentity> {
    var upserted := Upsert(rows, authType, normalized);
    if kinds.Some? && kinds.value == {} then upserted
    else MarkDeleted(upserted, authType, Identities(normalized), kinds, now)
  }

  predicate AscendingIds(rows: seq<UsageIdentity>) { forall i, j :: 0 <= i < j < |rows| ==> rows[i].id < rows[j].id }

  /** The unique index over (auth_type, identity). */
  predicate UniqueIdentities(rows: seq<UsageIdentity>) {
    forall i, j :: 0 <= i < |rows| && 0 <= j < |rows| && Same(rows[i], rows[j].authType, rows[j].identity) ==> i == j
  }

  /** How metadata changes a row table: old rows keep id, key and statistics; new ones start at zero. */
  predicate MetadataMove(before: seq<UsageIdentity>, after: seq<UsageIdentity>) {
    |before| <= |after|
    && (forall i :: 0 <= i < |before| ==> after[i].id == before[i].id && after[i].stats == before[i].stats
                                          && Same(after[i], before[i].authType, before[i].identity))
    && (forall i :: |before| <= i < |after| ==> after[i].stats == ZERO)
  }

  lemma UpdateMoves(rows: seq<UsageIdentity>, authType: int, x: IdentityInput)
    requires AscendingIds(rows) && UniqueIdentities(rows) && HasRow(rows, authType, x.identity)
    ensures var after := UpsertOne(rows, authType, x);
            MetadataMove(rows, after) && AscendingIds(after) && UniqueIdentities(after)
  {
    var after := UpsertOne(rows, authType, x);
    assert |after| == |rows|;
    assert forall i :: 0 <= i < |rows|
             ==> after[i].id == rows[i].id && Same(after[i], rows[i].authType, rows[i].identity);
  }

  lemma InsertMoves(rows: seq<UsageIdentity>, authType: int, x: IdentityInput)
    requires AscendingIds(rows) && UniqueIdentities(rows) && !HasRow(rows, authType, x.identity)
    ensures var after := UpsertOne(rows, authType, x);
            MetadataMove(rows, after) && AscendingIds(after) && UniqueIdentities(after)
  {
    var after, n := UpsertOne(rows, authType, x), |rows|;
    assert forall i :: 0 <= i < n ==> after[i] == rows[i] && !Same(rows[i], authType, x.identity);
    if n > 0 { assert forall i :: 0 <= i < n - 1 ==> rows[i].id < rows[n - 1].id; }
  }

  lemma UpsertOneMoves(rows: seq<UsageIdentity>, authType: int, x: IdentityInput)
    requires AscendingIds(rows) && UniqueIdentities(rows)
    ensures var after := UpsertOne(rows, authType, x);
            MetadataMove(rows, after) && AscendingIds(after) && UniqueIdentities(after)
  {
    if HasRow(rows, authType, x.identity) { UpdateMoves(rows, authType, x); } else { InsertMoves(rows, authType, x); }
  }

  lemma MetadataMoveTransitive(a: seq<UsageIdentity>, b: seq<UsageIdentity>, c: seq<UsageIdentity>)
    requires MetadataMove(a, b) && MetadataMove(b, c)
    ensures MetadataMove(a, c)
  {
  }

  lemma {:induction false} UpsertMoves(rows: seq<UsageIdentity>, authType: int, xs: seq<IdentityInput>)
    requires AscendingIds(rows) && UniqueIdentities(rows)
    ensures var after := Upsert(rows, authType, xs);
            MetadataMove(rows, after) && AscendingIds(after) && UniqueIdentities(after)
  {
    if xs != [] {
      var before := xs[..|xs| - 1];
      UpsertMoves(rows, authType, before);
      UpsertOneMoves(Upsert(rows, authType, before), authType, xs[|xs| - 1]);
      MetadataMoveTransitive(rows, Upsert(rows, authType, before), Upsert(rows, authType, xs));
    }
  }

  lemma ReplacedMoves(rows: seq<UsageIdentity>, authType: int, normalized: seq<IdentityInput>,
                      kinds: Option<set<string>>, now: Instant)
    requires AscendingIds(rows) && UniqueIdentities(rows)
    ensures var after := Replaced(rows, authType, normalized, kinds, now);
            MetadataMove(rows, after) && AscendingIds(after) && UniqueIdentities(after)
  {
    UpsertMoves(rows, authType, normalized);
    var upserted := Upsert(rows, authType, normalized);
    var after := MarkDeleted(upserted, authType, Identities(normalized), kinds, now);
    assert forall i :: 0 <= i < |upserted| ==> after[i].id == upserted[i].id && after[i].stats == upserted[i].stats
                                               && Same(after[i], upserted[i].authType, upserted[i].identity);
    assert MetadataMove(upserted, after);
    MetadataMoveTransitive(rows, upserted, after);
  }

  // ------------------------------------------------------------------- the table

  /** An upsert touches the rows it names, and only their metadata. */
  /** The row has the metadata of the last input for its identity. */
  predicate Describes(xs: seq<IdentityInput>, row: UsageIdentity) {
    exists j :: 0 <= j < |xs| && LastFor(xs, j, row.identity)
                && row.name == xs[j].name && row.authTypeName == xs[j].authTypeName
                && row.kind == xs[j].kind && row.provider == xs[j].provider
  }

  predicate LastFor(xs: seq<IdentityInput>, j: nat, identity: string)
    requires j < |xs|
  {
    xs[j].identity == identity && forall i :: j < i < |xs| ==> xs[i].identity != identity
  }

  lemma DescribesNext(xs: seq<IdentityInput>, row: UsageIdentity)
    requires xs != [] && xs[|xs| - 1].identity != row.identity && Describes(xs[..|xs| - 1], row)
    ensures Describes(xs, row)
  {
    var n := |xs| - 1;
    var j :| 0 <= j < n && LastFor(xs[..n], j, row.identity) && row.name == xs[..n][j].name
             && row.authTypeName == xs[..n][j].authTypeName && row.kind == xs[..n][j].kind
             && row.provider == xs[..n][j].provider;
    assert forall i :: 0 <= i < n ==> xs[..n][i] == xs[i];
    assert LastFor(xs, j, row.identity);
  }

  lemma DescribesLast(xs: seq<IdentityInput>, row: UsageIdentity)
    requires xs != []
    requires var x := xs[|xs| - 1];
             row.identity == x.identity && row.name == x.name && row.authTypeName == x.authTypeName
             && row.kind == x.kind && row.provider == x.provider
    ensures Describes(xs, row)
  {
    assert LastFor(xs, |xs| - 1, row.identity);
  }

  lemma {:induction false} UpsertedRow(rows: seq<UsageIdentity>, authType: int, xs: seq<IdentityInput>, k: nat)
    requires AscendingIds(rows) && UniqueIdentities(rows) && k < |Upsert(rows, authType, xs)|
    ensures var row := Upsert(rows, authType, xs)[k];
            if row.authType == authType && row.identity in Identities(xs)
            then !row.isDeleted && row.deletedAt.None? && Describes(xs, row)
            else k < |rows| && row == rows[k]
  {
    if xs != [] {
      var n := |xs| - 1;
      var before, row := Upsert(rows, authType, xs[..n]), Upsert(rows, authType, xs)[k];
      assert xs == xs[..n] + [xs[n]];
      OneMoreIdentity(xs[..n], xs[n]);
      if k < |before| { UpsertedRow(rows, authType, xs[..n], k); }
      if row.authType == authType && row.identity == xs[n].identity {
        DescribesLast(xs, row);
      } else if row.authType == authType && row.identity in Identities(xs) {
        DescribesNext(xs, row);
      }
    }
  }

  /** After a replacement exactly the identities that were sent are live, among those it sweeps, with the
      metadata they were sent with. */
  lemma ReplacedRow(rows: seq<UsageIdentity>, authType: int, normalized: seq<IdentityInput>, kinds: Option<set<string>>,
                    now: Instant, k: nat)
    requires AscendingIds(rows) && UniqueIdentities(rows) && k < |Replaced(rows, authType, normalized, kinds, now)|
    ensures var row := Replaced(rows, authType, normalized, kinds, now)[k];
            if row.authType == authType && row.identity in Identities(normalized)
            then !row.isDeleted && row.deletedAt.None? && Describes(normalized, row)
            else k < |rows| && row == if row.authType == authType && (kinds.Some? ==> row.kind in kinds.value)
                                      then rows[k].(isDeleted := true, deletedAt := Some(now)) else rows[k]
  {
    UpsertedRow(rows, authType, normalized, k);
  }

  function Cleaned(x: IdentityInput): IdentityInput {
    IdentityInput(Trim(x.name), Trim(x.authTypeName), Trim(x.identity), Trim(x.kind), Trim(x.provider))
  }

  /** normalizeUsageIdentities: blank identities dropped, the first of each trimmed key kept. */
  function Normalized(inputs: seq<IdentityInput>): seq<IdentityInput> {
    if inputs == [] then []
    else
      var before := Normalized(inputs[..|inputs| - 1]);
      var x := Cleaned(inputs[|inputs| - 1]);
      if x.identity != "" && x.identity !in Identities(before) then before + [x] else before
  }

  predicate Sent(inputs: seq<IdentityInput>, key: string) {
    exists i :: 0 <= i < |inputs| && Trim(inputs[i].identity) == key
  }

  /** The i-th input is the first for its identity, and x is that input without outer white space. */
  predicate FirstSent(inputs: seq<IdentityInput>, i: nat, x: IdentityInput)
    requires i < |inputs|
  {
    x.name == Trim(inputs[i].name) && x.authTypeName == Trim(inputs[i].authTypeName)
    && x.identity == Trim(inputs[i].identity) && x.kind == Trim(inputs[i].kind)
    && x.provider == Trim(inputs[i].provider)
    && forall j :: 0 <= j < i ==> Trim(inputs[j].identity) != x.identity
  }

  /** Of inputs for one identity the first is kept, field by field. */
  lemma {:induction false} FirstInputIsKept(inputs: seq<IdentityInput>, k: nat)
    requires k < |Normalized(inputs)|
    ensures exists i :: 0 <= i < |inputs| && FirstSent(inputs, i, Normalized(inputs)[k])
  {
    var n := |inputs| - 1;
    var before, x := Normalized(inputs[..n]), Normalized(inputs)[k];
    if k < |before| {
      FirstInputIsKept(inputs[..n], k);
      var i :| 0 <= i < n && FirstSent(inputs[..n], i, before[k]);
      assert forall j :: 0 <= j <= i ==> inputs[..n][j] == inputs[j];
      assert FirstSent(inputs, i, x);
    } else {
      forall j | 0 <= j < n ensures Trim(inputs[j].identity) != x.identity {
        NormalizedKeys(inputs[..n], Trim(inputs[j].identity));
        assert inputs[..n][j] == inputs[j];
        assert Sent(inputs[..n], Trim(inputs[j].identity));
      }
      assert FirstSent(inputs, n, x);
    }
  }

  lemma SentSnoc(inputs: seq<IdentityInput>, key: string)
    requires inputs != []
    ensures Sent(inputs, key) <==> Sent(inputs[..|inputs| - 1], key) || Trim(inputs[|inputs| - 1].identity) == key
  {
    var n := |inputs| - 1;
    if i :| 0 <= i < n && Trim(inputs[..n][i].identity) == key { assert Trim(inputs[i].identity) == key; }
    if i :| 0 <= i < |inputs| && Trim(inputs[i].identity) == key {
      assert i < n ==> Trim(inputs[..n][i].identity) == key;
    }
  }

  /** No identity that is sent is lost, and none is made up. */
  lemma {:induction false} NormalizedKeys(inputs: seq<IdentityInput>, key: string)
    ensures key in Identities(Normalized(inputs)) <==> key != "" && Sent(inputs, key)
  {
    if inputs != [] {
      var init := inputs[..|inputs| - 1];
      NormalizedKeys(init, key);
      SentSnoc(inputs, key);
      OneMoreIdentity(Normalized(init), Cleaned(inputs[|inputs| - 1]));
    }
  }

  predicate DistinctIdentities(xs: seq<IdentityInput>) {
    forall i, j :: 0 <= i < j < |xs| ==> xs[i].identity != xs[j].identity
  }

  lemma DistinctSnoc(xs: seq<IdentityInput>, x: IdentityInput)
    requires DistinctIdentities(xs) && x.identity !in Identities(xs)
    ensures DistinctIdentities(xs + [x])
  {
    var all := xs + [x];
    forall i, j | 0 <= i < j < |all| ensures all[i].identity != all[j].identity {
      assert all[i] == xs[i] && xs[i].identity in Identities(xs);
    }
  }

  /** No two rows of one batch have the same identity. */
  lemma {:induction false} NormalizedAreDistinct(inputs: seq<IdentityInput>)
    ensures DistinctIdentities(Normalized(inputs))
  {
    if inputs != [] {
      var before, x := Normalized(inputs[..|inputs| - 1]), Cleaned(inputs[|inputs| - 1]);
      NormalizedAreDistinct(inputs[..|inputs| - 1]);
      if x.identity != "" && x.identity !in Identities(before) { DistinctSnoc(before, x); }
    }
  }

  lemma OneMoreIdentity(xs: seq<IdentityInput>, x: IdentityInput)
    ensures Identities(xs + [x]) == Identities(xs) + {x.identity}
  {
    assert (xs + [x])[|xs|] == x;
    forall i | 0 <= i < |xs| ensures xs[i].identity in Identities(xs + [x]) { assert (xs + [x])[i] == xs[i]; }
  }

  class IdentityTable {
    var events: seq<UsageEvent>
    var rows: seq<UsageIdentity>

    constructor (events: seq<UsageEvent>)
      ensures this.events == events && rows == []
    {
      this.events := events;
      rows := [];
    }

    method NormalizeUsageIdentities(inputs: seq<IdentityInput>) returns (normalized: seq<IdentityInput>)
      ensures normalized == Normalized(inputs)
    {
      normalized := [];
      var seen: set<string> := {};
      var i := 0;
      while i < |inputs|
        invariant 0 <= i <= |inputs|
        invariant normalized == Normalized(inputs[..i]) && seen == Identities(normalized)
      {
        var x := Cleaned(inputs[i]);
        assert inputs[..i + 1][..i] == inputs[..i];
        if x.identity != "" && x.identity !in seen {
          OneMoreIdentity(normalized, x);
          normalized := normalized + [x];
          seen := seen + {x.identity};
        }
        i := i + 1;
      }
      assert inputs[..i] == inputs;
    }

    /** ReplaceUsageIdentitiesForAuthType, and with `kinds` ReplaceUsageIdentitiesForProviderTypes. */
    method ReplaceUsageIdentities(inputs: seq<IdentityInput>, authType: int, kinds: Option<set<string>>, now: Instant)
      modifies this`rows
      ensures rows == Replaced(old(rows), authType, Normalized(inputs), kinds, now)
    {
      var normalized := NormalizeUsageIdentities(inputs);
      rows := Upsert(rows, authType, normalized);
      if kinds.Some? && kinds.value == {} {
        return;
      }
      rows := MarkDeleted(rows, authType, Identities(normalized), kinds, now);
    }

    /** The transaction of AggregateUsageIdentityStats, for identities listed before it began. */
    method AggregateUsageIdentityStats(identities: seq<UsageIdentity>, now: Instant)
      modifies this`rows
      ensures rows == Committed(old(rows), events, identities, now)
    {
      var i := 0;
      while i < |identities|
        invariant 0 <= i <= |identities|
        invariant rows == Committed(old(rows), events, identities[..i], now)
      {
        assert identities[..i + 1][..i] == identities[..i];
        var identity := identities[i];
        var delta := Delta(events, identity);
        if delta.total != 0 {
          var firstUsedAt := identity.stats.firstUsedAt;
          if delta.firstUsedAt.Some? && (firstUsedAt.None? || delta.firstUsedAt.value < firstUsedAt.value) {
            firstUsedAt := delta.firstUsedAt;
          }
          var lastUsedAt := identity.stats.lastUsedAt;
          if delta.lastUsedAt.Some? && (lastUsedAt.None? || delta.lastUsedAt.value > lastUsedAt.value) {
            lastUsedAt := delta.lastUsedAt;
          }
          var s := identity.stats;
          var stats := Stats(s.total + delta.total, s.success + delta.success, s.failure + delta.failure,
                             s.input + delta.input, s.output + delta.output, s.reasoning + delta.reasoning,
                             s.cached + delta.cached, s.tokens + delta.tokens, firstUsedAt, lastUsedAt,
                             delta.watermark);
          rows := WriteStats(rows, identity.id, stats, now);
        }
        i := i + 1;
      }
      assert identities[..i] == identities;
    }
  }
}

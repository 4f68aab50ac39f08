/** The two backfill migrations that hand over to the incremental aggregator
    (internal/repository/migrations.go). A NULL column is the empty string. */
module Migrations {
  import opened Text
  import opened Calendar
  import opened UsageEvents
  import opened Database
  import opened IdentityStats
  import opened IdentityHistory

  /** TRIM(COALESCE(x, '')) = ''. */
  predicate IsBlank(s: string) { SqlTrim(s) == "" }

  /** SELECT NULLIF(TRIM(provider), '') ... LIMIT 1, with COALESCE to the event's own value. */
  function ProviderOf(rows: seq<UsageIdentity>, source: string, own: string): string {
    if rows == [] then own
    else if Same(rows[0], AI_PROVIDER, source) then
      if IsBlank(rows[0].provider) then own else SqlTrim(rows[0].provider)
    else ProviderOf(rows[1..], source, own)
  }

  /** The first UPDATE, for one event: blank fields of an event whose source is a provider identity. */
  function FillProvider(rows: seq<UsageIdentity>, e: UsageEvent): UsageEvent {
    if HasRow(rows, AI_PROVIDER, e.source) && (IsBlank(e.authType) || IsBlank(e.provider)) then
      e.(authType := if IsBlank(e.authType) then "apikey" else e.authType,
         provider := if IsBlank(e.provider) then ProviderOf(rows, e.source, e.provider) else e.provider)
    else e
  }

  /** The second UPDATE, for one event: what is still blank and belongs to an auth file. */
  function FillAuthFile(rows: seq<UsageIdentity>, e: UsageEvent): UsageEvent {
    if IsBlank(e.authType) && HasRow(rows, AUTH_FILE, e.authIndex) then e.(authType := "oauth") else e
  }

  function UpdateAll(events: seq<UsageEvent>, update: UsageEvent -> UsageEvent): (r: seq<UsageEvent>)
    ensures |r| == |events| && forall i :: 0 <= i < |events| ==> r[i] == update(events[i])
  {
    seq(|events|, i requires 0 <= i < |events| => update(events[i]))
  }

  function Backfilled(rows: seq<UsageIdentity>, events: seq<UsageEvent>): seq<UsageEvent> {
    UpdateAll(UpdateAll(events, e => FillProvider(rows, e)), e => FillAuthFile(rows, e))
  }

  function BackfilledEvent(rows: seq<UsageIdentity>, e: UsageEvent): UsageEvent {
    FillAuthFile(rows, FillProvider(rows, e))
  }

  /** usageIdentityBackfillEventsQuery: blank auth types count as well. */
  predicate LooselyMatches(authType: int, identity: string, e: UsageEvent) {
    (authType == AUTH_FILE && e.authIndex == identity && (e.authType == "oauth" || IsBlank(e.authType)))
    || (authType == AI_PROVIDER && e.source == identity && (e.authType == "apikey" || IsBlank(e.authType)))
  }

  /** aggregateUsageIdentityFullStats. */
  function LooseStats(events: seq<UsageEvent>, authType: int, identity: string): Stats {
    if events == [] then ZERO
    else
      var n := |events| - 1;
      Add(LooseStats(events[..n], authType, identity), events[n], LooselyMatches(authType, identity, events[n]))
  }

  lemma AuthTypesAreNotBlank()
    ensures !IsBlank("apikey") && !IsBlank("oauth")
  {
    SqlTrimOnTrimmed("apikey");
    SqlTrimOnTrimmed("oauth");
  }

  // ------------------------------------------------------------------ the events

  /** No event of blank auth type is left that any identity could claim. */
  lemma NoBlankEventMatches(rows: seq<UsageIdentity>, e: UsageEvent, k: nat)
    requires k < |rows|
    ensures var r := BackfilledEvent(rows, e);
            IsBlank(r.authType) ==> !LooselyMatches(rows[k].authType, rows[k].identity, r)
  {
    AuthTypesAreNotBlank();
    assert Same(rows[k], rows[k].authType, rows[k].identity);
  }

  /** The backfill gives each identity the events its looser query selected, except that a blank event
      claimed both by a provider and by an auth file goes to the provider alone. */
  lemma BackfillDecides(rows: seq<UsageIdentity>, e: UsageEvent, k: nat)
    requires k < |rows|
    ensures var row := rows[k];
            Matches(row.authType, row.identity, BackfilledEvent(rows, e))
            <==> LooselyMatches(row.authType, row.identity, e)
                 && (row.authType == AUTH_FILE && IsBlank(e.authType) ==> !HasRow(rows, AI_PROVIDER, e.source))
  {
    AuthTypesAreNotBlank();
    assert Same(rows[k], rows[k].authType, rows[k].identity);
  }

  lemma {:induction false} ProviderOfIsTrimmed(rows: seq<UsageIdentity>, source: string, own: string)
    ensures var p := ProviderOf(rows, source, own); p == own || (!IsBlank(p) && SqlTrim(p) == p)
  {
    if rows != [] {
      SqlTrimTwice(rows[0].provider);
      ProviderOfIsTrimmed(rows[1..], source, own);
    }
  }

  predicate FirstProvider(rows: seq<UsageIdentity>, source: string, k: nat) {
    k < |rows| && Same(rows[k], AI_PROVIDER, source) && forall j :: 0 <= j < k ==> !Same(rows[j], AI_PROVIDER, source)
  }

  lemma {:induction false} ProviderOfFirst(rows: seq<UsageIdentity>, source: string, own: string, k: nat)
    requires FirstProvider(rows, source, k)
    ensures ProviderOf(rows, source, own) == if IsBlank(rows[k].provider) then own else SqlTrim(rows[k].provider)
  {
    if k > 0 {
      assert forall j :: 0 <= j < k ==> rows[1..][j] == rows[j + 1];
      ProviderOfFirst(rows[1..], source, own, k - 1);
    }
  }

  /** What the backfill does to an event: it fills only blank auth types and providers, the
      provider from the first identity for the source; afterwards exactly
      the identities that could claim the event match it, and it stays blank only if none could. */
  predicate Filled(rows: seq<UsageIdentity>, e: UsageEvent, e': UsageEvent) {
    e' == e.(authType := e'.authType, provider := e'.provider)
    && (!IsBlank(e.authType) ==> e'.authType == e.authType) && (!IsBlank(e.provider) ==> e'.provider == e.provider)
    && (!HasRow(rows, AI_PROVIDER, e.source) ==> e'.provider == e.provider)
    && (IsBlank(e.provider) ==>
          forall k :: 0 <= k < |rows| && FirstProvider(rows, e.source, k) ==>
            e'.provider == if IsBlank(rows[k].provider) then e.provider else SqlTrim(rows[k].provider))
    && (IsBlank(e'.authType) ==> !HasRow(rows, AI_PROVIDER, e.source) && !HasRow(rows, AUTH_FILE, e.authIndex))
    && forall k :: 0 <= k < |rows| ==>
         (Matches(rows[k].authType, rows[k].identity, e')
          <==> LooselyMatches(rows[k].authType, rows[k].identity, e)
               && (rows[k].authType == AUTH_FILE && IsBlank(e.authType) ==> !HasRow(rows, AI_PROVIDER, e.source)))
  }

  lemma BackfillFills(rows: seq<UsageIdentity>, e: UsageEvent)
    ensures Filled(rows, e, BackfilledEvent(rows, e))
  {
    AuthTypesAreNotBlank();
    forall k | 0 <= k < |rows| && IsBlank(e.provider) && FirstProvider(rows, e.source, k)
      ensures BackfilledEvent(rows, e).provider
              == if IsBlank(rows[k].provider) then e.provider else SqlTrim(rows[k].provider)
    {
      ProviderOfFirst(rows, e.source, e.provider, k);
    }
    forall k | 0 <= k < |rows|
      ensures Matches(rows[k].authType, rows[k].identity, BackfilledEvent(rows, e))
              <==> LooselyMatches(rows[k].authType, rows[k].identity, e)
                   && (rows[k].authType == AUTH_FILE && IsBlank(e.authType) ==> !HasRow(rows, AI_PROVIDER, e.source))
    {
      BackfillDecides(rows, e, k);
    }
  }

  /** Running the backfill again changes nothing. */
  lemma BackfillIdempotent(rows: seq<UsageIdentity>, e: UsageEvent)
    ensures BackfilledEvent(rows, BackfilledEvent(rows, e)) == BackfilledEvent(rows, e)
  {
    AuthTypesAreNotBlank();
    ProviderOfIsTrimmed(rows, e.source, e.provider);
  }

  /** What no UPDATE touches, so the table keeps its order and its keys. */
  lemma BackfillKeepsTable(rows: seq<UsageIdentity>, events: seq<UsageEvent>)
    ensures |Backfilled(rows, events)| == |events|
    ensures forall i :: 0 <= i < |events| ==> Backfilled(rows, events)[i] == BackfilledEvent(rows, events[i])
    ensures TableOk(events) ==> TableOk(Backfilled(rows, events))
  {
    var r := Backfilled(rows, events);
    assert forall i :: 0 <= i < |events| ==> r[i].id == events[i].id && r[i].eventKey == events[i].eventKey;
  }

  // ------------------------------------------------------------- the statistics

  /** Every event a row's looser query selects has the auth type the strict query asks for. */
  predicate NoBlankLeft(rows: seq<UsageIdentity>, events: seq<UsageEvent>) {
    forall i, k :: 0 <= i < |events| && 0 <= k < |rows| ==>
      (LooselyMatches(rows[k].authType, rows[k].identity, events[i])
       <==> Matches(rows[k].authType, rows[k].identity, events[i]))
  }

  lemma BackfillLeavesNoBlank(rows: seq<UsageIdentity>, events: seq<UsageEvent>)
    ensures NoBlankLeft(rows, Backfilled(rows, events))
  {
    BackfillKeepsTable(rows, events);
    AuthTypesAreNotBlank();
    var r := Backfilled(rows, events);
    forall i, k | 0 <= i < |r| && 0 <= k < |rows|
      ensures LooselyMatches(rows[k].authType, rows[k].identity, r[i])
              <==> Matches(rows[k].authType, rows[k].identity, r[i])
    {
      NoBlankEventMatches(rows, events[i], k);
    }
  }

  lemma {:induction false} LooseIsFull(rows: seq<UsageIdentity>, events: seq<UsageEvent>, k: nat)
    requires k < |rows| && NoBlankLeft(rows, events)
    ensures LooseStats(events, rows[k].authType, rows[k].identity) == Full(events, rows[k].authType, rows[k].identity)
  {
    if events != [] { LooseIsFull(rows, events[..|events| - 1], k); }
  }

  /** UPDATE usage_identities SET <stats> WHERE id = ?. */
  function WriteFull(rows: seq<UsageIdentity>, id: nat, stats: Stats, now: Instant): (r: seq<UsageIdentity>)
    ensures |r| == |rows|
    ensures forall i :: 0 <= i < |rows| ==>
              r[i] == if rows[i].id == id
                      then rows[i].(stats := stats, statsUpdatedAt := if stats.total > 0 then Some(now) else None)
                      else rows[i]
  {
    seq(|rows|, i requires 0 <= i < |rows| =>
      if rows[i].id == id then rows[i].(stats := stats, statsUpdatedAt := if stats.total > 0 then Some(now) else None)
      else rows[i])
  }

  /** Two migrated tables agree: same rows, with the statistics recomputed. */
  predicate Recomputed(before: seq<UsageIdentity>, after: seq<UsageIdentity>, events: seq<UsageEvent>) {
    |after| == |before|
    && forall k :: 0 <= k < |before| ==>
         after[k] == before[k].(stats := LooseStats(events, before[k].authType, before[k].identity),
                                statsUpdatedAt := after[k].statsUpdatedAt)
  }

  /** The migrations establish exactly what the incremental aggregator needs: whatever the statistics
      were before, every row then holds the from-scratch aggregate of the strict query, and every
      later run keeps the invariant. */
  lemma MigrationEstablishesInvariant(rows: seq<UsageIdentity>, events: seq<UsageEvent>, after: seq<UsageIdentity>)
    requires TableOk(events) && AscendingIds(rows) && UniqueIdentities(rows)
    requires Recomputed(rows, after, Backfilled(rows, events))
    ensures Inv(World(Backfilled(rows, events), after, map[]))
    ensures AllFull(after, Backfilled(rows, events))
    ensures forall k :: 0 <= k < |after| ==>
              StatsSay(after[k].stats, Backfilled(rows, events), after[k].authType, after[k].identity)
  {
    var migrated := Backfilled(rows, events);
    BackfillKeepsTable(rows, events);
    BackfillLeavesNoBlank(rows, events);
    forall k | 0 <= k < |after|
      ensures after[k].stats == Full(migrated, after[k].authType, after[k].identity) && Exact(after[k], migrated)
      ensures StatsSay(after[k].stats, migrated, after[k].authType, after[k].identity)
    {
      LooseIsFull(rows, migrated, k);
      FullStatsAreExact(after[k], migrated);
      FullSays(migrated, after[k].authType, after[k].identity);
    }
    assert forall k :: 0 <= k < |after|
             ==> after[k].id == rows[k].id && Same(after[k], rows[k].authType, rows[k].identity);
  }

  /** From the migrated tables on: after any later run, a commit leaves each identity it had read with the
      aggregate of all events stored then, and one that had read them all counts no event twice. */
  lemma MigratedStaysExact(rows: seq<UsageIdentity>, events: seq<UsageEvent>, after: seq<UsageIdentity>,
                           steps: seq<Step>, call: nat, now: Instant, k: nat)
    requires TableOk(events) && AscendingIds(rows) && UniqueIdentities(rows)
    requires Recomputed(rows, after, Backfilled(rows, events))
    requires var w := Run(World(Backfilled(rows, events), after, map[]), steps);
             call in w.pending && k < |w.pending[call]|
    ensures var w := Run(World(Backfilled(rows, events), after, map[]), steps);
            var last := Apply(w, Commit(call, now));
            k < |last.rows|
            && last.rows[k].stats == Full(last.events, last.rows[k].authType, last.rows[k].identity)
            && StatsSay(last.rows[k].stats, last.events, last.rows[k].authType, last.rows[k].identity)
            && (|w.pending[call]| == |w.rows| ==> TotalRequests(last.rows) == MatchedEvents(last.rows, last.events))
  {
    var w0 := World(Backfilled(rows, events), after, map[]);
    MigrationEstablishesInvariant(rows, events, after);
    IncrementalEqualsFromScratch(w0, steps, call, now, k);
    if |Run(w0, steps).pending[call]| == |Run(w0, steps).rows| { NoEventIsCountedTwice(w0, steps, call, now); }
  }

  lemma FullStatsAreExact(row: UsageIdentity, events: seq<UsageEvent>)
    requires TableOk(events) && row.stats == Full(events, row.authType, row.identity)
    ensures Exact(row, events)
  {
    var top := LastId(events);
    Unbounded(events, row.authType, row.identity, 0, top);
    WindowEmpty(events, row.authType, row.identity, 0, top);
    WindowAtItsMax(events, row.authType, row.identity, 0, top);
  }

  // ----------------------------------------------------------------- the database

  class MigratedDatabase {
    var events: seq<UsageEvent>
    var rows: seq<UsageIdentity>

    constructor (events: seq<UsageEvent>, rows: seq<UsageIdentity>)
      ensures this.events == events && this.rows == rows
    {
      this.events := events;
      this.rows := rows;
    }

    method BackfillUsageEventIdentityFields()
      modifies this`events
      ensures events == Backfilled(rows, old(events)) && |events| == |old(events)|
      ensures forall i :: 0 <= i < |events| ==> Filled(rows, old(events)[i], events[i])
      ensures NoBlankLeft(rows, events)
      ensures TableOk(old(events)) ==> TableOk(events)
    {
      var table := rows;
      events := UpdateAll(events, e => FillProvider(table, e));
      events := UpdateAll(events, e => FillAuthFile(table, e));
      BackfillKeepsTable(table, old(events));
      BackfillLeavesNoBlank(table, old(events));
      forall i | 0 <= i < |events| ensures Filled(table, old(events)[i], events[i]) {
        BackfillFills(table, old(events)[i]);
      }
    }

    method BackfillUsageIdentityStats(now: Instant)
      requires AscendingIds(rows)
      modifies this`rows
      ensures Recomputed(old(rows), rows, events)
      ensures forall k :: 0 <= k < |rows| ==> (rows[k].statsUpdatedAt.Some? <==> rows[k].stats.total > 0)
    {
      var identities := rows;
      var i := 0;
      while i < |identities|
        invariant 0 <= i <= |identities| == |rows|
        invariant forall k :: i <= k < |rows| ==> rows[k] == identities[k]
        invariant Recomputed(identities[..i], rows[..i], events)
        invariant forall k :: 0 <= k < i ==> (rows[k].statsUpdatedAt.Some? <==> rows[k].stats.total > 0)
      {
        var identity := identities[i];
        var stats := LooseStats(events, identity.authType, identity.identity);
        ghost var before := rows;
        rows := WriteFull(rows, identity.id, stats, now);
        forall k | 0 <= k < |rows| && k != i ensures rows[k] == before[k] {
          assert before[k].id == identities[k].id;
          SameIdSameRow(identities, k, i);
        }
        i := i + 1;
      }
      assert rows[..i] == rows && identities[..i] == identities;
    }

    /** Both migrations, in the order in which they run. */
    method Migrate(now: Instant)
      requires TableOk(events) && AscendingIds(rows) && UniqueIdentities(rows)
      modifies this
      ensures events == Backfilled(old(rows), old(events))
      ensures Inv(World(events, rows, map[])) && AllFull(rows, events)
      ensures forall k :: 0 <= k < |rows| ==> StatsSay(rows[k].stats, events, rows[k].authType, rows[k].identity)
    {
      BackfillUsageEventIdentityFields();
      BackfillUsageIdentityStats(now);
      MigrationEstablishesInvariant(old(rows), old(events), rows);
    }
  }
}

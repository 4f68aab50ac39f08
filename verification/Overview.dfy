/** The usage overview, built event by event from the database or from a list of events
    (internal/repository/usage.go). */
module Overview {
  import opened Text
  import opened Calendar
  import opened UsageEvents
  import opened UsageQuery
  import opened HealthGrid
  import opened Sums
  import opened Folds
  import opened OverviewUsage
  import opened OverviewSeries

  datatype Summary = Summary(requestCount: int, tokenCount: int, windowMinutes: int, rpm: real, tpm: real,
                             totalCost: real, costAvailable: bool, cached: int, reasoning: int)

  datatype Health = Health(totalSuccess: nat, totalFailure: nat, successRate: real, rows: int, columns: int,
                           bucketSeconds: int, window: Window, blocks: seq<Block>)

  datatype UsageOverview = UsageOverview(usage: UsageSnapshot, summary: Summary, series: Series, hourly: Series,
                                         daily: Series, health: Health)

  /** What stays the same while events are applied. */
  datatype Settings = Settings(byDay: bool, hourlyStart: Option<Instant>, pricing: map<string, Price>, zone: int)

  /** newUsageOverviewRecord. */
  function NewOverview(f: UsageQueryFilter, now: Instant): UsageOverview {
    UsageOverview(NO_USAGE, Summary(0, 0, WindowMinutes(f), 0.0, 0.0, 0.0, true, 0, 0),
                  EMPTY_SERIES, EMPTY_SERIES, EMPTY_SERIES,
                  Health(0, 0, 0.0, ROWS, COLUMNS, (GridSpan(f) + SECOND - 1) / SECOND, HealthWindow(f, now),
                         FreshBlocks(f, now)))
  }

  function ChargeOf(e: UsageEvent, pricing: map<string, Price>): Charge { Charge(e, Cost(e, pricing)) }

  function AddSummary(m: Summary, c: Charge, unpriced: bool): Summary {
    m.(cached := m.cached + c.e.tokens.cached, reasoning := m.reasoning + c.e.tokens.reasoning,
       totalCost := m.totalCost + c.cost, costAvailable := m.costAvailable && !unpriced)
  }

  function AddHealth(h: Health, e: UsageEvent): Health {
    h.(totalSuccess := h.totalSuccess + (if e.failed then 0 else 1),
       totalFailure := h.totalFailure + (if e.failed then 1 else 0), blocks := Updated(h.blocks, e))
  }

  function AddHourly(s: Series, c: Charge, start: Option<Instant>): Series {
    if Since(start, c.e) then AddToSeries(s, c.e, c.cost, HourKey(c.e.timestamp), BucketMinutes(false)) else s
  }

  /** applyUsageEventToSnapshot and applyUsageEventToOverview. */
  function ApplyEvent(o: UsageOverview, e: UsageEvent, s: Settings): UsageOverview {
    var c := ChargeOf(e, s.pricing);
    UsageOverview(AddUsage(o.usage, e, s.zone), AddSummary(o.summary, c, Unpriced(e, s.pricing)),
                  AddCharge(o.series, c, s.byDay, s.zone), AddHourly(o.hourly, c, s.hourlyStart),
                  AddCharge(o.daily, c, true, s.zone), AddHealth(o.health, e))
  }

  function Step(s: Settings): (UsageOverview, UsageEvent) -> UsageOverview {
    (o: UsageOverview, e: UsageEvent) => ApplyEvent(o, e, s)
  }

  /** finalizeUsageOverview without details. */
  function Finalized(o: UsageOverview): UsageOverview {
    var m := o.summary.(requestCount := o.usage.total.requests, tokenCount := o.usage.total.tokens);
    var total := o.health.totalSuccess + o.health.totalFailure;
    o.(summary := if m.windowMinutes > 0
                  then m.(rpm := m.requestCount as real / m.windowMinutes as real,
                          tpm := m.tokenCount as real / m.windowMinutes as real)
                  else m,
       health := if total > 0 then o.health.(successRate := o.health.totalSuccess as real / total as real * 100.0)
                 else o.health)
  }

  /** The hour that starts 23 hours before the hour of `end`. */
  function HourlyStart(end: Option<Instant>): (start: Option<Instant>)
    ensures end.Some?
            ==> start.Some? && start.value % HOUR == 0 && start.value + 23 * HOUR <= end.value < start.value + 24 * HOUR
  {
    if end.None? then None
    else
      DivModUnique(Truncate(end.value, HOUR) - 23 * HOUR, HOUR, end.value / HOUR - 23, 0);
      Some(Truncate(end.value, HOUR) - 23 * HOUR)
  }

  /** latestHourlySeriesStart: from the filter's end, or from the last event of the list. */
  function ListHourlyStart(f: UsageQueryFilter, events: seq<UsageEvent>): Option<Instant> {
    HourlyStart(if f.endTime.Some? then f.endTime else if events == [] then None
                else Some(events[|events| - 1].timestamp))
  }

  /** latestHourlySeriesStartFromDB: from the filter's end, or from the latest selected event. */
  function TableHourlyStart(f: UsageQueryFilter, table: seq<UsageEvent>): Option<Instant> {
    HourlyStart(if f.endTime.Some? then f.endTime else LatestTimestamp(Select(f, table)))
  }

  function SettingsFor(f: UsageQueryFilter, start: Option<Instant>, pricing: map<string, Price>, zone: int): Settings {
    Settings(BucketByDay(f), start, pricing, zone)
  }

  /** What both builders return for the events they apply. */
  function Built(f: UsageQueryFilter, now: Instant, events: seq<UsageEvent>, s: Settings): UsageOverview {
    if events == [] then NewOverview(f, now) else Finalized(Fold(Step(s), NewOverview(f, now), events))
  }

  /** buildUsageOverviewFromEvents. */
  function BuiltFromEvents(f: UsageQueryFilter, now: Instant, events: seq<UsageEvent>, pricing: map<string, Price>,
                           zone: int): UsageOverview {
    Built(f, now, events, SettingsFor(f, ListHourlyStart(f, events), pricing, zone))
  }

  /** A result set of the overview query: the selected events by timestamp, ties in any order. */
  predicate RowsOf(rows: seq<UsageEvent>, f: UsageQueryFilter, table: seq<UsageEvent>) {
    Ascending(rows) && multiset(rows) == multiset(Select(f, table))
  }

  // ------------------------------------------------------------------------ order

  lemma BlocksCommute(blocks: seq<Block>, a: UsageEvent, b: UsageEvent)
    ensures Updated(Updated(blocks, a), b) == Updated(Updated(blocks, b), a)
  {
  }

  lemma HourlyCommutes(s: Series, a: Charge, b: Charge, start: Option<Instant>)
    ensures AddHourly(AddHourly(s, a, start), b, start) == AddHourly(AddHourly(s, b, start), a, start)
  {
    SeriesCommutes(s, a.e, a.cost, HourKey(a.e.timestamp), b.e, b.cost, HourKey(b.e.timestamp), BucketMinutes(false));
  }

  lemma ChargesCommute(s: Series, a: Charge, b: Charge, byDay: bool, zone: int)
    ensures AddCharge(AddCharge(s, a, byDay, zone), b, byDay, zone)
            == AddCharge(AddCharge(s, b, byDay, zone), a, byDay, zone)
  {
    SeriesCommutes(s, a.e, a.cost, BucketKey(a.e, byDay, zone), b.e, b.cost, BucketKey(b.e, byDay, zone),
                   BucketMinutes(byDay));
  }

  lemma HealthCommutes(h: Health, a: UsageEvent, b: UsageEvent)
    ensures AddHealth(AddHealth(h, a), b) == AddHealth(AddHealth(h, b), a)
  {
    BlocksCommute(h.blocks, a, b);
  }

  lemma SummaryCommutes(m: Summary, a: Charge, unpricedA: bool, b: Charge, unpricedB: bool)
    ensures AddSummary(AddSummary(m, a, unpricedA), b, unpricedB)
            == AddSummary(AddSummary(m, b, unpricedB), a, unpricedA)
  {
  }

  lemma AssembleTwice(o: UsageOverview, a: UsageEvent, b: UsageEvent, s: Settings, x: Charge, y: Charge)
    requires x == ChargeOf(a, s.pricing) && y == ChargeOf(b, s.pricing)
    ensures ApplyEvent(ApplyEvent(o, a, s), b, s)
            == UsageOverview(AddUsage(AddUsage(o.usage, a, s.zone), b, s.zone),
                             AddSummary(AddSummary(o.summary, x, Unpriced(a, s.pricing)), y, Unpriced(b, s.pricing)),
                             AddCharge(AddCharge(o.series, x, s.byDay, s.zone), y, s.byDay, s.zone),
                             AddHourly(AddHourly(o.hourly, x, s.hourlyStart), y, s.hourlyStart),
                             AddCharge(AddCharge(o.daily, x, true, s.zone), y, true, s.zone),
                             AddHealth(AddHealth(o.health, a), b))
  {
  }

  lemma EventsCommute(o: UsageOverview, a: UsageEvent, b: UsageEvent, s: Settings)
    ensures ApplyEvent(ApplyEvent(o, a, s), b, s) == ApplyEvent(ApplyEvent(o, b, s), a, s)
  {
    var x, y := ChargeOf(a, s.pricing), ChargeOf(b, s.pricing);
    AssembleTwice(o, a, b, s, x, y);
    AssembleTwice(o, b, a, s, y, x);
    UsageCommutes(o.usage, a, b, s.zone);
    SummaryCommutes(o.summary, x, Unpriced(a, s.pricing), y, Unpriced(b, s.pricing));
    ChargesCommute(o.series, x, y, s.byDay, s.zone);
    HourlyCommutes(o.hourly, x, y, s.hourlyStart);
    ChargesCommute(o.daily, x, y, true, s.zone);
    HealthCommutes(o.health, a, b);
  }

  lemma StepsCommute(s: Settings)
    ensures Commutes(Step(s))
  {
    forall o, a, b ensures Step(s)(Step(s)(o, a), b) == Step(s)(Step(s)(o, b), a) { EventsCommute(o, a, b, s); }
  }

  /** With a fixed start of the hourly series the overview depends on which events there are, not on
      their order. */
  lemma OverviewIgnoresOrder(f: UsageQueryFilter, now: Instant, a: seq<UsageEvent>, b: seq<UsageEvent>, s: Settings)
    requires multiset(a) == multiset(b)
    ensures Built(f, now, a, s) == Built(f, now, b, s)
  {
    assert |a| == |multiset(a)| == |b|;
    StepsCommute(s);
    OrderDoesNotMatter(Step(s), NewOverview(f, now), a, b);
  }

  lemma AscendingEndsLatest(events: seq<UsageEvent>)
    requires Ascending(events) && events != []
    ensures LatestTimestamp(events) == Some(events[|events| - 1].timestamp)
  {
  }

  lemma SameMembers(a: seq<UsageEvent>, b: seq<UsageEvent>)
    requires multiset(a) == multiset(b)
    ensures forall e :: e in a <==> e in b
  {
    forall e ensures e in a <==> e in b { assert e in a <==> e in multiset(a); }
  }

  lemma StartsAgree(f: UsageQueryFilter, table: seq<UsageEvent>, rows: seq<UsageEvent>)
    requires RowsOf(rows, f, table)
    ensures TableHourlyStart(f, table) == ListHourlyStart(f, rows)
  {
    SameMembers(rows, Select(f, table));
    LatestOfSameEvents(rows, Select(f, table));
    if rows != [] { AscendingEndsLatest(rows); }
  }

  /** Two starts of the hourly series let the same events in. */
  predicate SameSince(events: seq<UsageEvent>, a: Option<Instant>, b: Option<Instant>) {
    forall i :: 0 <= i < |events| ==> (Since(a, events[i]) <==> Since(b, events[i]))
  }

  lemma {:induction false} SameSinceSameFold(o: UsageOverview, events: seq<UsageEvent>, s: Settings,
                                             start: Option<Instant>)
    requires SameSince(events, s.hourlyStart, start)
    ensures Fold(Step(s), o, events) == Fold(Step(s.(hourlyStart := start)), o, events)
  {
    if events != [] {
      var n := |events| - 1;
      assert forall i :: 0 <= i < n ==> events[..n][i] == events[i];
      SameSinceSameFold(o, events[..n], s, start);
    }
  }

  /** A later start lets fewer events in, and just as many only if they are the same ones. */
  lemma {:induction false} LaterStartTakesLess(events: seq<UsageEvent>, pricing: map<string, Price>, a: Option<Instant>,
                                               b: Option<Instant>)
    requires a.Some? ==> b.Some? && a.value <= b.value
    ensures var early, late := AllOf(Charges(events, pricing), a).requests, AllOf(Charges(events, pricing), b).requests;
            late <= early && (late == early ==> SameSince(events, a, b))
  {
    if events != [] {
      var n := |events| - 1;
      var e := events[n];
      LaterStartTakesLess(events[..n], pricing, a, b);
      ChargesLast(events, pricing);
      assert Since(b, e) ==> Since(a, e);
      if AllOf(Charges(events, pricing), a).requests == AllOf(Charges(events, pricing), b).requests {
        SameSinceSnoc(events, a, b);
      }
    }
  }

  lemma SameSinceSnoc(events: seq<UsageEvent>, a: Option<Instant>, b: Option<Instant>)
    requires events != [] && SameSince(events[..|events| - 1], a, b)
    requires Since(a, events[|events| - 1]) <==> Since(b, events[|events| - 1])
    ensures SameSince(events, a, b)
  {
    forall i | 0 <= i < |events| ensures Since(a, events[i]) <==> Since(b, events[i]) {
      if i < |events| - 1 { assert events[..|events| - 1][i] == events[i]; }
    }
  }

  /** The overview depends on the hourly start only through the events it lets in, and shows which. */
  lemma HourlyStartMatters(f: UsageQueryFilter, now: Instant, events: seq<UsageEvent>, s: Settings,
                           start: Option<Instant>)
    ensures Built(f, now, events, s) == Built(f, now, events, s.(hourlyStart := start))
            <==> SameSince(events, s.hourlyStart, start)
  {
    var a, b := s.hourlyStart, start;
    if SameSince(events, a, b) {
      SameSinceSameFold(NewOverview(f, now), events, s, start);
    } else {
      HourlySeriesHoldsItsWindow(f, now, events, s);
      HourlySeriesHoldsItsWindow(f, now, events, s.(hourlyStart := start));
      if a.Some? ==> b.Some? && a.value <= b.value {
        LaterStartTakesLess(events, s.pricing, a, b);
      } else {
        LaterStartTakesLess(events, s.pricing, b, a);
      }
    }
  }

  /** Streaming refines the list: whatever order the database returns ties in, the overview built event
      by event is the one built from the ascending event list. The hourly start comes from a query of its
      own, before the one for the rows; events stored between the two matter exactly if they make a
      different hourly start that some row falls before. They do not if the filter has an end. */
  lemma StreamingEqualsList(f: UsageQueryFilter, now: Instant, before: seq<UsageEvent>, table: seq<UsageEvent>,
                            rows: seq<UsageEvent>, events: seq<UsageEvent>, pricing: map<string, Price>, zone: int)
    requires RowsOf(rows, f, table) && RowsOf(events, f, table)
    ensures Built(f, now, rows, SettingsFor(f, TableHourlyStart(f, before), pricing, zone))
            == BuiltFromEvents(f, now, events, pricing, zone)
            <==> SameSince(events, TableHourlyStart(f, before), ListHourlyStart(f, events))
    ensures f.endTime.Some? || before == table ==> TableHourlyStart(f, before) == ListHourlyStart(f, events)
  {
    var s := SettingsFor(f, TableHourlyStart(f, before), pricing, zone);
    StartsAgree(f, table, events);
    OverviewIgnoresOrder(f, now, rows, events, s);
    HourlyStartMatters(f, now, events, s, ListHourlyStart(f, events));
  }

  lemma NextRow(o: UsageOverview, rows: seq<UsageEvent>, i: nat, s: Settings)
    requires i < |rows|
    ensures Fold(Step(s), o, rows[..i + 1]) == ApplyEvent(Fold(Step(s), o, rows[..i]), rows[i], s)
  {
    assert rows[..i + 1][..i] == rows[..i];
  }

  /** The early return for no events leaves out nothing: finalizing an empty overview changes nothing. */
  lemma EmptyNeedsNoFinalizing(f: UsageQueryFilter, now: Instant)
    ensures Finalized(NewOverview(f, now)) == NewOverview(f, now)
  {
  }

  // ------------------------------------------------------------------- components

  function Charges(events: seq<UsageEvent>, pricing: map<string, Price>): (r: seq<Charge>)
    ensures |r| == |events|
  {
    if events == [] then [] else Charges(events[..|events| - 1], pricing) + [ChargeOf(events[|events| - 1], pricing)]
  }

  predicate SomeUnpriced(events: seq<UsageEvent>, pricing: map<string, Price>) {
    exists i :: 0 <= i < |events| && Unpriced(events[i], pricing)
  }

  lemma ChargesLast(events: seq<UsageEvent>, pricing: map<string, Price>)
    requires events != []
    ensures var n := |events| - 1;
            Charges(events, pricing)[..n] == Charges(events[..n], pricing)
            && Charges(events, pricing)[n] == ChargeOf(events[n], pricing)
  {
  }

  lemma SeriesLast(events: seq<UsageEvent>, pricing: map<string, Price>, byDay: bool, zone: int, start: Option<Instant>)
    requires events != []
    ensures var n := |events| - 1;
            var before, c := SeriesOf(Charges(events[..n], pricing), byDay, zone, start), ChargeOf(events[n], pricing);
            SeriesOf(Charges(events, pricing), byDay, zone, start)
            == if Since(start, events[n]) then AddCharge(before, c, byDay, zone) else before
  {
    ChargesLast(events, pricing);
  }

  lemma AllLast(events: seq<UsageEvent>, pricing: map<string, Price>)
    requires events != []
    ensures var n := |events| - 1;
            AllOf(Charges(events, pricing), None)
            == Plus(AllOf(Charges(events[..n], pricing), None), ChargeTally(ChargeOf(events[n], pricing)))
  {
    ChargesLast(events, pricing);
  }

  lemma UnpricedLast(events: seq<UsageEvent>, pricing: map<string, Price>)
    requires events != []
    ensures var n := |events| - 1;
            SomeUnpriced(events, pricing) <==> SomeUnpriced(events[..n], pricing) || Unpriced(events[n], pricing)
  {
    var n := |events| - 1;
    if i :| 0 <= i < n && Unpriced(events[..n][i], pricing) { assert Unpriced(events[i], pricing); }
    if i :| 0 <= i < |events| && Unpriced(events[i], pricing) { assert i < n ==> Unpriced(events[..n][i], pricing); }
  }

  /** The overview in closed form: each part is that part's own fold over the events. */
  predicate Parts(o: UsageOverview, f: UsageQueryFilter, now: Instant, events: seq<UsageEvent>, s: Settings) {
    var charges := Charges(events, s.pricing);
    o.usage == UsageOf(events, s.zone)
    && o.series == SeriesOf(charges, s.byDay, s.zone, None)
    && o.hourly == SeriesOf(charges, false, s.zone, s.hourlyStart)
    && o.daily == SeriesOf(charges, true, s.zone, None)
    && SummaryParts(o.summary, f, AllOf(charges, None), SomeUnpriced(events, s.pricing))
    && HealthParts(o.health, f, now, events)
  }

  predicate SummaryParts(m: Summary, f: UsageQueryFilter, all: Tally, unpriced: bool) {
    m.totalCost == all.cost && m.cached == all.cached && m.reasoning == all.reasoning
    && m.costAvailable == !unpriced && m.windowMinutes == WindowMinutes(f)
  }

  predicate HealthParts(h: Health, f: UsageQueryFilter, now: Instant, events: seq<UsageEvent>) {
    h.totalSuccess == CountOutcome(events, false) && h.totalFailure == CountOutcome(events, true)
    && h.blocks == AllUpdated(FreshBlocks(f, now), events) && h.window == HealthWindow(f, now)
  }

  lemma SummaryStep(m: Summary, f: UsageQueryFilter, all: Tally, unpriced: bool, c: Charge, now: bool)
    requires SummaryParts(m, f, all, unpriced)
    ensures SummaryParts(AddSummary(m, c, now), f, Plus(all, ChargeTally(c)), unpriced || now)
  {
  }

  lemma HealthStep(h: Health, f: UsageQueryFilter, now: Instant, events: seq<UsageEvent>)
    requires events != [] && HealthParts(h, f, now, events[..|events| - 1])
    ensures HealthParts(AddHealth(h, events[|events| - 1]), f, now, events)
  {
  }

  lemma HourlyIsHourCharge(s: Series, c: Charge, zone: int, start: Option<Instant>)
    ensures AddHourly(s, c, start) == if Since(start, c.e) then AddCharge(s, c, false, zone) else s
  {
  }

  lemma PartsStep(o: UsageOverview, f: UsageQueryFilter, now: Instant, events: seq<UsageEvent>, s: Settings)
    requires events != [] && Parts(o, f, now, events[..|events| - 1], s)
    ensures Parts(ApplyEvent(o, events[|events| - 1], s), f, now, events, s)
  {
    var e := events[|events| - 1];
    AllLast(events, s.pricing);
    UnpricedLast(events, s.pricing);
    var before := events[..|events| - 1];
    SummaryStep(o.summary, f, AllOf(Charges(before, s.pricing), None), SomeUnpriced(before, s.pricing),
                ChargeOf(e, s.pricing), Unpriced(e, s.pricing));
    HealthStep(o.health, f, now, events);
    SeriesLast(events, s.pricing, s.byDay, s.zone, None);
    SeriesLast(events, s.pricing, true, s.zone, None);
    SeriesLast(events, s.pricing, false, s.zone, s.hourlyStart);
    HourlyIsHourCharge(o.hourly, ChargeOf(e, s.pricing), s.zone, s.hourlyStart);
  }

  /** Event by event, the overview is its parts' own folds. */
  lemma {:induction false} FoldHasParts(f: UsageQueryFilter, now: Instant, events: seq<UsageEvent>, s: Settings)
    ensures Parts(Fold(Step(s), NewOverview(f, now), events), f, now, events, s)
  {
    if events != [] {
      var init := events[..|events| - 1];
      FoldHasParts(f, now, init, s);
      PartsStep(Fold(Step(s), NewOverview(f, now), init), f, now, events, s);
    }
  }

  /** Everything in the overview adds up: requests and tokens over APIs, models, days, hours and the
      buckets of both series; costs over the buckets of both series; and the cost is only declared
      unavailable when some event needed a price that was missing. */
  lemma OverviewIsConserved(f: UsageQueryFilter, now: Instant, events: seq<UsageEvent>, s: Settings)
    ensures var o := Built(f, now, events, s);
            var buckets, days := Sum(o.series.total, CellTally), Sum(o.daily.total, CellTally);
            Conserved(o.usage)
            && o.summary.requestCount == o.usage.total.requests == |events|
            && o.summary.tokenCount == o.usage.total.tokens
            && buckets == days && buckets.requests == |events|
            && o.summary.totalCost == buckets.cost && o.summary.cached == buckets.cached
            && o.summary.reasoning == buckets.reasoning
            && (!o.summary.costAvailable <==> SomeUnpriced(events, s.pricing))
            && o.health.totalSuccess == o.usage.total.success && o.health.totalFailure == o.usage.total.failure
  {
    var o := Fold(Step(s), NewOverview(f, now), events);
    var charges := Charges(events, s.pricing);
    EmptyNeedsNoFinalizing(f, now);
    FoldHasParts(f, now, events, s);
    UsageIsConserved(events, s.zone);
    BucketsAddUp(charges, s.byDay, s.zone, None);
    BucketsAddUp(charges, true, s.zone, None);
    ChargesCount(events, s.pricing);
    OutcomesAreCounted(events, s.zone);
    assert o.usage == UsageOf(events, s.zone) && HealthParts(o.health, f, now, events);
  }

  lemma {:induction false} ChargesCount(events: seq<UsageEvent>, pricing: map<string, Price>)
    ensures AllOf(Charges(events, pricing), None).requests == |events|
  {
    if events != [] {
      ChargesCount(events[..|events| - 1], pricing);
      AllLast(events, pricing);
    }
  }

  lemma {:induction false} OutcomesAreCounted(events: seq<UsageEvent>, zone: int)
    ensures UsageOf(events, zone).total.success == CountOutcome(events, false)
    ensures UsageOf(events, zone).total.failure == CountOutcome(events, true)
  {
    if events != [] { OutcomesAreCounted(events[..|events| - 1], zone); }
  }

  // ------------------------------------------------------------------------- rates

  function TokensOf(events: seq<UsageEvent>): int {
    if events == [] then 0 else TokensOf(events[..|events| - 1]) + events[|events| - 1].tokens.total
  }

  function Failures(events: seq<UsageEvent>): nat {
    if events == [] then 0 else Failures(events[..|events| - 1]) + if events[|events| - 1].failed then 1 else 0
  }

  lemma {:induction false} TotalsAreDirect(events: seq<UsageEvent>, zone: int)
    ensures var total := UsageOf(events, zone).total;
            total.requests == |events| && total.tokens == TokensOf(events)
            && total.failure == Failures(events) && total.success == |events| - Failures(events)
  {
    if events != [] { TotalsAreDirect(events[..|events| - 1], zone); }
  }

  predicate CountsSay(o: UsageOverview, n: nat, tokens: int, failures: int) {
    o.usage.total.requests == n && o.usage.total.tokens == tokens
    && o.health.totalFailure == failures && o.health.totalSuccess == n - failures
  }

  predicate RatesSay(o: UsageOverview, n: nat, tokens: int, failures: int, minutes: int) {
    (if minutes > 0
     then o.summary.rpm * minutes as real == n as real && o.summary.tpm * minutes as real == tokens as real
     else o.summary.rpm == 0.0 == o.summary.tpm)
    && if n > 0 then o.health.successRate * n as real == 100.0 * (n - failures) as real
       else o.health.successRate == 0.0
  }

  lemma FinalizedSays(o: UsageOverview, n: nat, tokens: int, failures: int, minutes: int)
    requires CountsSay(o, n, tokens, failures) && minutes == o.summary.windowMinutes
    requires o.summary.rpm == 0.0 == o.summary.tpm && o.health.successRate == 0.0
    ensures CountsSay(Finalized(o), n, tokens, failures) && RatesSay(Finalized(o), n, tokens, failures, minutes)
    ensures Finalized(o).summary.requestCount == n && Finalized(o).summary.tokenCount == tokens
  {
  }

  lemma FoldSays(f: UsageQueryFilter, now: Instant, events: seq<UsageEvent>, s: Settings)
    ensures CountsSay(Fold(Step(s), NewOverview(f, now), events), |events|, TokensOf(events), Failures(events))
  {
    FoldHasParts(f, now, events, s);
    TotalsAreDirect(events, s.zone);
    OutcomesAreCounted(events, s.zone);
  }

  /** The totals of the overview, and its rates: requests and tokens per minute of the window if it has one,
      and the percentage of events that did not fail if there are any. */
  lemma TotalsAndRates(f: UsageQueryFilter, now: Instant, events: seq<UsageEvent>, s: Settings)
    ensures var o := Built(f, now, events, s);
            CountsSay(o, |events|, TokensOf(events), Failures(events))
            && RatesSay(o, |events|, TokensOf(events), Failures(events), WindowMinutes(f))
            && o.summary.requestCount == |events| && o.summary.tokenCount == TokensOf(events)
  {
    EmptyNeedsNoFinalizing(f, now);
    FoldSays(f, now, events, s);
    RatesStayZero(f, now, events, s);
    FinalizedSays(Fold(Step(s), NewOverview(f, now), events), |events|, TokensOf(events), Failures(events),
                  WindowMinutes(f));
  }

  lemma {:induction false} RatesStayZero(f: UsageQueryFilter, now: Instant, events: seq<UsageEvent>, s: Settings)
    ensures var o := Fold(Step(s), NewOverview(f, now), events);
            o.summary.rpm == 0.0 == o.summary.tpm && o.health.successRate == 0.0
            && o.summary.windowMinutes == WindowMinutes(f)
  {
    if events != [] { RatesStayZero(f, now, events[..|events| - 1], s); }
  }

  // ------------------------------------------------------------------------- costs

  /** The bills of all events, each at its own model's price. */
  function Bills(events: seq<UsageEvent>, pricing: map<string, Price>): real {
    if events == [] then 0.0
    else Bills(events[..|events| - 1], pricing) + ModelBill(events[|events| - 1], pricing)
  }

  /** The event belongs to the cell of this day or hour, for all models or for this one. */
  predicate InCell(e: UsageEvent, byDay: bool, zone: int, start: Option<Instant>, k: string, model: Option<string>) {
    (start.Some? ==> start.value <= e.timestamp)
    && k == (if byDay then DayKey(e.timestamp, zone) else HourKey(e.timestamp))
    && (model.Some? ==> Dimension(e.model) == model.value)
  }

  function CellBills(events: seq<UsageEvent>, pricing: map<string, Price>, byDay: bool, zone: int,
                     start: Option<Instant>, k: string, model: Option<string>): real
  {
    if events == [] then 0.0
    else
      var e := events[|events| - 1];
      CellBills(events[..|events| - 1], pricing, byDay, zone, start, k, model)
      + if InCell(e, byDay, zone, start, k, model) then ModelBill(e, pricing) else 0.0
  }

  lemma {:induction false} AllCostIsBilled(events: seq<UsageEvent>, pricing: map<string, Price>)
    ensures AllOf(Charges(events, pricing), None).cost == Bills(events, pricing)
  {
    if events != [] {
      AllCostIsBilled(events[..|events| - 1], pricing);
      AllLast(events, pricing);
      CostIsModelBill(events[|events| - 1], pricing);
    }
  }

  lemma TallyLast(events: seq<UsageEvent>, pricing: map<string, Price>, byDay: bool, zone: int, start: Option<Instant>,
                  k: string, model: Option<string>)
    requires events != []
    ensures var n := |events| - 1;
            var before := TallyOf(Charges(events[..n], pricing), byDay, zone, start, k, model);
            TallyOf(Charges(events, pricing), byDay, zone, start, k, model)
            == if InCell(events[n], byDay, zone, start, k, model)
               then Plus(before, ChargeTally(ChargeOf(events[n], pricing)))
               else before
  {
    ChargesLast(events, pricing);
  }

  lemma OneMoreBill(before: Tally, after: Tally, e: UsageEvent, pricing: map<string, Price>, own: bool)
    requires after == if own then Plus(before, ChargeTally(ChargeOf(e, pricing))) else before
    ensures after.cost == before.cost + if own then ModelBill(e, pricing) else 0.0
  {
    CostIsModelBill(e, pricing);
  }

  lemma {:induction false} CellCostIsBilled(events: seq<UsageEvent>, pricing: map<string, Price>, byDay: bool,
                                            zone: int, start: Option<Instant>, k: string, model: Option<string>)
    ensures TallyOf(Charges(events, pricing), byDay, zone, start, k, model).cost
            == CellBills(events, pricing, byDay, zone, start, k, model)
  {
    if events != [] {
      var n := |events| - 1;
      CellCostIsBilled(events[..n], pricing, byDay, zone, start, k, model);
      TallyLast(events, pricing, byDay, zone, start, k, model);
      OneMoreBill(TallyOf(Charges(events[..n], pricing), byDay, zone, start, k, model),
                  TallyOf(Charges(events, pricing), byDay, zone, start, k, model), events[n], pricing,
                  InCell(events[n], byDay, zone, start, k, model));
    }
  }

  lemma CellIsBilled(events: seq<UsageEvent>, pricing: map<string, Price>, byDay: bool, zone: int,
                     start: Option<Instant>, k: string, model: Option<string>)
    ensures CellAt(LineOf(SeriesOf(Charges(events, pricing), byDay, zone, start), model), k).cost
            == CellBills(events, pricing, byDay, zone, start, k, model)
  {
    CellsSumTheirEvents(Charges(events, pricing), byDay, zone, start, k, model);
    CellCostIsBilled(events, pricing, byDay, zone, start, k, model);
  }

  /** All money in the overview is the events' own bills: the total over all of them, and each cell of each
      series over the events of its day or hour, and of its model in a model's line. Events of models
      without a price add nothing. */
  lemma CostsAreBills(f: UsageQueryFilter, now: Instant, events: seq<UsageEvent>, s: Settings, k: string,
                      model: Option<string>)
    ensures var o := Built(f, now, events, s);
            o.summary.totalCost == Bills(events, s.pricing)
            && CellAt(LineOf(o.series, model), k).cost == CellBills(events, s.pricing, s.byDay, s.zone, None, k, model)
            && CellAt(LineOf(o.daily, model), k).cost == CellBills(events, s.pricing, true, s.zone, None, k, model)
            && CellAt(LineOf(o.hourly, model), k).cost
               == CellBills(events, s.pricing, false, s.zone, s.hourlyStart, k, model)
  {
    EmptyNeedsNoFinalizing(f, now);
    FoldHasParts(f, now, events, s);
    AllCostIsBilled(events, s.pricing);
    CellIsBilled(events, s.pricing, s.byDay, s.zone, None, k, model);
    CellIsBilled(events, s.pricing, true, s.zone, None, k, model);
    CellIsBilled(events, s.pricing, false, s.zone, s.hourlyStart, k, model);
  }

  /** The hourly series holds exactly the events of the last 24 clock hours, up to the latest one. */
  lemma HourlySeriesHoldsItsWindow(f: UsageQueryFilter, now: Instant, events: seq<UsageEvent>, s: Settings)
    ensures Sum(Built(f, now, events, s).hourly.total, CellTally) == AllOf(Charges(events, s.pricing), s.hourlyStart)
  {
    EmptyNeedsNoFinalizing(f, now);
    FoldHasParts(f, now, events, s);
    BucketsAddUp(Charges(events, s.pricing), false, s.zone, s.hourlyStart);
  }

  /** For a short range of at most 24 hours the grid agrees with the totals. */
  lemma GridAgreesWithTotals(f: UsageQueryFilter, now: Instant, table: seq<UsageEvent>, rows: seq<UsageEvent>,
                             s: Settings)
    requires RowsOf(rows, f, table) && ShortRange(f)
    requires f.startTime.Some? && f.endTime.Some? && f.endTime.value - f.startTime.value <= 24 * HOUR
    ensures var h := Built(f, now, rows, s).health;
            SumOf(h.blocks, false) == h.totalSuccess && SumOf(h.blocks, true) == h.totalFailure
  {
    SameMembers(rows, Select(f, table));
    forall i | 0 <= i < |rows| ensures InTime(f, rows[i]) { assert rows[i] in Select(f, table); }
    EmptyNeedsNoFinalizing(f, now);
    FoldHasParts(f, now, rows, s);
    ShortRangesAreCovered(f, now, rows, false);
    ShortRangesAreCovered(f, now, rows, true);
  }
}

/** The overview record as the builders mutate it (internal/repository/usage.go). */
module OverviewBuilder {
  import opened Text
  import opened Calendar
  import opened UsageEvents
  import opened UsageQuery
  import opened HealthGrid
  import opened Folds
  import opened OverviewUsage
  import opened OverviewSeries
  import opened Overview

  /** The same four increments at every level of the snapshot. */
  method CountUsage(counts: Counts, e: UsageEvent) returns (r: Counts)
    ensures r == AddCounts(counts, e)
  {
    r := counts.(requests := counts.requests + 1);
    r := r.(tokens := r.tokens + e.tokens.total);
    if e.failed {
      r := r.(failure := r.failure + 1);
    } else {
      r := r.(success := r.success + 1);
    }
  }

  /** The same nine updates in the total line and in the model's line. */
  method CountCell(cell: Cell, c: Charge, minutes: int) returns (r: Cell)
    requires minutes > 0
    ensures r == AddToCell(cell, c.e, c.cost, minutes)
  {
    r := cell.(requests := cell.requests + 1);
    r := r.(tokens := r.tokens + c.e.tokens.total);
    r := r.(cost := r.cost + c.cost);
    r := r.(input := r.input + c.e.tokens.input);
    r := r.(output := r.output + c.e.tokens.output);
    r := r.(cached := r.cached + c.e.tokens.cached);
    r := r.(reasoning := r.reasoning + c.e.tokens.reasoning);
    r := r.(rpm := r.requests as real / minutes as real);
    r := r.(tpm := r.tokens as real / minutes as real);
  }

  /** applyUsageEventToOverviewSeries: the cell of the bucket in the total line, then in the line of the
      event's model, which may have to be made first. */
  method ApplyToOverviewSeries(s: Series, c: Charge, key: string, minutes: int) returns (r: Series)
    requires minutes > 0
    ensures SeriesCharged(s, r, c, key, minutes)
    ensures r == AddToSeries(s, c.e, c.cost, key, minutes)
  {
    var cell := CountCell(if key in s.total then s.total[key] else EMPTY_CELL, c, minutes);
    r := s.(total := s.total[key := cell]);
    var modelName := Dimension(c.e.model);
    var line: Line := map[];
    if modelName in s.models {
      line := s.models[modelName];
    }
    var modelCell := CountCell(if key in line then line[key] else EMPTY_CELL, c, minutes);
    r := r.(models := r.models[modelName := line[key := modelCell]]);
    AddingCharges(s, c, key, minutes);
  }

  lemma Assembled(before: UsageOverview, after: UsageOverview, e: UsageEvent, s: Settings, c: Charge)
    requires c == ChargeOf(e, s.pricing) && after.usage == AddUsage(before.usage, e, s.zone)
    requires after.summary == AddSummary(before.summary, c, Unpriced(e, s.pricing))
    requires after.series == AddCharge(before.series, c, s.byDay, s.zone)
    requires after.hourly == AddHourly(before.hourly, c, s.hourlyStart)
    requires after.daily == AddCharge(before.daily, c, true, s.zone) && after.health == AddHealth(before.health, e)
    ensures after == ApplyEvent(before, e, s)
  {
  }

  class UsageOverviewRecord {
    var usage: UsageSnapshot
    var summary: Summary
    var series: Series
    var hourlySeries: Series
    var dailySeries: Series
    var health: Health
    const blockDetails: array<Block>

    /** The record as a value; the blocks are those of the array. */
    ghost function State(): UsageOverview
      reads this, blockDetails
    {
      UsageOverview(usage, summary, series, hourlySeries, dailySeries, health.(blocks := blockDetails[..]))
    }

    constructor (f: UsageQueryFilter, now: Instant, blocks: array<Block>)
      requires blocks[..] == FreshBlocks(f, now)
      ensures State() == NewOverview(f, now) && blockDetails == blocks
    {
      usage := NO_USAGE;
      summary := Summary(0, 0, WindowMinutes(f), 0.0, 0.0, 0.0, true, 0, 0);
      series, hourlySeries, dailySeries := EMPTY_SERIES, EMPTY_SERIES, EMPTY_SERIES;
      health := Health(0, 0, 0.0, ROWS, COLUMNS, (GridSpan(f) + SECOND - 1) / SECOND, HealthWindow(f, now), []);
      blockDetails := blocks;
    }

    method ApplyToSnapshot(e: UsageEvent, zone: int)
      modifies this`usage
      ensures usage == AddUsage(old(usage), e, zone)
    {
      var apiKey, modelName := Dimension(e.apiGroupKey), Dimension(e.model);
      var api := ApiAt(usage.apis, apiKey);
      var model := CountUsage(CountsAt(api.models, modelName), e);
      var counts := CountUsage(api.counts, e);
      var total := CountUsage(usage.total, e);
      var dayKey, hourKey := DayKey(e.timestamp, zone), HourKey(e.timestamp);
      var byDay, byHour := AddLoad(usage.byDay, dayKey, e), AddLoad(usage.byHour, hourKey, e);
      api := ApiSnapshot(counts, api.models[modelName := model]);
      usage := UsageSnapshot(total, usage.apis[apiKey := api], byDay, byHour);
    }

    method ApplyToHealth(e: UsageEvent)
      modifies this`health, blockDetails
      ensures health.(blocks := blockDetails[..]) == AddHealth(old(health.(blocks := blockDetails[..])), e)
    {
      if e.failed {
        health := health.(totalFailure := health.totalFailure + 1);
      } else {
        health := health.(totalSuccess := health.totalSuccess + 1);
      }
      UpdateHealthBlock(blockDetails, e);
    }

    method ApplyToSummary(c: Charge, unpriced: bool)
      modifies this`summary
      ensures summary == AddSummary(old(summary), c, unpriced)
    {
      summary := summary.(cached := summary.cached + c.e.tokens.cached);
      summary := summary.(reasoning := summary.reasoning + c.e.tokens.reasoning);
      if unpriced {
        summary := summary.(costAvailable := false);
      }
      summary := summary.(totalCost := summary.totalCost + c.cost);
    }

    /** In each of the three series the event's own bucket is charged, in the total line and in its model's
        line, and every other cell stays; the hourly series takes only events since its start. */
    method ApplyToSeries(c: Charge, s: Settings)
      modifies this`series, this`hourlySeries, this`dailySeries
      ensures SeriesCharged(old(series), series, c, BucketKey(c.e, s.byDay, s.zone), BucketMinutes(s.byDay))
      ensures if Since(s.hourlyStart, c.e)
              then SeriesCharged(old(hourlySeries), hourlySeries, c, HourKey(c.e.timestamp), 60)
              else hourlySeries == old(hourlySeries)
      ensures SeriesCharged(old(dailySeries), dailySeries, c, DayKey(c.e.timestamp, s.zone), 24 * 60)
      ensures series == AddCharge(old(series), c, s.byDay, s.zone)
      ensures hourlySeries == AddHourly(old(hourlySeries), c, s.hourlyStart)
      ensures dailySeries == AddCharge(old(dailySeries), c, true, s.zone)
    {
      series := ApplyToOverviewSeries(series, c, BucketKey(c.e, s.byDay, s.zone), BucketMinutes(s.byDay));
      if s.hourlyStart.None? || c.e.timestamp >= s.hourlyStart.value {
        hourlySeries := ApplyToOverviewSeries(hourlySeries, c, HourKey(c.e.timestamp), BucketMinutes(false));
      }
      dailySeries := ApplyToOverviewSeries(dailySeries, c, DayKey(c.e.timestamp, s.zone), BucketMinutes(true));
    }

    /** One event of the stream. */
    method Apply(e: UsageEvent, s: Settings)
      modifies this, blockDetails
      ensures State() == ApplyEvent(old(State()), e, s)
    {
      ghost var before := State();
      var c := ChargeOf(e, s.pricing);
      ApplyToSnapshot(e, s.zone);
      ApplyToSummary(c, Unpriced(e, s.pricing));
      ApplyToSeries(c, s);
      ApplyToHealth(e);
      Assembled(before, State(), e, s, c);
    }

    method Finalize()
      modifies this`summary, this`health
      ensures State() == Finalized(old(State()))
    {
      summary := summary.(requestCount := usage.total.requests, tokenCount := usage.total.tokens);
      if summary.windowMinutes > 0 {
        var requests, tokens := summary.requestCount as real, summary.tokenCount as real;
        var minutes := summary.windowMinutes as real;
        summary := summary.(rpm := requests / minutes, tpm := tokens / minutes);
      }
      var total := health.totalSuccess + health.totalFailure;
      if total > 0 {
        health := health.(successRate := health.totalSuccess as real / total as real * 100.0);
      }
    }
  }

  /** BuildUsageOverviewWithFilter: one query for the start of the hourly series, which finds the table as
      it was `before`, then the rows of another stream by, one at a time. */
  method BuildUsageOverviewWithFilter(f: UsageQueryFilter, now: Instant, before: seq<UsageEvent>,
                                      table: seq<UsageEvent>, rows: seq<UsageEvent>, pricing: map<string, Price>,
                                      zone: int)
    returns (record: UsageOverviewRecord)
    requires RowsOf(rows, f, table)
    ensures record.State() == Built(f, now, rows, SettingsFor(f, TableHourlyStart(f, before), pricing, zone))
    ensures record.State() == BuiltFromEvents(f, now, rows, pricing, zone)
            <==> SameSince(rows, TableHourlyStart(f, before), ListHourlyStart(f, rows))
  {
    var settings := SettingsFor(f, TableHourlyStart(f, before), pricing, zone);
    var blocks := BuildBlocks(f, now);
    record := new UsageOverviewRecord(f, now, blocks);
    var hasEvents := false;
    var i := 0;
    while i < |rows|
      invariant 0 <= i <= |rows| && (hasEvents <==> i > 0)
      invariant record.State() == Fold(Step(settings), NewOverview(f, now), rows[..i])
      invariant record.blockDetails == blocks && fresh(record) && fresh(blocks)
    {
      hasEvents := true;
      NextRow(NewOverview(f, now), rows, i, settings);
      record.Apply(rows[i], settings);
      i := i + 1;
    }
    assert rows[..i] == rows;
    StreamingEqualsList(f, now, before, table, rows, rows, pricing, zone);
    if !hasEvents {
      return;
    }
    record.Finalize();
  }
}

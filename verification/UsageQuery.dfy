/** The filter of the usage queries (internal/repository/usage.go, internal/repository/usage_filter.go). */
module UsageQuery {
  import opened Text
  import opened Calendar
  import opened UsageEvents

  datatype UsageQueryFilter = UsageQueryFilter(
    range: string,
    startTime: Option<Instant>,
    endTime: Option<Instant>,
    model: string,
    source: string,
    authIndex: string,
    authType: string,
    provider: string,
    result: string)

  predicate InTime(f: UsageQueryFilter, e: UsageEvent) {
    (f.startTime.Some? ==> e.timestamp >= f.startTime.value) && (f.endTime.Some? ==> e.timestamp <= f.endTime.value)
  }

  /** TRIM(column) = ?, when the filter's value is not blank. */
  predicate ColumnMatches(wanted: string, column: string) { Trim(wanted) != "" ==> SqlTrim(column) == Trim(wanted) }

  predicate SourceMatches(f: UsageQueryFilter, e: UsageEvent) {
    if Trim(f.source) != "" then
      (SqlTrim(e.source) == Trim(f.source))
      || (Trim(f.authIndex) != "" && Trim(f.authType) == "oauth" && SqlTrim(e.authIndex) == Trim(f.authIndex))
    else ColumnMatches(f.authIndex, e.authIndex)
  }

  predicate ResultMatches(f: UsageQueryFilter, e: UsageEvent) {
    (Trim(f.result) == "success" ==> !e.failed) && (Trim(f.result) == "failed" ==> e.failed)
  }

  /** applyUsageEventsListFilter. */
  predicate Selects(f: UsageQueryFilter, e: UsageEvent) {
    InTime(f, e) && ColumnMatches(f.model, e.model) && ColumnMatches(f.authType, e.authType)
    && ColumnMatches(f.provider, e.provider) && SourceMatches(f, e) && ResultMatches(f, e)
  }

  function Select(f: UsageQueryFilter, events: seq<UsageEvent>): (r: seq<UsageEvent>)
    ensures forall e :: e in r ==> Selects(f, e)
  {
    if events == [] then []
    else
      var e := events[|events| - 1];
      Select(f, events[..|events| - 1]) + if Selects(f, e) then [e] else []
  }

  /** Blank asks for nothing, anything else for just that. */
  predicate Wants(wanted: string, value: string) { Trim(wanted) == "" || value == Trim(wanted) }

  /** On stored events, whose columns carry no outer white space, the filter means what its fields say: both
      ends of the time range included; a source, or with an OAuth filter the auth index instead; and the
      auth index only if no source is asked for. */
  lemma SelectsTrimmedEvents(f: UsageQueryFilter, e: UsageEvent)
    requires Trimmed(e.model) && Trimmed(e.authType) && Trimmed(e.provider) && Trimmed(e.source) && Trimmed(e.authIndex)
    ensures Selects(f, e)
            <==> (f.startTime.None? || f.startTime.value <= e.timestamp)
                 && (f.endTime.None? || e.timestamp <= f.endTime.value)
                 && Wants(f.model, e.model) && Wants(f.authType, e.authType) && Wants(f.provider, e.provider)
                 && (if Trim(f.source) == "" then Wants(f.authIndex, e.authIndex)
                     else e.source == Trim(f.source)
                          || (Trim(f.authType) == "oauth" && Trim(f.authIndex) != ""
                              && e.authIndex == Trim(f.authIndex)))
                 && !(Trim(f.result) == "success" && e.failed) && !(Trim(f.result) == "failed" && !e.failed)
  {
    SqlTrimOnTrimmed(e.model);
    SqlTrimOnTrimmed(e.authType);
    SqlTrimOnTrimmed(e.provider);
    SqlTrimOnTrimmed(e.source);
    SqlTrimOnTrimmed(e.authIndex);
  }

  lemma {:induction false} SelectedEvents(f: UsageQueryFilter, events: seq<UsageEvent>, e: UsageEvent)
    ensures e in Select(f, events) <==> e in events && Selects(f, e)
  {
    if events != [] {
      var n := |events| - 1;
      SelectedEvents(f, events[..n], e);
      assert events == events[..n] + [events[n]];
    }
  }

  predicate Ascending(events: seq<UsageEvent>) {
    forall i, j :: 0 <= i < j < |events| ==> events[i].timestamp <= events[j].timestamp
  }

  /** SELECT timestamp ... ORDER BY timestamp DESC LIMIT 1. */
  function LatestTimestamp(events: seq<UsageEvent>): (t: Option<Instant>)
    ensures t.None? <==> events == []
    ensures t.Some? ==> (exists i :: 0 <= i < |events| && events[i].timestamp == t.value)
                        && forall i :: 0 <= i < |events| ==> events[i].timestamp <= t.value
  {
    if events == [] then None
    else
      var last := events[|events| - 1].timestamp;
      var before := LatestTimestamp(events[..|events| - 1]);
      if before.Some? && before.value > last then before else Some(last)
  }

  lemma LatestGrows(a: seq<UsageEvent>, b: seq<UsageEvent>)
    requires a != [] && forall e :: e in a ==> e in b
    ensures b != [] && LatestTimestamp(a).value <= LatestTimestamp(b).value
  {
    var i :| 0 <= i < |a| && a[i].timestamp == LatestTimestamp(a).value;
    assert a[i] in b;
    var j :| 0 <= j < |b| && b[j] == a[i];
  }

  /** Only the contents of a table matter for its latest timestamp, not their order. */
  lemma LatestOfSameEvents(a: seq<UsageEvent>, b: seq<UsageEvent>)
    requires forall e :: e in a <==> e in b
    ensures LatestTimestamp(a) == LatestTimestamp(b)
  {
    if a != [] { LatestGrows(a, b); }
    if b != [] { LatestGrows(b, a); }
  }

  /** computeWindowMinutes: whole minutes, rounded up; the difference of two times saturates at the int64 range. */
  function WindowMinutes(f: UsageQueryFilter): (m: int)
    ensures m >= 0
  {
    if f.startTime.None? || f.endTime.None? || f.endTime.value < f.startTime.value then 0
    else
      var d := if f.endTime.value - f.startTime.value > INT64_MAX then INT64_MAX
               else f.endTime.value - f.startTime.value;
      var minutes := d / MINUTE + if d % MINUTE != 0 then 1 else 0;
      if minutes < 1 then 1 else minutes
  }

  /** The window of a range is the shortest whole number of minutes that covers it, and at least one; there is
      none if an end is missing or the ends are the wrong way round. */
  lemma WindowMinutesCover(f: UsageQueryFilter)
    ensures if f.startTime.None? || f.endTime.None? || f.endTime.value < f.startTime.value then WindowMinutes(f) == 0
            else
              var m, d := WindowMinutes(f), f.endTime.value - f.startTime.value;
              (d == 0 ==> m == 1) && (0 < d <= INT64_MAX ==> (m - 1) * MINUTE < d <= m * MINUTE)
  {
  }

  const DAILY_BUCKET_THRESHOLD_MINUTES: int := 7 * 24 * 60

  function BucketByDay(f: UsageQueryFilter): bool {
    f.range == "all" || f.range == "7d" || WindowMinutes(f) >= DAILY_BUCKET_THRESHOLD_MINUTES
  }

  /** Buckets are days for the two long presets, and for ranges of a week, less a minute at most. */
  lemma DaysFromAWeekOn(f: UsageQueryFilter)
    requires f.startTime.Some? && f.endTime.Some? && 0 <= f.endTime.value - f.startTime.value <= INT64_MAX
    ensures BucketByDay(f) <==> f.range in {"all", "7d"} || f.endTime.value - f.startTime.value > 7 * DAY - MINUTE
  {
    WindowMinutesCover(f);
  }
}

/** The "HH:MM-HH:MM" buckets of an auth file, resolved against the local clock
    (parseAuthFileRecentRequestBucket, internal/service/sync.go). */
module RecentBuckets {
  import opened Text
  import opened Calendar

  datatype Clock = Clock(hour: nat, minute: nat)

  predicate ValidClock(c: Clock) { c.hour < 24 && c.minute < 60 }

  function SinceMidnight(c: Clock): (d: int)
    ensures ValidClock(c) ==> 0 <= d <= DAY - MINUTE
  {
    c.hour * HOUR + c.minute * MINUTE
  }

  /** parseHourMinute. */
  function ParseHourMinute(value: string): (r: Option<Clock>)
    ensures r.Some? ==> ValidClock(r.value)
  {
    var parts := Split(Trim(value), ':');
    if |parts| != 2 then None
    else
      var hour := Atoi(parts[0]);
      if hour.None? || hour.value < 0 || hour.value > 23 then None
      else
        var minute := Atoi(parts[1]);
        if minute.None? || minute.value < 0 || minute.value > 59 then None else Some(Clock(hour.value, minute.value))
  }

  datatype Span = Span(start: Instant, end: Instant)

  /** Midnight of the local day of t, for the zone `offset` ahead of UTC. */
  function Midnight(t: Instant, offset: int): (m: Instant)
    ensures m <= t < m + DAY && (m + offset) % DAY == 0
  {
    var m := t - (t + offset) % DAY;
    DivModUnique(m + offset, DAY, (t + offset) / DAY, 0);
    m
  }

  /** The span a pair of clock times names, seen at `now`. */
  function Resolve(from: Clock, to: Clock, now: Instant, offset: int): Span {
    var start := Midnight(now, offset) + SinceMidnight(from);
    var end0 := Midnight(now, offset) + SinceMidnight(to);
    var end := if end0 <= start then end0 + DAY else end0;
    if start > now + MINUTE then Span(start - DAY, end - DAY) else Span(start, end)
  }

  function ParseBucket(value: string, now: Instant, offset: int): Option<Span> {
    var parts := Split(Trim(value), '-');
    if |parts| != 2 then None
    else
      var from, to := ParseHourMinute(parts[0]), ParseHourMinute(parts[1]);
      if from.None? || to.None? then None else Some(Resolve(from.value, to.value, now, offset))
  }

  /** Whatever the text and the clock, a bucket is a non-empty span of at most a day that starts
      within the last day or the next minute. */
  lemma BucketBounds(value: string, now: Instant, offset: int)
    requires ParseBucket(value, now, offset).Some?
    ensures var s := ParseBucket(value, now, offset).value;
            s.start < s.end <= s.start + DAY && now - DAY < s.start <= now + MINUTE
  {
  }

  /** A span depends on the clock only through its start: its length is fixed by the text. */
  lemma SpanLength(from: Clock, to: Clock, now: Instant, later: Instant, offset: int)
    requires ValidClock(from) && ValidClock(to)
    ensures var s, t := Resolve(from, to, now, offset), Resolve(from, to, later, offset);
            s.end - s.start == t.end - t.start
  {
  }

  predicate SameLocalDay(s: Instant, t: Instant, offset: int) { Midnight(s, offset) == Midnight(t, offset) }

  lemma MidnightsApart(s: Instant, t: Instant, offset: int)
    ensures exists k: int :: Midnight(t, offset) == Midnight(s, offset) + k * DAY
  {
    var a, b := Midnight(s, offset), Midnight(t, offset);
    var k := (b + offset) / DAY - (a + offset) / DAY;
    assert b == a + k * DAY;
  }

  /** When a bucket text resolves to the span that truly starts at S: on the local day of S from a
      minute before S on, and on the next day until a minute short of 24 hours have passed. */
  lemma ResolvesToTrueStart(from: Clock, to: Clock, s: Instant, now: Instant, offset: int)
    requires ValidClock(from) && ValidClock(to)
    requires s == Midnight(s, offset) + SinceMidnight(from)
    ensures Resolve(from, to, now, offset).start == s <==>
              if SameLocalDay(s, now, offset) then s - MINUTE <= now else s <= now < s + DAY - MINUTE
  {
    MidnightsApart(s, now, offset);
    var k :| Midnight(now, offset) == Midnight(s, offset) + k * DAY;
    if k >= 2 { MulMonotone(2, k, DAY); }
    if k <= -1 { MulMonotone(k, -1, DAY); }
  }

  /** So every clock value from S until a minute short of a day later resolves the text to S. */
  lemma ResolvesStably(from: Clock, to: Clock, s: Instant, now: Instant, offset: int)
    requires ValidClock(from) && ValidClock(to)
    requires s == Midnight(s, offset) + SinceMidnight(from) && s <= now < s + DAY - MINUTE
    ensures Resolve(from, to, now, offset) == Resolve(from, to, s, offset)
    ensures Resolve(from, to, now, offset).start == s
  {
    ResolvesToTrueStart(from, to, s, now, offset);
    ResolvesToTrueStart(from, to, s, s, offset);
    SpanLength(from, to, now, s, offset);
  }

  // ------------------------------------------------------------------- the texts

  function ClockText(c: Clock): string { Pad(c.hour, 2) + [':'] + Pad(c.minute, 2) }

  function BucketText(from: Clock, to: Clock): string { ClockText(from) + ['-'] + ClockText(to) }

  lemma PadReadsBack(n: nat)
    requires n < 60
    ensures Atoi(Pad(n, 2)) == Some(n)
  {
    PadToValue(Digits(n), 2);
    DigitsRoundTrip(n);
  }

  lemma ClockTextShape(c: Clock)
    ensures Free(ClockText(c), '-') && Trimmed(ClockText(c)) && ClockText(c) != ""
  {
  }

  lemma ClockTextReadsBack(c: Clock)
    requires ValidClock(c)
    ensures ParseHourMinute(ClockText(c)) == Some(c)
  {
    var s := ClockText(c);
    ClockTextShape(c);
    TrimIsTrimmed(s);
    var parts := [Pad(c.hour, 2), Pad(c.minute, 2)];
    assert Join(parts, ':') == s by { assert parts[1..] == [parts[1]]; }
    SplitOfJoin(parts, ':');
    PadReadsBack(c.hour);
    PadReadsBack(c.minute);
  }

  /** Every bucket text the proxy prints is read back as the clock times it was printed from. */
  lemma BucketTextReadsBack(from: Clock, to: Clock, now: Instant, offset: int)
    requires ValidClock(from) && ValidClock(to)
    ensures ParseBucket(BucketText(from, to), now, offset) == Some(Resolve(from, to, now, offset))
  {
    var s := BucketText(from, to);
    ClockTextReadsBack(from);
    ClockTextReadsBack(to);
    ClockTextShape(from);
    ClockTextShape(to);
    assert s[0] == ClockText(from)[0] && s[|s| - 1] == ClockText(to)[|ClockText(to)| - 1];
    TrimIsTrimmed(s);
    var parts := [ClockText(from), ClockText(to)];
    assert Join(parts, '-') == s by { assert parts[1..] == [parts[1]]; }
    SplitOfJoin(parts, '-');
  }
}

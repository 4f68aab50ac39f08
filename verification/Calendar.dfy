/** Instants and the texts the program prints them as. An instant is a count of
    nanoseconds since 0000-01-01T00:00:00Z; the local zone is a fixed offset. */
module Calendar {
  import opened Text

  type Instant = int

  const SECOND: int := 1_000_000_000
  const MINUTE: int := 60 * SECOND
  const HOUR: int := 60 * MINUTE
  const DAY: int := 24 * HOUR

  /** Go's zero time.Time, 0001-01-01T00:00:00Z: year 0 is a leap year. */
  const GO_ZERO_TIME: Instant := 366 * DAY

  /** 1970-01-01T00:00:00Z, from which Unix time counts. */
  const UNIX_EPOCH: Instant := 719_528 * DAY

  /** time.Time.Truncate for a positive duration. */
  function Truncate(t: Instant, d: int): (r: Instant)
    requires d > 0
    ensures r <= t < r + d
  {
    t - t % d
  }

  predicate IsLeap(year: nat) { year % 4 == 0 && (year % 100 != 0 || year % 400 == 0) }

  function YearDays(year: nat): nat { if IsLeap(year) then 366 else 365 }

  function MonthDays(year: nat, month: nat): (days: nat)
    requires 1 <= month <= 12
    ensures 28 <= days <= 31
  {
    if month == 2 then (if IsLeap(year) then 29 else 28)
    else if month == 4 || month == 6 || month == 9 || month == 11 then 30
    else 31
  }

  /** The year containing the given day, counted from the first day of year `from`. */
  function YearAt(day: nat, from: nat): (r: (nat, nat))
    ensures r.0 >= from && r.1 < YearDays(r.0)
    decreases day
  {
    if day < YearDays(from) then (from, day) else YearAt(day - YearDays(from), from + 1)
  }

  /** The month containing the given day, counted from the first day of month `from`. */
  function MonthAt(day: nat, year: nat, from: nat): (r: (nat, nat))
    requires 1 <= from <= 12
    ensures from <= r.0 <= 12 && r.1 <= day
    decreases 12 - from
  {
    if from == 12 || day < MonthDays(year, from) then (from, day)
    else MonthAt(day - MonthDays(year, from), year, from + 1)
  }

  lemma {:induction false} YearAtInjective(a: nat, b: nat, from: nat)
    requires YearAt(a, from) == YearAt(b, from)
    ensures a == b
    decreases a
  {
    if a >= YearDays(from) && b >= YearDays(from) {
      YearAtInjective(a - YearDays(from), b - YearDays(from), from + 1);
    }
  }

  lemma {:induction false} MonthAtInjective(a: nat, b: nat, year: nat, from: nat)
    requires 1 <= from <= 12
    requires MonthAt(a, year, from) == MonthAt(b, year, from)
    ensures a == b
    decreases 12 - from
  {
    if from < 12 && a >= MonthDays(year, from) && b >= MonthDays(year, from) {
      MonthAtInjective(a - MonthDays(year, from), b - MonthDays(year, from), year, from + 1);
    }
  }

  function DaysFrom(year: nat, month: nat): nat
    requires 1 <= month <= 12
    decreases 12 - month
  {
    MonthDays(year, month) + if month == 12 then 0 else DaysFrom(year, month + 1)
  }

  lemma {:induction false} MonthAtDay(day: nat, year: nat, from: nat)
    requires 1 <= from <= 12 && day < DaysFrom(year, from)
    ensures var r := MonthAt(day, year, from); r.1 < MonthDays(year, r.0)
    decreases 12 - from
  {
    if from < 12 && day >= MonthDays(year, from) {
      MonthAtDay(day - MonthDays(year, from), year, from + 1);
    }
  }

  lemma YearHasItsMonths(year: nat)
    ensures DaysFrom(year, 1) == YearDays(year)
  {
    assert DaysFrom(year, 9) == 30 + 31 + 30 + 31;
    assert DaysFrom(year, 6) == 30 + 31 + 31 + DaysFrom(year, 9);
    assert DaysFrom(year, 3) == 31 + 30 + 31 + DaysFrom(year, 6);
  }

  datatype Civil = Civil(year: nat, month: nat, day: nat, hour: nat, minute: nat, second: nat, nano: nat)

  function CivilOf(t: Instant): (c: Civil)
    requires t >= 0
    ensures 1 <= c.month <= 12 && c.hour < 24 && c.minute < 60 && c.second < 60 && c.nano < SECOND
  {
    var (year, dayOfYear) := YearAt(t / DAY, 0);
    var (month, day) := MonthAt(dayOfYear, year, 1);
    var rest := t % DAY;
    Civil(year, month, day + 1, rest / HOUR, rest % HOUR / MINUTE, rest % MINUTE / SECOND, rest % SECOND)
  }

  lemma CivilDay(t: Instant)
    requires t >= 0
    ensures 1 <= CivilOf(t).day <= 31
  {
    var (year, dayOfYear) := YearAt(t / DAY, 0);
    YearHasItsMonths(year);
    MonthAtDay(dayOfYear, year, 1);
  }

  lemma DateInjective(s: Instant, t: Instant)
    requires s >= 0 && t >= 0
    requires var a, b := CivilOf(s), CivilOf(t); a.year == b.year && a.month == b.month && a.day == b.day
    ensures s / DAY == t / DAY
  {
    DayIsUnique(s / DAY, t / DAY);
  }

  /** Year, month and day, as CivilOf computes them, determine the day count. */
  lemma DayIsUnique(a: nat, b: nat)
    requires var (x, y) := (YearAt(a, 0), YearAt(b, 0)); x.0 == y.0 && MonthAt(x.1, x.0, 1) == MonthAt(y.1, y.0, 1)
    ensures a == b
  {
    var x, y := YearAt(a, 0), YearAt(b, 0);
    MonthAtInjective(x.1, y.1, x.0, 1);
    YearAtInjective(a, b, 0);
  }

  lemma ClockOfDay(rest: int)
    requires 0 <= rest
    ensures rest == rest / HOUR * HOUR + rest % HOUR / MINUTE * MINUTE + rest % MINUTE / SECOND * SECOND + rest % SECOND
  {
    var h := rest % HOUR;
    assert rest == rest / HOUR * HOUR + h;
    assert h == h / MINUTE * MINUTE + h % MINUTE;
    ModMod(rest, 60, MINUTE);
    ModMod(rest, 60, SECOND);
    assert h % MINUTE == rest % MINUTE;
    var m := rest % MINUTE;
    assert m == m / SECOND * SECOND + m % SECOND;
  }

  lemma ModMod(x: int, k: int, d: int)
    requires d > 0 && k > 0 && x >= 0
    ensures k * d > 0 && x % (k * d) % d == x % d
  {
    var q := x / (k * d);
    assert k * d > 0;
    assert x == q * (k * d) + x % (k * d);
    var y := x % (k * d);
    assert x == y + (q * k) * d;
    ModAdd(y, q * k, d);
  }

  lemma ModAdd(y: int, k: int, d: int)
    requires d > 0
    ensures (y + k * d) % d == y % d
  {
    var q, r := y / d, y % d;
    assert y + k * d == (q + k) * d + r;
    DivModUnique(y + k * d, d, q + k, r);
  }

  lemma DivModUnique(x: int, d: int, q: int, r: int)
    requires d > 0 && x == q * d + r && 0 <= r < d
    ensures x / d == q && x % d == r
  {
    var q', r' := x / d, x % d;
    assert x == q' * d + r' && 0 <= r' < d;
    assert (q - q') * d == r' - r;
    SmallMultiple(q - q', d);
  }

  lemma SmallMultiple(k: int, d: int)
    requires -d < k * d < d
    ensures k == 0
  {
    if k >= 1 { MulMonotone(1, k, d); }
    if k <= -1 { MulMonotone(k, -1, d); }
  }

  lemma MulMonotone(a: int, b: int, d: int)
    requires a <= b && d >= 0
    ensures a * d <= b * d
  {
  }

  // -------------------------------------------------------------------- texts

  function DropTrailingZeros(s: string): string {
    if s == "" || s[|s| - 1] != '0' then s else DropTrailingZeros(s[..|s| - 1])
  }

  /** The fractional second of RFC3339Nano: absent when zero, no trailing zeros. */
  function FractionText(nano: nat): string {
    if nano == 0 then "" else "." + DropTrailingZeros(Pad(nano, 9))
  }

  function SecondsText(c: Civil): string { Pad(c.second, 2) + (FractionText(c.nano) + "Z") }
  function MinutesText(c: Civil): string { Pad(c.minute, 2) + [':'] + SecondsText(c) }
  function HoursText(c: Civil): string { Pad(c.hour, 2) + [':'] + MinutesText(c) }
  function DateText(c: Civil, after: string): string {
    Pad(c.year, 4) + ['-'] + (Pad(c.month, 2) + ['-'] + (Pad(c.day, 2) + after))
  }
  function CivilText(c: Civil): string { DateText(c, ['T'] + HoursText(c)) }

  /** time.RFC3339Nano in UTC (section 5.6 of RFC 3339). Decoded instants are never before
      year 0; the mirrored text for earlier ones only makes the function total. */
  function RFC3339Nano(t: Instant): string {
    if t >= 0 then CivilText(CivilOf(t)) else "-" + CivilText(CivilOf(-1 - t))
  }

  lemma {:induction false} DropTrailingZerosParts(s: string)
    ensures var r := DropTrailingZeros(s);
            |r| <= |s| && r == s[..|r|] && forall k :: |r| <= k < |s| ==> s[k] == '0'
  {
    if s != "" && s[|s| - 1] == '0' {
      DropTrailingZerosParts(s[..|s| - 1]);
    }
  }

  lemma DropTrailingZerosInjective(s: string, t: string)
    requires |s| == |t| && DropTrailingZeros(s) == DropTrailingZeros(t)
    ensures s == t
  {
    DropTrailingZerosParts(s);
    DropTrailingZerosParts(t);
    var n := |DropTrailingZeros(s)|;
    forall k | 0 <= k < |s| ensures s[k] == t[k] {
      if k < n { assert s[k] == s[..n][k] && t[k] == t[..n][k]; }
    }
  }

  function Pow10(k: nat): nat { if k == 0 then 1 else 10 * Pow10(k - 1) }

  lemma {:induction false} DigitsWidth(n: nat, k: nat)
    requires n < Pow10(k) && k > 0
    ensures |Digits(n)| <= k
    decreases k
  {
    if n >= 10 { DigitsWidth(n / 10, k - 1); }
  }

  lemma PadWidth(n: nat, k: nat)
    requires n < Pow10(k) && k > 0
    ensures |Pad(n, k)| == k
  {
    DigitsWidth(n, k);
  }

  lemma FractionInjective(m: nat, n: nat)
    requires m < SECOND && n < SECOND
    requires FractionText(m) + "Z" == FractionText(n) + "Z"
    ensures m == n
  {
    var f, g := FractionText(m), FractionText(n);
    assert f == (f + "Z")[..|f|] && g == (g + "Z")[..|g|];
    if m != 0 && n != 0 {
      assert DropTrailingZeros(Pad(m, 9)) == f[1..] == g[1..] == DropTrailingZeros(Pad(n, 9));
      assert Pow10(9) == SECOND;
      PadWidth(m, 9);
      PadWidth(n, 9);
      DropTrailingZerosInjective(Pad(m, 9), Pad(n, 9));
      PadInjective(m, n, 9);
    }
  }

  /** What follows the seconds starts with a non-digit. */
  lemma FractionStart(nano: nat)
    ensures var f := FractionText(nano) + "Z"; f != "" && !IsDigit(f[0])
  {
  }

  /** Cuts one zero-padded field and the separator after it off two equal texts. */
  lemma CutField(m: nat, c: char, x: string, n: nat, d: char, y: string, width: nat)
    requires !IsDigit(c) && !IsDigit(d)
    requires Pad(m, width) + [c] + x == Pad(n, width) + [d] + y
    ensures m == n && c == d && x == y
  {
    DigitRunUnique(Pad(m, width), c, x, Pad(n, width), d, y);
    PadInjective(m, n, width);
  }

  lemma DateTextInjective(a: Civil, x: string, b: Civil, y: string)
    requires x != "" && y != "" && !IsDigit(x[0]) && !IsDigit(y[0])
    requires DateText(a, x) == DateText(b, y)
    ensures a.year == b.year && a.month == b.month && a.day == b.day && x == y
  {
    var da, db := Pad(a.day, 2) + x, Pad(b.day, 2) + y;
    var oa, ob := Pad(a.month, 2) + ['-'] + da, Pad(b.month, 2) + ['-'] + db;
    CutField(a.year, '-', oa, b.year, '-', ob, 4);
    CutField(a.month, '-', da, b.month, '-', db, 2);
    assert x == [x[0]] + x[1..] && y == [y[0]] + y[1..];
    assert da == Pad(a.day, 2) + [x[0]] + x[1..] && db == Pad(b.day, 2) + [y[0]] + y[1..];
    CutField(a.day, x[0], x[1..], b.day, y[0], y[1..], 2);
  }

  lemma SecondsTextInjective(a: Civil, b: Civil)
    requires a.nano < SECOND && b.nano < SECOND && SecondsText(a) == SecondsText(b)
    ensures a.second == b.second && a.nano == b.nano
  {
    var fa, fb := FractionText(a.nano) + "Z", FractionText(b.nano) + "Z";
    FractionStart(a.nano);
    FractionStart(b.nano);
    assert fa == [fa[0]] + fa[1..] && fb == [fb[0]] + fb[1..];
    assert SecondsText(a) == Pad(a.second, 2) + [fa[0]] + fa[1..];
    assert SecondsText(b) == Pad(b.second, 2) + [fb[0]] + fb[1..];
    CutField(a.second, fa[0], fa[1..], b.second, fb[0], fb[1..], 2);
    FractionInjective(a.nano, b.nano);
  }

  lemma CivilTextInjective(a: Civil, b: Civil)
    requires a.nano < SECOND && b.nano < SECOND
    requires CivilText(a) == CivilText(b)
    ensures a == b
  {
    DateTextInjective(a, ['T'] + HoursText(a), b, ['T'] + HoursText(b));
    assert HoursText(a) == (['T'] + HoursText(a))[1..] == (['T'] + HoursText(b))[1..] == HoursText(b);
    CutField(a.hour, ':', MinutesText(a), b.hour, ':', MinutesText(b), 2);
    CutField(a.minute, ':', SecondsText(a), b.minute, ':', SecondsText(b), 2);
    SecondsTextInjective(a, b);
  }

  lemma CivilOfInjective(s: Instant, t: Instant)
    requires s >= 0 && t >= 0 && CivilOf(s) == CivilOf(t)
    ensures s == t
  {
    DateInjective(s, t);
    ClockOfDay(s % DAY);
    ClockOfDay(t % DAY);
  }

  /** Two instants with the same RFC 3339 text are the same instant, to the nanosecond. */
  lemma RFC3339NanoInjective(s: Instant, t: Instant)
    requires RFC3339Nano(s) == RFC3339Nano(t)
    ensures s == t
  {
    var s', t' := if s >= 0 then s else -1 - s, if t >= 0 then t else -1 - t;
    var cs, ct := CivilText(CivilOf(s')), CivilText(CivilOf(t'));
    assert IsDigit(cs[0]) && IsDigit(ct[0]);
    assert (s >= 0) == (t >= 0);
    assert cs == ct by {
      if s < 0 {
        assert cs == RFC3339Nano(s)[1..] && ct == RFC3339Nano(t)[1..];
      }
    }
    CivilTextInjective(CivilOf(s'), CivilOf(t'));
    CivilOfInjective(s', t');
  }

  /** The day part of the layout "2006-01-02", for the zone `offset` ahead of UTC. */
  function DayKey(t: Instant, offset: int): string {
    var local := t + offset;
    if local >= 0 then DateText(CivilOf(local), "")
    else "-" + DateText(CivilOf(-1 - local), "")
  }

  /** The layout "2006-01-02T15:00:00Z". */
  function HourKey(t: Instant): string {
    if t >= 0 then HourOf(CivilOf(t)) else "-" + HourOf(CivilOf(-1 - t))
  }

  function HourOf(c: Civil): string { DateText(c, ['T'] + Pad(c.hour, 2) + ":00:00Z") }

  lemma DateTextShift(c: Civil)
    ensures DateText(c, "") + "T" == DateText(c, "T")
  {
    assert Pad(c.day, 2) + "" == Pad(c.day, 2);
  }

  /** Two instants share a day key exactly if they fall on the same local day. */
  lemma DayKeyIdentifiesDay(s: Instant, t: Instant, offset: int)
    requires s + offset >= 0 && t + offset >= 0
    ensures DayKey(s, offset) == DayKey(t, offset) <==> (s + offset) / DAY == (t + offset) / DAY
  {
    if DayKey(s, offset) == DayKey(t, offset) {
      var a, b := CivilOf(s + offset), CivilOf(t + offset);
      DateTextShift(a);
      DateTextShift(b);
      DateTextInjective(a, "T", b, "T");
      DateInjective(s + offset, t + offset);
    }
  }

  /** The number of an hour, from the day and the hour of the day. */
  lemma HourNumber(t: Instant)
    requires t >= 0
    ensures t / HOUR == t / DAY * 24 + CivilOf(t).hour
  {
    var rest := t % DAY;
    DivModUnique(t, HOUR, t / DAY * 24 + rest / HOUR, rest % HOUR);
  }

  lemma HourTailInjective(m: nat, n: nat)
    requires ['T'] + Pad(m, 2) + ":00:00Z" == ['T'] + Pad(n, 2) + ":00:00Z"
    ensures m == n
  {
    var x, y := ['T'] + Pad(m, 2) + ":00:00Z", ['T'] + Pad(n, 2) + ":00:00Z";
    assert x[1..] == Pad(m, 2) + [':'] + "00:00Z" && y[1..] == Pad(n, 2) + [':'] + "00:00Z";
    CutField(m, ':', "00:00Z", n, ':', "00:00Z", 2);
  }

  lemma SameDayAndHour(s: Instant, t: Instant)
    requires s >= 0 && t >= 0 && s / HOUR == t / HOUR
    ensures s / DAY == t / DAY && CivilOf(s).hour == CivilOf(t).hour
  {
    HourNumber(s);
    HourNumber(t);
    DivModUnique(s / HOUR, 24, s / DAY, CivilOf(s).hour);
    DivModUnique(t / HOUR, 24, t / DAY, CivilOf(t).hour);
  }

  lemma HourKeyOfDayAndHour(s: Instant, t: Instant)
    requires s >= 0 && t >= 0 && s / DAY == t / DAY && CivilOf(s).hour == CivilOf(t).hour
    ensures HourKey(s) == HourKey(t)
  {
  }

  /** Two instants share an hour key exactly if they fall into the same UTC hour. */
  lemma HourKeyIdentifiesHour(s: Instant, t: Instant)
    requires s >= 0 && t >= 0
    ensures HourKey(s) == HourKey(t) <==> s / HOUR == t / HOUR
  {
    var a, b := CivilOf(s), CivilOf(t);
    if HourKey(s) == HourKey(t) {
      HourNumber(s);
      HourNumber(t);
      DateTextInjective(a, ['T'] + Pad(a.hour, 2) + ":00:00Z", b, ['T'] + Pad(b.hour, 2) + ":00:00Z");
      DateInjective(s, t);
      HourTailInjective(a.hour, b.hour);
    }
    if s / HOUR == t / HOUR {
      SameDayAndHour(s, t);
      HourKeyOfDayAndHour(s, t);
    }
  }

  /** The layout "20060102T150405Z" used in synthetic keys and history file names. */
  function CompactText(t: Instant): string
    requires t >= 0
  {
    var c := CivilOf(t);
    Pad(c.year, 4) + CompactTail(c)
  }

  function CompactTail(c: Civil): string {
    Pad(c.month, 2) + Pad(c.day, 2) + "T" + Pad(c.hour, 2) + Pad(c.minute, 2) + Pad(c.second, 2) + "Z"
  }

  lemma CompactTailInjective(a: Civil, b: Civil)
    requires a.month < 100 && a.day < 100 && a.hour < 100 && a.minute < 100 && a.second < 100
    requires b.month < 100 && b.day < 100 && b.hour < 100 && b.minute < 100 && b.second < 100
    ensures |CompactTail(a)| == |CompactTail(b)| == 12
    ensures CompactTail(a) == CompactTail(b) ==>
              a.month == b.month && a.day == b.day && a.hour == b.hour && a.minute == b.minute && a.second == b.second
  {
    CompactTailParts(a);
    CompactTailParts(b);
    if CompactTail(a) == CompactTail(b) {
      PadInjective(a.month, b.month, 2);
      PadInjective(a.day, b.day, 2);
      PadInjective(a.hour, b.hour, 2);
      PadInjective(a.minute, b.minute, 2);
      PadInjective(a.second, b.second, 2);
    }
  }

  lemma CompactTailParts(c: Civil)
    requires c.month < 100 && c.day < 100 && c.hour < 100 && c.minute < 100 && c.second < 100
    ensures var s := CompactTail(c);
            |s| == 12 && s[..2] == Pad(c.month, 2) && s[2..4] == Pad(c.day, 2) && s[5..7] == Pad(c.hour, 2)
            && s[7..9] == Pad(c.minute, 2) && s[9..11] == Pad(c.second, 2)
  {
    assert Pow10(2) == 100;
    PadWidth(c.month, 2);
    PadWidth(c.day, 2);
    PadWidth(c.hour, 2);
    PadWidth(c.minute, 2);
    PadWidth(c.second, 2);
  }

  lemma SecondOf(t: Instant)
    requires t >= 0
    ensures var c := CivilOf(t);
            t / SECOND == t / DAY * 86400 + c.hour * 3600 + c.minute * 60 + c.second
  {
    var c := CivilOf(t);
    ClockOfDay(t % DAY);
    var whole := t / DAY * 86400 + c.hour * 3600 + c.minute * 60 + c.second;
    assert t == whole * SECOND + c.nano;
    DivModUnique(t, SECOND, whole, c.nano);
  }

  /** The compact layout identifies the second. */
  lemma CompactTextInjective(s: Instant, t: Instant)
    requires s >= 0 && t >= 0 && CompactText(s) == CompactText(t)
    ensures s / SECOND == t / SECOND
  {
    var a, b := CivilOf(s), CivilOf(t);
    CivilDay(s);
    CivilDay(t);
    CompactTailInjective(a, b);
    var x, y := CompactText(s), CompactText(t);
    assert x[..|x| - 12] == Pad(a.year, 4) && x[|x| - 12..] == CompactTail(a);
    assert y[..|y| - 12] == Pad(b.year, 4) && y[|y| - 12..] == CompactTail(b);
    PadInjective(a.year, b.year, 4);
    DateInjective(s, t);
    SecondOf(s);
    SecondOf(t);
  }
}

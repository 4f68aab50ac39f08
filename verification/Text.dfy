/** String helpers the Go and Python code takes from its standard libraries:
    TrimSpace, SQL TRIM, Split, decimal printing and strconv.Atoi, together
    with the injectivity facts that event keys and wire formats rest on. */
module Text {

  datatype Option<+T> = None | Some(value: T)

  const INT64_MIN: int := -0x8000_0000_0000_0000
  const INT64_MAX: int := 0x7FFF_FFFF_FFFF_FFFF

  /** Two's-complement wrap-around of a Go int64 result. */
  function Wrap64(x: int): (r: int)
    ensures INT64_MIN <= r <= INT64_MAX
    ensures INT64_MIN <= x <= INT64_MAX ==> r == x
  {
    (x - INT64_MIN) % 0x1_0000_0000_0000_0000 + INT64_MIN
  }

  // ---------------------------------------------------------------- trimming

  /** White space as Go's unicode.IsSpace sees it. */
  predicate IsSpace(c: char) {
    var n := c as int;
    9 <= n <= 13 || n == 0x20 || n == 0x85 || n == 0xA0 || n == 0x1680 || 0x2000 <= n <= 0x200A
    || n == 0x2028 || n == 0x2029 || n == 0x202F || n == 0x205F || n == 0x3000
  }

  datatype Trimmer = GoTrimSpace | SqlTrimSpaces

  /** SQL TRIM strips the space character only. */
  predicate Blank(c: char, how: Trimmer) { if how == SqlTrimSpaces then c == ' ' else IsSpace(c) }

  function DropLeading(s: string, how: Trimmer): string {
    if s == "" || !Blank(s[0], how) then s else DropLeading(s[1..], how)
  }

  function DropTrailing(s: string, how: Trimmer): string {
    if s == "" || !Blank(s[|s| - 1], how) then s else DropTrailing(s[..|s| - 1], how)
  }

  /** strings.TrimSpace. */
  function Trim(s: string): string { DropTrailing(DropLeading(s, GoTrimSpace), GoTrimSpace) }

  /** SQL TRIM. */
  function SqlTrim(s: string): string { DropTrailing(DropLeading(s, SqlTrimSpaces), SqlTrimSpaces) }

  predicate Trimmed(s: string) {
    s != "" ==> !IsSpace(s[0]) && !IsSpace(s[|s| - 1])
  }

  lemma {:induction false} TrailingKeepsFirst(s: string, how: Trimmer)
    requires s != "" ==> !Blank(s[0], how)
    ensures var r := DropTrailing(s, how);
            (s != "" ==> r != "" && r[0] == s[0]) && (r != "" ==> !Blank(r[|r| - 1], how))
  {
    if s != "" && Blank(s[|s| - 1], how) {
      TrailingKeepsFirst(s[..|s| - 1], how);
    }
  }

  lemma {:induction false} LeadingStops(s: string, how: Trimmer)
    ensures var r := DropLeading(s, how); r != "" ==> !Blank(r[0], how)
  {
    if s != "" && Blank(s[0], how) {
      LeadingStops(s[1..], how);
    }
  }

  /** TrimSpace always returns a trimmed string and is the identity exactly on those. */
  lemma TrimIsTrimmed(s: string)
    ensures Trimmed(Trim(s))
    ensures Trim(s) == s <==> Trimmed(s)
    ensures Trim(Trim(s)) == Trim(s)
  {
    var l := DropLeading(s, GoTrimSpace);
    LeadingStops(s, GoTrimSpace);
    TrailingKeepsFirst(l, GoTrimSpace);
    var t := Trim(s);
    assert Trimmed(t);
  }

  /** SQL TRIM of a trimmed value changes nothing. */
  lemma SqlTrimTwice(s: string)
    ensures SqlTrim(SqlTrim(s)) == SqlTrim(s)
  {
    LeadingStops(s, SqlTrimSpaces);
    TrailingKeepsFirst(DropLeading(s, SqlTrimSpaces), SqlTrimSpaces);
  }

  /** On a string Go has trimmed, SQL TRIM changes nothing either. */
  lemma SqlTrimOnTrimmed(s: string)
    requires Trimmed(s)
    ensures SqlTrim(s) == s
  {
  }

  /** firstNonEmpty. */
  function FirstNonEmpty(values: seq<string>): string {
    if values == [] then "" else if Trim(values[0]) != "" then Trim(values[0]) else FirstNonEmpty(values[1..])
  }

  /** It is blank only if all arguments are, and otherwise the first argument that is not, trimmed. */
  lemma {:induction false} FirstNonEmptyFinds(values: seq<string>)
    ensures var r := FirstNonEmpty(values);
            if forall i :: 0 <= i < |values| ==> Trim(values[i]) == "" then r == ""
            else exists i :: 0 <= i < |values| && r == Trim(values[i]) && r != ""
                             && forall j :: 0 <= j < i ==> Trim(values[j]) == ""
  {
    if values != [] && Trim(values[0]) == "" {
      var rest := values[1..];
      FirstNonEmptyFinds(rest);
      assert forall i :: 0 < i < |values| ==> values[i] == rest[i - 1];
      if !(forall i :: 0 <= i < |rest| ==> Trim(rest[i]) == "") {
        var k :| 0 <= k < |rest| && FirstNonEmpty(rest) == Trim(rest[k]) != ""
                 && forall j :: 0 <= j < k ==> Trim(rest[j]) == "";
        assert Trim(values[k + 1]) == FirstNonEmpty(values);
        forall j | 0 <= j < k + 1 ensures Trim(values[j]) == "" {
          if j > 0 { assert values[j] == rest[j - 1]; }
        }
      }
    }
  }

  lemma FirstNonEmptyOf(head: string, rest: seq<string>)
    ensures FirstNonEmpty([head] + rest) == if Trim(head) != "" then Trim(head) else FirstNonEmpty(rest)
  {
    assert ([head] + rest)[0] == head && ([head] + rest)[1..] == rest;
  }

  lemma {:induction false} FirstNonEmptyBeforeBlank(values: seq<string>, last: string)
    requires Trim(last) == ""
    ensures FirstNonEmpty(values + [last]) == FirstNonEmpty(values)
  {
    if values == [] {
      assert [last][1..] == [] && values + [last] == [last];
    } else {
      assert (values + [last])[0] == values[0] && (values + [last])[1..] == values[1..] + [last];
      FirstNonEmptyBeforeBlank(values[1..], last);
    }
  }

  lemma {:induction false} FirstNonEmptyTrimmed(values: seq<string>)
    ensures Trimmed(FirstNonEmpty(values))
  {
    if values != [] {
      TrimIsTrimmed(values[0]);
      FirstNonEmptyTrimmed(values[1..]);
    }
  }

  // ---------------------------------------------------------------- decimals

  predicate IsDigit(c: char) { '0' <= c <= '9' }

  predicate AllDigits(s: string) { forall i :: 0 <= i < |s| ==> IsDigit(s[i]) }

  function DigitChar(d: nat): (c: char)
    requires d < 10
    ensures IsDigit(c) && c as int - '0' as int == d
  {
    (d + '0' as int) as char
  }

  function Digits(n: nat): (s: string)
    ensures s != "" && AllDigits(s)
  {
    if n < 10 then [DigitChar(n)] else Digits(n / 10) + [DigitChar(n % 10)]
  }

  /** The value of a run of decimal digits, most significant first. */
  function DigitsValue(s: string): nat
    requires AllDigits(s)
  {
    if s == "" then 0 else 10 * DigitsValue(s[..|s| - 1]) + (s[|s| - 1] as int - '0' as int)
  }

  lemma {:induction false} DigitsRoundTrip(n: nat)
    ensures DigitsValue(Digits(n)) == n
  {
    if n >= 10 {
      DigitsRoundTrip(n / 10);
      assert Digits(n)[..|Digits(n)| - 1] == Digits(n / 10);
    }
  }

  lemma {:induction false} LeadingZero(s: string)
    requires AllDigits(s)
    ensures DigitsValue("0" + s) == DigitsValue(s)
  {
    if s == "" {
      assert "0" + s == "0";
      assert DigitsValue("0"[..0]) == 0;
    } else {
      LeadingZero(s[..|s| - 1]);
      assert ("0" + s)[..|s|] == "0" + s[..|s| - 1];
    }
  }

  /** Decimal text left-padded with zeros to at least width characters. */
  function Pad(n: nat, width: nat): (s: string)
    ensures s != "" && AllDigits(s)
  {
    PadTo(Digits(n), width)
  }

  function PadTo(s: string, width: nat): (r: string)
    requires s != "" && AllDigits(s)
    ensures r != "" && AllDigits(r)
    ensures |r| == if |s| < width then width else |s|
    decreases width - |s|
  {
    if |s| < width then PadTo("0" + s, width) else s
  }

  lemma {:induction false} PadToValue(s: string, width: nat)
    requires s != "" && AllDigits(s)
    ensures DigitsValue(PadTo(s, width)) == DigitsValue(s)
    decreases width - |s|
  {
    if |s| < width {
      LeadingZero(s);
      PadToValue("0" + s, width);
    }
  }

  lemma PadInjective(m: nat, n: nat, width: nat)
    requires Pad(m, width) == Pad(n, width)
    ensures m == n
  {
    PadToValue(Digits(m), width);
    PadToValue(Digits(n), width);
    DigitsRoundTrip(m);
    DigitsRoundTrip(n);
  }

  /** fmt %d. */
  function Decimal(n: int): (s: string)
    ensures s != "" && (s[0] == '-' || IsDigit(s[0])) && IsDigit(s[|s| - 1])
    ensures forall i :: 0 <= i < |s| ==> s[i] == '-' || IsDigit(s[i])
    ensures s[0] == '-' <==> n < 0
  {
    if n < 0 then "-" + Digits(-n) else Digits(n)
  }

  lemma DecimalInjective(m: int, n: int)
    requires Decimal(m) == Decimal(n)
    ensures m == n
  {
    if m < 0 {
      assert Digits(-m) == Decimal(m)[1..] == Decimal(n)[1..] == Digits(-n);
      DigitsRoundTrip(-m);
      DigitsRoundTrip(-n);
    } else {
      DigitsRoundTrip(m);
      DigitsRoundTrip(n);
    }
  }

  /** strconv.Atoi on a 64-bit platform: an optional sign, at least one digit, in int64 range. */
  function Atoi(s: string): (r: Option<int>)
    ensures r.Some? ==> INT64_MIN <= r.value <= INT64_MAX && s != ""
  {
    var signed := s != "" && (s[0] == '+' || s[0] == '-');
    var digits := if signed then s[1..] else s;
    if digits == "" || !AllDigits(digits) then None
    else
      var magnitude: int := DigitsValue(digits);
      var v := if signed && s[0] == '-' then -magnitude else magnitude;
      if INT64_MIN <= v <= INT64_MAX then Some(v) else None
  }

  /** Atoi reads back every int64 that %d prints. */
  lemma AtoiReadsDecimal(n: int)
    requires INT64_MIN <= n <= INT64_MAX
    ensures Atoi(Decimal(n)) == Some(n)
  {
    var s := Decimal(n);
    if n < 0 {
      assert s[1..] == Digits(-n);
      DigitsRoundTrip(-n);
    } else {
      DigitsRoundTrip(n);
    }
  }

  // -------------------------------------------------------------- appending

  function Concat<T>(pieces: seq<seq<T>>): seq<T> {
    if pieces == [] then [] else Concat(pieces[..|pieces| - 1]) + pieces[|pieces| - 1]
  }

  lemma {:induction false} ConcatAppend<T>(a: seq<seq<T>>, b: seq<seq<T>>)
    ensures Concat(a + b) == Concat(a) + Concat(b)
  {
    if b == [] {
      assert a + b == a;
    } else {
      var n := |b| - 1;
      assert (a + b)[..|a| + n] == a + b[..n];
      ConcatAppend(a, b[..n]);
      assert Concat(a) + (Concat(b[..n]) + b[n]) == Concat(a) + Concat(b[..n]) + b[n];
    }
  }

  lemma ConcatOne<T>(piece: seq<T>)
    ensures Concat([piece]) == piece
  {
    assert [piece][..0] == [];
    assert Concat<T>([]) + piece == piece;
  }

  // ---------------------------------------------------------------- splitting

  predicate Free(s: string, c: char) { c !in s }

  function IndexOf(s: string, c: char): (i: nat)
    ensures i <= |s|
    ensures forall k :: 0 <= k < i ==> s[k] != c
    ensures i < |s| ==> s[i] == c
  {
    if s == "" || s[0] == c then 0
    else
      var i := IndexOf(s[1..], c);
      assert forall k :: 0 < k <= i ==> s[k] == s[1..][k - 1] || k == i + 1;
      i + 1
  }

  /** strings.Split with a one-character separator. */
  function Split(s: string, sep: char): (parts: seq<string>)
    ensures |parts| > 0
    decreases |s|
  {
    var i := IndexOf(s, sep);
    if i == |s| then [s] else [s[..i]] + Split(s[i + 1..], sep)
  }

  function Join(parts: seq<string>, sep: char): string
    requires |parts| > 0
  {
    if |parts| == 1 then parts[0] else parts[0] + [sep] + Join(parts[1..], sep)
  }

  lemma SameMiddle(head: string, s: string, t: string, tail: string)
    requires head + s + tail == head + t + tail
    ensures s == t
  {
    assert |s| == |t|;
    assert s == (head + s + tail)[|head|..|head| + |s|];
    assert t == (head + t + tail)[|head|..|head| + |t|];
  }

  lemma SplitCons(head: string, sep: char, tail: string)
    requires Free(head, sep)
    ensures Split(head + [sep] + tail, sep) == [head] + Split(tail, sep)
  {
    var s := head + [sep] + tail;
    assert s[|head|] == sep;
    assert forall k :: 0 <= k < |head| ==> s[k] == head[k];
    var i := IndexOf(s, sep);
    assert i == |head|;
    assert s[..i] == head && s[i + 1..] == tail;
  }

  lemma SplitHead(head: string, sep: char, joined: string, tail: string, parts: seq<string>)
    requires Free(head, sep) && Split(joined + [sep] + tail, sep) == parts + Split(tail, sep)
    ensures Split(head + [sep] + joined + [sep] + tail, sep) == [head] + parts + Split(tail, sep)
  {
    var rest := joined + [sep] + tail;
    assert head + [sep] + joined + [sep] + tail == head + [sep] + rest;
    SplitCons(head, sep, rest);
  }

  /** Joined separator-free parts split back, whatever text follows a further separator. */
  lemma {:induction false} SplitJoined(parts: seq<string>, sep: char, tail: string)
    requires |parts| > 0
    requires forall i :: 0 <= i < |parts| ==> Free(parts[i], sep)
    ensures Split(Join(parts, sep) + [sep] + tail, sep) == parts + Split(tail, sep)
  {
    var head := parts[0];
    assert parts == [head] + parts[1..];
    if |parts| == 1 {
      SplitCons(head, sep, tail);
    } else {
      SplitJoined(parts[1..], sep, tail);
      SplitHead(head, sep, Join(parts[1..], sep), tail, parts[1..]);
    }
  }

  lemma {:induction false} SplitOfJoin(parts: seq<string>, sep: char)
    requires |parts| > 0
    requires forall i :: 0 <= i < |parts| ==> Free(parts[i], sep)
    ensures Split(Join(parts, sep), sep) == parts
  {
    if |parts| == 1 {
      assert IndexOf(parts[0], sep) == |parts[0]|;
      assert parts == [parts[0]];
    } else {
      SplitCons(parts[0], sep, Join(parts[1..], sep));
      SplitOfJoin(parts[1..], sep);
      assert parts == [parts[0]] + parts[1..];
    }
  }

  /** The separator-joined form loses nothing when the parts do not contain the separator. */
  lemma JoinInjective(a: seq<string>, b: seq<string>, sep: char)
    requires |a| > 0 && |b| > 0
    requires forall i :: 0 <= i < |a| ==> Free(a[i], sep)
    requires forall i :: 0 <= i < |b| ==> Free(b[i], sep)
    requires Join(a, sep) == Join(b, sep)
    ensures a == b
  {
    SplitOfJoin(a, sep);
    SplitOfJoin(b, sep);
  }

  /** Length of the digits a text begins with. */
  function DigitRun(s: string): (n: nat)
    ensures n <= |s| && AllDigits(s[..n]) && (n < |s| ==> !IsDigit(s[n]))
  {
    if s == "" || !IsDigit(s[0]) then 0
    else
      var n := DigitRun(s[1..]);
      assert s[..n + 1] == [s[0]] + s[1..][..n];
      n + 1
  }

  lemma DigitRunOf(a: string, c: char, x: string)
    requires AllDigits(a) && !IsDigit(c)
    ensures DigitRun(a + [c] + x) == |a|
  {
    var s := a + [c] + x;
    assert s[|a|] == c;
    assert forall k :: 0 <= k < |a| ==> s[k] == a[k];
    var n := DigitRun(s);
    assert forall k :: 0 <= k < n ==> IsDigit(s[..n][k]) && s[..n][k] == s[k];
  }

  /** A run of digits ends at the first non-digit, so it can be cut off a text uniquely. */
  lemma DigitRunUnique(a: string, c: char, x: string, b: string, d: char, y: string)
    requires AllDigits(a) && AllDigits(b) && !IsDigit(c) && !IsDigit(d)
    requires a + [c] + x == b + [d] + y
    ensures a == b && c == d && x == y
  {
    var s, t := a + [c] + x, b + [d] + y;
    DigitRunOf(a, c, x);
    DigitRunOf(b, d, y);
    assert a == s[..|a|] && b == t[..|b|];
    assert s[|a|] == c && t[|b|] == d;
    assert x == s[|a| + 1..] && y == t[|b| + 1..];
  }
}

/** The Redis serialization protocol (RESP2) as the queue client writes and reads it
    (internal/cpa/redis_queue_client.go). A byte string is a string of characters, one per byte. */
module Resp {
  import opened Text

  datatype Value = Simple(line: string) | Error(message: string) | Bulk(bytes: string) | Array(items: seq<Value>) | Nil

  datatype ReadError = EndOfInput | BadPrefix(prefix: char) | BadSize(line: string)

  /** What was read, and the input left unread. */
  datatype Parsed<T> = Ok(value: T, rest: string) | Err(error: ReadError)

  const CRLF: string := ['\r', '\n']

  /** The line without its terminator: a line feed, and one carriage return before it if there is one. */
  function Chomp(line: string): string {
    if line != "" && line[|line| - 1] == '\r' then line[..|line| - 1] else line
  }

  function ParseLine(s: string): (p: Parsed<string>)
    ensures p.Ok? ==> |p.rest| < |s|
  {
    var i := IndexOf(s, '\n');
    if i == |s| then Err(EndOfInput) else Ok(Chomp(s[..i]), s[i + 1..])
  }

  /** A line holding a decimal size. */
  function ParseSize(s: string): (p: Parsed<int>)
    ensures p.Ok? ==> |p.rest| < |s|
  {
    var line := ParseLine(s);
    if line.Err? then Err(line.error)
    else if Atoi(line.value).None? then Err(BadSize(line.value))
    else Ok(Atoi(line.value).value, line.rest)
  }

  /** readRESPBulk: the two bytes after the payload are skipped unseen. */
  function ParseBulk(s: string): (p: Parsed<Value>)
    ensures p.Ok? ==> |p.rest| < |s|
  {
    var size := ParseSize(s);
    if size.Err? then Err(size.error)
    else if size.value < 0 then Ok(Nil, size.rest)
    else if size.value + 2 > |size.rest| then Err(EndOfInput)
    else Ok(Bulk(size.rest[..size.value]), size.rest[size.value + 2..])
  }

  function ParseItems(s: string, count: nat): (p: Parsed<seq<Value>>)
    ensures p.Ok? ==> |p.rest| <= |s| && |p.value| == count
    decreases |s|, 1
  {
    if count == 0 then Ok([], s)
    else
      var first := ParseValue(s);
      if first.Err? then Err(first.error)
      else
        var others := ParseItems(first.rest, count - 1);
        if others.Err? then others else Ok([first.value] + others.value, others.rest)
  }

  /** readRESPArray. */
  function ParseArray(s: string): (p: Parsed<Value>)
    ensures p.Ok? ==> |p.rest| < |s|
    decreases |s|, 2
  {
    var size := ParseSize(s);
    if size.Err? then Err(size.error)
    else if size.value < 0 then Ok(Nil, size.rest)
    else
      var items := ParseItems(size.rest, size.value);
      if items.Err? then Err(items.error) else Ok(Array(items.value), items.rest)
  }

  /** readRESPValue. Every value takes at least its prefix byte, so nesting ends with the input. */
  function ParseValue(s: string): (p: Parsed<Value>)
    ensures p.Ok? ==> |p.rest| < |s|
    decreases |s|, 0
  {
    if s == "" then Err(EndOfInput)
    else
      match s[0]
      case '+' =>
        var line := ParseLine(s[1..]);
        if line.Err? then Err(line.error) else Ok(Simple(line.value), line.rest)
      case '-' =>
        var line := ParseLine(s[1..]);
        if line.Err? then Err(line.error) else Ok(Error(line.value), line.rest)
      case '$' => ParseBulk(s[1..])
      case '*' => ParseArray(s[1..])
      case _ => Err(BadPrefix(s[0]))
  }

  // --------------------------------------------------------------------- encoding

  /** The encoding RESP2 prescribes. */
  function Render(v: Value): string
    decreases v, 0
  {
    match v
    case Simple(line) => "+" + line + CRLF
    case Error(message) => "-" + message + CRLF
    case Bulk(bytes) => RenderBulk(bytes)
    case Array(items) => "*" + Decimal(|items|) + CRLF + RenderAll(items)
    case Nil => "$" + Decimal(-1) + CRLF
  }

  function RenderBulk(bytes: string): string { "$" + Decimal(|bytes|) + CRLF + bytes + CRLF }

  function RenderAll(items: seq<Value>): string
    decreases items, 1
  {
    if items == [] then "" else Render(items[0]) + RenderAll(items[1..])
  }

  /** Lines hold no line feed; sizes fit an int64. Bulk strings may hold any bytes. */
  predicate Encodable(v: Value)
    decreases v
  {
    match v
    case Simple(line) => Free(line, '\n')
    case Error(message) => Free(message, '\n')
    case Bulk(bytes) => |bytes| <= INT64_MAX
    case Array(items) => |items| <= INT64_MAX && forall i :: 0 <= i < |items| ==> Encodable(items[i])
    case Nil => true
  }

  lemma LineReadsBack(line: string, rest: string)
    requires Free(line, '\n')
    ensures ParseLine(line + CRLF + rest) == Ok(line, rest)
  {
    var s := line + CRLF + rest;
    var n := |line|;
    assert s[n] == '\r' && s[n + 1] == '\n';
    assert forall k :: 0 <= k <= n ==> s[k] != '\n' by {
      forall k | 0 <= k < n ensures s[k] != '\n' { assert s[k] == line[k] && line[k] in line; }
    }
    assert IndexOf(s, '\n') == n + 1;
    assert s[..n + 1] == line + ['\r'] && (line + ['\r'])[..n] == line && s[n + 2..] == rest;
  }

  lemma SizeReadsBack(size: int, rest: string)
    requires INT64_MIN <= size <= INT64_MAX
    ensures ParseSize(Decimal(size) + CRLF + rest) == Ok(size, rest)
  {
    assert Free(Decimal(size), '\n');
    LineReadsBack(Decimal(size), rest);
    AtoiReadsDecimal(size);
  }

  lemma BulkReadsBack(bytes: string, rest: string)
    requires |bytes| <= INT64_MAX
    ensures ParseValue(RenderBulk(bytes) + rest) == Ok(Bulk(bytes), rest)
  {
    var s := RenderBulk(bytes) + rest;
    var body := bytes + CRLF + rest;
    assert s[1..] == Decimal(|bytes|) + CRLF + body;
    SizeReadsBack(|bytes|, body);
    assert body[..|bytes|] == bytes && body[|bytes| + 2..] == rest;
  }

  /** A text line after a prefix byte. */
  lemma PrefixedLine(prefix: char, line: string, rest: string)
    requires Free(line, '\n')
    ensures var s := [prefix] + line + CRLF + rest; s[0] == prefix && ParseLine(s[1..]) == Ok(line, rest)
  {
    var s := [prefix] + line + CRLF + rest;
    assert s[1..] == line + CRLF + rest;
    LineReadsBack(line, rest);
  }

  /** A size after a prefix byte. */
  lemma PrefixedSize(prefix: char, size: int, rest: string)
    requires INT64_MIN <= size <= INT64_MAX
    ensures var s := [prefix] + Decimal(size) + CRLF + rest; s[0] == prefix && ParseSize(s[1..]) == Ok(size, rest)
  {
    var s := [prefix] + Decimal(size) + CRLF + rest;
    assert s[1..] == Decimal(size) + CRLF + rest;
    SizeReadsBack(size, rest);
  }

  /** Round trip: every encodable value, whatever its nesting and whatever bytes its bulk strings hold,
      is read back exactly, and nothing of what follows it is consumed. */
  lemma {:induction false} RenderReadsBack(v: Value, rest: string)
    requires Encodable(v)
    ensures ParseValue(Render(v) + rest) == Ok(v, rest)
    decreases v, 0
  {
    match v
    case Simple(line) => PrefixedLine('+', line, rest);
    case Error(message) => PrefixedLine('-', message, rest);
    case Bulk(bytes) => BulkReadsBack(bytes, rest);
    case Array(items) =>
      ItemsReadBack(items, rest);
      ArrayReadsBack(items, rest);
    case Nil => PrefixedSize('$', -1, rest);
  }

  lemma ArrayReadsBack(items: seq<Value>, rest: string)
    requires |items| <= INT64_MAX && ParseItems(RenderAll(items) + rest, |items|) == Ok(items, rest)
    ensures ParseValue(Render(Array(items)) + rest) == Ok(Array(items), rest)
  {
    var body, all := RenderAll(items) + rest, RenderAll(items);
    PrefixedSize('*', |items|, body);
    var s := ['*'] + Decimal(|items|) + CRLF + body;
    SizedArray(s, items, body, rest);
    Associates(['*'] + Decimal(|items|) + CRLF, all, rest);
    assert Render(Array(items)) == ['*'] + Decimal(|items|) + CRLF + all;
  }

  lemma SizedArray(s: string, items: seq<Value>, body: string, rest: string)
    requires s != "" && s[0] == '*' && ParseSize(s[1..]) == Ok(|items|, body)
             && ParseItems(body, |items|) == Ok(items, rest)
    ensures ParseValue(s) == Ok(Array(items), rest)
  {
  }

  lemma {:induction false} ItemsReadBack(items: seq<Value>, rest: string)
    requires forall i :: 0 <= i < |items| ==> Encodable(items[i])
    ensures ParseItems(RenderAll(items) + rest, |items|) == Ok(items, rest)
    decreases items, 1
  {
    if items == [] {
      assert RenderAll(items) + rest == rest;
    } else {
      var first, others := Render(items[0]), RenderAll(items[1..]);
      RenderReadsBack(items[0], others + rest);
      ItemsReadBack(items[1..], rest);
      Associates(first, others, rest);
      NextItem(first + (others + rest), items[0], others + rest, items[1..], rest);
      HeadAndTail(items);
    }
  }

  lemma HeadAndTail(items: seq<Value>)
    requires items != []
    ensures items == [items[0]] + items[1..] && |items| == |items[1..]| + 1
  {
  }

  lemma Associates(a: string, b: string, c: string)
    ensures a + (b + c) == a + b + c
  {
  }

  lemma NextItem(s: string, v: Value, after: string, others: seq<Value>, rest: string)
    requires ParseValue(s) == Ok(v, after) && ParseItems(after, |others|) == Ok(others, rest)
    ensures ParseItems(s, |others| + 1) == Ok([v] + others, rest)
  {
  }

  /** Different values never have the same encoding, and none is a prefix of another. */
  lemma RenderIsPrefixFree(a: Value, x: string, b: Value, y: string)
    requires Encodable(a) && Encodable(b) && Render(a) + x == Render(b) + y
    ensures a == b && x == y
  {
    RenderReadsBack(a, x);
    RenderReadsBack(b, y);
  }

  // ------------------------------------------------------------- reading a stream

  /** p, with the input left unread extended by t. */
  function Extended<T>(p: Parsed<T>, t: string): Parsed<T> { if p.Ok? then Ok(p.value, p.rest + t) else p }

  lemma LineExtends(s: string, t: string)
    requires ParseLine(s).Ok?
    ensures ParseLine(s + t) == Extended(ParseLine(s), t)
  {
    var i := IndexOf(s, '\n');
    assert (s + t)[i] == s[i];
    assert forall k :: 0 <= k < i ==> (s + t)[k] == s[k];
    assert IndexOf(s + t, '\n') == i;
    assert (s + t)[..i] == s[..i] && (s + t)[i + 1..] == s[i + 1..] + t;
  }

  lemma SizeExtends(s: string, t: string)
    requires ParseSize(s).Ok?
    ensures ParseSize(s + t) == Extended(ParseSize(s), t)
  {
    LineExtends(s, t);
  }

  lemma SlicesExtend(s: string, n: nat, t: string)
    requires n + 2 <= |s|
    ensures (s + t)[..n] == s[..n] && (s + t)[n + 2..] == s[n + 2..] + t
  {
  }

  lemma BulkExtends(s: string, t: string)
    requires ParseBulk(s).Ok?
    ensures ParseBulk(s + t) == Extended(ParseBulk(s), t)
  {
    SizeExtends(s, t);
    var size := ParseSize(s);
    if size.value >= 0 { SlicesExtend(size.rest, size.value, t); }
  }

  /** A value once complete stays the same however the stream goes on. */
  lemma {:induction false} ValueExtends(s: string, t: string)
    requires ParseValue(s).Ok?
    ensures ParseValue(s + t) == Extended(ParseValue(s), t)
    decreases |s|, 0
  {
    assert (s + t)[0] == s[0] && (s + t)[1..] == s[1..] + t;
    match s[0]
    case '+' => LineExtends(s[1..], t);
    case '-' => LineExtends(s[1..], t);
    case '$' => BulkExtends(s[1..], t);
    case '*' =>
      SizeExtends(s[1..], t);
      var size := ParseSize(s[1..]);
      if size.value >= 0 { ItemsExtend(size.rest, size.value, t); }
  }

  lemma {:induction false} ItemsExtend(s: string, count: nat, t: string)
    requires ParseItems(s, count).Ok?
    ensures ParseItems(s + t, count) == Extended(ParseItems(s, count), t)
    decreases |s|, 1
  {
    if count > 0 {
      ValueExtends(s, t);
      ItemsExtend(ParseValue(s).rest, count - 1, t);
    }
  }

  /** A value that is cut short anywhere is an error, never another value. */
  lemma TruncatedIsError(v: Value, n: nat)
    requires Encodable(v) && n < |Render(v)|
    ensures ParseValue(Render(v)[..n]).Err?
  {
    var text := Render(v);
    assert text[..n] + text[n..] == text == text + "" && text[n..] != "";
    RenderReadsBack(v, "");
    if ParseValue(text[..n]).Ok? { ValueExtends(text[..n], text[n..]); }
  }

  /** A null array reads back as a null bulk string does. */
  lemma NullsReadBack(rest: string)
    ensures ParseValue("*" + Decimal(-1) + CRLF + rest) == Ok(Nil, rest) == ParseValue("$" + Decimal(-1) + CRLF + rest)
  {
    SizeReadsBack(-1, rest);
    var a, b := "*" + Decimal(-1) + CRLF + rest, "$" + Decimal(-1) + CRLF + rest;
    assert a[1..] == Decimal(-1) + CRLF + rest && b[1..] == Decimal(-1) + CRLF + rest;
  }

  // --------------------------------------------------------------------- commands

  function Bulks(parts: seq<string>): (r: seq<Value>)
    ensures |r| == |parts| && forall i :: 0 <= i < |parts| ==> r[i] == Bulk(parts[i])
  {
    seq(|parts|, i requires 0 <= i < |parts| => Bulk(parts[i]))
  }

  /** What writeRESPCommand emits for the first n parts. */
  function CommandText(parts: seq<string>, n: nat): string
    requires n <= |parts|
  {
    if n == 0 then "*" + Decimal(|parts|) + CRLF else CommandText(parts, n - 1) + RenderBulk(parts[n - 1])
  }

  function Command(parts: seq<string>): string { CommandText(parts, |parts|) }

  lemma RenderAllOne(v: Value)
    ensures RenderAll([v]) == Render(v) && RenderAll([]) == ""
  {
    assert [v][1..] == [];
    assert Render(v) + "" == Render(v);
  }

  lemma {:induction false} RenderAllSnoc(init: seq<Value>, last: Value)
    ensures RenderAll(init + [last]) == RenderAll(init) + Render(last)
  {
    if init == [] {
      RenderAllOne(last);
      assert [] + [last] == [last];
    } else {
      var rest := init[1..];
      RenderAllSnoc(rest, last);
      assert (init + [last])[1..] == rest + [last];
      Associates(Render(init[0]), RenderAll(rest), Render(last));
    }
  }

  lemma RenderNextBulk(parts: seq<string>, n: nat)
    requires 0 < n <= |parts|
    ensures RenderAll(Bulks(parts)[..n]) == RenderAll(Bulks(parts)[..n - 1]) + RenderBulk(parts[n - 1])
  {
    var items := Bulks(parts)[..n - 1];
    RenderAllSnoc(items, Bulk(parts[n - 1]));
    assert Bulks(parts)[..n] == items + [Bulk(parts[n - 1])];
  }

  lemma ExtendsText(head: string, body: string, piece: string, text: string, longer: string)
    requires text == head + body && longer == body + piece
    ensures text + piece == head + longer
  {
  }

  lemma {:induction false} CommandIsArray(parts: seq<string>, n: nat)
    requires n <= |parts|
    ensures CommandText(parts, n) == "*" + Decimal(|parts|) + CRLF + RenderAll(Bulks(parts)[..n])
  {
    if n > 0 {
      CommandIsArray(parts, n - 1);
      RenderNextBulk(parts, n);
      ExtendsText("*" + Decimal(|parts|) + CRLF, RenderAll(Bulks(parts)[..n - 1]), RenderBulk(parts[n - 1]),
                  CommandText(parts, n - 1), RenderAll(Bulks(parts)[..n]));
    }
  }

  predicate Sendable(parts: seq<string>) {
    |parts| <= INT64_MAX && forall i :: 0 <= i < |parts| ==> |parts[i]| <= INT64_MAX
  }

  /** A command is the RESP2 array of its parts, and is read back as exactly those parts. */
  lemma CommandReadsBack(parts: seq<string>, rest: string)
    requires Sendable(parts)
    ensures Command(parts) == Render(Array(Bulks(parts)))
    ensures ParseValue(Command(parts) + rest) == Ok(Array(Bulks(parts)), rest)
    ensures Strings(Array(Bulks(parts))) == parts
  {
    CommandIsArray(parts, |parts|);
    assert Bulks(parts)[..|parts|] == Bulks(parts);
    RenderReadsBack(Array(Bulks(parts)), rest);
    BulkStringsOfBulks(parts, |parts|);
    assert parts[..|parts|] == parts;
  }

  function Commands(list: seq<seq<string>>): string {
    if list == [] then "" else Command(list[0]) + Commands(list[1..])
  }

  function Arrays(list: seq<seq<string>>): (r: seq<Value>)
    ensures |r| == |list|
  {
    if list == [] then [] else [Array(Bulks(list[0]))] + Arrays(list[1..])
  }

  /** Commands sent one after the other are read back one by one. */
  lemma {:induction false} CommandsReadBack(list: seq<seq<string>>, rest: string)
    requires forall i :: 0 <= i < |list| ==> Sendable(list[i])
    ensures ParseItems(Commands(list) + rest, |list|) == Ok(Arrays(list), rest)
  {
    if list == [] {
      assert Commands(list) + rest == rest;
    } else {
      var first, others := Command(list[0]), Commands(list[1..]);
      CommandReadsBack(list[0], others + rest);
      CommandsReadBack(list[1..], rest);
      Associates(first, others, rest);
      NextItem(first + (others + rest), Array(Bulks(list[0])), others + rest, Arrays(list[1..]), rest);
    }
  }

  // ----------------------------------------------------------------- the messages

  /** The bulk strings among the first n items; anything else is dropped. */
  function BulkStrings(items: seq<Value>, n: nat): seq<string>
    requires n <= |items|
  {
    if n == 0 then [] else BulkStrings(items, n - 1) + if items[n - 1].Bulk? then [items[n - 1].bytes] else []
  }

  /** respValue.strings. */
  function Strings(v: Value): seq<string> {
    match v
    case Bulk(bytes) => [bytes]
    case Array(items) => BulkStrings(items, |items|)
    case _ => []
  }

  lemma {:induction false} BulkStringsOfBulks(parts: seq<string>, n: nat)
    requires n <= |parts|
    ensures BulkStrings(Bulks(parts), n) == parts[..n]
  {
    if n > 0 {
      BulkStringsOfBulks(parts, n - 1);
      assert parts[..n] == parts[..n - 1] + [parts[n - 1]];
    }
  }

  // -------------------------------------------------------------------- the reader

  datatype Result<T> = Success(value: T) | Failure(error: ReadError)

  function ResultOf<T>(p: Parsed<T>): Result<T> { if p.Ok? then Success(p.value) else Failure(p.error) }

  /** The connection: what has not been read yet, and what has been written. */
  class Connection {
    var input: string
    var output: string

    constructor (input: string)
      ensures this.input == input && output == ""
    {
      this.input, output := input, "";
    }

    method ReadLine() returns (r: Result<string>)
      modifies this`input
      ensures r == ResultOf(ParseLine(old(input)))
      ensures r.Success? ==> input == ParseLine(old(input)).rest
    {
      var i := 0;
      while i < |input| && input[i] != '\n'
        invariant 0 <= i <= |input|
        invariant forall k :: 0 <= k < i ==> input[k] != '\n'
      {
        i := i + 1;
      }
      assert i == IndexOf(input, '\n');
      if i == |input| {
        input := "";
        return Failure(EndOfInput);
      }
      var line := input[..i];
      input := input[i + 1..];
      if line != "" && line[|line| - 1] == '\r' {
        line := line[..|line| - 1];
      }
      return Success(line);
    }

    method ReadSize() returns (r: Result<int>)
      modifies this`input
      ensures r == ResultOf(ParseSize(old(input)))
      ensures r.Success? ==> input == ParseSize(old(input)).rest
    {
      var line := ReadLine();
      if line.Failure? {
        return Failure(line.error);
      }
      var size := Atoi(line.value);
      if size.None? {
        return Failure(BadSize(line.value));
      }
      return Success(size.value);
    }

    method ReadBulk() returns (r: Result<Value>)
      modifies this`input
      ensures r == ResultOf(ParseBulk(old(input)))
      ensures r.Success? ==> input == ParseBulk(old(input)).rest
    {
      var size := ReadSize();
      if size.Failure? {
        return Failure(size.error);
      }
      if size.value < 0 {
        return Success(Nil);
      }
      if size.value + 2 > |input| {
        input := "";
        return Failure(EndOfInput);
      }
      var bytes := input[..size.value];
      input := input[size.value + 2..];
      return Success(Bulk(bytes));
    }

    method ReadItems(count: nat) returns (r: Result<seq<Value>>)
      modifies this`input
      ensures r == ResultOf(ParseItems(old(input), count))
      ensures r.Success? ==> input == ParseItems(old(input), count).rest
      decreases |input|, 1
    {
      var items: seq<Value> := [];
      var remaining: nat := count;
      ghost var all := ParseItems(input, count);
      PrependedNothing(all);
      while remaining > 0
        invariant remaining + |items| == count && |input| <= |old(input)|
        invariant all == Prepended(items, ParseItems(input, remaining))
      {
        PrependedStep(items, input, remaining);
        ghost var first := ParseValue(input);
        var item := ReadValue();
        if item.Failure? {
          return Failure(item.error);
        }
        assert first == Ok(item.value, input);
        items := items + [item.value];
        remaining := remaining - 1;
      }
      assert items + [] == items;
      return Success(items);
    }

    method ReadArray() returns (r: Result<Value>)
      modifies this`input
      ensures r == ResultOf(ParseArray(old(input)))
      ensures r.Success? ==> input == ParseArray(old(input)).rest
      decreases |input|, 2
    {
      var size := ReadSize();
      if size.Failure? {
        return Failure(size.error);
      }
      if size.value < 0 {
        return Success(Nil);
      }
      var items := ReadItems(size.value);
      return if items.Success? then Success(Array(items.value)) else Failure(items.error);
    }

    method ReadValue() returns (r: Result<Value>)
      modifies this`input
      ensures r == ResultOf(ParseValue(old(input)))
      ensures r.Success? ==> input == ParseValue(old(input)).rest
      decreases |input|, 0
    {
      if input == "" {
        return Failure(EndOfInput);
      }
      var prefix := input[0];
      input := input[1..];
      match prefix
      case '+' =>
        var line := ReadLine();
        return if line.Success? then Success(Simple(line.value)) else Failure(line.error);
      case '-' =>
        var line := ReadLine();
        return if line.Success? then Success(Error(line.value)) else Failure(line.error);
      case '$' => r := ReadBulk();
      case '*' => r := ReadArray();
      case _ => return Failure(BadPrefix(prefix));
    }

    method WriteBulk(bytes: string)
      modifies this`output
      ensures output == old(output) + RenderBulk(bytes)
    {
      output := output + RenderBulk(bytes);
    }

    method WriteCommand(parts: seq<string>)
      modifies this`output
      ensures output == old(output) + Command(parts)
    {
      output := output + ("*" + Decimal(|parts|) + CRLF);
      var i := 0;
      while i < |parts|
        invariant 0 <= i <= |parts|
        invariant output == old(output) + CommandText(parts, i)
      {
        WriteBulk(parts[i]);
        NextPart(old(output), parts, i);
        i := i + 1;
      }
    }
  }

  lemma NextPart(before: string, parts: seq<string>, i: nat)
    requires i < |parts|
    ensures before + CommandText(parts, i) + RenderBulk(parts[i]) == before + CommandText(parts, i + 1)
  {
    Associates(before, CommandText(parts, i), RenderBulk(parts[i]));
  }

  /** The items read so far in front of those still to come. */
  function Prepended(items: seq<Value>, p: Parsed<seq<Value>>): Parsed<seq<Value>> {
    if p.Ok? then Ok(items + p.value, p.rest) else p
  }

  lemma PrependedNothing(p: Parsed<seq<Value>>)
    ensures Prepended([], p) == p
  {
    if p.Ok? { assert [] + p.value == p.value; }
  }

  lemma PrependedStep(items: seq<Value>, s: string, count: nat)
    requires count > 0
    ensures var first := ParseValue(s);
            if first.Err? then Prepended(items, ParseItems(s, count)) == Err(first.error)
            else Prepended(items, ParseItems(s, count))
                 == Prepended(items + [first.value], ParseItems(first.rest, count - 1))
  {
    var first := ParseValue(s);
    if first.Ok? {
      var others := ParseItems(first.rest, count - 1);
      if others.Ok? { assert items + ([first.value] + others.value) == items + [first.value] + others.value; }
    }
  }
}

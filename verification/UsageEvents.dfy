/** Usage events, the decoder that builds them from queue messages, and the keys that
    identify them (internal/service/flatten.go, internal/service/redis_usage.go). */
module UsageEvents {
  import opened Text
  import opened Calendar

  datatype TokenStats = TokenStats(input: int, output: int, reasoning: int, cached: int, total: int)

  datatype UsageEvent = UsageEvent(
    id: nat,
    eventKey: string,
    apiGroupKey: string,
    provider: string,
    endpoint: string,
    authType: string,
    requestId: string,
    model: string,
    timestamp: Instant,
    source: string,
    authIndex: string,
    failed: bool,
    latencyMs: int,
    tokens: TokenStats)

  /** A missing total is filled in from the parts, and from the cached count as a last resort. */
  function NormalizeTokens(t: TokenStats): TokenStats {
    var t1 := if t.total == 0 then t.(total := Wrap64(t.input + t.output + t.reasoning)) else t;
    if t1.total == 0 then t1.(total := Wrap64(t1.input + t1.output + t1.reasoning + t1.cached)) else t1
  }

  /** Normalising twice is normalising once, even when the int64 sums wrap to zero. */
  lemma NormalizeTokensIdempotent(t: TokenStats)
    ensures NormalizeTokens(NormalizeTokens(t)) == NormalizeTokens(t)
  {
    var n := NormalizeTokens(t);
    if n.total == 0 {
      assert Wrap64(t.input + t.output + t.reasoning) == 0;
      assert Wrap64(t.input + t.output + t.reasoning + t.cached) == 0;
    }
  }

  /** What is filled in, as long as the counts are not negative and their sum does not wrap: the tokens that
      went in, came out or were thought, and those from the cache only if there are none of these. */
  lemma MissingTotalIsFilledIn(t: TokenStats)
    ensures NormalizeTokens(t) == t.(total := NormalizeTokens(t).total)
    ensures t.total != 0 ==> NormalizeTokens(t) == t
    ensures t.total == 0 && 0 <= t.input && 0 <= t.output && 0 <= t.reasoning && 0 <= t.cached
            && t.input + t.output + t.reasoning + t.cached <= INT64_MAX ==>
              NormalizeTokens(t).total
              == if t.input > 0 || t.output > 0 || t.reasoning > 0 then t.input + t.output + t.reasoning else t.cached
  {
  }

  /** Stands for hex(SHA-256(payload)): all the program uses is that equal digests mean equal
      payloads and that a digest is never blank. */
  function Digest(payload: string): (d: string)
    ensures Trimmed(d) && d != ""
  {
    "<" + payload + ">"
  }

  lemma DigestInjective(p: string, q: string)
    requires Digest(p) == Digest(q)
    ensures p == q
  {
    assert p == Digest(p)[1..|Digest(p)| - 1] && q == Digest(q)[1..|Digest(q)| - 1];
  }

  function BoolText(b: bool): string { if b then "true" else "false" }

  /** The arguments of the payload's format string, by verb. */
  datatype Field = TextField(text: string) | TimeField(time: Instant) | FlagField(flag: bool) | CountField(count: int)

  function FieldText(f: Field): string {
    match f
    case TextField(text) => text
    case TimeField(time) => RFC3339Nano(time)
    case FlagField(flag) => BoolText(flag)
    case CountField(count) => Decimal(count)
  }

  function FieldTexts(fields: seq<Field>): (texts: seq<string>)
    ensures |texts| == |fields|
  {
    if fields == [] then [] else [FieldText(fields[0])] + FieldTexts(fields[1..])
  }

  function PayloadFields(apiGroupKey: string, model: string, timestamp: Instant, source: string, authIndex: string,
                         failed: bool, tokens: TokenStats): (fields: seq<Field>)
    ensures |fields| == 11
  {
    var n := NormalizeTokens(tokens);
    [TextField(Trim(apiGroupKey)), TextField(Trim(model)), TimeField(timestamp), TextField(Trim(source)),
     TextField(Trim(authIndex)), FlagField(failed), CountField(n.input), CountField(n.output), CountField(n.reasoning),
     CountField(n.cached), CountField(n.total)]
  }

  function BuildEventKey(apiGroupKey: string, model: string, timestamp: Instant, source: string, authIndex: string,
                         failed: bool, tokens: TokenStats): (key: string)
    ensures Trimmed(key) && key != ""
  {
    Digest(Join(FieldTexts(PayloadFields(apiGroupKey, model, timestamp, source, authIndex, failed, tokens)), '|'))
  }

  function CanonicalKey(e: UsageEvent): (key: string)
    ensures Trimmed(key) && key != ""
  {
    BuildEventKey(e.apiGroupKey, e.model, e.timestamp, e.source, e.authIndex, e.failed, e.tokens)
  }

  /** What an event says, up to surrounding white space: the columns the canonical key covers. */
  datatype Content = Content(apiGroupKey: string, model: string, timestamp: Instant, source: string,
                             authIndex: string, failed: bool, tokens: TokenStats)

  function ContentOf(e: UsageEvent): Content {
    Content(Trim(e.apiGroupKey), Trim(e.model), e.timestamp, Trim(e.source), Trim(e.authIndex), e.failed, e.tokens)
  }

  predicate BarFree(e: UsageEvent) {
    Free(Trim(e.apiGroupKey), '|') && Free(Trim(e.model), '|') && Free(Trim(e.source), '|')
    && Free(Trim(e.authIndex), '|')
  }

  lemma {:induction false} PadBarFree(n: nat, width: nat)
    ensures Free(Pad(n, width), '|')
  {
    assert AllDigits(Pad(n, width));
  }

  lemma {:induction false} DropTrailingZerosBarFree(s: string)
    requires Free(s, '|')
    ensures Free(DropTrailingZeros(s), '|')
  {
    DropTrailingZerosParts(s);
  }

  lemma TimestampBarFree(t: Instant)
    ensures Free(RFC3339Nano(t), '|')
  {
    var c := CivilOf(if t >= 0 then t else -1 - t);
    PadBarFree(c.year, 4);
    PadBarFree(c.month, 2);
    PadBarFree(c.day, 2);
    PadBarFree(c.hour, 2);
    PadBarFree(c.minute, 2);
    PadBarFree(c.second, 2);
    PadBarFree(c.nano, 9);
    DropTrailingZerosBarFree(Pad(c.nano, 9));
    assert Free(FractionText(c.nano), '|');
    assert Free(SecondsText(c), '|');
    assert Free(MinutesText(c), '|');
    assert Free(HoursText(c), '|');
    assert Free(Pad(c.day, 2) + (['T'] + HoursText(c)), '|');
    assert Free(Pad(c.month, 2) + ['-'] + (Pad(c.day, 2) + (['T'] + HoursText(c))), '|');
    assert Free(CivilText(c), '|');
  }

  function EventFields(e: UsageEvent): (fields: seq<Field>)
    ensures |fields| == 11
  {
    PayloadFields(e.apiGroupKey, e.model, e.timestamp, e.source, e.authIndex, e.failed, e.tokens)
  }

  lemma FieldBarFree(f: Field)
    requires f.TextField? ==> Free(f.text, '|')
    ensures Free(FieldText(f), '|')
  {
    if f.TimeField? { TimestampBarFree(f.time); }
  }

  lemma {:induction false} FieldTextsBarFree(fields: seq<Field>)
    requires forall i :: 0 <= i < |fields| && fields[i].TextField? ==> Free(fields[i].text, '|')
    ensures forall i :: 0 <= i < |fields| ==> Free(FieldTexts(fields)[i], '|')
  {
    if fields != [] {
      FieldBarFree(fields[0]);
      FieldTextsBarFree(fields[1..]);
    }
  }

  predicate SameVerb(f: Field, g: Field) {
    f.TextField? == g.TextField? && f.TimeField? == g.TimeField? && f.FlagField? == g.FlagField?
  }

  lemma FieldTextInjective(f: Field, g: Field)
    requires SameVerb(f, g) && FieldText(f) == FieldText(g)
    ensures f == g
    ensures f.FlagField? ==> (f.flag <==> FieldText(f) == "true") && (!f.flag <==> FieldText(f) == "false")
  {
    if f.TimeField? { RFC3339NanoInjective(f.time, g.time); }
    if f.CountField? { DecimalInjective(f.count, g.count); }
  }

  lemma {:induction false} FieldTextsInjective(a: seq<Field>, b: seq<Field>)
    requires |a| == |b| && forall i :: 0 <= i < |a| ==> SameVerb(a[i], b[i])
    requires FieldTexts(a) == FieldTexts(b)
    ensures a == b
  {
    if a != [] {
      assert FieldText(a[0]) == FieldTexts(a)[0] == FieldTexts(b)[0] == FieldText(b[0]);
      FieldTextInjective(a[0], b[0]);
      assert FieldTexts(a[1..]) == FieldTexts(a)[1..] == FieldTexts(b)[1..] == FieldTexts(b[1..]);
      FieldTextsInjective(a[1..], b[1..]);
      assert a == [a[0]] + a[1..] && b == [b[0]] + b[1..];
    }
  }

  function FieldAt(i: nat): Field {
    if i == 2 then TimeField(0) else if i == 5 then FlagField(false) else if i < 5 then TextField("") else CountField(0)
  }

  lemma EventFieldsShape(e: UsageEvent)
    requires BarFree(e)
    ensures forall i :: 0 <= i < 11 ==> SameVerb(EventFields(e)[i], FieldAt(i))
    ensures forall i :: 0 <= i < 11 && EventFields(e)[i].TextField? ==> Free(EventFields(e)[i].text, '|')
    ensures CanonicalKey(e) == Digest(Join(FieldTexts(EventFields(e)), '|'))
  {
  }

  lemma JoinedFieldsInjective(a: seq<Field>, b: seq<Field>)
    requires |a| == |b| == 11
    requires forall i :: 0 <= i < 11 ==> SameVerb(a[i], FieldAt(i)) && SameVerb(b[i], FieldAt(i))
    requires forall i :: 0 <= i < |a| && a[i].TextField? ==> Free(a[i].text, '|')
    requires forall i :: 0 <= i < |b| && b[i].TextField? ==> Free(b[i].text, '|')
    requires Digest(Join(FieldTexts(a), '|')) == Digest(Join(FieldTexts(b), '|'))
    ensures a == b
  {
    DigestInjective(Join(FieldTexts(a), '|'), Join(FieldTexts(b), '|'));
    FieldTextsBarFree(a);
    FieldTextsBarFree(b);
    JoinInjective(FieldTexts(a), FieldTexts(b), '|');
    FieldTextsInjective(a, b);
  }

  lemma EventFieldsInjective(a: UsageEvent, b: UsageEvent)
    requires EventFields(a) == EventFields(b)
    ensures ContentOf(a).(tokens := NormalizeTokens(a.tokens)) == ContentOf(b).(tokens := NormalizeTokens(b.tokens))
  {
    var p, q := EventFields(a), EventFields(b);
    assert forall i :: 0 <= i < 11 ==> p[i] == q[i];
    assert p[0] == q[0] && p[1] == q[1] && p[2] == q[2] && p[3] == q[3] && p[4] == q[4] && p[5] == q[5];
    assert p[6] == q[6] && p[7] == q[7] && p[8] == q[8] && p[9] == q[9] && p[10] == q[10];
  }

  /** Barring '|' inside the text fields, equal canonical keys mean equal content: the joined
      payload and its digest lose nothing but the token normalisation. */
  lemma CanonicalKeyInjective(a: UsageEvent, b: UsageEvent)
    requires BarFree(a) && BarFree(b)
    requires CanonicalKey(a) == CanonicalKey(b)
    ensures ContentOf(a).(tokens := NormalizeTokens(a.tokens)) == ContentOf(b).(tokens := NormalizeTokens(b.tokens))
  {
    EventFieldsShape(a);
    EventFieldsShape(b);
    JoinedFieldsInjective(EventFields(a), EventFields(b));
    EventFieldsInjective(a, b);
  }

  // ----------------------------------------------------------------- decoding

  datatype QueuedUsageDetail = QueuedUsageDetail(
    timestamp: Instant,
    latencyMs: int,
    source: string,
    authIndex: string,
    tokens: TokenStats,
    failed: bool,
    provider: string,
    model: string,
    endpoint: string,
    authType: string,
    apiKey: string,
    requestId: string)

  /** A raw queue message, seen through JSON decoding. */
  datatype Message = Malformed | Usage(detail: QueuedUsageDetail)

  function ToLowerAscii(s: string): string {
    seq(|s|, i requires 0 <= i < |s| => if 'A' <= s[i] <= 'Z' then (s[i] as int + 32) as char else s[i])
  }

  function NormalizeRedisAuthType(value: string): string {
    var trimmed := ToLowerAscii(Trim(value));
    if trimmed == "api_key" then "apikey" else trimmed
  }

  function ToUsageEvent(d: QueuedUsageDetail, fetchedAt: Instant): UsageEvent {
    var tokens := NormalizeTokens(d.tokens);
    var apiGroupKey := FirstNonEmpty([d.apiKey, d.provider, d.endpoint, "unknown"]);
    var model := FirstNonEmpty([d.model, "unknown"]);
    var timestamp := if d.timestamp == GO_ZERO_TIME then fetchedAt else d.timestamp;
    var source := Trim(d.source);
    var authIndex := Trim(d.authIndex);
    var requestId := Trim(d.requestId);
    var eventKey := if requestId == ""
                    then BuildEventKey(apiGroupKey, model, timestamp, source, authIndex, d.failed, tokens)
                    else requestId;
    UsageEvent(0, eventKey, apiGroupKey, Trim(d.provider), Trim(d.endpoint), NormalizeRedisAuthType(d.authType),
               requestId, model, timestamp, source, authIndex, d.failed,
               if d.latencyMs < 0 then 0 else d.latencyMs, tokens)
  }

  predicate HasTimestamp(m: Message) { m.Usage? && m.detail.timestamp != GO_ZERO_TIME }

  predicate HasRequestId(m: Message) { m.Usage? && Trim(m.detail.requestId) != "" }

  /** A key is stored as is, and the columns SQL compares with TRIM carry no outer white space. */
  predicate Clean(e: UsageEvent) {
    Trimmed(e.eventKey) && e.eventKey != ""
    && Trimmed(e.apiGroupKey) && Trimmed(e.model) && Trimmed(e.source) && Trimmed(e.authIndex)
  }

  /** The shape every event leaves the decoder with. */
  predicate Decoded(e: UsageEvent) {
    Clean(e) && Trimmed(e.requestId) && NormalizeTokens(e.tokens) == e.tokens
    && e.eventKey == if e.requestId == "" then CanonicalKey(e) else e.requestId
  }

  /** Every decoded event is clean, and one without a request id carries exactly its canonical key. */
  lemma DecoderOutput(d: QueuedUsageDetail, fetchedAt: Instant)
    ensures Decoded(ToUsageEvent(d, fetchedAt))
    ensures ToUsageEvent(d, fetchedAt).requestId == "" <==> !HasRequestId(Usage(d))
  {
    var e := ToUsageEvent(d, fetchedAt);
    FirstNonEmptyTrimmed([d.apiKey, d.provider, d.endpoint, "unknown"]);
    FirstNonEmptyTrimmed([d.model, "unknown"]);
    TrimIsTrimmed(d.source);
    TrimIsTrimmed(d.authIndex);
    TrimIsTrimmed(d.requestId);
    NormalizeTokensIdempotent(d.tokens);
    assert e.tokens == NormalizeTokens(d.tokens);
  }

  /** With a timestamp of its own a message decodes to the same event at every attempt. */
  lemma DecodingIsStable(m: Message, at1: Instant, at2: Instant)
    requires HasTimestamp(m)
    ensures ToUsageEvent(m.detail, at1) == ToUsageEvent(m.detail, at2)
  {
  }

  /** The message an event would have come from. */
  function DetailOf(e: UsageEvent): QueuedUsageDetail {
    QueuedUsageDetail(e.timestamp, e.latencyMs, e.source, e.authIndex, e.tokens, e.failed, e.provider, e.model,
                      e.endpoint, e.authType, e.apiGroupKey, e.requestId)
  }

  lemma LoweredStaysTrimmed(s: string)
    requires Trimmed(s)
    ensures Trimmed(ToLowerAscii(s)) && ToLowerAscii(ToLowerAscii(s)) == ToLowerAscii(s)
    ensures forall i :: 0 <= i < |ToLowerAscii(s)| ==> !('A' <= ToLowerAscii(s)[i] <= 'Z')
  {
  }

  lemma AuthTypeIdempotent(value: string)
    ensures NormalizeRedisAuthType(NormalizeRedisAuthType(value)) == NormalizeRedisAuthType(value)
  {
    TrimIsTrimmed(value);
    LoweredStaysTrimmed(Trim(value));
    TrimIsTrimmed(NormalizeRedisAuthType(value));
    LoweredStaysTrimmed("apikey");
    assert ToLowerAscii("apikey") == "apikey";
  }

  lemma FirstNonEmptyKeeps(value: string, rest: seq<string>)
    requires Trimmed(value) && value != ""
    ensures FirstNonEmpty([value] + rest) == value
  {
    TrimIsTrimmed(value);
  }

  /** Decoding is idempotent: every field of an event is read back from the place it was written to. */
  lemma DecodingIsIdempotent(d: QueuedUsageDetail, at: Instant, later: Instant)
    requires ToUsageEvent(d, at).timestamp != GO_ZERO_TIME
    ensures ToUsageEvent(DetailOf(ToUsageEvent(d, at)), later) == ToUsageEvent(d, at)
  {
    var e := ToUsageEvent(d, at);
    DecoderOutput(d, at);
    DefaultsAreNotBlank(d);
    FirstNonEmptyKeeps(e.apiGroupKey, [e.provider, e.endpoint, "unknown"]);
    FirstNonEmptyKeeps(e.model, ["unknown"]);
    assert [e.apiGroupKey] + [e.provider, e.endpoint, "unknown"] == [e.apiGroupKey, e.provider, e.endpoint, "unknown"];
    assert [e.model] + ["unknown"] == [e.model, "unknown"];
    AuthTypeIdempotent(d.authType);
    TrimIsTrimmed(d.provider);
    TrimIsTrimmed(d.endpoint);
    TrimIsTrimmed(e.source);
    TrimIsTrimmed(e.authIndex);
    TrimIsTrimmed(e.requestId);
    SameDecoding(e, DetailOf(e), later);
  }

  lemma DefaultsAreNotBlank(d: QueuedUsageDetail)
    ensures FirstNonEmpty([d.apiKey, d.provider, d.endpoint, "unknown"]) != ""
            && FirstNonEmpty([d.model, "unknown"]) != ""
  {
    TrimIsTrimmed("unknown");
    FirstNonEmptyFinds([d.apiKey, d.provider, d.endpoint, "unknown"]);
    FirstNonEmptyFinds([d.model, "unknown"]);
    assert [d.apiKey, d.provider, d.endpoint, "unknown"][3] == "unknown" && [d.model, "unknown"][1] == "unknown";
  }

  lemma SameDecoding(e: UsageEvent, d: QueuedUsageDetail, at: Instant)
    requires d == DetailOf(e) && Decoded(e) && e.id == 0 && e.timestamp != GO_ZERO_TIME && e.latencyMs >= 0
    requires FirstNonEmpty([e.apiGroupKey, e.provider, e.endpoint, "unknown"]) == e.apiGroupKey
    requires FirstNonEmpty([e.model, "unknown"]) == e.model
    requires Trim(e.provider) == e.provider && Trim(e.endpoint) == e.endpoint
             && NormalizeRedisAuthType(e.authType) == e.authType
    requires Trim(e.source) == e.source && Trim(e.authIndex) == e.authIndex && Trim(e.requestId) == e.requestId
    ensures ToUsageEvent(d, at) == e
  {
  }
}

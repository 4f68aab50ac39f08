/** Synthetic usage events that fill up auth-file buckets (internal/service/sync.go). */
module RecentFill {
  import opened Text
  import opened Calendar
  import opened UsageEvents
  import opened Database
  import opened RecentBuckets

  const GROUP := "auth-files-recent"
  const MODEL := "recent-requests"
  const ENDPOINT := "auth-files/recent_requests"
  const AUTH_TYPE := "oauth"

  type Int64 = x: int | INT64_MIN <= x <= INT64_MAX

  datatype RecentRequest = RecentRequest(time: string, success: Int64, failed: Int64)

  datatype AuthFile = AuthFile(authIndex: string, email: string, title: string, name: string, provider: string,
                               recentRequests: seq<RecentRequest>)

  function StableIdentity(f: AuthFile): string { FirstNonEmpty([f.authIndex, f.email, f.title, f.name, "unknown"]) }

  function SourceOf(f: AuthFile): string { FirstNonEmpty([f.email, f.title, f.name, f.authIndex]) }

  /** Stands for the hex digits of a hash: equal digests mean equal texts. */
  function HexDigest(s: string): (h: string)
    ensures Free(h, ':')
  {
    if s == "" then "" else Pad(s[0] as int, 7) + HexDigest(s[1..])
  }

  lemma {:induction false} HexDigestInjective(s: string, t: string)
    requires HexDigest(s) == HexDigest(t)
    ensures s == t
  {
    assert Pow10(7) > 0x110000;
    if s != "" { PadWidth(s[0] as int, 7); }
    if t != "" { PadWidth(t[0] as int, 7); }
    if s != "" && t != "" {
      var a, b := HexDigest(s), HexDigest(t);
      assert a[..7] == Pad(s[0] as int, 7) && b[..7] == Pad(t[0] as int, 7);
      assert a[7..] == HexDigest(s[1..]) && b[7..] == HexDigest(t[1..]);
      PadInjective(s[0] as int, t[0] as int, 7);
      HexDigestInjective(s[1..], t[1..]);
    }
  }

  // --------------------------------------------------------------------- the keys

  /** One bucket of one auth file, for one outcome; `second` is its start. */
  datatype Slot = Slot(identity: string, second: int, failed: bool)

  /** The compact layout in UTC; instants before year 0 are mirrored only to make it total. */
  function SecondText(second: int): string {
    if second >= 0 then CompactText(second * SECOND) else "-" + CompactText((-second) * SECOND)
  }

  function KeyParts(s: Slot): (parts: seq<string>)
    ensures |parts| == 4
  {
    [GROUP, HexDigest(s.identity), SecondText(s.second), BoolText(s.failed)]
  }

  /** authFileRecentEventKeyPrefix. */
  function Prefix(s: Slot): string { Join(KeyParts(s), ':') + [':'] }

  function Key(s: Slot, ordinal: nat): string { Prefix(s) + Decimal(ordinal) }

  lemma CompactTextFree(t: Instant)
    requires t >= 0
    ensures Free(CompactText(t), ':') && CompactText(t) != "" && CompactText(t)[0] != '-'
  {
  }

  lemma SecondTextInjective(a: int, b: int)
    requires SecondText(a) == SecondText(b)
    ensures a == b
  {
    var s, t := if a >= 0 then a else -a, if b >= 0 then b else -b;
    CompactTextFree(s * SECOND);
    CompactTextFree(t * SECOND);
    assert (a >= 0) == (b >= 0) by {
      assert SecondText(a)[0] == SecondText(b)[0];
    }
    assert CompactText(s * SECOND) == CompactText(t * SECOND) by {
      if a < 0 {
        assert CompactText(s * SECOND) == SecondText(a)[1..] && CompactText(t * SECOND) == SecondText(b)[1..];
      }
    }
    CompactTextInjective(s * SECOND, t * SECOND);
    DivModUnique(s * SECOND, SECOND, s, 0);
    DivModUnique(t * SECOND, SECOND, t, 0);
  }

  lemma KeyPartsFree(s: Slot)
    ensures forall i :: 0 <= i < 4 ==> Free(KeyParts(s)[i], ':')
  {
    CompactTextFree(if s.second >= 0 then s.second * SECOND else (-s.second) * SECOND);
    assert Free(SecondText(s.second), ':');
  }

  lemma KeyPartsInjective(s: Slot, t: Slot)
    requires KeyParts(s) == KeyParts(t)
    ensures s == t
  {
    var a, b := KeyParts(s), KeyParts(t);
    assert a[1] == b[1] && a[2] == b[2] && a[3] == b[3];
    HexDigestInjective(s.identity, t.identity);
    SecondTextInjective(s.second, t.second);
    assert BoolText(s.failed)[0] == BoolText(t.failed)[0];
  }

  /** A slot's LIKE pattern selects the keys of that slot and no other slot's. */
  lemma PrefixSelectsItsSlot(s: Slot, t: Slot, tail: string, rest: string)
    requires Prefix(s) + tail == Prefix(t) + rest
    ensures s == t && tail == rest
  {
    KeyPartsFree(s);
    KeyPartsFree(t);
    SplitJoined(KeyParts(s), ':', tail);
    SplitJoined(KeyParts(t), ':', rest);
    assert KeyParts(s) == (KeyParts(s) + Split(tail, ':'))[..4];
    assert KeyParts(t) == (KeyParts(t) + Split(rest, ':'))[..4];
    KeyPartsInjective(s, t);
    assert tail == (Prefix(s) + tail)[|Prefix(s)|..] == rest;
  }

  lemma KeyInjective(s: Slot, m: nat, t: Slot, n: nat)
    requires Key(s, m) == Key(t, n)
    ensures s == t && m == n
  {
    PrefixSelectsItsSlot(s, t, Decimal(m), Decimal(n));
    DecimalInjective(m, n);
  }

  // ------------------------------------------------------------------- the counts

  predicate InSpan(e: UsageEvent, span: Span, failed: bool) {
    span.start <= e.timestamp < span.end && e.failed == failed
  }

  /** The query for events that came through the queue. */
  predicate IsReal(e: UsageEvent, f: AuthFile, span: Span, failed: bool) {
    InSpan(e, span, failed) && e.apiGroupKey != GROUP
    && if Trim(f.authIndex) != "" then e.authIndex == Trim(f.authIndex)
       else
         var source := FirstNonEmpty([f.email, f.title, f.name]);
         source != "" ==> e.source == source
  }

  function SlotOf(f: AuthFile, span: Span, failed: bool): Slot { Slot(StableIdentity(f), span.start / SECOND, failed) }

  /** The query for synthetic events; LIKE 'prefix%'. */
  predicate IsSynthetic(e: UsageEvent, s: Slot, span: Span) {
    InSpan(e, span, s.failed) && e.apiGroupKey == GROUP && Prefix(s) <= e.eventKey
  }

  function CountReal(events: seq<UsageEvent>, f: AuthFile, span: Span, failed: bool): nat {
    if events == [] then 0
    else CountReal(events[..|events| - 1], f, span, failed)
         + if IsReal(events[|events| - 1], f, span, failed) then 1 else 0
  }

  function CountSynthetic(events: seq<UsageEvent>, s: Slot, span: Span): nat {
    if events == [] then 0
    else CountSynthetic(events[..|events| - 1], s, span) + if IsSynthetic(events[|events| - 1], s, span) then 1 else 0
  }

  // --------------------------------------------------------------- the generation

  /** Go's integer division truncates toward zero. */
  function GoDiv(x: int, d: int): int
    requires d != 0
  {
    if x >= 0 then x / d else -((-x) / d)
  }

  datatype Request = Request(file: AuthFile, span: Span, failed: bool, reported: Int64)

  function RequestSlot(r: Request): Slot { SlotOf(r.file, r.span, r.failed) }

  function Duration(span: Span): int {
    if span.end - span.start <= 0 then 10 * MINUTE else span.end - span.start
  }

  /** The offset of one event into its bucket, in int64 arithmetic. */
  function Offset(r: Request, ordinal: nat): int
    requires 0 < r.reported
  {
    GoDiv(Wrap64((ordinal + 1) * Duration(r.span)), Wrap64(r.reported + 1))
  }

  function SyntheticEvent(r: Request, ordinal: nat): UsageEvent
    requires 0 < r.reported
  {
    UsageEvent(0, Key(RequestSlot(r), ordinal), GROUP, Trim(r.file.provider), ENDPOINT, AUTH_TYPE, "", MODEL,
               r.span.start + Offset(r, ordinal), SourceOf(r.file), Trim(r.file.authIndex), r.failed, 0,
               TokenStats(0, 0, 0, 0, 0))
  }

  /** The events for `missing` ordinals from `first` on. */
  function Batch(r: Request, first: nat, missing: nat): (batch: seq<UsageEvent>)
    requires 0 < r.reported
    ensures |batch| == missing
    ensures forall i :: 0 <= i < missing ==> batch[i] == SyntheticEvent(r, first + i)
  {
    seq(missing, i requires 0 <= i < missing => SyntheticEvent(r, first + i))
  }

  /** authFileRecentSyntheticEvents, given the two counts. */
  function Fill(r: Request, realCount: nat, synthetic: nat): (batch: seq<UsageEvent>) {
    if 0 < r.reported && r.reported - realCount - synthetic > 0 then
      Batch(r, synthetic, r.reported - realCount - synthetic)
    else []
  }

  function Generated(events: seq<UsageEvent>, r: Request): seq<UsageEvent> {
    Fill(r, CountReal(events, r.file, r.span, r.failed), CountSynthetic(events, RequestSlot(r), r.span))
  }

  /** A generated event belongs to its request's slot. */
  lemma FillAt(r: Request, realCount: nat, synthetic: nat, i: nat)
    requires i < |Fill(r, realCount, synthetic)|
    ensures synthetic + i < r.reported - realCount
    ensures Fill(r, realCount, synthetic)[i] == SyntheticEvent(r, synthetic + i)
    ensures Fill(r, realCount, synthetic)[i].eventKey == Key(RequestSlot(r), synthetic + i)
  {
    var batch := Batch(r, synthetic, r.reported - realCount - synthetic);
    assert batch[i] == SyntheticEvent(r, synthetic + i);
  }

  /** What the fill stores is clean, so it may share the table with decoded events. */
  lemma SyntheticIsClean(r: Request, ordinal: nat)
    requires 0 < r.reported
    ensures Clean(SyntheticEvent(r, ordinal))
  {
    var key := Key(RequestSlot(r), ordinal);
    FirstNonEmptyTrimmed([r.file.email, r.file.title, r.file.name, r.file.authIndex]);
    TrimIsTrimmed(r.file.authIndex);
    assert Join(KeyParts(RequestSlot(r)), ':')[0] == 'a';
    assert key[0] == 'a' && key[|key| - 1] == Decimal(ordinal)[|Decimal(ordinal)| - 1];
  }

  /** Generated events carry what real events of their file are recognised by: but for the group, each would
      count as one in its bucket. */
  lemma GeneratedLooksReal(r: Request, ordinal: nat, group: string)
    requires 0 < r.reported && group != GROUP
    requires r.span.start <= SyntheticEvent(r, ordinal).timestamp < r.span.end
    ensures IsReal(SyntheticEvent(r, ordinal).(apiGroupKey := group), r.file, r.span, r.failed)
  {
    var f := r.file;
    FirstNonEmptyFinds([f.email, f.title, f.name]);
    FirstNonEmptyFinds([f.email, f.title, f.name, f.authIndex]);
    if Trim(f.authIndex) == "" { SameSource(f); }
  }

  lemma SameSource(f: AuthFile)
    requires Trim(f.authIndex) == ""
    ensures FirstNonEmpty([f.email, f.title, f.name]) == SourceOf(f)
  {
    FirstNonEmptyBeforeBlank([f.email, f.title, f.name], f.authIndex);
    assert [f.email, f.title, f.name] + [f.authIndex] == [f.email, f.title, f.name, f.authIndex];
  }

  lemma QuotientBelow(x: int, d: int, n: int)
    requires 0 <= x < d * n && n > 0
    ensures 0 <= x / n < d
  {
    var q := x / n;
    assert x == q * n + x % n;
    if q >= d { MulMonotone(d, q, n); }
  }

  lemma OffsetBelow(x: int, d: int, reported: int)
    requires 0 < reported && 0 < d && 0 <= x <= reported * d <= INT64_MAX
    ensures reported <= INT64_MAX
    ensures var spread := Wrap64(reported + 1); spread != 0 && 0 <= GoDiv(Wrap64(x), spread) < d
  {
    MulMonotone(1, d, reported);
    assert Wrap64(x) == x;
    if reported == INT64_MAX {
      // The divisor wraps to the smallest int64, and the quotient is 0.
      assert Wrap64(reported + 1) == INT64_MIN;
      assert x / INT64_MIN == 0;
    } else {
      assert Wrap64(reported + 1) == reported + 1;
      assert reported * d < d * (reported + 1);
      QuotientBelow(x, d, reported + 1);
    }
  }

  /** Every generated timestamp lies in its bucket as long as the products fit an int64. */
  lemma OffsetStaysInBucket(r: Request, ordinal: nat)
    requires r.span.start < r.span.end && ordinal < r.reported && r.reported * (r.span.end - r.span.start) <= INT64_MAX
    ensures 0 < r.reported && 0 <= Offset(r, ordinal) < r.span.end - r.span.start
  {
    var d := r.span.end - r.span.start;
    MulMonotone(ordinal + 1, r.reported, d);
    MulMonotone(0, ordinal + 1, d);
    OffsetBelow((ordinal + 1) * d, d, r.reported);
  }

  /** The events of a full bucket are spread evenly: the offset is the ordinal's share of the bucket, rounded
      down. */
  lemma OffsetIsEvenShare(r: Request, ordinal: nat)
    requires r.span.start < r.span.end && ordinal < r.reported < INT64_MAX
    requires r.reported * (r.span.end - r.span.start) <= INT64_MAX
    ensures 0 < r.reported
            && Offset(r, ordinal) * (r.reported + 1) <= (ordinal + 1) * (r.span.end - r.span.start)
            && (ordinal + 1) * (r.span.end - r.span.start) < (Offset(r, ordinal) + 1) * (r.reported + 1)
  {
    var d := r.span.end - r.span.start;
    MulMonotone(ordinal + 1, r.reported, d);
    MulMonotone(0, ordinal + 1, d);
    ShareBounds((ordinal + 1) * d, r.reported + 1);
    assert Wrap64((ordinal + 1) * d) == (ordinal + 1) * d && Wrap64(r.reported + 1) == r.reported + 1;
  }

  lemma ShareBounds(x: int, n: int)
    requires 0 <= x && 0 < n
    ensures GoDiv(x, n) * n <= x < (GoDiv(x, n) + 1) * n
  {
    var q := x / n;
    assert x == q * n + x % n && (q + 1) * n == q * n + n;
  }

  /** What a slot stands for: buckets share one exactly if they start in the same second, are of the same
      outcome, and of files with the same identity; a file's identity is its auth index, or else the first of
      email, title and name that it has. */
  lemma SlotsStandFor(f: AuthFile, s: Span, failed: bool, g: AuthFile, t: Span, failed': bool)
    ensures SlotOf(f, s, failed) == SlotOf(g, t, failed')
            <==> StableIdentity(f) == StableIdentity(g) && s.start / SECOND == t.start / SECOND && failed == failed'
    ensures Trim(f.authIndex) != "" ==> StableIdentity(f) == Trim(f.authIndex)
    ensures Trim(f.authIndex) == "" && Trim(f.email) != "" ==> StableIdentity(f) == Trim(f.email)
    ensures Trim(f.authIndex) == "" == Trim(f.email) && Trim(f.title) != "" ==> StableIdentity(f) == Trim(f.title)
    ensures Trim(f.authIndex) == "" == Trim(f.email) == Trim(f.title) && Trim(f.name) != "" ==>
              StableIdentity(f) == Trim(f.name)
  {
    var afterName, afterTitle := ["unknown"], [f.name, "unknown"];
    var afterEmail, afterIndex := [f.title, f.name, "unknown"], [f.email, f.title, f.name, "unknown"];
    FirstNonEmptyOf(f.name, afterName);
    FirstNonEmptyOf(f.title, afterTitle);
    FirstNonEmptyOf(f.email, afterEmail);
    FirstNonEmptyOf(f.authIndex, afterIndex);
    assert [f.name] + afterName == afterTitle && [f.title] + afterTitle == afterEmail;
    assert [f.email] + afterEmail == afterIndex;
    assert [f.authIndex] + afterIndex == [f.authIndex, f.email, f.title, f.name, "unknown"];
  }

  // ------------------------------------------------------------------------ a sync

  /** The buckets of a file as they are read at one clock reading. */
  function Spans(f: AuthFile, now: Instant, offset: int): (spans: seq<Option<Span>>)
    ensures |spans| == |f.recentRequests|
    ensures forall j :: 0 <= j < |spans| ==> spans[j] == ParseBucket(f.recentRequests[j].time, now, offset)
  {
    seq(|f.recentRequests|,
        j requires 0 <= j < |f.recentRequests| => ParseBucket(f.recentRequests[j].time, now, offset))
  }

  function BucketRequests(f: AuthFile, b: RecentRequest, span: Option<Span>): seq<Request> {
    if span.None? then []
    else
      (if b.success > 0 then [Request(f, span.value, false, b.success)] else [])
      + (if b.failed > 0 then [Request(f, span.value, true, b.failed)] else [])
  }

  /** The requests of a file's first n buckets. */
  function FileRequests(f: AuthFile, spans: seq<Option<Span>>, n: nat): seq<Request>
    requires n <= |f.recentRequests| == |spans|
  {
    if n == 0 then [] else FileRequests(f, spans, n - 1) + BucketRequests(f, f.recentRequests[n - 1], spans[n - 1])
  }

  function AllFileRequests(f: AuthFile, now: Instant, offset: int): seq<Request> {
    FileRequests(f, Spans(f, now, offset), |f.recentRequests|)
  }

  /** What a sync of the given files asks for, at one clock reading. */
  function SyncRequests(files: seq<AuthFile>, now: Instant, offset: int): seq<Request> {
    if files == [] then []
    else
      var n := |files| - 1;
      SyncRequests(files[..n], now, offset) + AllFileRequests(files[n], now, offset)
  }

  /** What one bucket of a file reports about one outcome. */
  predicate ReportedBy(f: AuthFile, b: RecentRequest, span: Option<Span>, r: Request) {
    r.file == f && span == Some(r.span) && r.reported > 0 && r.reported == if r.failed then b.failed else b.success
  }

  /** One of the file's first n buckets reports it. */
  predicate ReportedInFile(f: AuthFile, spans: seq<Option<Span>>, n: nat, r: Request)
    requires n <= |f.recentRequests| == |spans|
  {
    exists j :: 0 <= j < n && ReportedBy(f, f.recentRequests[j], spans[j], r)
  }

  lemma ReportedInFileNext(f: AuthFile, spans: seq<Option<Span>>, n: nat, r: Request)
    requires n < |f.recentRequests| == |spans|
    ensures ReportedInFile(f, spans, n + 1, r)
            <==> ReportedInFile(f, spans, n, r) || ReportedBy(f, f.recentRequests[n], spans[n], r)
  {
    if ReportedInFile(f, spans, n, r) {
      var j :| 0 <= j < n && ReportedBy(f, f.recentRequests[j], spans[j], r);
      assert j < n + 1;
    }
  }

  lemma InBoth(a: seq<Request>, b: seq<Request>, r: Request)
    ensures r in a + b <==> r in a || r in b
  {
  }

  lemma InEither(a: seq<Request>, b: seq<Request>, r: Request, inA: bool, inB: bool)
    requires (r in a <==> inA) && (r in b <==> inB)
    ensures r in a + b <==> inA || inB
  {
  }

  lemma BucketRequestsAreReported(f: AuthFile, b: RecentRequest, span: Option<Span>, r: Request)
    ensures r in BucketRequests(f, b, span) <==> ReportedBy(f, b, span, r)
  {
    if span.Some? {
      InBoth(if b.success > 0 then [Request(f, span.value, false, b.success)] else [],
             if b.failed > 0 then [Request(f, span.value, true, b.failed)] else [], r);
    }
  }

  lemma {:induction false} FileRequestsAreReported(f: AuthFile, spans: seq<Option<Span>>, n: nat, r: Request)
    requires n <= |f.recentRequests| == |spans|
    ensures r in FileRequests(f, spans, n) <==> ReportedInFile(f, spans, n, r)
  {
    if n > 0 {
      var b, span := f.recentRequests[n - 1], spans[n - 1];
      FileRequestsAreReported(f, spans, n - 1, r);
      BucketRequestsAreReported(f, b, span, r);
      InEither(FileRequests(f, spans, n - 1), BucketRequests(f, b, span), r,
               ReportedInFile(f, spans, n - 1, r), ReportedBy(f, b, span, r));
      ReportedInFileNext(f, spans, n - 1, r);
    }
  }

  predicate ReportedByFile(f: AuthFile, now: Instant, offset: int, r: Request) {
    ReportedInFile(f, Spans(f, now, offset), |f.recentRequests|, r)
  }

  lemma InFileRequests(f: AuthFile, now: Instant, offset: int, r: Request)
    ensures r in AllFileRequests(f, now, offset) <==> r.file == f && ReportedByFile(r.file, now, offset, r)
  {
    FileRequestsAreReported(f, Spans(f, now, offset), |f.recentRequests|, r);
  }

  lemma FileInBoth(files: seq<AuthFile>, f: AuthFile)
    requires files != []
    ensures f in files <==> f in files[..|files| - 1] || f == files[|files| - 1]
  {
    assert files == files[..|files| - 1] + [files[|files| - 1]];
  }

  /** A sync asks for exactly what the files report: each parsed bucket's successes under the flag of
      success, its failures under the flag of failure, if there are any. */
  lemma {:induction false} RequestsAreReported(files: seq<AuthFile>, now: Instant, offset: int, r: Request)
    ensures r in SyncRequests(files, now, offset) <==> r.file in files && ReportedByFile(r.file, now, offset, r)
  {
    if files != [] {
      var n := |files| - 1;
      RequestsAreReported(files[..n], now, offset, r);
      InFileRequests(files[n], now, offset, r);
      FileInBoth(files, r.file);
      InBoth(SyncRequests(files[..n], now, offset), AllFileRequests(files[n], now, offset), r);
    }
  }

  function Pieces(events: seq<UsageEvent>, requests: seq<Request>): (pieces: seq<seq<UsageEvent>>)
    ensures |pieces| == |requests|
  {
    seq(|requests|, i requires 0 <= i < |requests| => Generated(events, requests[i]))
  }

  /** The events of all requests, counted against one table. */
  function AllGenerated(events: seq<UsageEvent>, requests: seq<Request>): seq<UsageEvent> {
    Concat(Pieces(events, requests))
  }

  lemma AllGeneratedAppend(events: seq<UsageEvent>, a: seq<Request>, b: seq<Request>)
    ensures AllGenerated(events, a + b) == AllGenerated(events, a) + AllGenerated(events, b)
  {
    assert Pieces(events, a + b) == Pieces(events, a) + Pieces(events, b);
    ConcatAppend(Pieces(events, a), Pieces(events, b));
  }

  lemma AllGeneratedOne(events: seq<UsageEvent>, r: Request)
    ensures AllGenerated(events, [r]) == Generated(events, r)
  {
    assert Pieces(events, [r]) == [Generated(events, r)];
    ConcatOne(Generated(events, r));
  }

  lemma NextBucket(events: seq<UsageEvent>, f: AuthFile, spans: seq<Option<Span>>, i: nat)
    requires i < |f.recentRequests| == |spans|
    ensures AllGenerated(events, FileRequests(f, spans, i + 1))
            == AllGenerated(events, FileRequests(f, spans, i))
               + AllGenerated(events, BucketRequests(f, f.recentRequests[i], spans[i]))
  {
    AllGeneratedAppend(events, FileRequests(f, spans, i), BucketRequests(f, f.recentRequests[i], spans[i]));
  }

  lemma NextFile(events: seq<UsageEvent>, files: seq<AuthFile>, i: nat, now: Instant, offset: int)
    requires i < |files|
    ensures AllGenerated(events, SyncRequests(files[..i + 1], now, offset))
            == AllGenerated(events, SyncRequests(files[..i], now, offset))
               + AllGenerated(events, AllFileRequests(files[i], now, offset))
  {
    assert files[..i + 1][..i] == files[..i];
    AllGeneratedAppend(events, SyncRequests(files[..i], now, offset), AllFileRequests(files[i], now, offset));
  }

  class RecentSync {
    const db: UsageDatabase

    constructor (db: UsageDatabase)
      ensures this.db == db
    {
      this.db := db;
    }

    method BatchEvents(r: Request, first: nat, missing: nat) returns (batch: seq<UsageEvent>)
      requires 0 < r.reported
      ensures batch == Batch(r, first, missing)
    {
      batch := [];
      for i := 0 to missing
        invariant |batch| == i && forall k :: 0 <= k < i ==> batch[k] == SyntheticEvent(r, first + k)
      {
        batch := batch + [SyntheticEvent(r, first + i)];
      }
    }

    method AuthFileRecentSyntheticEvents(r: Request) returns (batch: seq<UsageEvent>)
      ensures batch == Generated(db.events, r)
    {
      if r.reported <= 0 {
        return [];
      }
      var realCount := CountReal(db.events, r.file, r.span, r.failed);
      var syntheticCount := CountSynthetic(db.events, RequestSlot(r), r.span);
      var missing := r.reported - realCount - syntheticCount;
      if missing <= 0 {
        return [];
      }
      batch := BatchEvents(r, syntheticCount, missing);
    }

    method BucketEvents(f: AuthFile, b: RecentRequest, now: Instant, offset: int) returns (batch: seq<UsageEvent>)
      ensures batch == AllGenerated(db.events, BucketRequests(f, b, ParseBucket(b.time, now, offset)))
    {
      batch := [];
      var span := ParseBucket(b.time, now, offset);
      if span.None? {
        return;
      }
      var succeeded, failed := Request(f, span.value, false, b.success), Request(f, span.value, true, b.failed);
      AllGeneratedOne(db.events, succeeded);
      AllGeneratedOne(db.events, failed);
      AllGeneratedAppend(db.events, [succeeded], [failed]);
      if b.success > 0 {
        batch := AuthFileRecentSyntheticEvents(succeeded);
      }
      if b.failed > 0 {
        var generated := AuthFileRecentSyntheticEvents(failed);
        batch := batch + generated;
      }
      assert [] + [failed] == [failed] && [succeeded] + [] == [succeeded];
    }

    method FileEvents(f: AuthFile, now: Instant, offset: int) returns (events: seq<UsageEvent>)
      ensures events == AllGenerated(db.events, AllFileRequests(f, now, offset))
    {
      ghost var spans := Spans(f, now, offset);
      events := [];
      var i := 0;
      while i < |f.recentRequests|
        invariant 0 <= i <= |f.recentRequests|
        invariant events == AllGenerated(db.events, FileRequests(f, spans, i))
      {
        var batch := BucketEvents(f, f.recentRequests[i], now, offset);
        NextBucket(db.events, f, spans, i);
        events := events + batch;
        i := i + 1;
      }
    }

    /** The events of all buckets are collected first and inserted together. */
    method SyncAuthFileRecentUsageEvents(files: seq<AuthFile>, now: Instant, offset: int, failsAt: Option<nat>)
      returns (ok: bool)
      modifies db`events
      ensures var generated := AllGenerated(old(db.events), SyncRequests(files, now, offset));
              if ok then db.events == InsertAll(old(db.events), generated)
              else failsAt.Some? && failsAt.value * 100 < |generated|
                   && db.events == InsertAll(old(db.events), generated[..failsAt.value * 100])
    {
      var events: seq<UsageEvent> := [];
      var i := 0;
      while i < |files|
        invariant 0 <= i <= |files|
        invariant db.events == old(db.events)
                  && events == AllGenerated(db.events, SyncRequests(files[..i], now, offset))
      {
        var batch := FileEvents(files[i], now, offset);
        NextFile(db.events, files, i, now, offset);
        events := events + batch;
        i := i + 1;
      }
      assert files[..i] == files;
      if events == [] {
        return true;
      }
      var inserted, deduped;
      ok, inserted, deduped := db.InsertUsageEvents(events, failsAt);
    }
  }
}

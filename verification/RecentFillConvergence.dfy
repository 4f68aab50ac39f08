/** A completed sync fills every bucket up to what was reported, and exactly so if no other overlaps it
    (internal/service/sync.go). */
module RecentFillConvergence {
  import opened Text
  import opened Calendar
  import opened UsageEvents
  import opened Database
  import opened RecentBuckets
  import opened RecentFill
  import opened RecentFillHistory
  import IdentityStats

  /** Synthetic events count for the identity of their auth file, and for no provider. */
  lemma FilledEventsCountForTheirFile(r: Request, ordinal: nat, authType: int, identity: string)
    requires 0 < r.reported
    ensures IdentityStats.Matches(authType, identity, SyntheticEvent(r, ordinal))
            <==> authType == IdentityStats.AUTH_FILE && identity == Trim(r.file.authIndex)
  {
  }

  /** The synthetic events of a slot all lie in the given span. */
  predicate Placed(events: seq<UsageEvent>, s: Slot, span: Span) {
    forall i :: 0 <= i < |events| && Prefix(s) <= events[i].eventKey ==> IsSynthetic(events[i], s, span)
  }

  /** The requests for a slot agree about its span, and their products fit an int64. */
  predicate Agree(requests: seq<Request>, s: Slot, span: Span) {
    span.start < span.end
    && forall i :: 0 <= i < |requests| && RequestSlot(requests[i]) == s ==>
         requests[i].span == span && requests[i].reported * (span.end - span.start) <= INT64_MAX
  }

  function Max(a: int, b: int): int { if a < b then b else a }

  /** What one request calls for beyond the real events. */
  function Goal(events: seq<UsageEvent>, r: Request): int { r.reported - CountReal(events, r.file, r.span, r.failed) }

  /** The number of synthetic events the requests lead to, from k stored ones. */
  function Peak(events: seq<UsageEvent>, requests: seq<Request>, s: Slot, k: nat): (peak: nat)
    ensures peak >= k
  {
    if requests == [] then k
    else
      var r := requests[|requests| - 1];
      var before := Peak(events, requests[..|requests| - 1], s, k);
      if RequestSlot(r) == s then Max(before, Goal(events, r)) else before
  }

  lemma {:induction false} PlacedAreCounted(events: seq<UsageEvent>, s: Slot, span: Span)
    requires Placed(events, s, span)
    ensures CountSynthetic(events, s, span) == Stored(events, s)
  {
    if events != [] {
      PlacedAreCounted(events[..|events| - 1], s, span);
    }
  }

  lemma AllGeneratedSnoc(events: seq<UsageEvent>, requests: seq<Request>)
    requires requests != []
    ensures AllGenerated(events, requests)
            == AllGenerated(events, requests[..|requests| - 1]) + Generated(events, requests[|requests| - 1])
  {
    var n := |requests| - 1;
    assert requests == requests[..n] + [requests[n]];
    AllGeneratedAppend(events, requests[..n], [requests[n]]);
    AllGeneratedOne(events, requests[n]);
  }

  lemma KeysOfConsecutive(batch: seq<UsageEvent>, t: Slot, first: nat, s: Slot, n: nat)
    requires Consecutive(batch, t, first)
    ensures Key(s, n) in Keys(batch) <==> t == s && first <= n < first + |batch|
  {
    if Key(s, n) in Keys(batch) {
      var i :| 0 <= i < |batch| && batch[i].eventKey == Key(s, n);
      KeyInjective(t, first + i, s, n);
    }
    if t == s && first <= n < first + |batch| { assert batch[n - first].eventKey == Key(s, n); }
  }

  /** The keys a single request generates, for a slot of k stored events. */
  lemma GeneratedKeys(events: seq<UsageEvent>, r: Request, s: Slot, k: nat, n: nat)
    requires RequestSlot(r) == s ==> CountSynthetic(events, s, r.span) == k
    ensures Key(s, n) in Keys(Generated(events, r)) <==> RequestSlot(r) == s && k <= n < Goal(events, r)
  {
    var realCount := CountReal(events, r.file, r.span, r.failed);
    var c := CountSynthetic(events, RequestSlot(r), r.span);
    FillIsConsecutive(r, realCount, c);
    KeysOfConsecutive(Fill(r, realCount, c), RequestSlot(r), c, s, n);
  }

  /** All requests together generate exactly the ordinals between the stored ones and the peak. */
  lemma {:induction false} AllGeneratedKeys(events: seq<UsageEvent>, requests: seq<Request>, s: Slot, span: Span,
                                            k: nat, n: nat)
    requires Agree(requests, s, span) && CountSynthetic(events, s, span) == k
    ensures Key(s, n) in Keys(AllGenerated(events, requests)) <==> k <= n < Peak(events, requests, s, k)
  {
    if requests != [] {
      var m := |requests| - 1;
      AllGeneratedKeys(events, requests[..m], s, span, k, n);
      AllGeneratedSnoc(events, requests);
      KeysAppend(AllGenerated(events, requests[..m]), Generated(events, requests[m]));
      GeneratedKeys(events, requests[m], s, k, n);
    }
  }

  // ------------------------------------------------- what is inserted is synthetic

  predicate AllSynthetic(g: seq<UsageEvent>) { forall i :: 0 <= i < |g| ==> g[i].apiGroupKey == GROUP }

  lemma {:induction false} InsertKeepsReal(events: seq<UsageEvent>, g: seq<UsageEvent>, f: AuthFile, span: Span,
                                           failed: bool)
    requires AllSynthetic(g)
    ensures CountReal(InsertAll(events, g), f, span, failed) == CountReal(events, f, span, failed)
  {
    if g != [] {
      var n := |g| - 1;
      InsertKeepsReal(events, g[..n], f, span, failed);
      var before := InsertAll(events, g[..n]);
      assert (before + [g[n].(id := NextEventId(before))])[..|before|] == before;
    }
  }

  lemma {:induction false} InsertKeepsPlaced(events: seq<UsageEvent>, g: seq<UsageEvent>, s: Slot, span: Span)
    requires Placed(events, s, span) && Placed(g, s, span)
    ensures Placed(InsertAll(events, g), s, span)
  {
    if g != [] {
      InsertKeepsPlaced(events, g[..|g| - 1], s, span);
    }
  }

  predicate PlacedOne(e: UsageEvent, s: Slot, span: Span) {
    e.apiGroupKey == GROUP && (Prefix(s) <= e.eventKey ==> IsSynthetic(e, s, span))
  }

  lemma KeyedEventPlaced(e: UsageEvent, t: Slot, ordinal: nat, s: Slot, span: Span)
    requires e.apiGroupKey == GROUP && e.eventKey == Key(t, ordinal) && e.failed == t.failed
    requires t == s ==> span.start <= e.timestamp < span.end
    ensures PlacedOne(e, s, span)
  {
    if Prefix(s) <= e.eventKey { KeyOfItsSlot(e.eventKey, s, t, ordinal); }
  }

  /** A generated event is counted for its own slot, and for no other. */
  lemma SyntheticEventPlaced(r: Request, ordinal: nat, s: Slot, span: Span)
    requires Agree([r], s, span) && ordinal < r.reported
    ensures PlacedOne(SyntheticEvent(r, ordinal), s, span)
  {
    assert [r][0] == r;
    if RequestSlot(r) == s { OffsetStaysInBucket(r, ordinal); }
    KeyedEventPlaced(SyntheticEvent(r, ordinal), RequestSlot(r), ordinal, s, span);
  }

  lemma AllPlaced(batch: seq<UsageEvent>, s: Slot, span: Span)
    requires forall i :: 0 <= i < |batch| ==> PlacedOne(batch[i], s, span)
    ensures AllSynthetic(batch) && Placed(batch, s, span)
  {
  }

  lemma FillPlaced(r: Request, realCount: nat, c: nat, s: Slot, span: Span)
    requires Agree([r], s, span)
    ensures AllSynthetic(Fill(r, realCount, c)) && Placed(Fill(r, realCount, c), s, span)
  {
    var batch := Fill(r, realCount, c);
    forall i | 0 <= i < |batch| ensures PlacedOne(batch[i], s, span) {
      FillAt(r, realCount, c, i);
      SyntheticEventPlaced(r, c + i, s, span);
    }
    AllPlaced(batch, s, span);
  }

  lemma {:induction false} AllGeneratedPlaced(events: seq<UsageEvent>, requests: seq<Request>, s: Slot, span: Span)
    requires Agree(requests, s, span)
    ensures AllSynthetic(AllGenerated(events, requests)) && Placed(AllGenerated(events, requests), s, span)
  {
    if requests != [] {
      var m := |requests| - 1;
      AllGeneratedPlaced(events, requests[..m], s, span);
      AllGeneratedSnoc(events, requests);
      FillPlaced(requests[m], CountReal(events, requests[m].file, requests[m].span, requests[m].failed),
                 CountSynthetic(events, RequestSlot(requests[m]), requests[m].span), s, span);
    }
  }

  // -------------------------------------------------------- placed in every history

  ghost predicate WorldPlaced(w: World, s: Slot, span: Span) {
    Placed(w.events, s, span) && forall call :: call in w.pending ==> Placed(w.pending[call], s, span)
  }

  /** What is asked of the requests of other syncs, past or in flight. */
  predicate StepAgrees(step: Step, s: Slot, span: Span) { step.Generate? ==> Agree([step.request], s, span) }

  ghost predicate StepsAgree(steps: seq<Step>, s: Slot, span: Span) {
    forall i :: 0 <= i < |steps| ==> StepOk(steps[i]) && StepAgrees(steps[i], s, span)
  }

  lemma OthersPlaced(g: seq<UsageEvent>, s: Slot, span: Span)
    requires forall i :: 0 <= i < |g| ==> !Root(g[i].eventKey)
    ensures Placed(g, s, span)
  {
    KeysHaveTheRoot(s, 0);
  }

  lemma PlacedAppend(a: seq<UsageEvent>, b: seq<UsageEvent>, s: Slot, span: Span)
    requires Placed(a, s, span) && Placed(b, s, span)
    ensures Placed(a + b, s, span)
  {
  }

  lemma PlacedPart(g: seq<UsageEvent>, m: nat, s: Slot, span: Span)
    requires Placed(g, s, span) && m <= |g|
    ensures Placed(g[..m], s, span) && Placed(g[m..], s, span)
  {
  }

  /** Whatever runs concurrently, every synthetic event of the slot, stored or pending, lies in its span. */
  lemma StepKeepsPlaced(w: World, step: Step, s: Slot, span: Span)
    requires WorldPlaced(w, s, span) && StepOk(step) && StepAgrees(step, s, span)
    ensures WorldPlaced(Apply(w, step), s, span)
  {
    match step
    case Generate(call, r, realCount) =>
      var c := CountSynthetic(w.events, RequestSlot(r), r.span);
      FillPlaced(r, realCount, c, s, span);
      PlacedAppend(PendingOf(w, call), Fill(r, realCount, c), s, span);
    case InsertChunk(call) =>
      var g := PendingOf(w, call);
      PlacedPart(g, ChunkSize(g), s, span);
      InsertKeepsPlaced(w.events, g[..ChunkSize(g)], s, span);
    case Stop(call) =>
    case OtherInsert(events) =>
      OthersPlaced(events, s, span);
      InsertKeepsPlaced(w.events, events, s, span);
  }

  /** Both invariants, over every history. */
  lemma {:induction false} RunKeepsPlaced(w: World, steps: seq<Step>, s: Slot, span: Span)
    requires Inv(w) && WorldPlaced(w, s, span) && StepsAgree(steps, s, span)
    ensures Inv(Run(w, steps)) && WorldPlaced(Run(w, steps), s, span)
    decreases |steps|
  {
    if steps != [] {
      StepKeepsInv(w, steps[0]);
      StepKeepsPlaced(w, steps[0], s, span);
      RunKeepsPlaced(Apply(w, steps[0]), steps[1..], s, span);
    }
  }

  lemma ReachedIsPlaced(steps: seq<Step>, s: Slot, span: Span)
    requires StepsAgree(steps, s, span)
    ensures Good(Run(EMPTY, steps).events) && Placed(Run(EMPTY, steps).events, s, span)
  {
    EmptyIsGood();
    RunKeepsPlaced(EMPTY, steps, s, span);
  }

  // ------------------------------------------------------------------ convergence

  lemma {:induction false} AllGeneratedReady(events: seq<UsageEvent>, requests: seq<Request>)
    requires Good(events)
    ensures Ready(events, AllGenerated(events, requests))
  {
    if requests != [] {
      var m := |requests| - 1;
      AllGeneratedReady(events, requests[..m]);
      AllGeneratedSnoc(events, requests);
      BatchIsReady(events, requests[m], CountReal(events, requests[m].file, requests[m].span, requests[m].failed));
      ReadyAppend(events, AllGenerated(events, requests[..m]), Generated(events, requests[m]));
    } else {
      OthersAreReady(events, []);
    }
  }

  /** A completed sync leaves each slot with the largest number its requests called for, or with what
      it had, and its real events as they were. */
  lemma SyncReachesPeak(events: seq<UsageEvent>, requests: seq<Request>, s: Slot, span: Span)
    requires Good(events) && Placed(events, s, span) && Agree(requests, s, span)
    ensures var after := InsertAll(events, AllGenerated(events, requests));
            Good(after) && Placed(after, s, span)
            && CountSynthetic(after, s, span) == Peak(events, requests, s, CountSynthetic(events, s, span))
  {
    var g := AllGenerated(events, requests);
    var after := InsertAll(events, g);
    var k := CountSynthetic(events, s, span);
    AllGeneratedReady(events, requests);
    InsertReady(events, g);
    AllGeneratedPlaced(events, requests, s, span);
    InsertKeepsPlaced(events, g, s, span);
    PlacedAreCounted(events, s, span);
    PlacedAreCounted(after, s, span);
    StoredIsSegment(events, s);
    StoredIsSegment(after, s);
    InsertAllKeys(events, g);
    var peak := Peak(events, requests, s, k);
    AllGeneratedKeys(events, requests, s, span, k, peak);
    assert Key(s, peak) !in Keys(after);
    if peak > 0 {
      AllGeneratedKeys(events, requests, s, span, k, peak - 1);
      assert Key(s, peak - 1) in Keys(after);
    }
  }

  lemma {:induction false} PeakCoversGoals(events: seq<UsageEvent>, requests: seq<Request>, s: Slot, k: nat, i: nat)
    requires i < |requests| && RequestSlot(requests[i]) == s
    ensures Goal(events, requests[i]) <= Peak(events, requests, s, k)
  {
    var m := |requests| - 1;
    if i < m { PeakCoversGoals(events, requests[..m], s, k, i); }
  }

  lemma {:induction false} PeakOfOne(events: seq<UsageEvent>, requests: seq<Request>, s: Slot, k: nat, i: nat)
    requires i < |requests| && RequestSlot(requests[i]) == s
    requires forall j :: 0 <= j < |requests| && j != i ==> RequestSlot(requests[j]) != s
    ensures Peak(events, requests, s, k) == Max(k, Goal(events, requests[i]))
  {
    var m := |requests| - 1;
    if i < m { PeakOfOne(events, requests[..m], s, k, i); } else { PeakOfNone(events, requests[..m], s, k); }
  }

  lemma {:induction false} PeakOfNone(events: seq<UsageEvent>, requests: seq<Request>, s: Slot, k: nat)
    requires forall j :: 0 <= j < |requests| ==> RequestSlot(requests[j]) != s
    ensures Peak(events, requests, s, k) == k
  {
    if requests != [] { PeakOfNone(events, requests[..|requests| - 1], s, k); }
  }

  /** Real plus synthetic events of a request's bucket and outcome. */
  function Covered(events: seq<UsageEvent>, r: Request): nat {
    CountReal(events, r.file, r.span, r.failed) + CountSynthetic(events, RequestSlot(r), r.span)
  }

  lemma CoveredGeneratesNothing(events: seq<UsageEvent>, r: Request)
    requires r.reported <= Covered(events, r)
    ensures Generated(events, r) == []
  {
  }

  lemma CoveredAfter(events: seq<UsageEvent>, requests: seq<Request>, i: nat)
    requires i < |requests| && Good(events)
    requires Placed(events, RequestSlot(requests[i]), requests[i].span)
             && Agree(requests, RequestSlot(requests[i]), requests[i].span)
    ensures var r := requests[i];
            var after := InsertAll(events, AllGenerated(events, requests));
            Good(after)
            && Covered(after, r) == CountReal(events, r.file, r.span, r.failed)
                                    + Peak(events, requests, RequestSlot(r),
                                           CountSynthetic(events, RequestSlot(r), r.span))
  {
    var r := requests[i];
    var g := AllGenerated(events, requests);
    SyncReachesPeak(events, requests, RequestSlot(r), r.span);
    AllGeneratedPlaced(events, requests, RequestSlot(r), r.span);
    InsertKeepsReal(events, g, r.file, r.span, r.failed);
  }

  predicate SlotToItself(requests: seq<Request>, i: nat)
    requires i < |requests|
  {
    forall j :: 0 <= j < |requests| && j != i ==> RequestSlot(requests[j]) != RequestSlot(requests[i])
  }

  lemma ConvergesFrom(events: seq<UsageEvent>, requests: seq<Request>, i: nat)
    requires i < |requests| && Good(events)
    requires Placed(events, RequestSlot(requests[i]), requests[i].span)
             && Agree(requests, RequestSlot(requests[i]), requests[i].span)
    ensures var r := requests[i];
            var after := InsertAll(events, AllGenerated(events, requests));
            r.reported <= Covered(after, r) && Generated(after, r) == []
            && (SlotToItself(requests, i) ==> Covered(after, r) == Max(r.reported, Covered(events, r)))
  {
    var r := requests[i];
    var k := CountSynthetic(events, RequestSlot(r), r.span);
    CoveredAfter(events, requests, i);
    PeakCoversGoals(events, requests, RequestSlot(r), k, i);
    CoveredGeneratesNothing(InsertAll(events, AllGenerated(events, requests)), r);
    if SlotToItself(requests, i) { PeakOfOne(events, requests, RequestSlot(r), k, i); }
  }

  /** After any history of overlapping and interrupted syncs, one that runs to its end leaves every
      request's bucket with at least what was reported, and with exactly the larger of that and what it
      held when no other request is for the same slot; the same request then generates nothing. All that
      is asked is that the requests for a slot agree about its span. */
  lemma SyncConverges(steps: seq<Step>, requests: seq<Request>, i: nat)
    requires i < |requests| && StepsAgree(steps, RequestSlot(requests[i]), requests[i].span)
    requires Agree(requests, RequestSlot(requests[i]), requests[i].span)
    ensures var r := requests[i];
            var before := Run(EMPTY, steps).events;
            var after := InsertAll(before, AllGenerated(before, requests));
            r.reported <= Covered(after, r) && Generated(after, r) == []
            && (SlotToItself(requests, i) ==> Covered(after, r) == Max(r.reported, Covered(before, r)))
  {
    ReachedIsPlaced(steps, RequestSlot(requests[i]), requests[i].span);
    ConvergesFrom(Run(EMPTY, steps).events, requests, i);
  }

  /** All events of one outcome in a span, whoever they came from. */
  function EventsIn(events: seq<UsageEvent>, span: Span, failed: bool): nat {
    if events == [] then 0
    else
      var e := events[|events| - 1];
      EventsIn(events[..|events| - 1], span, failed)
      + if span.start <= e.timestamp && e.timestamp < span.end && e.failed == failed then 1 else 0
  }

  lemma {:induction false} CoveredAreEvents(events: seq<UsageEvent>, r: Request)
    ensures Covered(events, r) <= EventsIn(events, r.span, r.failed)
  {
    if events != [] { CoveredAreEvents(events[..|events| - 1], r); }
  }

  /** The requests of a sync, and those before it, agree about a bucket, for one outcome. */
  ghost predicate BucketAgreed(steps: seq<Step>, requests: seq<Request>, f: AuthFile, span: Span, failed: bool) {
    StepsAgree(steps, SlotOf(f, span, failed), span) && Agree(requests, SlotOf(f, span, failed), span)
  }

  lemma ReportIsCovered(steps: seq<Step>, files: seq<AuthFile>, now: Instant, offset: int, i: nat, j: nat, failed: bool)
    requires i < |files| && j < |files[i].recentRequests|
    requires ParseBucket(files[i].recentRequests[j].time, now, offset).Some?
    requires BucketAgreed(steps, SyncRequests(files, now, offset), files[i],
                          ParseBucket(files[i].recentRequests[j].time, now, offset).value, failed)
    ensures var b := files[i].recentRequests[j];
            var span := ParseBucket(b.time, now, offset).value;
            var before := Run(EMPTY, steps).events;
            var after := InsertAll(before, AllGenerated(before, SyncRequests(files, now, offset)));
            var reported := if failed then b.failed else b.success;
            reported <= Covered(after, Request(files[i], span, failed, reported)) <= EventsIn(after, span, failed)
  {
    var b := files[i].recentRequests[j];
    var reported := if failed then b.failed else b.success;
    var r := Request(files[i], ParseBucket(b.time, now, offset).value, failed, reported);
    var requests, before := SyncRequests(files, now, offset), Run(EMPTY, steps).events;
    CoveredAreEvents(InsertAll(before, AllGenerated(before, requests)), r);
    if reported > 0 {
      assert ReportedBy(files[i], b, Spans(files[i], now, offset)[j], r);
      RequestsAreReported(files, now, offset, r);
      var k :| 0 <= k < |requests| && requests[k] == r;
      SyncConverges(steps, requests, k);
    }
  }

  /** In terms of what a file reports: after any history, a sync that runs to its end leaves in the span of
      each bucket at least as many successful events as the bucket reports, and at least as many failed
      ones. */
  lemma SyncCoversReports(steps: seq<Step>, files: seq<AuthFile>, now: Instant, offset: int, i: nat, j: nat)
    requires i < |files| && j < |files[i].recentRequests|
    requires var span := ParseBucket(files[i].recentRequests[j].time, now, offset);
             span.Some?
             && BucketAgreed(steps, SyncRequests(files, now, offset), files[i], span.value, false)
             && BucketAgreed(steps, SyncRequests(files, now, offset), files[i], span.value, true)
    ensures var b := files[i].recentRequests[j];
            var span := ParseBucket(b.time, now, offset).value;
            var before := Run(EMPTY, steps).events;
            var after := InsertAll(before, AllGenerated(before, SyncRequests(files, now, offset)));
            b.success <= EventsIn(after, span, false) && b.failed <= EventsIn(after, span, true)
  {
    ReportIsCovered(steps, files, now, offset, i, j, false);
    ReportIsCovered(steps, files, now, offset, i, j, true);
  }

  lemma {:induction false} NothingToGenerate(events: seq<UsageEvent>, requests: seq<Request>)
    requires forall i :: 0 <= i < |requests| ==> Generated(events, requests[i]) == []
    ensures AllGenerated(events, requests) == []
  {
    if requests != [] {
      AllGeneratedSnoc(events, requests);
      NothingToGenerate(events, requests[..|requests| - 1]);
    }
  }

  /** After any history, repeating a completed sync generates nothing, so the table stays as it is. */
  lemma RepeatedSyncAddsNothing(steps: seq<Step>, requests: seq<Request>)
    requires forall i :: 0 <= i < |requests| ==>
               StepsAgree(steps, RequestSlot(requests[i]), requests[i].span)
               && Agree(requests, RequestSlot(requests[i]), requests[i].span)
    ensures var before := Run(EMPTY, steps).events;
            var after := InsertAll(before, AllGenerated(before, requests));
            InsertAll(after, AllGenerated(after, requests)) == after
  {
    var before := Run(EMPTY, steps).events;
    var after := InsertAll(before, AllGenerated(before, requests));
    forall i | 0 <= i < |requests| ensures Generated(after, requests[i]) == [] { SyncConverges(steps, requests, i); }
    NothingToGenerate(after, requests);
  }

  // ------------------------------------------------------------ syncs that are overlapped

  /** The first `goal` ordinals of the slot are stored, or pending in the call. */
  ghost predicate Owed(w: World, call: nat, s: Slot, goal: int) {
    forall n: nat :: n < goal ==> Key(s, n) in Keys(w.events) + Keys(PendingOf(w, call))
  }

  lemma GenerateOwes(w: World, call: nat, r: Request, realCount: nat)
    requires Inv(w)
    ensures Owed(Apply(w, Generate(call, r, realCount)), call, RequestSlot(r), r.reported - realCount)
  {
    var s := RequestSlot(r);
    var c := CountSynthetic(w.events, s, r.span);
    var batch := Fill(r, realCount, c);
    StoredIsSegment(w.events, s);
    CountAtMostStored(w.events, s, r.span);
    FillIsConsecutive(r, realCount, c);
    KeysAppend(PendingOf(w, call), batch);
    forall n: nat | n < r.reported - realCount ensures Key(s, n) in Keys(w.events) + Keys(batch) {
      if n >= c { assert batch[n - c].eventKey == Key(s, n); }
    }
  }

  lemma StepKeepsOwed(w: World, step: Step, call: nat, s: Slot, goal: int)
    requires Owed(w, call, s, goal) && step != Stop(call)
    ensures Owed(Apply(w, step), call, s, goal)
  {
    match step
    case Generate(other, r, realCount) =>
      if other == call {
        KeysAppend(PendingOf(w, call), Fill(r, realCount, CountSynthetic(w.events, RequestSlot(r), r.span)));
      }
    case InsertChunk(other) =>
      var g := PendingOf(w, other);
      var m := ChunkSize(g);
      assert g == g[..m] + g[m..];
      KeysAppend(g[..m], g[m..]);
      InsertAllKeys(w.events, g[..m]);
    case Stop(other) =>
    case OtherInsert(events) => InsertAllKeys(w.events, events);
  }

  lemma {:induction false} RunKeepsOwed(w: World, steps: seq<Step>, call: nat, s: Slot, goal: int)
    requires Owed(w, call, s, goal) && forall i :: 0 <= i < |steps| ==> steps[i] != Stop(call)
    ensures Owed(Run(w, steps), call, s, goal)
    decreases |steps|
  {
    if steps != [] {
      StepKeepsOwed(w, steps[0], call, s, goal);
      RunKeepsOwed(Apply(w, steps[0]), steps[1..], call, s, goal);
    }
  }

  lemma StepOnlyAdds(w: World, step: Step)
    ensures w.events <= Apply(w, step).events
  {
    match step
    case InsertChunk(call) => InsertAllKeys(w.events, PendingOf(w, call)[..ChunkSize(PendingOf(w, call))]);
    case OtherInsert(events) => InsertAllKeys(w.events, events);
    case _ =>
  }

  lemma {:induction false} RunOnlyAdds(w: World, steps: seq<Step>)
    ensures w.events <= Run(w, steps).events
    decreases |steps|
  {
    if steps != [] {
      StepOnlyAdds(w, steps[0]);
      RunOnlyAdds(Apply(w, steps[0]), steps[1..]);
    }
  }

  lemma {:induction false} RealCountGrows(before: seq<UsageEvent>, after: seq<UsageEvent>, f: AuthFile, span: Span,
                                          failed: bool)
    requires before <= after
    ensures CountReal(before, f, span, failed) <= CountReal(after, f, span, failed)
    decreases |after|
  {
    if |before| < |after| {
      RealCountGrows(before, after[..|after| - 1], f, span, failed);
    } else {
      assert before == after;
    }
  }

  lemma OwedIsCovered(w: World, call: nat, r: Request, realCount: nat)
    requires Good(w.events) && Placed(w.events, RequestSlot(r), r.span) && PendingOf(w, call) == []
    requires Owed(w, call, RequestSlot(r), r.reported - realCount)
    requires realCount <= CountReal(w.events, r.file, r.span, r.failed)
    ensures r.reported <= Covered(w.events, r) && Generated(w.events, r) == []
  {
    var s := RequestSlot(r);
    StoredIsSegment(w.events, s);
    PlacedAreCounted(w.events, s, r.span);
    assert Key(s, Stored(w.events, s)) !in Keys(w.events) + Keys(PendingOf(w, call));
    CoveredGeneratesNothing(w.events, r);
  }

  lemma OverlapFrom(w: World, call: nat, r: Request, realCount: nat, later: seq<Step>)
    requires Inv(w) && WorldPlaced(w, RequestSlot(r), r.span)
    requires Agree([r], RequestSlot(r), r.span) && StepsAgree(later, RequestSlot(r), r.span)
    requires realCount <= CountReal(w.events, r.file, r.span, r.failed)
    requires forall i :: 0 <= i < |later| ==> later[i] != Stop(call)
    requires PendingOf(Run(Apply(w, Generate(call, r, realCount)), later), call) == []
    ensures var after := Run(Apply(w, Generate(call, r, realCount)), later).events;
            r.reported <= Covered(after, r) && Generated(after, r) == []
  {
    var s, step := RequestSlot(r), Generate(call, r, realCount);
    var last := Run(Apply(w, step), later);
    StepKeepsInv(w, step);
    StepKeepsPlaced(w, step, s, r.span);
    RunKeepsPlaced(Apply(w, step), later, s, r.span);
    GenerateOwes(w, call, r, realCount);
    RunKeepsOwed(Apply(w, step), later, call, s, r.reported - realCount);
    RunOnlyAdds(Apply(w, step), later);
    RealCountGrows(w.events, last.events, r.file, r.span, r.failed);
    OwedIsCovered(last, call, r, realCount);
  }

  /** Overlap does no harm to the lower bound: once a call has stored all it generated for a request, the
      bucket holds at least what was reported, whatever other syncs and writers did before, between its
      chunks, and between counting and generating. */
  lemma OverlappedSyncCovers(first: seq<Step>, call: nat, r: Request, realCount: nat, later: seq<Step>)
    requires StepsAgree(first, RequestSlot(r), r.span) && StepsAgree(later, RequestSlot(r), r.span)
    requires Agree([r], RequestSlot(r), r.span)
    requires realCount <= CountReal(Run(EMPTY, first).events, r.file, r.span, r.failed)
    requires forall i :: 0 <= i < |later| ==> later[i] != Stop(call)
    requires PendingOf(Run(Apply(Run(EMPTY, first), Generate(call, r, realCount)), later), call) == []
    ensures var after := Run(Apply(Run(EMPTY, first), Generate(call, r, realCount)), later).events;
            r.reported <= Covered(after, r) && Generated(after, r) == []
  {
    EmptyIsGood();
    RunKeepsPlaced(EMPTY, first, RequestSlot(r), r.span);
    OverlapFrom(Run(EMPTY, first), call, r, realCount, later);
  }
}

/** What repeated and overlapping syncs of auth-file buckets converge to (internal/service/sync.go). */
module RecentFillHistory {
  import opened Text
  import opened UsageEvents
  import opened Database
  import opened RecentBuckets
  import opened RecentFill

  predicate Root(key: string) { GROUP + ":" <= key }

  lemma KeysHaveTheRoot(s: Slot, n: nat)
    ensures Root(Prefix(s)) && Root(Key(s, n)) && Prefix(s) <= Key(s, n)
  {
    var p := KeyParts(s);
    assert Join(p, ':') == GROUP + [':'] + Join(p[1..], ':');
  }

  /** A key of this shape was made by the generator. */
  ghost predicate Formed(key: string) { Root(key) ==> exists s, n: nat :: key == Key(s, n) }

  ghost predicate AllFormed(events: seq<UsageEvent>) { forall i :: 0 <= i < |events| ==> Formed(events[i].eventKey) }

  /** The ordinal before the one of `key`, if any, occurs in `known`. */
  ghost predicate Follows(key: string, known: set<string>) {
    forall s, n: nat :: n > 0 && key == Key(s, n) ==> Key(s, n - 1) in known
  }

  /** Every ordinal comes after its predecessor. */
  ghost predicate Supported(events: seq<UsageEvent>) {
    forall i :: 0 <= i < |events| ==> Follows(events[i].eventKey, Keys(events[..i]))
  }

  /** The number of stored keys of a slot. */
  function Stored(events: seq<UsageEvent>, s: Slot): nat {
    if events == [] then 0
    else Stored(events[..|events| - 1], s) + if Prefix(s) <= events[|events| - 1].eventKey then 1 else 0
  }

  ghost predicate Segment(events: seq<UsageEvent>, s: Slot) {
    forall n: nat :: Key(s, n) in Keys(events) <==> n < Stored(events, s)
  }

  lemma KeyOfItsSlot(key: string, s: Slot, t: Slot, m: nat)
    requires Prefix(s) <= key && key == Key(t, m)
    ensures s == t
  {
    var tail := key[|Prefix(s)|..];
    assert Prefix(s) + tail == key;
    PrefixSelectsItsSlot(s, t, tail, Decimal(m));
  }

  lemma FormedKeyOfSlot(key: string, s: Slot) returns (n: nat)
    requires Formed(key) && Prefix(s) <= key
    ensures key == Key(s, n)
  {
    assert Root(key) by { KeysHaveTheRoot(s, 0); }
    var t, m: nat :| key == Key(t, m);
    KeyOfItsSlot(key, s, t, m);
    n := m;
  }

  lemma SupportedPrefix(events: seq<UsageEvent>)
    requires events != [] && Supported(events)
    ensures Supported(events[..|events| - 1]) && Follows(events[|events| - 1].eventKey, Keys(events[..|events| - 1]))
  {
    var init := events[..|events| - 1];
    forall i | 0 <= i < |init| ensures Follows(init[i].eventKey, Keys(init[..i])) {
      assert init[..i] == events[..i] && init[i] == events[i];
    }
  }

  lemma KeysLast(events: seq<UsageEvent>)
    requires events != []
    ensures Keys(events) == Keys(events[..|events| - 1]) + {events[|events| - 1].eventKey}
  {
    var init, e := events[..|events| - 1], events[|events| - 1];
    KeysAppend(init, [e]);
    assert events == init + [e];
    assert Keys([e]) == {e.eventKey} by { assert [e][0] == e; }
  }

  lemma NextInSegment(before: set<string>, s: Slot, k: nat, key: string, after: set<string>)
    requires after == before + {key} && key !in before && Follows(key, before)
    requires forall n: nat :: Key(s, n) in before <==> n < k
    requires exists m: nat :: key == Key(s, m)
    ensures forall n: nat :: Key(s, n) in after <==> n < k + 1
  {
    var m: nat :| key == Key(s, m);
    assert m == k by {
      assert m >= k;
      if m > 0 { assert Key(s, m - 1) in before; }
    }
    forall n: nat ensures Key(s, n) in after <==> n < k + 1 {
      if Key(s, n) == key { KeyInjective(s, n, s, m); }
    }
  }

  /** The stored ordinals of every slot are an initial segment. */
  lemma {:induction false} StoredIsSegment(events: seq<UsageEvent>, s: Slot)
    requires TableOk(events) && AllFormed(events) && Supported(events)
    ensures Segment(events, s)
  {
    if events != [] {
      var init, e := events[..|events| - 1], events[|events| - 1];
      SupportedPrefix(events);
      StoredIsSegment(init, s);
      KeysLast(events);
      assert e.eventKey !in Keys(init) by {
        assert forall i :: 0 <= i < |init| ==> init[i] == events[i] && events[i].eventKey != e.eventKey;
      }
      if Prefix(s) <= e.eventKey {
        var n := FormedKeyOfSlot(e.eventKey, s);
        NextInSegment(Keys(init), s, Stored(init, s), e.eventKey, Keys(events));
      } else {
        forall n: nat ensures Key(s, n) in Keys(events) <==> n < Stored(events, s) {
          KeysHaveTheRoot(s, n);
        }
      }
    }
  }

  lemma {:induction false} CountAtMostStored(events: seq<UsageEvent>, s: Slot, span: Span)
    ensures CountSynthetic(events, s, span) <= Stored(events, s)
  {
    if events != [] { CountAtMostStored(events[..|events| - 1], s, span); }
  }

  // ----------------------------------------------------------------- interleavings

  /** The table, and per sync in flight the events it has generated but not yet inserted. */
  datatype World = World(events: seq<UsageEvent>, pending: map<nat, seq<UsageEvent>>)

  const EMPTY: World := World([], map[])

  /** A sync generates request by request; the count of real events it works with may be of any age.
      It then inserts chunk by chunk, and may stop at any point. */
  datatype Step =
    | Generate(call: nat, request: Request, realCount: nat)
    | InsertChunk(call: nat)
    | Stop(call: nat)
    | OtherInsert(events: seq<UsageEvent>)

  const CHUNK: nat := 100

  function PendingOf(w: World, call: nat): seq<UsageEvent> { if call in w.pending then w.pending[call] else [] }

  function ChunkSize(g: seq<UsageEvent>): (n: nat)
    ensures n <= |g|
  {
    if |g| < CHUNK then |g| else CHUNK
  }

  function Apply(w: World, step: Step): World {
    match step
    case Generate(call, r, realCount) =>
      var synthetic := CountSynthetic(w.events, RequestSlot(r), r.span);
      w.(pending := w.pending[call := PendingOf(w, call) + Fill(r, realCount, synthetic)])
    case InsertChunk(call) =>
      var g := PendingOf(w, call);
      World(InsertAll(w.events, g[..ChunkSize(g)]), w.pending[call := g[ChunkSize(g)..]])
    case Stop(call) => w.(pending := w.pending - {call})
    case OtherInsert(events) => w.(events := InsertAll(w.events, events))
  }

  function Run(w: World, steps: seq<Step>): World
    decreases |steps|
  {
    if steps == [] then w else Run(Apply(w, steps[0]), steps[1..])
  }

  /** Events from the queue do not carry generated keys. */
  ghost predicate StepOk(step: Step) {
    step.OtherInsert? ==> forall i :: 0 <= i < |step.events| ==> !Root(step.events[i].eventKey)
  }

  ghost predicate Good(events: seq<UsageEvent>) { TableOk(events) && AllFormed(events) && Supported(events) }

  /** g can be inserted after `events`, in order, without leaving a gap. */
  ghost predicate Ready(events: seq<UsageEvent>, g: seq<UsageEvent>) {
    AllFormed(g) && forall i :: 0 <= i < |g| ==> Follows(g[i].eventKey, Keys(events) + Keys(g[..i]))
  }

  ghost predicate Inv(w: World) {
    Good(w.events) && forall call :: call in w.pending ==> Ready(w.events, w.pending[call])
  }

  lemma FollowsMore(key: string, a: set<string>, b: set<string>)
    requires Follows(key, a) && a <= b
    ensures Follows(key, b)
  {
  }

  /** Inserting the first m events leaves the rest ready. */
  lemma ReadyRest(events: seq<UsageEvent>, g: seq<UsageEvent>, m: nat, after: seq<UsageEvent>)
    requires Ready(events, g) && m <= |g| && Keys(events) + Keys(g[..m]) <= Keys(after)
    ensures Ready(after, g[m..])
  {
    var rest := g[m..];
    forall i | 0 <= i < |rest|
      ensures Follows(rest[i].eventKey, Keys(after) + Keys(rest[..i])) && Formed(rest[i].eventKey)
    {
      assert g[..m + i] == g[..m] + rest[..i];
      KeysAppend(g[..m], rest[..i]);
      assert rest[i] == g[m + i];
      FollowsMore(g[m + i].eventKey, Keys(events) + Keys(g[..m + i]), Keys(after) + Keys(rest[..i]));
    }
  }

  lemma ReadyInit(events: seq<UsageEvent>, g: seq<UsageEvent>, m: nat)
    requires Ready(events, g) && m <= |g|
    ensures Ready(events, g[..m])
  {
    var init := g[..m];
    forall i | 0 <= i < m
      ensures Follows(init[i].eventKey, Keys(events) + Keys(init[..i])) && Formed(init[i].eventKey)
    {
      assert init[..i] == g[..i] && init[i] == g[i];
    }
  }

  lemma SupportedSnoc(events: seq<UsageEvent>, e: UsageEvent)
    requires AllFormed(events) && Supported(events) && Formed(e.eventKey) && Follows(e.eventKey, Keys(events))
    ensures AllFormed(events + [e]) && Supported(events + [e])
  {
    var all := events + [e];
    forall i | 0 <= i < |all| ensures Follows(all[i].eventKey, Keys(all[..i])) && Formed(all[i].eventKey) {
      assert all[..i] == events[..i];
      if i < |events| { assert all[i] == events[i]; } else { assert all[i] == e && events[..i] == events; }
    }
  }

  lemma {:induction false} InsertReady(events: seq<UsageEvent>, g: seq<UsageEvent>)
    requires Good(events) && Ready(events, g)
    ensures Good(InsertAll(events, g))
  {
    InsertAllTableOk(events, g);
    if g != [] {
      var n := |g| - 1;
      ReadyInit(events, g, n);
      InsertReady(events, g[..n]);
      InsertAllKeys(events, g[..n]);
      var before := InsertAll(events, g[..n]);
      if g[n].eventKey !in Keys(before) {
        SupportedSnoc(before, g[n].(id := NextEventId(before)));
      }
    }
  }

  lemma OthersAreReady(events: seq<UsageEvent>, g: seq<UsageEvent>)
    requires forall i :: 0 <= i < |g| ==> !Root(g[i].eventKey)
    ensures Ready(events, g)
  {
    forall i, s, n: nat | 0 <= i < |g| ensures g[i].eventKey != Key(s, n) { KeysHaveTheRoot(s, n); }
  }

  lemma KeyFollows(s: Slot, n: nat, known: set<string>)
    requires n > 0 ==> Key(s, n - 1) in known
    ensures Follows(Key(s, n), known) && Formed(Key(s, n))
  {
    forall t, m: nat | m > 0 && Key(s, n) == Key(t, m) ensures Key(t, m - 1) in known { KeyInjective(s, n, t, m); }
  }

  ghost predicate Consecutive(batch: seq<UsageEvent>, s: Slot, first: nat) {
    forall i :: 0 <= i < |batch| ==> batch[i].eventKey == Key(s, first + i)
  }

  lemma ConsecutiveIsReady(events: seq<UsageEvent>, batch: seq<UsageEvent>, s: Slot, first: nat)
    requires Consecutive(batch, s, first) && (first > 0 ==> Key(s, first - 1) in Keys(events))
    ensures Ready(events, batch)
  {
    forall i | 0 <= i < |batch|
      ensures Follows(batch[i].eventKey, Keys(events) + Keys(batch[..i])) && Formed(batch[i].eventKey)
    {
      if i > 0 { assert batch[..i][i - 1].eventKey == Key(s, first + (i - 1)); }
      KeyFollows(s, first + i, Keys(events) + Keys(batch[..i]));
    }
  }

  lemma FillIsConsecutive(r: Request, realCount: nat, synthetic: nat)
    ensures Consecutive(Fill(r, realCount, synthetic), RequestSlot(r), synthetic)
  {
    var batch := Fill(r, realCount, synthetic);
    forall i | 0 <= i < |batch| ensures batch[i].eventKey == Key(RequestSlot(r), synthetic + i) {
      FillAt(r, realCount, synthetic, i);
    }
  }

  /** A freshly generated batch starts no later than the end of what is stored. */
  lemma BatchIsReady(events: seq<UsageEvent>, r: Request, realCount: nat)
    requires Good(events)
    ensures Ready(events, Fill(r, realCount, CountSynthetic(events, RequestSlot(r), r.span)))
  {
    var s, c := RequestSlot(r), CountSynthetic(events, RequestSlot(r), r.span);
    StoredIsSegment(events, s);
    CountAtMostStored(events, s, r.span);
    FillIsConsecutive(r, realCount, c);
    ConsecutiveIsReady(events, Fill(r, realCount, c), s, c);
  }

  lemma ReadyAppend(events: seq<UsageEvent>, g: seq<UsageEvent>, batch: seq<UsageEvent>)
    requires Ready(events, g) && Ready(events, batch)
    ensures Ready(events, g + batch)
  {
    var all := g + batch;
    forall i | 0 <= i < |all|
      ensures Follows(all[i].eventKey, Keys(events) + Keys(all[..i])) && Formed(all[i].eventKey)
    {
      if i < |g| {
        assert all[i] == g[i] && all[..i] == g[..i];
      } else {
        var j := i - |g|;
        assert all[i] == batch[j] && all[..i] == g + batch[..j];
        KeysAppend(g, batch[..j]);
        FollowsMore(batch[j].eventKey, Keys(events) + Keys(batch[..j]), Keys(events) + Keys(all[..i]));
      }
    }
  }

  lemma PendingIsReady(w: World, call: nat)
    requires Inv(w)
    ensures Ready(w.events, PendingOf(w, call))
  {
    if call !in w.pending { OthersAreReady(w.events, []); }
  }

  lemma InsertKeepsInv(w: World, g: seq<UsageEvent>)
    requires Inv(w) && Ready(w.events, g)
    ensures Inv(w.(events := InsertAll(w.events, g)))
  {
    InsertReady(w.events, g);
    InsertAllKeys(w.events, g);
    forall call | call in w.pending ensures Ready(InsertAll(w.events, g), w.pending[call]) {
      ReadyRest(w.events, w.pending[call], 0, InsertAll(w.events, g));
      assert w.pending[call][0..] == w.pending[call];
    }
  }

  lemma StepKeepsInv(w: World, step: Step)
    requires Inv(w) && StepOk(step)
    ensures Inv(Apply(w, step))
  {
    match step
    case Generate(call, r, realCount) =>
      PendingIsReady(w, call);
      BatchIsReady(w.events, r, realCount);
      ReadyAppend(w.events, PendingOf(w, call), Fill(r, realCount, CountSynthetic(w.events, RequestSlot(r), r.span)));
    case InsertChunk(call) =>
      var g := PendingOf(w, call);
      var m := ChunkSize(g);
      PendingIsReady(w, call);
      ReadyInit(w.events, g, m);
      InsertKeepsInv(w, g[..m]);
      InsertAllKeys(w.events, g[..m]);
      ReadyRest(w.events, g, m, InsertAll(w.events, g[..m]));
    case Stop(call) =>
    case OtherInsert(events) =>
      OthersAreReady(w.events, events);
      InsertKeepsInv(w, events);
  }

  lemma {:induction false} RunKeepsInv(w: World, steps: seq<Step>)
    requires Inv(w) && forall i :: 0 <= i < |steps| ==> StepOk(steps[i])
    ensures Inv(Run(w, steps))
    decreases |steps|
  {
    if steps != [] {
      StepKeepsInv(w, steps[0]);
      RunKeepsInv(Apply(w, steps[0]), steps[1..]);
    }
  }

  lemma EmptyIsGood()
    ensures Inv(EMPTY)
  {
  }

  /** However syncs overlap, with counts as stale as they may be and inserts that stop part-way, the
      stored ordinals of every slot are 0, 1, ..., k-1. */
  lemma OrdinalsAreInitialSegments(steps: seq<Step>, s: Slot)
    requires forall i :: 0 <= i < |steps| ==> StepOk(steps[i])
    ensures Segment(Run(EMPTY, steps).events, s)
  {
    EmptyIsGood();
    RunKeepsInv(EMPTY, steps);
    StoredIsSegment(Run(EMPTY, steps).events, s);
  }

  // --------------------------------------------------------------- the upper bound

  ghost predicate Below(events: seq<UsageEvent>, s: Slot, bound: nat) {
    forall i, n: nat :: 0 <= i < |events| && events[i].eventKey == Key(s, n) ==> n < bound
  }

  ghost predicate WorldBelow(w: World, s: Slot, bound: nat) {
    Below(w.events, s, bound) && forall call :: call in w.pending ==> Below(w.pending[call], s, bound)
  }

  ghost predicate ReportsAtMost(step: Step, s: Slot, bound: nat) {
    step.Generate? && RequestSlot(step.request) == s ==> step.request.reported <= bound
  }

  lemma FillFits(r: Request, realCount: nat, synthetic: nat)
    ensures Fill(r, realCount, synthetic) != [] ==> synthetic + |Fill(r, realCount, synthetic)| <= r.reported
  {
  }

  lemma BatchBelow(r: Request, realCount: nat, synthetic: nat, s: Slot, bound: nat)
    requires RequestSlot(r) == s ==> r.reported <= bound
    ensures Below(Fill(r, realCount, synthetic), s, bound)
  {
    var batch := Fill(r, realCount, synthetic);
    FillFits(r, realCount, synthetic);
    FillIsConsecutive(r, realCount, synthetic);
    forall i, n: nat | 0 <= i < |batch| && batch[i].eventKey == Key(s, n) ensures n < bound {
      KeyInjective(RequestSlot(r), synthetic + i, s, n);
    }
  }

  lemma {:induction false} InsertBelow(events: seq<UsageEvent>, g: seq<UsageEvent>, s: Slot, bound: nat)
    requires Below(events, s, bound) && Below(g, s, bound)
    ensures Below(InsertAll(events, g), s, bound)
  {
    if g != [] {
      var n := |g| - 1;
      InsertBelow(events, g[..n], s, bound);
    }
  }

  lemma OthersAreBelow(g: seq<UsageEvent>, s: Slot, bound: nat)
    requires forall i :: 0 <= i < |g| ==> !Root(g[i].eventKey)
    ensures Below(g, s, bound)
  {
    forall i, n: nat | 0 <= i < |g| ensures g[i].eventKey != Key(s, n) { KeysHaveTheRoot(s, n); }
  }

  lemma StepStaysBelow(w: World, step: Step, s: Slot, bound: nat)
    requires StepOk(step) && WorldBelow(w, s, bound) && ReportsAtMost(step, s, bound)
    ensures WorldBelow(Apply(w, step), s, bound)
  {
    match step
    case Generate(call, r, realCount) =>
      BatchBelow(r, realCount, CountSynthetic(w.events, RequestSlot(r), r.span), s, bound);
    case InsertChunk(call) =>
      var g := PendingOf(w, call);
      InsertBelow(w.events, g[..ChunkSize(g)], s, bound);
    case Stop(call) =>
    case OtherInsert(events) =>
      OthersAreBelow(events, s, bound);
      InsertBelow(w.events, events, s, bound);
  }

  lemma {:induction false} RunStaysBelow(w: World, steps: seq<Step>, s: Slot, bound: nat)
    requires WorldBelow(w, s, bound)
    requires forall i :: 0 <= i < |steps| ==> StepOk(steps[i]) && ReportsAtMost(steps[i], s, bound)
    ensures WorldBelow(Run(w, steps), s, bound)
    decreases |steps|
  {
    if steps != [] {
      StepStaysBelow(w, steps[0], s, bound);
      RunStaysBelow(Apply(w, steps[0]), steps[1..], s, bound);
    }
  }

  /** A slot never holds more synthetic events than the largest count ever reported for it. */
  lemma NeverMoreThanReported(steps: seq<Step>, s: Slot, bound: nat)
    requires forall i :: 0 <= i < |steps| ==> StepOk(steps[i]) && ReportsAtMost(steps[i], s, bound)
    ensures Stored(Run(EMPTY, steps).events, s) <= bound
  {
    var events := Run(EMPTY, steps).events;
    OrdinalsAreInitialSegments(steps, s);
    RunStaysBelow(EMPTY, steps, s, bound);
    var k := Stored(events, s);
    if k > 0 {
      assert Key(s, k - 1) in Keys(events);
      var i :| 0 <= i < |events| && events[i].eventKey == Key(s, k - 1);
    }
  }
}

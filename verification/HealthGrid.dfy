/** The health grid of the usage overview (internal/repository/usage.go). */
module HealthGrid {
  import opened Text
  import opened Calendar
  import opened UsageEvents
  import opened UsageQuery

  const ROWS: int := 7
  const COLUMNS: int := 96
  const BLOCKS: int := ROWS * COLUMNS
  const DEFAULT_SPAN: int := 15 * MINUTE
  const PRESET_WINDOW: int := 24 * HOUR
  const PRESET_SPAN: int := (PRESET_WINDOW + BLOCKS - 1) / BLOCKS

  datatype Block = Block(start: Instant, end: Instant, success: nat, failure: nat, rate: real)

  predicate ShortRange(f: UsageQueryFilter) { f.range in {"4h", "8h", "12h", "24h", "today"} }

  function GridSpan(f: UsageQueryFilter): (span: int)
    ensures span > 0
  {
    if ShortRange(f) then PRESET_SPAN else DEFAULT_SPAN
  }

  datatype Window = Window(start: Instant, end: Instant)

  /** usageOverviewHealthWindow; `now` is the clock, used when the filter has no end. */
  function HealthWindow(f: UsageQueryFilter, now: Instant): Window {
    var end := if f.endTime.Some? then f.endTime.value else now;
    if ShortRange(f) then Window(end - PRESET_WINDOW, end)
    else
      var windowEnd := Truncate(end, GridSpan(f)) + GridSpan(f);
      Window(windowEnd - BLOCKS * GridSpan(f), windowEnd)
  }

  function FreshBlock(windowStart: Instant, span: int, i: nat): Block {
    Block(windowStart + i * span, windowStart + i * span + span, 0, 0, -1.0)
  }

  /** The blocks before any event. */
  function FreshBlocks(f: UsageQueryFilter, now: Instant): (blocks: seq<Block>)
    ensures |blocks| == BLOCKS
    ensures forall i :: 0 <= i < BLOCKS ==> blocks[i] == FreshBlock(HealthWindow(f, now).start, GridSpan(f), i)
  {
    seq(BLOCKS, i requires 0 <= i < BLOCKS => FreshBlock(HealthWindow(f, now).start, GridSpan(f), i))
  }

  /** Contiguous blocks of one positive width. */
  predicate Tiles(blocks: seq<Block>, span: int) {
    span > 0 && |blocks| > 0
    && forall i :: 0 <= i < |blocks|
         ==> blocks[i].start == blocks[0].start + i * span && blocks[i].end == blocks[i].start + span
  }

  /** The blocks tile the window without gap or overlap, and reach its end: exactly for the default
      width, and with less than a microsecond beyond it for the rounded-up width of the short ranges. */
  lemma BlocksTileTheWindow(f: UsageQueryFilter, now: Instant)
    ensures var blocks, w := FreshBlocks(f, now), HealthWindow(f, now);
            Tiles(blocks, GridSpan(f)) && blocks[0].start == w.start
            && (forall i :: 0 <= i < BLOCKS - 1 ==> blocks[i].end == blocks[i + 1].start)
            && if ShortRange(f) then w.end < blocks[BLOCKS - 1].end < w.end + 1000 else blocks[BLOCKS - 1].end == w.end
  {
    var blocks, w := FreshBlocks(f, now), HealthWindow(f, now);
    assert blocks[0] == FreshBlock(w.start, GridSpan(f), 0);
    forall i | 0 <= i < BLOCKS - 1 ensures blocks[i].end == blocks[i + 1].start { }
  }

  /** Where the window lies. For the short ranges it is the 24 hours up to the end. For all others it is seven
      days of quarter hours, the last of which holds the end. */
  lemma WindowHoldsItsEnd(f: UsageQueryFilter, now: Instant)
    ensures var w, end := HealthWindow(f, now), if f.endTime.Some? then f.endTime.value else now;
            if f.range in {"4h", "8h", "12h", "24h", "today"} then w.end == end && w.end - w.start == 24 * HOUR
            else w.end - w.start == 7 * DAY && w.end % (15 * MINUTE) == 0 && w.end - 15 * MINUTE <= end < w.end
  {
    DivModUnique(Truncate(if f.endTime.Some? then f.endTime.value else now, 15 * MINUTE) + 15 * MINUTE, 15 * MINUTE,
                 (if f.endTime.Some? then f.endTime.value else now) / (15 * MINUTE) + 1, 0);
  }

  predicate InGrid(blocks: seq<Block>, e: UsageEvent) {
    |blocks| > 0 && blocks[0].start <= e.timestamp < blocks[|blocks| - 1].end
  }

  function Counted(b: Block, e: UsageEvent): Block {
    var success := b.success + if e.failed then 0 else 1;
    var failure := b.failure + if e.failed then 1 else 0;
    Block(b.start, b.end, success, failure,
          if success + failure > 0 then success as real / (success + failure) as real else b.rate)
  }

  function IndexOfBlock(blocks: seq<Block>, e: UsageEvent): int
    requires |blocks| > 0 && blocks[0].end > blocks[0].start
  {
    (e.timestamp - blocks[0].start) / (blocks[0].end - blocks[0].start)
  }

  /** updateUsageOverviewHealthBlock, with its guards. */
  function Updated(blocks: seq<Block>, e: UsageEvent): (r: seq<Block>)
    ensures |r| == |blocks|
  {
    if !InGrid(blocks, e) || blocks[0].end <= blocks[0].start then blocks
    else
      var index := IndexOfBlock(blocks, e);
      if index < 0 || index >= |blocks| then blocks else blocks[index := Counted(blocks[index], e)]
  }

  predicate Covers(b: Block, e: UsageEvent) { b.start <= e.timestamp < b.end }

  lemma IndexWithin(x: int, span: int, n: int)
    requires span > 0 && n > 0 && 0 <= x < n * span
    ensures 0 <= x / span < n && x / span * span <= x < (x / span + 1) * span
  {
    var q := x / span;
    assert x == q * span + x % span;
    if q >= n { MulMonotone(n, q, span); }
    if q < 0 { MulMonotone(q, -1, span); }
  }

  lemma OnlyOneBlock(x: int, span: int, i: int, j: int)
    requires span > 0 && i * span <= x < i * span + span && j * span <= x < j * span + span
    ensures i == j
  {
    if i < j { MulMonotone(i + 1, j, span); }
    if j < i { MulMonotone(j + 1, i, span); }
  }

  /** In a tiled grid an event inside it is counted by exactly the block whose interval contains it;
      the index guard never fires. */
  lemma UpdateHitsItsBlock(blocks: seq<Block>, span: int, e: UsageEvent)
    requires Tiles(blocks, span)
    ensures Tiles(Updated(blocks, e), span)
    ensures InGrid(blocks, e) <==> exists i :: 0 <= i < |blocks| && Covers(blocks[i], e)
    ensures InGrid(blocks, e) ==> 0 <= IndexOfBlock(blocks, e) < |blocks|
    ensures forall i :: 0 <= i < |blocks| ==>
              Updated(blocks, e)[i] == if Covers(blocks[i], e) then Counted(blocks[i], e) else blocks[i]
  {
    var r := Updated(blocks, e);
    var n := |blocks|;
    var x := e.timestamp - blocks[0].start;
    assert blocks[n - 1].end == blocks[0].start + (n - 1) * span + span;
    if InGrid(blocks, e) {
      IndexWithin(x, span, n);
      var index := x / span;
      assert Covers(blocks[index], e);
      forall i | 0 <= i < n ensures r[i] == if Covers(blocks[i], e) then Counted(blocks[i], e) else blocks[i] {
        if Covers(blocks[i], e) { OnlyOneBlock(x, span, i, index); }
      }
    } else {
      forall i | 0 <= i < n ensures !Covers(blocks[i], e) {
        MulMonotone(0, i, span);
        MulMonotone(i, n - 1, span);
      }
    }
  }

  // ------------------------------------------------------------------- all events

  function AllUpdated(blocks: seq<Block>, events: seq<UsageEvent>): (r: seq<Block>)
    ensures |r| == |blocks|
  {
    if events == [] then blocks else Updated(AllUpdated(blocks, events[..|events| - 1]), events[|events| - 1])
  }

  /** The events of one outcome in a block's interval. */
  function CountIn(events: seq<UsageEvent>, b: Block, failed: bool): nat {
    if events == [] then 0
    else
      var e := events[|events| - 1];
      CountIn(events[..|events| - 1], b, failed) + if Covers(b, e) && e.failed == failed then 1 else 0
  }

  function RateOf(success: nat, failure: nat): real {
    if success + failure > 0 then success as real / (success + failure) as real else -1.0
  }

  /** A block with the counts of its own interval. */
  function Tallied(empty: Block, events: seq<UsageEvent>): Block {
    Block(empty.start, empty.end, CountIn(events, empty, false), CountIn(events, empty, true),
          RateOf(CountIn(events, empty, false), CountIn(events, empty, true)))
  }

  lemma TalliedStep(empty: Block, events: seq<UsageEvent>, e: UsageEvent)
    requires events != [] && e == events[|events| - 1]
    ensures var before := Tallied(empty, events[..|events| - 1]);
            Tallied(empty, events) == if Covers(before, e) then Counted(before, e) else before
  {
  }

  /** After any events every block holds exactly the counts of its own interval. */
  lemma {:induction false} BlocksCountTheirInterval(f: UsageQueryFilter, now: Instant, events: seq<UsageEvent>)
    ensures var empty, blocks := FreshBlocks(f, now), AllUpdated(FreshBlocks(f, now), events);
            Tiles(blocks, GridSpan(f)) && forall i :: 0 <= i < BLOCKS ==> blocks[i] == Tallied(empty[i], events)
  {
    BlocksTileTheWindow(f, now);
    if events != [] {
      var empty, init, e := FreshBlocks(f, now), events[..|events| - 1], events[|events| - 1];
      BlocksCountTheirInterval(f, now, init);
      var before := AllUpdated(empty, init);
      UpdateHitsItsBlock(before, GridSpan(f), e);
      forall i | 0 <= i < BLOCKS ensures Updated(before, e)[i] == Tallied(empty[i], events) {
        TalliedStep(empty[i], events, e);
      }
    }
  }

  function SumOf(blocks: seq<Block>, failed: bool): nat {
    if blocks == [] then 0
    else
      var b := blocks[|blocks| - 1];
      SumOf(blocks[..|blocks| - 1], failed) + if failed then b.failure else b.success
  }

  lemma {:induction false} SumAfterUpdate(blocks: seq<Block>, i: nat, b: Block, failed: bool)
    requires i < |blocks|
    ensures SumOf(blocks[i := b], failed)
            == SumOf(blocks, failed) + (if failed then b.failure - blocks[i].failure else b.success - blocks[i].success)
  {
    var n := |blocks| - 1;
    if i == n {
      assert blocks[i := b][..n] == blocks[..n];
    } else {
      assert blocks[i := b][..n] == blocks[..n][i := b];
      SumAfterUpdate(blocks[..n], i, b, failed);
    }
  }

  function CountOutcome(events: seq<UsageEvent>, failed: bool): nat {
    if events == [] then 0
    else CountOutcome(events[..|events| - 1], failed) + if events[|events| - 1].failed == failed then 1 else 0
  }

  lemma {:induction false} SumOfInGrid(blocks: seq<Block>, span: int, events: seq<UsageEvent>, failed: bool)
    requires Tiles(blocks, span) && forall i :: 0 <= i < |events| ==> InGrid(blocks, events[i])
    ensures SumOf(AllUpdated(blocks, events), failed) == SumOf(blocks, failed) + CountOutcome(events, failed)
    ensures Tiles(AllUpdated(blocks, events), span)
    ensures AllUpdated(blocks, events)[0].start == blocks[0].start
  {
    if events != [] {
      var init, e := events[..|events| - 1], events[|events| - 1];
      SumOfInGrid(blocks, span, init, failed);
      var before := AllUpdated(blocks, init);
      UpdateHitsItsBlock(before, span, e);
      assert InGrid(before, e);
      var index := IndexOfBlock(before, e);
      SumAfterUpdate(before, index, Counted(before[index], e), failed);
    }
  }

  lemma {:induction false} FreshSum(blocks: seq<Block>, failed: bool)
    requires forall i :: 0 <= i < |blocks| ==> blocks[i].success == blocks[i].failure == 0
    ensures SumOf(blocks, failed) == 0
  {
    if blocks != [] { FreshSum(blocks[..|blocks| - 1], failed); }
  }

  /** For a short range of at most 24 hours the grid misses no selected event, not even one at the
      exact end: the blocks sum to the totals of the query. */
  lemma ShortRangesAreCovered(f: UsageQueryFilter, now: Instant, events: seq<UsageEvent>, failed: bool)
    requires ShortRange(f) && f.startTime.Some? && f.endTime.Some? && f.endTime.value - f.startTime.value <= 24 * HOUR
    requires forall i :: 0 <= i < |events| ==> InTime(f, events[i])
    ensures SumOf(AllUpdated(FreshBlocks(f, now), events), failed) == CountOutcome(events, failed)
  {
    BlocksTileTheWindow(f, now);
    FreshSum(FreshBlocks(f, now), failed);
    SumOfInGrid(FreshBlocks(f, now), GridSpan(f), events, failed);
  }

  // --------------------------------------------------------------------- in place

  /** buildUsageOverviewHealth's loop. */
  method BuildBlocks(f: UsageQueryFilter, now: Instant) returns (blocks: array<Block>)
    ensures fresh(blocks) && blocks[..] == FreshBlocks(f, now)
  {
    var span, window := GridSpan(f), HealthWindow(f, now);
    blocks := new Block[BLOCKS](_ => Block(0, 0, 0, 0, 0.0));
    var i := 0;
    while i < BLOCKS
      invariant 0 <= i <= BLOCKS
      invariant forall k :: 0 <= k < i ==> blocks[k] == FreshBlock(window.start, span, k)
    {
      var start := window.start + i * span;
      blocks[i] := Block(start, start + span, 0, 0, -1.0);
      i := i + 1;
    }
    assert blocks[..] == FreshBlocks(f, now);
  }

  method UpdateHealthBlock(blocks: array<Block>, e: UsageEvent)
    modifies blocks
    ensures blocks[..] == Updated(old(blocks[..]), e)
  {
    if blocks.Length == 0 {
      return;
    }
    var windowStart, windowEnd := blocks[0].start, blocks[blocks.Length - 1].end;
    if e.timestamp < windowStart || e.timestamp >= windowEnd {
      return;
    }
    var span := blocks[0].end - windowStart;
    if span <= 0 {
      return;
    }
    var index := (e.timestamp - windowStart) / span;
    if index < 0 || index >= blocks.Length {
      return;
    }
    var b := blocks[index];
    if e.failed {
      b := b.(failure := b.failure + 1);
    } else {
      b := b.(success := b.success + 1);
    }
    var total := b.success + b.failure;
    if total > 0 {
      b := b.(rate := b.success as real / total as real);
    }
    blocks[index] := b;
  }
}

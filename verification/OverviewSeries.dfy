/** The time series of the overview and their costs (internal/repository/usage.go). Money and rates
    are real numbers; the parallel maps of a series always have the same keys and are one map of cells. */
module OverviewSeries {
  import opened Text
  import opened Calendar
  import opened UsageEvents
  import opened Sums
  import opened OverviewUsage

  datatype Price = Price(prompt: real, completion: real, cache: real)

  const FREE: Price := Price(0.0, 0.0, 0.0)

  function NonNegative(n: int): nat { if n < 0 then 0 else n }

  /** The price of n tokens, from the price of a million. */
  function Share(n: nat, price: real): real { n as real / 1000000.0 * price }

  /** calculateUsageEventCost: prices are per million tokens, and cached input is charged as cache only. */
  function CostAt(e: UsageEvent, price: Price): real {
    var cached := NonNegative(e.tokens.cached);
    var prompt := NonNegative(NonNegative(e.tokens.input) - cached);
    var completion := NonNegative(e.tokens.output);
    Share(prompt, price.prompt) + Share(completion, price.completion) + Share(cached, price.cache)
  }

  function Cost(e: UsageEvent, pricing: map<string, Price>): real {
    CostAt(e, if Trim(e.model) in pricing then pricing[Trim(e.model)] else FREE)
  }

  /** The event needs a price and its model has none. */
  predicate Unpriced(e: UsageEvent, pricing: map<string, Price>) {
    Trim(e.model) !in pricing && (e.tokens.input > 0 || e.tokens.output > 0 || e.tokens.cached > 0)
  }

  /** The bill for n tokens, token by token at a millionth of the price, the first `cheap` of them at their
      own price. */
  function Bill(n: nat, cheap: nat, cheapPrice: real, price: real): real {
    if n == 0 then 0.0
    else Bill(n - 1, cheap, cheapPrice, price) + (if n <= cheap then cheapPrice else price) / 1000000.0
  }

  lemma {:induction false} BillInShares(n: nat, cheap: nat, cheapPrice: real, price: real)
    ensures Bill(n, cheap, cheapPrice, price)
            == if n <= cheap then Share(n, cheapPrice) else Share(cheap, cheapPrice) + Share(n - cheap, price)
  {
    if n > 0 {
      BillInShares(n - 1, cheap, cheapPrice, price);
      OneMoreShare(n - 1, cheapPrice);
      if n > cheap { OneMoreShare(n - 1 - cheap, price); }
    }
  }

  lemma OneMoreShare(n: nat, price: real)
    ensures Share(n + 1, price) == Share(n, price) + price / 1000000.0
  {
  }

  /** The whole bill for an event: of the input the cached tokens at the cache price and the others at the
      prompt price, and the output at the completion price. Negative counts are none. If more is cached
      than came in, all that is cached is billed. */
  function BillOf(e: UsageEvent, price: Price): real {
    var input := if e.tokens.input > 0 then e.tokens.input else 0;
    var cached := if e.tokens.cached > 0 then e.tokens.cached else 0;
    var output := if e.tokens.output > 0 then e.tokens.output else 0;
    Bill(if input < cached then cached else input, cached, price.cache, price.prompt)
    + Bill(output, 0, 0.0, price.completion)
  }

  /** Every token is billed once. */
  lemma EveryTokenIsBilledOnce(e: UsageEvent, price: Price)
    ensures CostAt(e, price) == BillOf(e, price)
  {
    var input, cached := NonNegative(e.tokens.input), NonNegative(e.tokens.cached);
    BillInShares(if input < cached then cached else input, cached, price.cache, price.prompt);
    BillInShares(NonNegative(e.tokens.output), 0, 0.0, price.completion);
  }

  /** What an event costs: its bill at its own model's price, and nothing if the model has none. */
  function ModelBill(e: UsageEvent, pricing: map<string, Price>): real {
    if Trim(e.model) in pricing then BillOf(e, pricing[Trim(e.model)]) else 0.0
  }

  lemma CostIsModelBill(e: UsageEvent, pricing: map<string, Price>)
    ensures Cost(e, pricing) == ModelBill(e, pricing)
  {
    if Trim(e.model) in pricing { EveryTokenIsBilledOnce(e, pricing[Trim(e.model)]); }
  }

  /** An event needs a price exactly if some price would make it cost something. */
  lemma UnpricedCouldCost(e: UsageEvent, pricing: map<string, Price>)
    ensures Unpriced(e, pricing) <==> Trim(e.model) !in pricing && exists price: Price :: BillOf(e, price) != 0.0
  {
    var price := Price(1.0, 1.0, 1.0);
    EveryTokenIsBilledOnce(e, price);
    if e.tokens.input > 0 || e.tokens.output > 0 || e.tokens.cached > 0 {
      assert BillOf(e, price) != 0.0;
    } else {
      forall p: Price ensures BillOf(e, p) == 0.0 { EveryTokenIsBilledOnce(e, p); }
    }
  }

  datatype Cell = Cell(requests: int, tokens: int, cost: real, input: int, output: int, cached: int, reasoning: int,
                       rpm: real, tpm: real)

  type Line = map<string, Cell>

  datatype Series = Series(total: Line, models: map<string, Line>)

  const EMPTY_CELL: Cell := Cell(0, 0, 0.0, 0, 0, 0, 0, 0.0, 0.0)
  const EMPTY_SERIES: Series := Series(map[], map[])

  function CellAt(l: Line, k: string): Cell { if k in l then l[k] else EMPTY_CELL }
  function LineAt(m: map<string, Line>, k: string): Line { if k in m then m[k] else map[] }

  function BucketMinutes(byDay: bool): (m: int)
    ensures m > 0
  {
    if byDay then 24 * 60 else 60
  }

  /** usageOverviewBucket; days are local, hours are UTC. */
  function BucketKey(e: UsageEvent, byDay: bool, zone: int): string {
    if byDay then DayKey(e.timestamp, zone) else HourKey(e.timestamp)
  }

  function AddToCell(c: Cell, e: UsageEvent, cost: real, minutes: int): Cell
    requires minutes > 0
  {
    var requests, tokens := c.requests + 1, c.tokens + e.tokens.total;
    Cell(requests, tokens, c.cost + cost, c.input + e.tokens.input, c.output + e.tokens.output,
         c.cached + e.tokens.cached, c.reasoning + e.tokens.reasoning, requests as real / minutes as real,
         tokens as real / minutes as real)
  }

  function AddToLine(l: Line, e: UsageEvent, cost: real, k: string, minutes: int): Line
    requires minutes > 0
  {
    l[k := AddToCell(CellAt(l, k), e, cost, minutes)]
  }

  /** applyUsageEventToOverviewSeries: the total line and the line of the event's model. */
  function AddToSeries(s: Series, e: UsageEvent, cost: real, k: string, minutes: int): Series
    requires minutes > 0
  {
    var model := Dimension(e.model);
    Series(AddToLine(s.total, e, cost, k, minutes),
           s.models[model := AddToLine(LineAt(s.models, model), e, cost, k, minutes)])
  }

  // ------------------------------------------------------------------------ order

  lemma CellCommutes(c: Cell, a: UsageEvent, costA: real, b: UsageEvent, costB: real, minutes: int)
    requires minutes > 0
    ensures AddToCell(AddToCell(c, a, costA, minutes), b, costB, minutes)
            == AddToCell(AddToCell(c, b, costB, minutes), a, costA, minutes)
  {
  }

  lemma LineCommutes(l: Line, a: UsageEvent, costA: real, j: string, b: UsageEvent, costB: real, k: string,
                     minutes: int)
    requires minutes > 0
    ensures AddToLine(AddToLine(l, a, costA, j, minutes), b, costB, k, minutes)
            == AddToLine(AddToLine(l, b, costB, k, minutes), a, costA, j, minutes)
  {
    CellCommutes(CellAt(l, j), a, costA, b, costB, minutes);
  }

  lemma SeriesCommutes(s: Series, a: UsageEvent, costA: real, j: string, b: UsageEvent, costB: real, k: string,
                       minutes: int)
    requires minutes > 0
    ensures AddToSeries(AddToSeries(s, a, costA, j, minutes), b, costB, k, minutes)
            == AddToSeries(AddToSeries(s, b, costB, k, minutes), a, costA, j, minutes)
  {
    LineCommutes(s.total, a, costA, j, b, costB, k, minutes);
    var x, y := Dimension(a.model), Dimension(b.model);
    LineCommutes(LineAt(s.models, x), a, costA, j, b, costB, k, minutes);
    var ab := AddToSeries(AddToSeries(s, a, costA, j, minutes), b, costB, k, minutes);
    var ba := AddToSeries(AddToSeries(s, b, costB, k, minutes), a, costA, j, minutes);
    assert ab.models[x] == ba.models[x] && ab.models[y] == ba.models[y];
    assert ab.models == ba.models;
  }

  // ------------------------------------------------------------------ what cells mean

  /** An event together with what it costs. */
  datatype Charge = Charge(e: UsageEvent, cost: real)

  /** Which events a series takes: all of them, or those since a moment. */
  predicate Since(start: Option<Instant>, e: UsageEvent) { start.Some? ==> e.timestamp >= start.value }

  function AddCharge(s: Series, c: Charge, byDay: bool, zone: int): Series {
    AddToSeries(s, c.e, c.cost, BucketKey(c.e, byDay, zone), BucketMinutes(byDay))
  }

  /** The series of a list of events. */
  function SeriesOf(charges: seq<Charge>, byDay: bool, zone: int, start: Option<Instant>): Series {
    if charges == [] then EMPTY_SERIES
    else
      var c := charges[|charges| - 1];
      var before := SeriesOf(charges[..|charges| - 1], byDay, zone, start);
      if Since(start, c.e) then AddCharge(before, c, byDay, zone) else before
  }

  function CellTally(c: Cell): Tally {
    Tally(c.requests, 0, 0, c.tokens, c.input, c.output, c.cached, c.reasoning, c.cost)
  }

  function ChargeTally(c: Charge): Tally {
    var t := c.e.tokens;
    Tally(1, 0, 0, t.total, t.input, t.output, t.cached, t.reasoning, c.cost)
  }

  /** The direct sum over the events a cell is named after; no model stands for the total line. */
  function TallyOf(charges: seq<Charge>, byDay: bool, zone: int, start: Option<Instant>, k: string,
                   model: Option<string>): Tally {
    if charges == [] then NONE
    else
      var c := charges[|charges| - 1];
      var before := TallyOf(charges[..|charges| - 1], byDay, zone, start, k, model);
      if Since(start, c.e) && BucketKey(c.e, byDay, zone) == k && (model.Some? ==> Dimension(c.e.model) == model.value)
      then Plus(before, ChargeTally(c)) else before
  }

  predicate RatesFollow(c: Cell, minutes: int)
    requires minutes > 0
  {
    c.rpm == c.requests as real / minutes as real && c.tpm == c.tokens as real / minutes as real
  }

  lemma AddedCell(l: Line, c: Charge, j: string, minutes: int, k: string)
    requires minutes > 0 && RatesFollow(CellAt(l, k), minutes)
    ensures var after := AddToLine(l, c.e, c.cost, j, minutes);
            RatesFollow(CellAt(after, k), minutes)
            && CellTally(CellAt(after, k))
               == if j == k then Plus(CellTally(CellAt(l, k)), ChargeTally(c)) else CellTally(CellAt(l, k))
  {
  }

  /** The line of the series that holds a model's cells, or the total line. */
  function LineOf(s: Series, model: Option<string>): Line {
    if model.None? then s.total else LineAt(s.models, model.value)
  }

  lemma AddedLine(s: Series, c: Charge, byDay: bool, zone: int, model: Option<string>)
    ensures LineOf(AddCharge(s, c, byDay, zone), model)
            == if model.None? || Dimension(c.e.model) == model.value
               then AddToLine(LineOf(s, model), c.e, c.cost, BucketKey(c.e, byDay, zone), BucketMinutes(byDay))
               else LineOf(s, model)
  {
  }

  /** What one charge does to a cell: its own cells grow by the charge and get new rates, others stay. */
  predicate CellCharged(before: Cell, after: Cell, c: Charge, minutes: int, own: bool)
    requires minutes > 0
  {
    if own then CellTally(after) == Plus(CellTally(before), ChargeTally(c)) && RatesFollow(after, minutes)
    else after == before
  }

  /** What one charge does to a series, cell by cell: its bucket in the total line and in its model's. */
  ghost predicate SeriesCharged(before: Series, after: Series, c: Charge, key: string, minutes: int)
    requires minutes > 0
  {
    forall k: string, model: Option<string> ::
      CellCharged(CellAt(LineOf(before, model), k), CellAt(LineOf(after, model), k), c, minutes,
                  k == key && (model.Some? ==> model.value == Dimension(c.e.model)))
  }

  lemma LineCharged(l: Line, c: Charge, key: string, minutes: int, k: string)
    requires minutes > 0
    ensures CellCharged(CellAt(l, k), CellAt(AddToLine(l, c.e, c.cost, key, minutes), k), c, minutes, k == key)
  {
  }

  lemma AddingCharges(s: Series, c: Charge, key: string, minutes: int)
    requires minutes > 0
    ensures SeriesCharged(s, AddToSeries(s, c.e, c.cost, key, minutes), c, key, minutes)
  {
    var after := AddToSeries(s, c.e, c.cost, key, minutes);
    forall k: string, model: Option<string>
      ensures CellCharged(CellAt(LineOf(s, model), k), CellAt(LineOf(after, model), k), c, minutes,
                          k == key && (model.Some? ==> model.value == Dimension(c.e.model)))
    {
      LineCharged(LineOf(s, model), c, key, minutes, k);
    }
  }

  /** Every cell, of the total line and of every model's line, is the direct sum of its events, and its
      rates are those sums per minute, of a day's 1440 or an hour's 60. */
  lemma {:induction false} CellsSumTheirEvents(charges: seq<Charge>, byDay: bool, zone: int, start: Option<Instant>,
                                               k: string, model: Option<string>)
    ensures var cell := CellAt(LineOf(SeriesOf(charges, byDay, zone, start), model), k);
            CellTally(cell) == TallyOf(charges, byDay, zone, start, k, model)
            && RatesFollow(cell, if byDay then 1440 else 60)
  {
    if charges != [] {
      var init, c := charges[..|charges| - 1], charges[|charges| - 1];
      CellsSumTheirEvents(init, byDay, zone, start, k, model);
      var before := SeriesOf(init, byDay, zone, start);
      AddedLine(before, c, byDay, zone, model);
      AddedCell(LineOf(before, model), c, BucketKey(c.e, byDay, zone), BucketMinutes(byDay), k);
    }
  }

  // ----------------------------------------------------------------- conservation

  /** The direct sum over all events a series takes. */
  function AllOf(charges: seq<Charge>, start: Option<Instant>): Tally {
    if charges == [] then NONE
    else
      var c := charges[|charges| - 1];
      var before := AllOf(charges[..|charges| - 1], start);
      if Since(start, c.e) then Plus(before, ChargeTally(c)) else before
  }

  lemma LineGrows(l: Line, c: Charge, k: string, minutes: int)
    requires minutes > 0
    ensures Sum(AddToLine(l, c.e, c.cost, k, minutes), CellTally) == Plus(Sum(l, CellTally), ChargeTally(c))
  {
    SumGrows(l, CellTally, k, AddToCell(CellAt(l, k), c.e, c.cost, minutes), ChargeTally(c));
  }

  /** What the bucket k holds in one model's line. */
  function BucketTally(l: Line, k: string): Tally { CellTally(CellAt(l, k)) }

  function LineTally(k: string): Line -> Tally { (l: Line) => BucketTally(l, k) }

  lemma CellGrows(x: Cell, c: Charge, minutes: int)
    requires minutes > 0
    ensures CellTally(AddToCell(x, c.e, c.cost, minutes)) == Plus(CellTally(x), ChargeTally(c))
  {
  }

  lemma LineEntry(l: Line, c: Charge, j: string, minutes: int, k: string)
    requires minutes > 0
    ensures CellAt(AddToLine(l, c.e, c.cost, j, minutes), k)
            == if j == k then AddToCell(CellAt(l, k), c.e, c.cost, minutes) else CellAt(l, k)
  {
  }

  lemma BucketGrows(l: Line, c: Charge, j: string, minutes: int, k: string)
    requires minutes > 0
    ensures BucketTally(AddToLine(l, c.e, c.cost, j, minutes), k)
            == Plus(BucketTally(l, k), if j == k then ChargeTally(c) else NONE)
  {
    LineEntry(l, c, j, minutes, k);
    GrownTally(CellAt(l, k), CellAt(AddToLine(l, c.e, c.cost, j, minutes), k), c, minutes, j == k);
  }

  lemma GrownTally(before: Cell, after: Cell, c: Charge, minutes: int, hit: bool)
    requires minutes > 0 && after == if hit then AddToCell(before, c.e, c.cost, minutes) else before
    ensures CellTally(after) == Plus(CellTally(before), if hit then ChargeTally(c) else NONE)
  {
    if hit { CellGrows(before, c, minutes); }
  }

  lemma LineTallyGrows(l: Line, c: Charge, j: string, minutes: int, k: string)
    requires minutes > 0
    ensures LineTally(k)(AddToLine(l, c.e, c.cost, j, minutes))
            == Plus(LineTally(k)(l), if j == k then ChargeTally(c) else NONE)
  {
    BucketGrows(l, c, j, minutes, k);
  }

  lemma NoLineTally(k: string)
    ensures LineTally(k)(map[]) == NONE
  {
  }

  lemma ModelsGrow(m: map<string, Line>, c: Charge, j: string, minutes: int, k: string)
    requires minutes > 0
    ensures var model := Dimension(c.e.model);
            Sum(m[model := AddToLine(LineAt(m, model), c.e, c.cost, j, minutes)], LineTally(k))
            == Plus(Sum(m, LineTally(k)), if j == k then ChargeTally(c) else NONE)
  {
    var model := Dimension(c.e.model);
    LineTallyGrows(LineAt(m, model), c, j, minutes, k);
    NoLineTally(k);
    SumGrows(m, LineTally(k), model, AddToLine(LineAt(m, model), c.e, c.cost, j, minutes),
             if j == k then ChargeTally(c) else NONE);
  }

  /** Conservation: the buckets of a series add up to the sum over its events, whatever the buckets are. */
  lemma {:induction false} BucketsAddUp(charges: seq<Charge>, byDay: bool, zone: int, start: Option<Instant>)
    ensures Sum(SeriesOf(charges, byDay, zone, start).total, CellTally) == AllOf(charges, start)
  {
    if charges != [] {
      var init, c := charges[..|charges| - 1], charges[|charges| - 1];
      BucketsAddUp(init, byDay, zone, start);
      LineGrows(SeriesOf(init, byDay, zone, start).total, c, BucketKey(c.e, byDay, zone), BucketMinutes(byDay));
    }
  }

  /** Every bucket is the sum of that bucket over the model lines. */
  lemma {:induction false} ModelLinesAddUp(charges: seq<Charge>, byDay: bool, zone: int, start: Option<Instant>,
                                           k: string)
    ensures var s := SeriesOf(charges, byDay, zone, start); Sum(s.models, LineTally(k)) == CellTally(CellAt(s.total, k))
  {
    if charges == [] {
      assert CellTally(CellAt(EMPTY_SERIES.total, k)) == NONE;
    } else {
      var init, c := charges[..|charges| - 1], charges[|charges| - 1];
      ModelLinesAddUp(init, byDay, zone, start, k);
      ModelLinesStep(SeriesOf(init, byDay, zone, start), c, byDay, zone, k);
    }
  }

  lemma ModelLinesStep(s: Series, c: Charge, byDay: bool, zone: int, k: string)
    requires Sum(s.models, LineTally(k)) == CellTally(CellAt(s.total, k))
    ensures var after := AddCharge(s, c, byDay, zone);
            Sum(after.models, LineTally(k)) == CellTally(CellAt(after.total, k))
  {
    var j := BucketKey(c.e, byDay, zone);
    ModelsGrow(s.models, c, j, BucketMinutes(byDay), k);
    LineTallyGrows(s.total, c, j, BucketMinutes(byDay), k);
  }
}

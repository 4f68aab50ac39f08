/** The usage snapshot of the overview: totals, per API and model, per day and hour
    (internal/repository/usage.go). Counters are unbounded. */
module OverviewUsage {
  import opened Text
  import opened Calendar
  import opened UsageEvents
  import opened Sums

  datatype Counts = Counts(requests: int, success: int, failure: int, tokens: int)
  datatype Load = Load(requests: int, tokens: int)
  datatype ApiSnapshot = ApiSnapshot(counts: Counts, models: map<string, Counts>)

  /** The maps by day, and by hour, always have the same keys; each pair is one map here. */
  datatype UsageSnapshot = UsageSnapshot(total: Counts, apis: map<string, ApiSnapshot>, byDay: map<string, Load>,
                                         byHour: map<string, Load>)

  const NO_COUNTS: Counts := Counts(0, 0, 0, 0)
  const NO_USAGE: UsageSnapshot := UsageSnapshot(NO_COUNTS, map[], map[], map[])

  /** normalizeUsageOverviewDimension. */
  function Dimension(value: string): string { if Trim(value) == "" then "unknown" else Trim(value) }

  /** Names share an entry exactly if they are the same but for outer white space; blank ones share that of
      "unknown". */
  lemma NamesShareAnEntry(a: string, b: string)
    ensures Dimension(a) != ""
    ensures Dimension(a) == Dimension(b)
            <==> Trim(a) == Trim(b) || (Trim(a) in {"", "unknown"} && Trim(b) in {"", "unknown"})
  {
  }

  function AddCounts(c: Counts, e: UsageEvent): Counts {
    Counts(c.requests + 1, c.success + (if e.failed then 0 else 1), c.failure + (if e.failed then 1 else 0),
           c.tokens + e.tokens.total)
  }

  function CountsAt(m: map<string, Counts>, k: string): Counts { if k in m then m[k] else NO_COUNTS }
  function ApiAt(m: map<string, ApiSnapshot>, k: string): ApiSnapshot {
    if k in m then m[k] else ApiSnapshot(NO_COUNTS, map[])
  }
  function LoadAt(m: map<string, Load>, k: string): Load { if k in m then m[k] else Load(0, 0) }

  function AddLoad(m: map<string, Load>, k: string, e: UsageEvent): map<string, Load> {
    m[k := Load(LoadAt(m, k).requests + 1, LoadAt(m, k).tokens + e.tokens.total)]
  }

  function AddModel(m: map<string, Counts>, e: UsageEvent): map<string, Counts> {
    m[Dimension(e.model) := AddCounts(CountsAt(m, Dimension(e.model)), e)]
  }

  function AddApi(a: ApiSnapshot, e: UsageEvent): ApiSnapshot {
    ApiSnapshot(AddCounts(a.counts, e), AddModel(a.models, e))
  }

  function AddApis(m: map<string, ApiSnapshot>, e: UsageEvent): map<string, ApiSnapshot> {
    m[Dimension(e.apiGroupKey) := AddApi(ApiAt(m, Dimension(e.apiGroupKey)), e)]
  }

  /** applyUsageEventToSnapshot without details. */
  function AddUsage(u: UsageSnapshot, e: UsageEvent, zone: int): UsageSnapshot {
    UsageSnapshot(AddCounts(u.total, e), AddApis(u.apis, e), AddLoad(u.byDay, DayKey(e.timestamp, zone), e),
                  AddLoad(u.byHour, HourKey(e.timestamp), e))
  }

  // ------------------------------------------------------------------------ order

  lemma ModelsCommute(m: map<string, Counts>, a: UsageEvent, b: UsageEvent)
    ensures AddModel(AddModel(m, a), b) == AddModel(AddModel(m, b), a)
  {
  }

  lemma LoadsCommute(m: map<string, Load>, j: string, a: UsageEvent, k: string, b: UsageEvent)
    ensures AddLoad(AddLoad(m, j, a), k, b) == AddLoad(AddLoad(m, k, b), j, a)
  {
  }

  lemma ApiCommutes(x: ApiSnapshot, a: UsageEvent, b: UsageEvent)
    ensures AddApi(AddApi(x, a), b) == AddApi(AddApi(x, b), a)
  {
    ModelsCommute(x.models, a, b);
  }

  lemma ApisCommute(m: map<string, ApiSnapshot>, a: UsageEvent, b: UsageEvent)
    ensures AddApis(AddApis(m, a), b) == AddApis(AddApis(m, b), a)
  {
    ApiCommutes(ApiAt(m, Dimension(a.apiGroupKey)), a, b);
  }

  lemma UsageCommutes(u: UsageSnapshot, a: UsageEvent, b: UsageEvent, zone: int)
    ensures AddUsage(AddUsage(u, a, zone), b, zone) == AddUsage(AddUsage(u, b, zone), a, zone)
  {
    ApisCommute(u.apis, a, b);
    LoadsCommute(u.byDay, DayKey(a.timestamp, zone), a, DayKey(b.timestamp, zone), b);
    LoadsCommute(u.byHour, HourKey(a.timestamp), a, HourKey(b.timestamp), b);
  }

  // ----------------------------------------------------------------- conservation

  function CountsTally(c: Counts): Tally { Tally(c.requests, c.success, c.failure, c.tokens, 0, 0, 0, 0, 0.0) }
  function ApiTally(a: ApiSnapshot): Tally { CountsTally(a.counts) }
  function LoadTally(l: Load): Tally { Tally(l.requests, 0, 0, l.tokens, 0, 0, 0, 0, 0.0) }

  function EventCounts(e: UsageEvent): Tally { CountsTally(AddCounts(NO_COUNTS, e)) }
  function EventLoad(e: UsageEvent): Tally { LoadTally(Load(1, e.tokens.total)) }

  /** Each API's models add up to the API, and the APIs to the total. */
  /** Each API's entry is the sum of its model entries. */
  ghost predicate EachApiAddsUp(m: map<string, ApiSnapshot>) {
    forall k :: k in m ==> Sum(m[k].models, CountsTally) == CountsTally(m[k].counts)
  }

  ghost predicate ApisConserved(m: map<string, ApiSnapshot>, total: Counts) {
    Sum(m, ApiTally) == CountsTally(total) && EachApiAddsUp(m)
  }

  ghost predicate LoadsConserved(m: map<string, Load>, total: Counts) {
    Sum(m, LoadTally) == LoadTally(Load(total.requests, total.tokens))
  }

  /** Every level of the snapshot adds up to the level above it. */
  ghost predicate Conserved(u: UsageSnapshot) {
    u.total.success + u.total.failure == u.total.requests
    && ApisConserved(u.apis, u.total) && LoadsConserved(u.byDay, u.total) && LoadsConserved(u.byHour, u.total)
  }

  lemma LoadGrows(m: map<string, Load>, k: string, e: UsageEvent)
    ensures Sum(AddLoad(m, k, e), LoadTally) == Plus(Sum(m, LoadTally), EventLoad(e))
  {
    SumGrows(m, LoadTally, k, Load(LoadAt(m, k).requests + 1, LoadAt(m, k).tokens + e.tokens.total), EventLoad(e));
  }

  lemma ApiKeepsSum(a: ApiSnapshot, e: UsageEvent)
    requires Sum(a.models, CountsTally) == CountsTally(a.counts)
    ensures Sum(AddApi(a, e).models, CountsTally) == CountsTally(AddApi(a, e).counts)
  {
    var k := Dimension(e.model);
    SumGrows(a.models, CountsTally, k, AddCounts(CountsAt(a.models, k), e), EventCounts(e));
  }

  lemma ApisGrow(m: map<string, ApiSnapshot>, e: UsageEvent)
    ensures Sum(AddApis(m, e), ApiTally) == Plus(Sum(m, ApiTally), EventCounts(e))
  {
    var k := Dimension(e.apiGroupKey);
    SumGrows(m, ApiTally, k, AddApi(ApiAt(m, k), e), EventCounts(e));
  }

  lemma EachApiKeepsSum(m: map<string, ApiSnapshot>, k: string, a: ApiSnapshot)
    requires EachApiAddsUp(m) && Sum(a.models, CountsTally) == CountsTally(a.counts)
    ensures EachApiAddsUp(m[k := a])
  {
  }

  lemma ApisStayConserved(m: map<string, ApiSnapshot>, total: Counts, e: UsageEvent)
    requires ApisConserved(m, total)
    ensures ApisConserved(AddApis(m, e), AddCounts(total, e))
  {
    var k := Dimension(e.apiGroupKey);
    ApisGrow(m, e);
    ApiKeepsSum(ApiAt(m, k), e);
    EachApiKeepsSum(m, k, AddApi(ApiAt(m, k), e));
  }

  lemma LoadsStayConserved(m: map<string, Load>, total: Counts, k: string, e: UsageEvent)
    requires LoadsConserved(m, total)
    ensures LoadsConserved(AddLoad(m, k, e), AddCounts(total, e))
  {
    LoadGrows(m, k, e);
  }

  lemma AddUsageKeepsConserved(u: UsageSnapshot, e: UsageEvent, zone: int)
    requires Conserved(u)
    ensures Conserved(AddUsage(u, e, zone))
  {
    ApisStayConserved(u.apis, u.total, e);
    LoadsStayConserved(u.byDay, u.total, DayKey(e.timestamp, zone), e);
    LoadsStayConserved(u.byHour, u.total, HourKey(e.timestamp), e);
  }

  // ----------------------------------------------------------------- what entries mean

  /** The snapshot of a list of events. */
  function UsageOf(events: seq<UsageEvent>, zone: int): UsageSnapshot {
    if events == [] then NO_USAGE else AddUsage(UsageOf(events[..|events| - 1], zone), events[|events| - 1], zone)
  }

  /** The counts of the events of one API and model. */
  function CountsOf(events: seq<UsageEvent>, api: string, model: string): Counts {
    if events == [] then NO_COUNTS
    else
      var e := events[|events| - 1];
      var before := CountsOf(events[..|events| - 1], api, model);
      if Dimension(e.apiGroupKey) == api && Dimension(e.model) == model then AddCounts(before, e) else before
  }

  /** The load of the events of one local day, or of one hour. */
  function LoadOf(events: seq<UsageEvent>, byDay: bool, zone: int, k: string): Load {
    if events == [] then Load(0, 0)
    else
      var e := events[|events| - 1];
      var before := LoadOf(events[..|events| - 1], byDay, zone, k);
      if (if byDay then DayKey(e.timestamp, zone) else HourKey(e.timestamp)) == k
      then Load(before.requests + 1, before.tokens + e.tokens.total) else before
  }

  lemma AddedApiEntry(m: map<string, ApiSnapshot>, e: UsageEvent, api: string, model: string)
    ensures CountsAt(ApiAt(AddApis(m, e), api).models, model)
            == if Dimension(e.apiGroupKey) == api && Dimension(e.model) == model
               then AddCounts(CountsAt(ApiAt(m, api).models, model), e) else CountsAt(ApiAt(m, api).models, model)
  {
  }

  /** Every entry of the snapshot is the aggregate of exactly the events it is named after. */
  lemma {:induction false} EntriesCountTheirEvents(events: seq<UsageEvent>, zone: int, api: string, model: string)
    ensures CountsAt(ApiAt(UsageOf(events, zone).apis, api).models, model) == CountsOf(events, api, model)
  {
    if events != [] {
      var init, e := events[..|events| - 1], events[|events| - 1];
      EntriesCountTheirEvents(init, zone, api, model);
      AddedApiEntry(UsageOf(init, zone).apis, e, api, model);
    }
  }

  lemma AddedLoad(m: map<string, Load>, e: UsageEvent, j: string, k: string)
    ensures LoadAt(AddLoad(m, j, e), k)
            == if j == k then Load(LoadAt(m, k).requests + 1, LoadAt(m, k).tokens + e.tokens.total) else LoadAt(m, k)
  {
  }

  lemma {:induction false} DaysCountTheirEvents(events: seq<UsageEvent>, zone: int, k: string)
    ensures LoadAt(UsageOf(events, zone).byDay, k) == LoadOf(events, true, zone, k)
  {
    if events != [] {
      var init, e := events[..|events| - 1], events[|events| - 1];
      DaysCountTheirEvents(init, zone, k);
      AddedLoad(UsageOf(init, zone).byDay, e, DayKey(e.timestamp, zone), k);
    }
  }

  lemma {:induction false} HoursCountTheirEvents(events: seq<UsageEvent>, zone: int, k: string)
    ensures LoadAt(UsageOf(events, zone).byHour, k) == LoadOf(events, false, zone, k)
  {
    if events != [] {
      var init, e := events[..|events| - 1], events[|events| - 1];
      HoursCountTheirEvents(init, zone, k);
      AddedLoad(UsageOf(init, zone).byHour, e, HourKey(e.timestamp), k);
    }
  }

  /** Totals are conserved: over APIs, over models within each API, over days and over hours. */
  lemma {:induction false} UsageIsConserved(events: seq<UsageEvent>, zone: int)
    ensures Conserved(UsageOf(events, zone)) && UsageOf(events, zone).total.requests == |events|
  {
    if events != [] {
      var init := events[..|events| - 1];
      UsageIsConserved(init, zone);
      AddUsageKeepsConserved(UsageOf(init, zone), events[|events| - 1], zone);
    }
  }
}

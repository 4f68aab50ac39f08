/** The single-flight, stale-while-revalidate cache in front of the overview (internal/service/usage.go):
    the critical sections, and every interleaving of callers and background refreshes. */
module OverviewCache {
  import opened Text
  import opened Calendar

  const TTL: int := 60 * SECOND

  /** The cache fields. Channels are numbered in the order they are made; `panicked` records a close of
      a nil or closed channel. */
  datatype Cache<V> = Cache(value: Option<V>, refreshedAt: Instant, refreshing: bool, ready: Option<nat>,
                            channels: nat, closed: set<nat>, panicked: bool)

  /** What one pass through the lock tells the caller to do. */
  datatype Decision<V> = Return(value: V) | ReturnAndRefresh(value: V) | Wait(ready: Option<nat>) | Build

  predicate Expired<V>(c: Cache<V>, now: Instant) { now >= c.refreshedAt + TTL }

  function Flying<V>(c: Cache<V>): Cache<V> {
    c.(refreshing := true, ready := Some(c.channels), channels := c.channels + 1)
  }

  /** The loop body of GetUsageOverview, up to where it gives the lock away. */
  function Look<V>(c: Cache<V>, now: Instant): (r: (Cache<V>, Decision<V>)) {
    if c.value.Some? then
      if Expired(c, now) && !c.refreshing then (Flying(c), ReturnAndRefresh(c.value.value))
      else (c, Return(c.value.value))
    else if c.refreshing then (c, Wait(c.ready))
    else (Flying(c), Build)
  }

  /** The end of a build, by a caller or in the background; `outcome` is None when it failed. */
  function Publish<V>(c: Cache<V>, outcome: Option<V>, now: Instant): Cache<V> {
    var stored := if outcome.Some? then c.(value := outcome, refreshedAt := now) else c;
    if c.ready.Some? && c.ready.value !in c.closed then
      stored.(refreshing := false, closed := c.closed + {c.ready.value}, ready := None)
    else stored.(refreshing := false, ready := None, panicked := true)
  }

  class UsageOverviewCache<V> {
    var value: Option<V>
    var refreshedAt: Instant
    var refreshing: bool
    var ready: Option<nat>
    var channels: nat
    var closed: set<nat>
    var panicked: bool

    ghost function State(): Cache<V>
      reads this
    {
      Cache(value, refreshedAt, refreshing, ready, channels, closed, panicked)
    }

    constructor ()
      ensures State() == Cache(None, GO_ZERO_TIME, false, None, 0, {}, false)
    {
      value, refreshedAt, refreshing, ready := None, GO_ZERO_TIME, false, None;
      channels, closed, panicked := 0, {}, false;
    }

    method MakeReady()
      modifies this`refreshing, this`ready, this`channels
      ensures State() == Flying(old(State()))
    {
      refreshing := true;
      ready, channels := Some(channels), channels + 1;
    }

    method Lookup(now: Instant) returns (decision: Decision<V>)
      modifies this`refreshing, this`ready, this`channels
      ensures (State(), decision) == Look(old(State()), now)
    {
      if value.Some? {
        if now < refreshedAt + TTL {
          return Return(value.value);
        }
        if !refreshing {
          MakeReady();
          return ReturnAndRefresh(value.value);
        }
        return Return(value.value);
      }
      if refreshing {
        return Wait(ready);
      }
      MakeReady();
      return Build;
    }

    method Store(outcome: Option<V>, now: Instant)
      modifies this
      ensures State() == Publish(old(State()), outcome, now)
    {
      if outcome.Some? {
        value := outcome;
        refreshedAt := now;
      }
      refreshing := false;
      if ready.Some? && ready.value !in closed {
        closed := closed + {ready.value};
      } else {
        panicked := true;
      }
      ready := None;
    }
  }

  // ------------------------------------------------------------------ interleavings

  datatype Caller<V> = AtLock | Waiting(ready: Option<nat>) | Building | Returned(result: Option<V>)

  /** All callers there have been, and the number of background refreshes in flight. */
  datatype System<V> = System(cache: Cache<V>, callers: seq<Caller<V>>, refreshers: nat)

  datatype Step<V> =
    | Arrive
    | Lock(caller: nat, now: Instant)
    | Wake(caller: nat)
    | FinishBuild(caller: nat, outcome: Option<V>, now: Instant)
    | FinishRefresh(outcome: Option<V>, now: Instant)

  predicate Enabled<V>(s: System<V>, step: Step<V>) {
    match step
    case Arrive => true
    case Lock(i, now) => i < |s.callers| && s.callers[i].AtLock?
    case Wake(i) =>
      i < |s.callers| && s.callers[i].Waiting?
      && s.callers[i].ready.Some? && s.callers[i].ready.value in s.cache.closed
    case FinishBuild(i, outcome, now) => i < |s.callers| && s.callers[i].Building?
    case FinishRefresh(outcome, now) => s.refreshers > 0
  }

  function AfterLook<V>(d: Decision<V>): Caller<V> {
    match d
    case Return(value) => Returned(Some(value))
    case ReturnAndRefresh(value) => Returned(Some(value))
    case Wait(ready) => Waiting(ready)
    case Build => Building
  }

  function Next<V>(s: System<V>, step: Step<V>): System<V>
    requires Enabled(s, step)
  {
    match step
    case Arrive => s.(callers := s.callers + [AtLock])
    case Lock(i, now) =>
      var (cache, decision) := Look(s.cache, now);
      System(cache, s.callers[i := AfterLook(decision)], s.refreshers + if decision.ReturnAndRefresh? then 1 else 0)
    case Wake(i) => s.(callers := s.callers[i := AtLock])
    case FinishBuild(i, outcome, now) =>
      s.(cache := Publish(s.cache, outcome, now), callers := s.callers[i := Returned(outcome)])
    case FinishRefresh(outcome, now) => s.(cache := Publish(s.cache, outcome, now), refreshers := s.refreshers - 1)
  }

  predicate Path<V>(s: System<V>, steps: seq<Step<V>>)
    decreases |steps|
  {
    steps == [] || (Enabled(s, steps[0]) && Path(Next(s, steps[0]), steps[1..]))
  }

  function Run<V>(s: System<V>, steps: seq<Step<V>>): System<V>
    requires Path(s, steps)
    decreases |steps|
  {
    if steps == [] then s else Run(Next(s, steps[0]), steps[1..])
  }

  // -------------------------------------------------------------------- counting

  function Total<V>(callers: seq<Caller<V>>, weight: Caller<V> -> nat): nat {
    if callers == [] then 0 else Total(callers[..|callers| - 1], weight) + weight(callers[|callers| - 1])
  }

  lemma {:induction false} TotalUpdate<V>(callers: seq<Caller<V>>, weight: Caller<V> -> nat, i: nat, c: Caller<V>)
    requires i < |callers|
    ensures Total(callers[i := c], weight) + weight(callers[i]) == Total(callers, weight) + weight(c)
  {
    var n := |callers| - 1;
    if i == n {
      assert callers[i := c][..n] == callers[..n];
    } else {
      assert callers[i := c][..n] == callers[..n][i := c];
      TotalUpdate(callers[..n], weight, i, c);
    }
  }

  lemma {:induction false} TotalAtMost<V>(callers: seq<Caller<V>>, weight: Caller<V> -> nat, most: nat)
    requires forall c :: weight(c) <= most
    ensures Total(callers, weight) <= most * |callers|
  {
    if callers != [] { TotalAtMost(callers[..|callers| - 1], weight, most); }
  }

  lemma {:induction false} TotalSame<V>(callers: seq<Caller<V>>, a: Caller<V> -> nat, b: Caller<V> -> nat)
    requires forall i :: 0 <= i < |callers| ==> a(callers[i]) == b(callers[i])
    ensures Total(callers, a) == Total(callers, b)
  {
    if callers != [] { TotalSame(callers[..|callers| - 1], a, b); }
  }

  lemma {:induction false} TotalPositive<V>(callers: seq<Caller<V>>, weight: Caller<V> -> nat)
    requires Total(callers, weight) > 0
    ensures exists i :: 0 <= i < |callers| && weight(callers[i]) > 0
  {
    var n := |callers| - 1;
    if weight(callers[n]) == 0 {
      TotalPositive(callers[..n], weight);
      var i :| 0 <= i < n && weight(callers[..n][i]) > 0;
      assert weight(callers[i]) > 0;
    }
  }

  function BuildingWeight<V>(): Caller<V> -> nat { (c: Caller<V>) => if c.Building? then 1 else 0 }

  // ------------------------------------------------------------------ the invariant

  /** Builds in flight: callers that build, and background refreshes. */
  function InFlight<V>(s: System<V>): nat { Total(s.callers, BuildingWeight()) + s.refreshers }

  ghost predicate CacheOk<V>(c: Cache<V>) {
    !c.panicked && (c.refreshing <==> c.ready.Some?)
    && (c.ready.Some? ==> c.ready.value < c.channels && c.ready.value !in c.closed)
    && forall ch: nat :: ch in c.closed <==> ch < c.channels && c.ready != Some(ch)
  }

  /** A caller builds, or waits on the current channel, only while there is no value. */
  predicate CallerOk<V>(caller: Caller<V>, c: Cache<V>) {
    (caller.Building? ==> c.value.None?)
    && (caller.Waiting?
        ==> caller.ready.Some? && caller.ready.value < c.channels && (caller.ready == c.ready ==> c.value.None?))
  }

  ghost predicate Inv<V>(s: System<V>) {
    CacheOk(s.cache) && InFlight(s) == (if s.cache.refreshing then 1 else 0)
    && (s.refreshers > 0 ==> s.cache.value.Some?)
    && forall i :: 0 <= i < |s.callers| ==> CallerOk(s.callers[i], s.cache)
  }

  function Initial<V>(): System<V> { System(Cache(None, GO_ZERO_TIME, false, None, 0, {}, false), [], 0) }

  lemma LookKeepsOk<V>(c: Cache<V>, now: Instant)
    requires CacheOk(c)
    ensures var (after, decision) := Look(c, now);
            CacheOk(after) && CallerOk(AfterLook(decision), after)
            && (after != c ==> !c.refreshing && after == Flying(c))
            && forall caller :: CallerOk(caller, c) ==> CallerOk(caller, after)
  {
  }

  lemma LockKeepsInv<V>(s: System<V>, i: nat, now: Instant)
    requires Inv(s) && Enabled(s, Lock(i, now))
    ensures Inv(Next(s, Lock(i, now)))
  {
    var (cache, decision) := Look(s.cache, now);
    LookKeepsOk(s.cache, now);
    TotalUpdate(s.callers, BuildingWeight(), i, AfterLook(decision));
  }

  /** In a good state at most one build is in flight, so a foreground build excludes a refresher. */
  lemma PublishKeepsInv<V>(s: System<V>, callers: seq<Caller<V>>, refreshers: nat, outcome: Option<V>, now: Instant)
    requires Inv(s) && s.cache.refreshing && Total(callers, BuildingWeight()) + refreshers == 0
    requires forall i :: 0 <= i < |callers| ==> !callers[i].Building?
    requires forall i :: 0 <= i < |callers| ==> CallerOk(callers[i], s.cache)
    ensures Inv(System(Publish(s.cache, outcome, now), callers, refreshers))
  {
    var cache := Publish(s.cache, outcome, now);
    forall i | 0 <= i < |callers| ensures CallerOk(callers[i], cache) { assert CallerOk(callers[i], s.cache); }
  }

  lemma {:induction false} NoneBuilding<V>(callers: seq<Caller<V>>)
    requires Total(callers, BuildingWeight()) == 0
    ensures forall i :: 0 <= i < |callers| ==> !callers[i].Building?
  {
    if callers != [] { NoneBuilding(callers[..|callers| - 1]); }
  }

  lemma {:induction false} BuilderCounts<V>(callers: seq<Caller<V>>, i: nat)
    requires i < |callers| && callers[i].Building?
    ensures Total(callers, BuildingWeight()) >= 1
  {
    var n := |callers| - 1;
    if i < n { BuilderCounts(callers[..n], i); }
  }

  lemma FinishBuildKeepsInv<V>(s: System<V>, i: nat, outcome: Option<V>, now: Instant)
    requires Inv(s) && Enabled(s, FinishBuild(i, outcome, now))
    ensures Inv(Next(s, FinishBuild(i, outcome, now))) && s.refreshers == 0
  {
    BuilderCounts(s.callers, i);
    TotalUpdate(s.callers, BuildingWeight(), i, Returned(outcome));
    var callers := s.callers[i := Returned(outcome)];
    NoneBuilding(callers);
    PublishKeepsInv(s, callers, 0, outcome, now);
  }

  lemma FinishRefreshKeepsInv<V>(s: System<V>, outcome: Option<V>, now: Instant)
    requires Inv(s) && Enabled(s, FinishRefresh(outcome, now))
    ensures Inv(Next(s, FinishRefresh(outcome, now)))
  {
    NoneBuilding(s.callers);
    PublishKeepsInv(s, s.callers, 0, outcome, now);
  }

  lemma StepKeepsInv<V>(s: System<V>, step: Step<V>)
    requires Inv(s) && Enabled(s, step)
    ensures Inv(Next(s, step))
  {
    match step
    case Arrive => assert (s.callers + [AtLock])[..|s.callers|] == s.callers;
    case Lock(i, now) => LockKeepsInv(s, i, now);
    case Wake(i) => TotalUpdate(s.callers, BuildingWeight(), i, AtLock);
    case FinishBuild(i, outcome, now) => FinishBuildKeepsInv(s, i, outcome, now);
    case FinishRefresh(outcome, now) => FinishRefreshKeepsInv(s, outcome, now);
  }

  lemma {:induction false} RunKeepsInv<V>(s: System<V>, steps: seq<Step<V>>)
    requires Inv(s) && Path(s, steps)
    ensures Inv(Run(s, steps))
    decreases |steps|
  {
    if steps != [] {
      StepKeepsInv(s, steps[0]);
      RunKeepsInv(Next(s, steps[0]), steps[1..]);
    }
  }

  /** In every interleaving: a refresh is marked exactly while one build is in flight and a channel is
      open; no channel is closed twice, and without a build in flight all are closed; every waiter
      waits on the current channel or on one already closed. */
  lemma SingleFlight<V>(steps: seq<Step<V>>)
    requires Path(Initial<V>(), steps)
    ensures var s := Run(Initial<V>(), steps);
            (s.cache.refreshing <==> InFlight(s) == 1) && InFlight(s) <= 1
            && (s.cache.refreshing <==> s.cache.ready.Some?)
            && !s.cache.panicked
            && (forall ch: nat :: ch < s.cache.channels ==> (ch in s.cache.closed <==> s.cache.ready != Some(ch)))
            && forall i :: 0 <= i < |s.callers| && s.callers[i].Waiting? ==>
                 s.callers[i].ready.Some?
                 && (s.callers[i].ready == s.cache.ready || s.callers[i].ready.value in s.cache.closed)
  {
    RunKeepsInv(Initial<V>(), steps);
    var s := Run(Initial<V>(), steps);
    forall i | 0 <= i < |s.callers| && s.callers[i].Waiting?
      ensures s.callers[i].ready.Some?
              && (s.callers[i].ready == s.cache.ready || s.callers[i].ready.value in s.cache.closed)
    {
      assert CallerOk(s.callers[i], s.cache);
    }
  }

  /** Once set, the value is never unset, whatever fails. */
  lemma {:induction false} ValueIsNeverLost<V>(s: System<V>, steps: seq<Step<V>>)
    requires Path(s, steps) && s.cache.value.Some?
    ensures Run(s, steps).cache.value.Some?
    decreases |steps|
  {
    if steps != [] { ValueIsNeverLost(Next(s, steps[0]), steps[1..]); }
  }

  /** A lookup answers with the cached value, and with an expired one only while a refresh is in
      flight; it never answers with a failure. */
  lemma StaleOnlyWhileRefreshing<V>(s: System<V>, i: nat, now: Instant)
    requires Inv(s) && Enabled(s, Lock(i, now)) && Next(s, Lock(i, now)).callers[i].Returned?
    ensures var after := Next(s, Lock(i, now));
            s.cache.value.Some? && after.callers[i].result == s.cache.value == after.cache.value
            && (Expired(s.cache, now) ==> InFlight(after) == 1)
  {
    StepKeepsInv(s, Lock(i, now));
  }

  /** What the last build that succeeded answered, and when it ended. */
  function LastSuccess<V>(steps: seq<Step<V>>): Option<(V, Instant)>
    decreases |steps|
  {
    if steps == [] then None
    else
      var later := LastSuccess(steps[1..]);
      if later.Some? then later
      else
        match steps[0]
        case FinishBuild(_, outcome, now) => if outcome.Some? then Some((outcome.value, now)) else None
        case FinishRefresh(outcome, now) => if outcome.Some? then Some((outcome.value, now)) else None
        case _ => None
  }

  /** Over every run the cached value and its time are those of the last build that succeeded, by a caller
      or in the background; builds that fail change neither. */
  lemma {:induction false} ValueIsLastSuccess<V>(s: System<V>, steps: seq<Step<V>>)
    requires Path(s, steps)
    ensures var c := Run(s, steps).cache;
            match LastSuccess(steps)
            case Some((value, at)) => c.value == Some(value) && c.refreshedAt == at
            case None => c.value == s.cache.value && c.refreshedAt == s.cache.refreshedAt
    decreases |steps|
  {
    if steps != [] { ValueIsLastSuccess(Next(s, steps[0]), steps[1..]); }
  }

  /** What a lookup does, in terms of what was built before. After a build that succeeded it answers with
      that build's value, and starts a refresh exactly if a minute has passed and none is in flight; before
      any, it builds exactly if no build is in flight, and waits otherwise. */
  lemma LookupAnswersLastSuccess<V>(steps: seq<Step<V>>, i: nat, now: Instant)
    requires Path(Initial<V>(), steps) && Enabled(Run(Initial<V>(), steps), Lock(i, now))
    ensures var s := Run(Initial<V>(), steps);
            var after := Next(s, Lock(i, now));
            |after.callers| == |s.callers|
            && match LastSuccess(steps)
               case Some((value, at)) =>
                 after.callers[i] == Returned(Some(value))
                 && after.refreshers == s.refreshers + if now >= at + 60 * SECOND && InFlight(s) == 0 then 1 else 0
               case None =>
                 after.refreshers == s.refreshers
                 && if InFlight(s) == 0 then after.callers[i] == Building else after.callers[i].Waiting?
  {
    RunKeepsInv(Initial<V>(), steps);
    ValueIsLastSuccess(Initial<V>(), steps);
  }

  // ------------------------------------------------------------------- termination

  function ActiveWeight<V>(): Caller<V> -> nat { (c: Caller<V>) => if c.Returned? then 0 else 1 }

  /** Steps a caller may still take before it has to wait for a build. */
  function RankWeight<V>(closed: set<nat>): Caller<V> -> nat {
    (c: Caller<V>) =>
      if c.AtLock? then 2
      else if c.Waiting? then if c.ready.Some? && c.ready.value in closed then 3 else 1
      else 0
  }

  function Measure<V>(s: System<V>): nat {
    Total(s.callers, ActiveWeight()) * (3 * |s.callers| + 2) + Total(s.callers, RankWeight(s.cache.closed))
    + s.refreshers
  }

  lemma FewerActive(before: nat, after: nat, n: nat, rank: nat, rest: nat)
    requires after + 1 == before && rank <= 3 * n && rest <= 1
    ensures after * (3 * n + 2) + rank + rest < before * (3 * n + 2)
  {
  }

  lemma RankBound<V>(s: System<V>)
    ensures Total(s.callers, RankWeight(s.cache.closed)) <= 3 * |s.callers|
  {
    TotalAtMost(s.callers, RankWeight(s.cache.closed), 3);
  }

  /** When a caller returns, the measure drops whatever the others' ranks become. */
  lemma ReturningDecreases<V>(s: System<V>, step: Step<V>, i: nat)
    requires Inv(s) && Enabled(s, step) && i < |s.callers| && !s.callers[i].Returned?
    requires Next(s, step).callers == s.callers[i := Next(s, step).callers[i]] && Next(s, step).callers[i].Returned?
    ensures Measure(Next(s, step)) < Measure(s)
  {
    var after := Next(s, step);
    StepKeepsInv(s, step);
    TotalUpdate(s.callers, ActiveWeight(), i, after.callers[i]);
    RankBound(after);
    FewerActive(Total(s.callers, ActiveWeight()), Total(after.callers, ActiveWeight()), |s.callers|,
                Total(after.callers, RankWeight(after.cache.closed)), after.refreshers);
  }

  /** When a caller only moves on, its rank drops. */
  lemma MovingDecreases<V>(s: System<V>, step: Step<V>, i: nat)
    requires Enabled(s, step) && i < |s.callers| && !s.callers[i].Returned?
    requires Next(s, step).callers == s.callers[i := Next(s, step).callers[i]] && !Next(s, step).callers[i].Returned?
    requires Next(s, step).cache.closed == s.cache.closed && Next(s, step).refreshers == s.refreshers
    requires RankWeight(s.cache.closed)(Next(s, step).callers[i]) < RankWeight(s.cache.closed)(s.callers[i])
    ensures Measure(Next(s, step)) < Measure(s)
  {
    var after := Next(s, step);
    TotalUpdate(s.callers, ActiveWeight(), i, after.callers[i]);
    TotalUpdate(s.callers, RankWeight(s.cache.closed), i, after.callers[i]);
  }

  lemma RefreshDecreases<V>(s: System<V>, outcome: Option<V>, now: Instant)
    requires Inv(s) && Enabled(s, FinishRefresh(outcome, now))
    ensures Measure(Next(s, FinishRefresh(outcome, now))) < Measure(s)
  {
    var after := Next(s, FinishRefresh(outcome, now));
    forall i | 0 <= i < |s.callers|
      ensures RankWeight(s.cache.closed)(s.callers[i]) == RankWeight(after.cache.closed)(s.callers[i])
    {
      assert CallerOk(s.callers[i], s.cache);
    }
    TotalSame(s.callers, RankWeight(s.cache.closed), RankWeight(after.cache.closed));
  }

  /** Every step but a new arrival brings the calls strictly closer to their end. */
  lemma StepDecreases<V>(s: System<V>, step: Step<V>)
    requires Inv(s) && Enabled(s, step) && !step.Arrive?
    ensures Measure(Next(s, step)) < Measure(s)
  {
    match step
    case Lock(i, now) =>
      if Next(s, step).callers[i].Returned? { ReturningDecreases(s, step, i); } else { LockMoves(s, i, now); }
    case Wake(i) => MovingDecreases(s, step, i);
    case FinishBuild(i, outcome, now) => ReturningDecreases(s, step, i);
    case FinishRefresh(outcome, now) => RefreshDecreases(s, outcome, now);
  }

  lemma LockMoves<V>(s: System<V>, i: nat, now: Instant)
    requires Inv(s) && Enabled(s, Lock(i, now)) && !Next(s, Lock(i, now)).callers[i].Returned?
    ensures Measure(Next(s, Lock(i, now))) < Measure(s)
  {
    var after := Next(s, Lock(i, now));
    var weight := RankWeight<V>(s.cache.closed);
    assert weight(after.callers[i]) < weight(s.callers[i]);
    MovingDecreases(s, Lock(i, now), i);
  }

  /** With no further arrivals every run is bounded by the measure it starts with. */
  lemma {:induction false} RunsAreBounded<V>(s: System<V>, steps: seq<Step<V>>)
    requires Inv(s) && Path(s, steps) && forall i :: 0 <= i < |steps| ==> !steps[i].Arrive?
    ensures |steps| <= Measure(s)
    decreases |steps|
  {
    if steps != [] {
      StepKeepsInv(s, steps[0]);
      StepDecreases(s, steps[0]);
      RunsAreBounded(Next(s, steps[0]), steps[1..]);
    }
  }

  /** As long as builds finish, no call is stuck: some step other than an arrival is possible until
      every call has returned and no refresh is in flight. */
  lemma NobodyIsStuck<V>(s: System<V>, outcome: Option<V>, now: Instant)
    requires Inv(s) && ((exists i :: 0 <= i < |s.callers| && !s.callers[i].Returned?) || s.refreshers > 0)
    ensures exists step: Step<V> :: Enabled(s, step) && !step.Arrive?
  {
    if s.refreshers > 0 {
      assert Enabled(s, FinishRefresh(outcome, now));
    } else {
      var i :| 0 <= i < |s.callers| && !s.callers[i].Returned?;
      assert CallerOk(s.callers[i], s.cache);
      if s.callers[i].AtLock? {
        assert Enabled(s, Lock(i, now));
      } else if s.callers[i].Building? {
        assert Enabled(s, FinishBuild(i, outcome, now));
      } else if s.callers[i].ready.value in s.cache.closed {
        assert Enabled(s, Wake(i));
      } else {
        TotalPositive(s.callers, BuildingWeight());
        var j :| 0 <= j < |s.callers| && BuildingWeight<V>()(s.callers[j]) > 0;
        assert Enabled(s, FinishBuild(j, outcome, now));
      }
    }
  }
}

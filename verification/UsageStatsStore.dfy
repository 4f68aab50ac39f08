/** The web store that loads the overview, with the latest request winning
    (web/src/stores/useUsageStatsStore.ts). Code between two awaits runs as one step. */
module UsageStatsStore {
  import opened Text

  datatype Query = Query(range: string, start: Option<string>, end: Option<string>)

  function OrEmpty(s: Option<string>): string { if s.Some? then s.value else "" }

  /** buildQueryKey. */
  function KeyOf(q: Query): string { q.range + ":" + OrEmpty(q.start) + ":" + OrEmpty(q.end) }

  /** Equal keys mean equal queries, an absent time counting as an empty one: for ranges without colons, and
      start times of one length, as formatted times are. */
  lemma KeysTellQueriesApart(p: Query, q: Query)
    requires Free(p.range, ':') && Free(q.range, ':') && |OrEmpty(p.start)| == |OrEmpty(q.start)|
    ensures KeyOf(p) == KeyOf(q)
            <==> p.range == q.range && OrEmpty(p.start) == OrEmpty(q.start) && OrEmpty(p.end) == OrEmpty(q.end)
  {
    var x, y := OrEmpty(p.start) + ":" + OrEmpty(p.end), OrEmpty(q.start) + ":" + OrEmpty(q.end);
    assert KeyOf(p) == p.range + [':'] + x && KeyOf(q) == q.range + [':'] + y;
    if KeyOf(p) == KeyOf(q) {
      SplitCons(p.range, ':', x);
      SplitCons(q.range, ':', y);
      var n := |p.range|;
      assert p.range == ([p.range] + Split(x, ':'))[0] == ([q.range] + Split(y, ':'))[0] == q.range;
      assert x == KeyOf(p)[n + 1..] == y;
      assert OrEmpty(p.start) == x[..|OrEmpty(p.start)|] == OrEmpty(q.start);
      assert OrEmpty(p.end) == x[|OrEmpty(p.start)| + 1..] == OrEmpty(q.end);
    }
  }

  /** What the server answered, and to which query. */
  datatype Response = Response(query: Query, body: string)

  datatype Store = Store(usage: Option<Response>, loading: bool, error: string, lastRefreshedAt: Option<int>,
                         lastQueryKey: Option<string>)

  datatype Outcome = Got(body: string) | Lost(message: string)

  /** A request: its query, whether its controller was aborted, and how it ended. */
  datatype Request = Request(query: Query, aborted: bool, outcome: Option<Outcome>)

  /** Requests, with their controllers, are numbered in the order they start. */
  datatype World = World(store: Store, activeRequest: Option<nat>, activeKey: Option<string>,
                         activeController: Option<nat>, requests: seq<Request>)

  datatype Step =
    | Load(query: Query, force: bool, staleTime: int, now: int)
    | Respond(id: nat, body: string, now: int)
    | Reject(id: nat, message: string)

  predicate StillFresh(s: Store, key: string, staleTime: int, now: int) {
    s.usage.Some? && s.lastRefreshedAt.Some? && s.lastRefreshedAt.value != 0 && s.lastQueryKey == Some(key)
    && now - s.lastRefreshedAt.value < staleTime
  }

  function Aborted(requests: seq<Request>, controller: Option<nat>): (r: seq<Request>)
    ensures |r| == |requests|
    ensures forall i :: 0 <= i < |requests| ==>
              r[i] == if controller == Some(i) then requests[i].(aborted := true) else requests[i]
  {
    if controller.Some? && controller.value < |requests| then
      requests[controller.value := requests[controller.value].(aborted := true)]
    else requests
  }

  /** loadUsageStats, up to its first await. */
  function Loaded(w: World, q: Query, force: bool, staleTime: int, now: int): World {
    var key := KeyOf(q);
    var busy := w.store.loading && w.activeRequest.Some?;
    if (!force && StillFresh(w.store, key, staleTime, now)) || (busy && w.activeKey == Some(key)) then w
    else
      var id := |w.requests|;
      World(w.store.(loading := true, error := ""), Some(id), Some(key), Some(id),
            (if busy then Aborted(w.requests, w.activeController) else w.requests) + [Request(q, false, None)])
  }

  function Ended(w: World, id: nat, outcome: Outcome): seq<Request>
    requires id < |w.requests|
  {
    w.requests[id := w.requests[id].(outcome := Some(outcome))]
  }

  /** The finally block. */
  function Released(w: World, id: nat): World {
    if w.activeController == Some(id) then w.(activeRequest := None, activeKey := None, activeController := None) else w
  }

  /** The request resumes with a response. */
  function Responded(w: World, id: nat, body: string, now: int): World
    requires id < |w.requests|
  {
    var q := w.requests[id].query;
    var ended := w.(requests := Ended(w, id, Got(body)));
    if w.activeController != Some(id) then Released(ended, id)
    else Released(ended.(store := Store(Some(Response(q, body)), false, "", Some(now), Some(KeyOf(q)))), id)
  }

  /** The request resumes with an error. */
  function Rejected(w: World, id: nat, message: string): World
    requires id < |w.requests|
  {
    var ended := w.(requests := Ended(w, id, Lost(message)));
    if w.requests[id].aborted || w.activeController != Some(id) then Released(ended, id)
    else Released(ended.(store := w.store.(loading := false, error := message)), id)
  }

  predicate Enabled(w: World, step: Step) {
    match step
    case Load(q, force, staleTime, now) => true
    case Respond(id, body, now) => id < |w.requests| && w.requests[id].outcome.None?
    case Reject(id, message) => id < |w.requests| && w.requests[id].outcome.None?
  }

  function Next(w: World, step: Step): World
    requires Enabled(w, step)
  {
    match step
    case Load(q, force, staleTime, now) => Loaded(w, q, force, staleTime, now)
    case Respond(id, body, now) => Responded(w, id, body, now)
    case Reject(id, message) => Rejected(w, id, message)
  }

  const INITIAL: World := World(Store(None, false, "", None, None), None, None, None, [])

  class UsageStats {
    var store: Store
    var activeRequest: Option<nat>
    var activeKey: Option<string>
    var activeController: Option<nat>
    var requests: seq<Request>

    ghost function State(): World
      reads this
    {
      World(store, activeRequest, activeKey, activeController, requests)
    }

    constructor ()
      ensures State() == INITIAL
    {
      store := Store(None, false, "", None, None);
      activeRequest, activeKey, activeController, requests := None, None, None, [];
    }

    method LoadUsageStats(query: Query, force: bool, staleTime: int, now: int)
      modifies this
      ensures State() == Loaded(old(State()), query, force, staleTime, now)
    {
      var queryKey := KeyOf(query);
      if !force && StillFresh(store, queryKey, staleTime, now) {
        return;
      }
      if store.loading && activeRequest.Some? {
        if activeKey == Some(queryKey) {
          return;
        }
        requests := Aborted(requests, activeController);
      }
      var controller := |requests|;
      activeController := Some(controller);
      activeKey := Some(queryKey);
      store := store.(loading := true, error := "");
      requests := requests + [Request(query, false, None)];
      activeRequest := Some(controller);
    }

    method Release(controller: nat)
      modifies this`activeRequest, this`activeKey, this`activeController
      ensures State() == Released(old(State()), controller)
    {
      if activeController == Some(controller) {
        activeRequest, activeKey, activeController := None, None, None;
      }
    }

    method OnResponse(controller: nat, body: string, now: int)
      requires controller < |requests|
      modifies this
      ensures State() == Responded(old(State()), controller, body, now)
    {
      var query := requests[controller].query;
      requests := requests[controller := requests[controller].(outcome := Some(Got(body)))];
      if activeController == Some(controller) {
        store := Store(Some(Response(query, body)), false, "", Some(now), Some(KeyOf(query)));
      }
      Release(controller);
    }

    method OnError(controller: nat, message: string)
      requires controller < |requests|
      modifies this
      ensures State() == Rejected(old(State()), controller, message)
    {
      var aborted := requests[controller].aborted;
      requests := requests[controller := requests[controller].(outcome := Some(Lost(message)))];
      if !aborted && activeController == Some(controller) {
        store := store.(loading := false, error := message);
      }
      Release(controller);
    }
  }

  // -------------------------------------------------------------------- every run

  predicate Path(w: World, steps: seq<Step>)
    decreases |steps|
  {
    steps == [] || (Enabled(w, steps[0]) && Path(Next(w, steps[0]), steps[1..]))
  }

  function Run(w: World, steps: seq<Step>): World
    requires Path(w, steps)
    decreases |steps|
  {
    if steps == [] then w else Run(Next(w, steps[0]), steps[1..])
  }

  /** The store shows the outcome of the newest request, or that it is still loading. */
  predicate ShowsNewest(w: World) {
    if w.requests == [] then w.store == INITIAL.store
    else
      var newest := w.requests[|w.requests| - 1];
      match newest.outcome
      case None => w.store.loading
      case Some(Got(body)) =>
        w.store.usage == Some(Response(newest.query, body)) && w.store.lastQueryKey == Some(KeyOf(newest.query))
        && w.store.error == "" && !w.store.loading
      case Some(Lost(message)) => w.store.error == message && !w.store.loading
  }

  predicate Inv(w: World) {
    w.activeRequest == w.activeController && (w.store.loading <==> w.activeRequest.Some?)
    && (w.activeRequest.Some? ==>
          var id := w.activeRequest.value;
          id + 1 == |w.requests| && w.requests[id].outcome.None? && !w.requests[id].aborted
          && w.activeKey == Some(KeyOf(w.requests[id].query)))
    && (forall i :: 0 <= i < |w.requests| && w.requests[i].outcome.None? && w.activeRequest != Some(i)
            ==> w.requests[i].aborted)
    && (w.store.usage.Some? ==> w.store.lastQueryKey == Some(KeyOf(w.store.usage.value.query)))
    && ShowsNewest(w)
  }

  lemma StepKeepsInv(w: World, step: Step)
    requires Inv(w) && Enabled(w, step)
    ensures Inv(Next(w, step))
  {
  }

  /** A request that is not the newest never touches the store, however it ends. */
  lemma SupersededNeverWrites(w: World, step: Step, id: nat)
    requires Inv(w) && Enabled(w, step) && id + 1 < |w.requests|
    requires (step.Respond? && step.id == id) || (step.Reject? && step.id == id)
    ensures Next(w, step).store == w.store && Next(w, step).activeRequest == w.activeRequest
  {
  }

  lemma {:induction false} RunKeepsInv(w: World, steps: seq<Step>)
    requires Inv(w) && Path(w, steps)
    ensures Inv(Run(w, steps))
    decreases |steps|
  {
    if steps != [] {
      StepKeepsInv(w, steps[0]);
      RunKeepsInv(Next(w, steps[0]), steps[1..]);
    }
  }

  /** A request for the query is in flight, and not superseded. */
  predicate Pending(w: World, q: Query) {
    exists i :: 0 <= i < |w.requests| && w.requests[i].outcome.None? && !w.requests[i].aborted
                && KeyOf(w.requests[i].query) == KeyOf(q)
  }

  /** The usage shown answers this query, and was received less than staleTime ago. */
  predicate ShownFresh(w: World, q: Query, staleTime: int, now: int) {
    w.store.usage.Some? && KeyOf(w.store.usage.value.query) == KeyOf(q)
    && w.store.lastRefreshedAt.Some? && w.store.lastRefreshedAt.value != 0
    && now < w.store.lastRefreshedAt.value + staleTime
  }

  /** Exactly when a load starts a request: no live one is for the same query, and it is forced or what is
      shown is for another query or too old. It then is the newest, and every older one that has not ended
      is aborted. */
  lemma LoadStartsRequest(w: World, q: Query, force: bool, staleTime: int, now: int)
    requires Inv(w)
    ensures var after := Next(w, Load(q, force, staleTime, now));
            if Pending(w, q) || (!force && ShownFresh(w, q, staleTime, now)) then after == w
            else |after.requests| == |w.requests| + 1 && after.requests[|w.requests|] == Request(q, false, None)
                 && (forall i :: 0 <= i < |w.requests| ==>
                       after.requests[i] == w.requests[i].(aborted := after.requests[i].aborted)
                       && (w.requests[i].outcome.None? ==> after.requests[i].aborted))
                 && after.store == w.store.(loading := true, error := "")
  {
    StepKeepsInv(w, Load(q, force, staleTime, now));
    if Pending(w, q) {
      var i :| 0 <= i < |w.requests| && w.requests[i].outcome.None? && !w.requests[i].aborted
               && KeyOf(w.requests[i].query) == KeyOf(q);
      assert w.activeRequest == Some(i);
    } else if w.activeRequest.Some? {
      assert w.activeKey != Some(KeyOf(q));
    }
  }

  /** What the newest request was at its time received last, and when. */
  function LastAnswer(w: World, steps: seq<Step>): Option<(Response, int)>
    requires Path(w, steps)
    decreases |steps|
  {
    if steps == [] then None
    else
      var later := LastAnswer(Next(w, steps[0]), steps[1..]);
      if later.Some? then later
      else
        match steps[0]
        case Respond(id, body, now) =>
          if id + 1 == |w.requests| then Some((Response(w.requests[id].query, body), now)) else None
        case _ => None
  }

  /** Over every run the store shows the last answer that came for a request while it was the newest, with the
      time it came. */
  lemma {:induction false} ShowsLastAnswer(w: World, steps: seq<Step>)
    requires Inv(w) && Path(w, steps)
    ensures var after := Run(w, steps).store;
            match LastAnswer(w, steps)
            case Some((response, at)) => after.usage == Some(response) && after.lastRefreshedAt == Some(at)
            case None => after.usage == w.store.usage && after.lastRefreshedAt == w.store.lastRefreshedAt
    decreases |steps|
  {
    if steps != [] {
      StepKeepsInv(w, steps[0]);
      if w.requests != [] && w.requests[|w.requests| - 1].outcome.None? { NewestIsActive(w); }
      ShowsLastAnswer(Next(w, steps[0]), steps[1..]);
    }
  }

  lemma NewestIsActive(w: World)
    requires Inv(w) && w.requests != [] && w.requests[|w.requests| - 1].outcome.None?
    ensures w.activeController == Some(|w.requests| - 1)
  {
  }

  /** In every run the usage shown answers the query of lastQueryKey, at most one request is neither
      ended nor aborted, and the store shows how the newest request ended, or that it has not. */
  lemma LatestWins(steps: seq<Step>)
    requires Path(INITIAL, steps)
    ensures var w := Run(INITIAL, steps);
            (w.store.usage.Some? ==> w.store.lastQueryKey == Some(KeyOf(w.store.usage.value.query)))
            && (forall i :: 0 <= i < |w.requests| - 1 ==> w.requests[i].outcome.Some? || w.requests[i].aborted)
            && (w.store.loading <==> w.requests != [] && w.requests[|w.requests| - 1].outcome.None?)
            && ShowsNewest(w)
  {
    RunKeepsInv(INITIAL, steps);
  }
}

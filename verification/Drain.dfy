/** Who may pull and process at the same time (internal/poller/redis_drain.go): at most one of each. */
module Drain {
  /** What a goroutine is: one of the two loops, or a manual SyncNow. */
  datatype Kind = PullLoop | ProcessLoop | SyncNow

  /** Where it is. A loop goes back to Idle, a SyncNow to Returned. */
  datatype Point = Idle | Pulling | Pulled | Processing | Returned

  datatype Goroutine = Goroutine(kind: Kind, at: Point)

  datatype Flags = Flags(pullRunning: bool, processRunning: bool)

  class RedisDrain {
    var pullRunning: bool
    var processRunning: bool

    function State(): Flags
      reads this
    {
      Flags(pullRunning, processRunning)
    }

    constructor ()
      ensures State() == Flags(false, false)
    {
      pullRunning, processRunning := false, false;
    }

    /** The critical section at the start of runRedisPull. */
    method TryStartPull() returns (started: bool)
      modifies this`pullRunning
      ensures (State(), started) == StartPull(old(State()))
    {
      if pullRunning {
        return false;
      }
      pullRunning := true;
      return true;
    }

    /** The deferred critical section of runRedisPull. */
    method FinishPull()
      modifies this`pullRunning
      ensures State() == StopPull(old(State()))
    {
      pullRunning := false;
    }

    /** The critical section at the start of runRedisProcess. */
    method TryStartProcess() returns (started: bool)
      modifies this`processRunning
      ensures (State(), started) == StartProcess(old(State()))
    {
      if processRunning {
        return false;
      }
      processRunning := true;
      return true;
    }

    /** The deferred critical section of runRedisProcess. */
    method FinishProcess()
      modifies this`processRunning
      ensures State() == StopProcess(old(State()))
    {
      processRunning := false;
    }
  }

  function StartPull(f: Flags): (Flags, bool) { (f.(pullRunning := true), !f.pullRunning) }
  function StartProcess(f: Flags): (Flags, bool) { (f.(processRunning := true), !f.processRunning) }
  function StopPull(f: Flags): Flags { f.(pullRunning := false) }
  function StopProcess(f: Flags): Flags { f.(processRunning := false) }

  datatype Drain = Drain(flags: Flags, goroutines: seq<Goroutine>)

  datatype Step =
    | Spawn
    | BeginPull(g: nat)
    | EndPull(g: nat, ok: bool)
    | BeginProcess(g: nat)
    | EndProcess(g: nat)

  predicate Enabled(d: Drain, step: Step) {
    match step
    case Spawn => true
    case BeginPull(g) => g < |d.goroutines| && d.goroutines[g].at.Idle? && !d.goroutines[g].kind.ProcessLoop?
    case EndPull(g, ok) => g < |d.goroutines| && d.goroutines[g].at.Pulling?
    case BeginProcess(g) =>
      g < |d.goroutines|
      && (if d.goroutines[g].kind.ProcessLoop? then d.goroutines[g].at.Idle? else d.goroutines[g].at.Pulled?)
    case EndProcess(g) => g < |d.goroutines| && d.goroutines[g].at.Processing?
  }

  /** Where a goroutine goes when its call is over or was refused. */
  function Over(kind: Kind): Point { if kind.SyncNow? then Returned else Idle }

  function Next(d: Drain, step: Step): Drain
    requires Enabled(d, step)
  {
    match step
    case Spawn => d.(goroutines := d.goroutines + [Goroutine(SyncNow, Idle)])
    case BeginPull(g) =>
      var (flags, started) := StartPull(d.flags);
      Drain(flags, d.goroutines[g := d.goroutines[g].(at := if started then Pulling else Over(d.goroutines[g].kind))])
    case EndPull(g, ok) =>
      var kind := d.goroutines[g].kind;
      Drain(StopPull(d.flags),
            d.goroutines[g := Goroutine(kind, if kind.SyncNow? && ok then Pulled else Over(kind))])
    case BeginProcess(g) =>
      var (flags, started) := StartProcess(d.flags);
      Drain(flags,
            d.goroutines[g := d.goroutines[g].(at := if started then Processing else Over(d.goroutines[g].kind))])
    case EndProcess(g) =>
      Drain(StopProcess(d.flags), d.goroutines[g := d.goroutines[g].(at := Over(d.goroutines[g].kind))])
  }

  predicate Path(d: Drain, steps: seq<Step>)
    decreases |steps|
  {
    steps == [] || (Enabled(d, steps[0]) && Path(Next(d, steps[0]), steps[1..]))
  }

  function Run(d: Drain, steps: seq<Step>): Drain
    requires Path(d, steps)
    decreases |steps|
  {
    if steps == [] then d else Run(Next(d, steps[0]), steps[1..])
  }

  predicate OnlyOneAt(goroutines: seq<Goroutine>, at: Point, running: bool) {
    (running <==> exists g :: 0 <= g < |goroutines| && goroutines[g].at == at)
    && forall g, h :: 0 <= g < h < |goroutines| ==> !(goroutines[g].at == at && goroutines[h].at == at)
  }

  predicate Inv(d: Drain) {
    OnlyOneAt(d.goroutines, Pulling, d.flags.pullRunning) && OnlyOneAt(d.goroutines, Processing, d.flags.processRunning)
  }

  /** Drain.Run's two loops, before anything happens. */
  const STARTED: Drain := Drain(Flags(false, false), [Goroutine(PullLoop, Idle), Goroutine(ProcessLoop, Idle)])

  lemma MoveKeepsOthers(goroutines: seq<Goroutine>, g: nat, x: Goroutine, at: Point, running: bool)
    requires g < |goroutines| && OnlyOneAt(goroutines, at, running)
    requires x.at == at ==> goroutines[g].at == at || !running
    ensures OnlyOneAt(goroutines[g := x], at,
                      if x.at == at then true else if goroutines[g].at == at then false else running)
  {
    var after := goroutines[g := x];
    if x.at == at {
      assert after[g].at == at;
    } else if goroutines[g].at != at && running {
      var h :| 0 <= h < |goroutines| && goroutines[h].at == at;
      assert after[h].at == at;
    }
  }

  lemma StepKeepsInv(d: Drain, step: Step)
    requires Inv(d) && Enabled(d, step)
    ensures Inv(Next(d, step))
  {
    match step
    case Spawn =>
      var after := Next(d, step);
      assert forall g :: 0 <= g < |d.goroutines| ==> after.goroutines[g] == d.goroutines[g];
    case BeginPull(g) => MoveKeepsBoth(d, g, Next(d, step).goroutines[g]);
    case EndPull(g, ok) => MoveKeepsBoth(d, g, Next(d, step).goroutines[g]);
    case BeginProcess(g) => MoveKeepsBoth(d, g, Next(d, step).goroutines[g]);
    case EndProcess(g) => MoveKeepsBoth(d, g, Next(d, step).goroutines[g]);
  }

  lemma MoveKeepsBoth(d: Drain, g: nat, x: Goroutine)
    requires Inv(d) && g < |d.goroutines|
    requires x.at.Pulling? ==> d.goroutines[g].at.Pulling? || !d.flags.pullRunning
    requires x.at.Processing? ==> d.goroutines[g].at.Processing? || !d.flags.processRunning
    ensures OnlyOneAt(d.goroutines[g := x], Pulling,
                      if x.at.Pulling? then true else if d.goroutines[g].at.Pulling? then false
                      else d.flags.pullRunning)
    ensures OnlyOneAt(d.goroutines[g := x], Processing,
                      if x.at.Processing? then true else if d.goroutines[g].at.Processing? then false
                      else d.flags.processRunning)
  {
    MoveKeepsOthers(d.goroutines, g, x, Pulling, d.flags.pullRunning);
    MoveKeepsOthers(d.goroutines, g, x, Processing, d.flags.processRunning);
  }

  lemma {:induction false} RunKeepsInv(d: Drain, steps: seq<Step>)
    requires Inv(d) && Path(d, steps)
    ensures Inv(Run(d, steps))
    decreases |steps|
  {
    if steps != [] {
      StepKeepsInv(d, steps[0]);
      RunKeepsInv(Next(d, steps[0]), steps[1..]);
    }
  }

  /** With both loops and any number of manual syncs, at most one Pull and at most one Process are in
      flight, and a flag is set exactly while its call is. */
  lemma AtMostOneOfEach(steps: seq<Step>, g: nat, h: nat)
    requires Path(STARTED, steps)
    requires var d := Run(STARTED, steps); g < h < |d.goroutines|
    ensures var d := Run(STARTED, steps);
            !(d.goroutines[g].at.Pulling? && d.goroutines[h].at.Pulling?)
            && !(d.goroutines[g].at.Processing? && d.goroutines[h].at.Processing?)
            && (d.goroutines[g].at.Pulling? ==> d.flags.pullRunning)
            && (d.goroutines[g].at.Processing? ==> d.flags.processRunning)
            && ((forall i :: 0 <= i < |d.goroutines| ==> !d.goroutines[i].at.Processing?) ==> !d.flags.processRunning)
  {
    RunKeepsInv(STARTED, steps);
  }

  // ------------------------------------------------------------------ who does what

  /** The pull loop only pulls and the process loop only processes, for ever. */
  predicate KeepsToItsWork(x: Goroutine) {
    match x.kind
    case PullLoop => x.at.Idle? || x.at.Pulling?
    case ProcessLoop => x.at.Idle? || x.at.Processing?
    case SyncNow => true
  }

  predicate AllKeepToTheirWork(d: Drain) {
    forall g :: 0 <= g < |d.goroutines| ==> KeepsToItsWork(d.goroutines[g])
  }

  lemma {:induction false} EachKeepsToItsWork(d: Drain, steps: seq<Step>)
    requires AllKeepToTheirWork(d) && Path(d, steps)
    ensures AllKeepToTheirWork(Run(d, steps))
    decreases |steps|
  {
    if steps != [] { EachKeepsToItsWork(Next(d, steps[0]), steps[1..]); }
  }

  /** It has come to the second half of a manual sync. */
  predicate PastItsPull(d: Drain, g: nat) {
    g < |d.goroutines| && d.goroutines[g].kind.SyncNow?
    && (d.goroutines[g].at.Pulled? || d.goroutines[g].at.Processing?)
  }

  lemma {:induction false} PastItsPullPulled(d: Drain, steps: seq<Step>, g: nat)
    requires Path(d, steps) && PastItsPull(Run(d, steps), g)
    ensures PastItsPull(d, g) || EndPull(g, true) in steps
    decreases |steps|
  {
    if steps != [] { PastItsPullPulled(Next(d, steps[0]), steps[1..], g); }
  }

  /** A manual sync processes only after a pull of its own that succeeded. */
  lemma SyncNowPullsFirst(steps: seq<Step>, g: nat)
    requires Path(STARTED, steps) && PastItsPull(Run(STARTED, steps), g)
    ensures EndPull(g, true) in steps
  {
    PastItsPullPulled(STARTED, steps, g);
  }
}

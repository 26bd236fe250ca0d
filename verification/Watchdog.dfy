/** The watchdog loop of `Orchestrator`: specification functions over oracle replies, and
    the class whose methods update the fields step by step. */
module Watchdog {
  import opened Breaker
  import opened Replies
  import opened Egress
  import opened Trace

  /** The replies met by one iteration of the loop. Every call may raise or exit. `now`
      is the first monotonic reading, `later` the one taken at the end of the tick. */
  datatype TickEnv = TickEnv(
    services: Reply<seq<string>>,
    healthy: Reply<bool>,
    now: real, wall: real, later: real,
    stop: Reply<bool>,
    authFailed: Reply<bool>,
    restart: Reply<()>,
    probes: Probes,
    running: Reply<bool>,
    start: Reply<()>,
    marker: Reply<()>, tripStop: Reply<bool>, gluetunStop: Reply<()>,
    fallbackStop: Reply<bool>)

  /** The orchestrator's fields. */
  datatype Fields = Fields(
    outageStartedAt: Option<real>,
    outageStartWall: Option<real>,
    lastAuthCheckWall: Option<real>,
    lastRestartAt: real,
    escalationTriggered: bool,
    unknowns: nat,
    loopErrors: nat,
    lastPublicIp: Option<Addr>,
    totals: Totals,
    window: Window)

  datatype State = State(f: Fields, cache: Cache, tick: nat, record: Record)

  datatype Step = Step(state: State, status: Reply<()>)

  function Initial(now: real): State {
    State(Fields(None, None, None, 0.0, false, 0, 0, None, Totals(0, 0, 0), Window(now, 0, 0, 0, 0, 0)),
          Fresh, 0, EmptyRecord)
  }

  // ----- Specification -----

  function Note(s: State, e: Event): State {
    s.(record := s.record.Add(Entry(s.tick, e)))
  }

  function MaybeLogSummary(c: Settings, s: State, now: real): State {
    if c.summaryInterval > 0 && now - s.f.window.startedAt < c.summaryInterval as real then s
    else Note(s, Summarised(s.f.window)).(f := s.f.(window := Window(now, 0, 0, 0, 0, 0)))
  }

  /** Finish a tick branch: summary when the last call answered, else pass its failure on. */
  function Finish<T>(c: Settings, s: State, r: Reply<T>, now: real): Step {
    if r.IsFailure() then Step(s, Status(r)) else Step(MaybeLogSummary(c, s, now), Done)
  }

  function TripCircuitBreaker(s: State, reason: Reason, env: TickEnv): Step {
    var elapsed := if s.f.outageStartedAt.Some? then env.later - s.f.outageStartedAt.value else 0.0;
    var (t, status) := TripBlocks(
      (Note(s, LockoutWrite(reason, elapsed)), env.marker),
      (t: State) => (Note(t, Stopped(None)), Status(env.tripStop)),
      (t: State) => (Note(t, GluetunStopped), env.gluetunStop));
    Step(t, status)
  }

  function Tripped(s: State, reason: Reason, elapsed: real): State {
    Note(Note(Note(s, LockoutWrite(reason, elapsed)), Stopped(None)), GluetunStopped)
  }

  /** Whichever of the three calls fail, and however: marker, service stop and gluetun stop
      are all attempted, in this order, and the exit status is 78. */
  lemma TripCompletes(s: State, reason: Reason, env: TickEnv)
    ensures var elapsed := if s.f.outageStartedAt.Some? then env.later - s.f.outageStartedAt.value else 0.0;
            TripCircuitBreaker(s, reason, env) == Step(Tripped(s, reason, elapsed), Exits(LOCKED_OUT))
  {
    var elapsed := if s.f.outageStartedAt.Some? then env.later - s.f.outageStartedAt.value else 0.0;
    TripBlocksComplete((Note(s, LockoutWrite(reason, elapsed)), env.marker),
                       (t: State) => (Note(t, Stopped(None)), Status(env.tripStop)),
                       (t: State) => (Note(t, GluetunStopped), env.gluetunStop));
    hide TripBlocks;
  }

  function Observed(s: State): Option<Addr> {
    if s.cache.lastObserved.Some? then s.cache.lastObserved else s.f.lastPublicIp
  }

  function CountIpFailure(s: State): State {
    var f := s.f.(lastPublicIp := Observed(s));
    s.(f := f.(totals := f.totals.(ipFailures := f.totals.ipFailures + 1),
               window := f.window.(ipFailures := f.window.ipFailures + 1)))
  }

  function HandleUnhealthy(c: Settings, s: State, verdict: Verdict, services: seq<string>, env: TickEnv): Step {
    match verdict
    case Unsafe =>
      var s1 := CountIpFailure(s);
      Finish(c, Note(s1.(f := s1.f.(unknowns := 0)), Stopped(Some(services))), env.stop, env.later)
    case Unknown =>
      var s1 := s.(f := s.f.(unknowns := s.f.unknowns + 1));
      if s1.f.unknowns >= c.threshold then
        Finish(c, Note(CountIpFailure(s1), Stopped(Some(services))), env.stop, env.later)
      else Finish(c, s1, Done, env.later)
    case Safe => Step(s, Done)
  }

  function OpenOutage(s: State, now: real, wall: real): State {
    s.(f := s.f.(outageStartedAt := Some(now), outageStartWall := Some(wall),
                 lastAuthCheckWall := Some(wall), lastRestartAt := now,
                 totals := s.f.totals.(drops := s.f.totals.drops + 1),
                 window := s.f.window.(drops := s.f.window.drops + 1)))
  }

  /** The first unhealthy tick: open the outage, stop services, scan, restart once. */
  function OutageBegins(c: Settings, s: State, services: seq<string>, env: TickEnv): Step {
    var s1 := Note(OpenOutage(s, env.now, env.wall), Stopped(Some(services)));
    if env.stop.IsFailure() then Step(s1, Status(env.stop)) else
      var s2 := Note(s1, Scanned(None, env.wall, env.authFailed.IsFailure()));
      if env.authFailed.IsFailure() then Step(s2, Status(env.authFailed))
      else if env.authFailed.value then TripCircuitBreaker(s2, AuthRejected, env)
      else Finish(c, Note(s2, Restarted(false, env.now, env.restart.IsFailure())), env.restart, env.later)
  }

  /** Scan the log from the cursor, which moves before the scan runs. */
  function ScanLog(s: State, wall: real, raised: bool): State {
    var since := if s.f.lastAuthCheckWall.Some? && s.f.lastAuthCheckWall.value != 0.0
                 then s.f.lastAuthCheckWall else s.f.outageStartWall;
    Note(s.(f := s.f.(lastAuthCheckWall := Some(wall))), Scanned(since, wall, raised))
  }

  /** Escalate once in the second half of the budget, otherwise restart at the cadence. */
  function Reselect(c: Settings, s: State, env: TickEnv): Step
    requires s.f.outageStartedAt.Some?
  {
    var elapsed := env.now - s.f.outageStartedAt.value;
    if c.HasNarrowFilter() && !s.f.escalationTriggered && elapsed >= c.budget as real * ESCALATION_RATIO then
      var s1 := Note(s, Restarted(true, env.now, env.restart.IsFailure()));
      if env.restart.IsFailure() then Step(s1, Status(env.restart))
      else Step(s1.(f := s1.f.(escalationTriggered := true, lastRestartAt := env.now)), Done)
    else if env.now - s.f.lastRestartAt >= c.cadence as real then
      var s1 := s.(f := s.f.(lastRestartAt := env.now));
      Step(Note(s1, Restarted(s.f.escalationTriggered, env.now, env.restart.IsFailure())), Status(env.restart))
    else Step(s, Done)
  }

  /** A later unhealthy tick: scan from the cursor, then trip, escalate, or keep cadence. */
  function OutageContinues(c: Settings, s: State, env: TickEnv): Step
    requires s.f.outageStartedAt.Some?
  {
    var s1 := ScanLog(s, env.wall, env.authFailed.IsFailure());
    if env.authFailed.IsFailure() then Step(s1, Status(env.authFailed))
    else if env.authFailed.value then TripCircuitBreaker(s1, AuthRejected, env)
    else if env.now - s.f.outageStartedAt.value >= c.budget as real then TripCircuitBreaker(s1, BudgetExhausted, env)
    else
      var t := Reselect(c, s1, env);
      Finish(c, t.state, t.status, env.later)
  }

  /** One assessment by the guard, with what it probed put on record. */
  function ProbeEgress(c: Settings, s: State, force: bool, env: TickEnv): (State, Reply<Verdict>) {
    var a := Assess(c.egress, s.cache, force, env.now, env.probes);
    var s1 := s.(cache := a.cache);
    (match a.probe
     case Idle => s1
     case Live(v) => Note(s1, Probed(env.now, Some(v)))
     case Broken => Note(s1, Probed(env.now, None)), a.reply)
  }

  /** The same with its judgement put on record. */
  function Verify(c: Settings, s: State, force: bool, env: TickEnv): (State, Reply<Verdict>) {
    var (s1, r) := ProbeEgress(c, s, force, env);
    (if r.Answer? then Note(s1, Assessed(env.now, r.value)) else s1, r)
  }

  function StartIfDown(c: Settings, s: State, services: seq<string>, env: TickEnv): Step {
    if env.running.IsFailure() then Step(s, Status(env.running))
    else if env.running.value then Step(s, Done)
    else
      var s1 := s.(f := s.f.(window := s.f.window.(autoStarts := s.f.window.autoStarts + 1)));
      Step(Note(s1, Started(services)), Status(env.start))
  }

  function Closed(s: State): State {
    s.(f := s.f.(outageStartedAt := None, outageStartWall := None, lastAuthCheckWall := None,
                 lastRestartAt := 0.0, escalationTriggered := false))
  }

  function Remember(s: State): State {
    s.(f := s.f.(lastPublicIp := Observed(s)))
  }

  /** Gluetun is healthy while an outage is open: resume only on a forced live SAFE. */
  function Recover(c: Settings, s: State, services: seq<string>, env: TickEnv): Step {
    var (s1, verdict) := Verify(c, s, true, env);
    if verdict.IsFailure() then Step(s1, Status(verdict))
    else if verdict.value != Safe then HandleUnhealthy(c, s1, verdict.value, services, env)
    else
      var t := StartIfDown(c, Closed(s1), services, env);
      if t.status.IsFailure() then t else Finish(c, Remember(t.state), Done, env.later)
  }

  function Steady(c: Settings, s: State, services: seq<string>, env: TickEnv): Step {
    var (s1, verdict) := Verify(c, s, false, env);
    if verdict.IsFailure() then Step(s1, Status(verdict))
    else if verdict.value != Safe then HandleUnhealthy(c, s1, verdict.value, services, env)
    else
      var t := StartIfDown(c, Remember(s1.(f := s1.f.(unknowns := 0))), services, env);
      Finish(c, t.state, t.status, env.later)
  }

  /** One call of `watch_once`. */
  function WatchOnce(c: Settings, s0: State, env: TickEnv): Step {
    var s := s0.(f := s0.f.(window := s0.f.window.(checks := s0.f.window.checks + 1)));
    if env.services.IsFailure() then Step(s, Status(env.services))
    else if env.healthy.IsFailure() then Step(s, Status(env.healthy))
    else if !env.healthy.value then
      var s1 := Note(s, SawUnhealthy(env.now, env.wall));
      if s.f.outageStartedAt.None? then OutageBegins(c, s1, env.services.value, env)
      else OutageContinues(c, s1, env)
    else
      var s1 := Note(s, SawHealthy);
      if s.f.outageStartedAt.Some? then Recover(c, s1, env.services.value, env)
      else Steady(c, s1, env.services.value, env)
  }

  function CountLoopError(s: State): State {
    Note(s.(f := s.f.(loopErrors := s.f.loopErrors + 1,
                      totals := s.f.totals.(errors := s.f.totals.errors + 1),
                      window := s.f.window.(errors := s.f.window.errors + 1))), TickRaised)
  }

  /** One iteration of `_watch_loop`: a tick, its error accounting, and the heartbeat. */
  function LoopTick(c: Settings, s: State, env: TickEnv): Step {
    var t := WatchOnce(c, s, env);
    match t.status
    case Exits(code) => Step(Note(t.state, Exited(code)), t.status)
    case Answer(_) => NextTick(Note(t.state.(f := t.state.f.(loopErrors := 0)), TickCompleted))
    case Raises => AfterError(t.state, env)
  }

  /** A raising tick: count it, and from the third in a row on attempt a service stop. */
  function AfterError(s: State, env: TickEnv): Step {
    var s1 := CountLoopError(s);
    if s1.f.loopErrors < LOOP_ERROR_LIMIT then NextTick(s1) else
      var s2 := Note(s1, Stopped(None));
      if env.fallbackStop.Exits? then Step(Note(s2, Exited(env.fallbackStop.code)), Status(env.fallbackStop))
      else NextTick(s2)
  }

  function NextTick(s: State): Step {
    Step(Note(s, Heartbeat).(tick := s.tick + 1), Done)
  }

  /** The loop over a script of ticks, until it exits or the script ends. */
  function Run(c: Settings, s: State, script: seq<TickEnv>): Step
    decreases |script|
  {
    if script == [] then Step(s, Done) else
      var t := LoopTick(c, s, script[0]);
      if t.status.IsFailure() then t else Run(c, t.state, script[1..])
  }

  // ----- The object -----

  class Orchestrator {
    const config: Settings
    const guard: GluetunGuard
    var outageStartedAt: Option<real>
    var outageStartWall: Option<real>
    var lastAuthCheckWall: Option<real>
    var lastRestartAt: real
    var escalationTriggered: bool
    var consecutiveIpUnknowns: nat
    var consecutiveLoopErrors: nat
    var lastPublicIp: Option<Addr>
    var totals: Totals
    var window: Window
    ghost var tick: nat
    ghost var record: Record

    constructor (config: Settings, guard: GluetunGuard, now: real)
      requires guard.config == config.egress && guard.View() == Fresh
      ensures this.config == config && this.guard == guard && View() == Initial(now)
    {
      this.config, this.guard := config, guard;
      outageStartedAt, outageStartWall, lastAuthCheckWall := None, None, None;
      lastRestartAt, escalationTriggered := 0.0, false;
      consecutiveIpUnknowns, consecutiveLoopErrors, lastPublicIp := 0, 0, None;
      totals, window := Totals(0, 0, 0), Window(now, 0, 0, 0, 0, 0);
      tick, record := 0, EmptyRecord;
    }

    ghost predicate Valid() {
      guard.config == config.egress
    }

    ghost function View(): State
      reads this, guard
    {
      State(Fields(outageStartedAt, outageStartWall, lastAuthCheckWall, lastRestartAt, escalationTriggered,
                   consecutiveIpUnknowns, consecutiveLoopErrors, lastPublicIp, totals, window),
            guard.View(), tick, record)
    }

    ghost method Log(e: Event)
      modifies this`record
      ensures View() == Note(old(View()), e)
    {
      record := record.Add(Entry(tick, e));
    }

    method MaybeSummary(now: real)
      modifies this`window, this`record
      ensures View() == MaybeLogSummary(config, old(View()), now)
    {
      if config.summaryInterval > 0 && now - window.startedAt < config.summaryInterval as real {
        return;
      }
      Log(Summarised(window));
      window := Window(now, 0, 0, 0, 0, 0);
    }

    method Trip(reason: Reason, env: TickEnv) returns (r: Reply<()>)
      modifies this`record
      ensures Step(View(), r) == TripCircuitBreaker(old(View()), reason, env)
    {
      TripCompletes(View(), reason, env);
      hide TripCircuitBreaker;
      var elapsed := if outageStartedAt.Some? then env.later - outageStartedAt.value else 0.0;
      Log(LockoutWrite(reason, elapsed));
      var pending := if env.marker.Raises? then Done else env.marker;
      Log(Stopped(None));
      pending := if env.tripStop.IsFailure() then Status(env.tripStop) else pending;
      Log(GluetunStopped);
      pending := if env.gluetunStop.IsFailure() then env.gluetunStop else pending;
      pending := Exits(LOCKED_OUT);
      return pending;
    }

    method CountFailure()
      modifies this`lastPublicIp, this`totals, this`window
      ensures View() == CountIpFailure(old(View()))
    {
      if guard.lastObservedIp.Some? {
        lastPublicIp := guard.lastObservedIp;
      }
      totals := totals.(ipFailures := totals.ipFailures + 1);
      window := window.(ipFailures := window.ipFailures + 1);
    }

    method HandleUnhealthyIpAssessment(verdict: Verdict, services: seq<string>, env: TickEnv) returns (r: Reply<()>)
      requires verdict != Safe
      modifies this
      ensures Step(View(), r) == HandleUnhealthy(config, old(View()), verdict, services, env)
    {
      r := Done;
      if verdict == Unsafe {
        CountFailure();
        consecutiveIpUnknowns := 0;
        Log(Stopped(Some(services)));
        if env.stop.IsFailure() {
          return Status(env.stop);
        }
      } else {
        consecutiveIpUnknowns := consecutiveIpUnknowns + 1;
        if consecutiveIpUnknowns >= config.threshold {
          CountFailure();
          Log(Stopped(Some(services)));
          if env.stop.IsFailure() {
            return Status(env.stop);
          }
        }
      }
      MaybeSummary(env.later);
    }

    method Open(now: real, wall: real)
      modifies this
      ensures View() == OpenOutage(old(View()), now, wall)
    {
      outageStartedAt, outageStartWall := Some(now), Some(wall);
      lastAuthCheckWall, lastRestartAt := Some(wall), now;
      totals := totals.(drops := totals.drops + 1);
      window := window.(drops := window.drops + 1);
    }

    method BeginOutage(services: seq<string>, env: TickEnv) returns (r: Reply<()>)
      modifies this
      ensures Step(View(), r) == OutageBegins(config, old(View()), services, env)
    {
      r := Done;
      Open(env.now, env.wall);
      Log(Stopped(Some(services)));
      if env.stop.IsFailure() {
        return Status(env.stop);
      }
      Log(Scanned(None, env.wall, env.authFailed.IsFailure()));
      var rejected :- env.authFailed;
      if rejected {
        r := Trip(AuthRejected, env);
        return;
      }
      Log(Restarted(false, env.now, env.restart.IsFailure()));
      if env.restart.IsFailure() {
        return Status(env.restart);
      }
      MaybeSummary(env.later);
    }

    method ScanSinceCursor(wall: real, ghost raised: bool)
      modifies this`lastAuthCheckWall, this`record
      ensures View() == ScanLog(old(View()), wall, raised)
    {
      var since := if lastAuthCheckWall.Some? && lastAuthCheckWall.value != 0.0 then lastAuthCheckWall else outageStartWall;
      lastAuthCheckWall := Some(wall);
      Log(Scanned(since, wall, raised));
    }

    method ReselectTunnel(env: TickEnv) returns (r: Reply<()>)
      requires outageStartedAt.Some?
      modifies this`lastRestartAt, this`escalationTriggered, this`record
      ensures Step(View(), r) == Reselect(config, old(View()), env)
    {
      r := Done;
      var elapsed := env.now - outageStartedAt.value;
      if config.HasNarrowFilter() && !escalationTriggered && elapsed >= config.budget as real * ESCALATION_RATIO {
        Log(Restarted(true, env.now, env.restart.IsFailure()));
        if env.restart.IsFailure() {
          return Status(env.restart);
        }
        escalationTriggered := true;
        lastRestartAt := env.now;
      } else if env.now - lastRestartAt >= config.cadence as real {
        lastRestartAt := env.now;
        Log(Restarted(escalationTriggered, env.now, env.restart.IsFailure()));
        r := Status(env.restart);
      }
    }

    method ContinueOutage(env: TickEnv) returns (r: Reply<()>)
      requires outageStartedAt.Some?
      modifies this
      ensures Step(View(), r) == OutageContinues(config, old(View()), env)
    {
      ScanSinceCursor(env.wall, env.authFailed.IsFailure());
      var rejected :- env.authFailed;
      if rejected {
        r := Trip(AuthRejected, env);
        return;
      }
      if env.now - outageStartedAt.value >= config.budget as real {
        r := Trip(BudgetExhausted, env);
        return;
      }
      r := ReselectTunnel(env);
      if r.Answer? {
        MaybeSummary(env.later);
      }
    }

    method VerifyEgress(force: bool, env: TickEnv) returns (r: Reply<Verdict>)
      requires Valid()
      modifies guard, this`record
      ensures (View(), r) == Verify(config, old(View()), force, env)
    {
      ghost var probe;
      r, probe := guard.PublicIpAssessment(force, env.now, env.probes);
      if probe != Idle {
        Log(Probed(env.now, if probe.Live? then Some(probe.verdict) else None));
      }
      if r.Answer? {
        Log(Assessed(env.now, r.value));
      }
    }

    method StartIfStopped(services: seq<string>, env: TickEnv) returns (r: Reply<()>)
      modifies this`window, this`record
      ensures Step(View(), r) == StartIfDown(config, old(View()), services, env)
    {
      var running :- env.running;
      if !running {
        window := window.(autoStarts := window.autoStarts + 1);
        Log(Started(services));
        return Status(env.start);
      }
      return Done;
    }

    method CloseOutage()
      modifies this`outageStartedAt, this`outageStartWall, this`lastAuthCheckWall,
               this`lastRestartAt, this`escalationTriggered
      ensures View() == Closed(old(View()))
    {
      outageStartedAt, outageStartWall, lastAuthCheckWall := None, None, None;
      lastRestartAt, escalationTriggered := 0.0, false;
    }

    method RememberIp()
      modifies this`lastPublicIp
      ensures View() == Remember(old(View()))
    {
      if guard.lastObservedIp.Some? {
        lastPublicIp := guard.lastObservedIp;
      }
    }

    method RecoverFromOutage(services: seq<string>, env: TickEnv) returns (r: Reply<()>)
      requires Valid()
      modifies this, guard
      ensures Step(View(), r) == Recover(config, old(View()), services, env)
    {
      var verdict := VerifyEgress(true, env);
      if verdict.IsFailure() {
        return Status(verdict);
      }
      if verdict.value != Safe {
        r := HandleUnhealthyIpAssessment(verdict.value, services, env);
        return;
      }
      CloseOutage();
      r := StartIfStopped(services, env);
      if r.Answer? {
        RememberIp();
        MaybeSummary(env.later);
      }
    }

    method MonitorSteadyState(services: seq<string>, env: TickEnv) returns (r: Reply<()>)
      requires Valid()
      modifies this, guard
      ensures Step(View(), r) == Steady(config, old(View()), services, env)
    {
      var verdict := VerifyEgress(false, env);
      if verdict.IsFailure() {
        return Status(verdict);
      }
      if verdict.value != Safe {
        r := HandleUnhealthyIpAssessment(verdict.value, services, env);
        return;
      }
      consecutiveIpUnknowns := 0;
      RememberIp();
      r := StartIfStopped(services, env);
      if r.Answer? {
        MaybeSummary(env.later);
      }
    }

    method Watch(env: TickEnv) returns (r: Reply<()>)
      requires Valid()
      modifies this, guard
      ensures Step(View(), r) == WatchOnce(config, old(View()), env)
    {
      hide OutageBegins, OutageContinues, Recover, Steady;
      window := window.(checks := window.checks + 1);
      var services :- env.services;
      var healthy :- env.healthy;
      if healthy {
        Log(SawHealthy);
        if outageStartedAt.Some? {
          r := RecoverFromOutage(services, env);
        } else {
          r := MonitorSteadyState(services, env);
        }
      } else {
        Log(SawUnhealthy(env.now, env.wall));
        if outageStartedAt.None? {
          r := BeginOutage(services, env);
        } else {
          r := ContinueOutage(env);
        }
      }
    }

    method CountError()
      modifies this`consecutiveLoopErrors, this`totals, this`window, this`record
      ensures View() == CountLoopError(old(View()))
    {
      consecutiveLoopErrors := consecutiveLoopErrors + 1;
      totals := totals.(errors := totals.errors + 1);
      window := window.(errors := window.errors + 1);
      Log(TickRaised);
    }

    method LoopIteration(env: TickEnv) returns (r: Reply<()>)
      requires Valid()
      modifies this, guard
      ensures Step(View(), r) == LoopTick(config, old(View()), env)
    {
      r := Watch(env);
      if r.Exits? {
        Log(Exited(r.code));
        return;
      }
      if r.Answer? {
        consecutiveLoopErrors := 0;
        Log(TickCompleted);
      } else {
        CountError();
        if consecutiveLoopErrors >= LOOP_ERROR_LIMIT {
          Log(Stopped(None));
          if env.fallbackStop.Exits? {
            Log(Exited(env.fallbackStop.code));
            return Status(env.fallbackStop);
          }
        }
      }
      Log(Heartbeat);
      tick := tick + 1;
      r := Done;
    }

    method WatchLoop(script: seq<TickEnv>) returns (r: Reply<()>)
      requires Valid()
      modifies this, guard
      ensures Step(View(), r) == Run(config, old(View()), script)
    {
      r := Done;
      var i := 0;
      while i < |script|
        invariant 0 <= i <= |script|
        invariant r == Done
        invariant Run(config, View(), script[i..]) == Run(config, old(View()), script)
      {
        r := LoopIteration(script[i]);
        if r.IsFailure() {
          return;
        }
        assert script[i..][1..] == script[i + 1..];
        i := i + 1;
      }
    }
  }
}

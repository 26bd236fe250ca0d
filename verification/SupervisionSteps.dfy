/** What each step of the supervised system does, quantity by quantity: the state of the unit,
    the marker, and the starts and stops of services, each with its exact condition. */
module SupervisionSteps {
  import opened Breaker
  import opened Replies
  import opened Lockout
  import opened Supervision

  // ----- The steps that launch or end the watchdog process -----

  /** `start` succeeds: services came up, or recovery is handed over to the watchdog. */
  predicate StartSucceeds(s: Stack, env: StartEnv) {
    || (StartStarts(s, env) && env.up.Answer?)
    || (env.instance.Answer? && env.dataDir.Answer? && Reaches(s, false, env.preflight) && HandsOver(env.preflight))
  }

  /** The same for a reset, which must also get rid of a marker. */
  predicate ResetSucceeds(s: Stack, env: StartEnv) {
    || (SetupStarts(s, true, env) && env.up.Answer?)
    || (env.dataDir.Answer? && env.down.Answer? && Reaches(s, true, env.preflight) && HandsOver(env.preflight)
        && (s.marker.Some? ==> env.handover.Answer?))
  }

  /** The step launches the watchdog process: after a successful start, unless it is already
      running unchanged; after a successful restart; or by systemd. */
  predicate Launches(sys: Sys, step: Step) {
    match step
    case CliStart(supervised, start, changed, _) =>
      supervised && StartSucceeds(sys.stack, start) && (sys.unit.Looping? ==> changed)
    case CliRestart(supervised, report, start, _) => supervised && report.Proven? && ResetSucceeds(sys.stack, start)
    case SystemdStart(_) => !sys.unit.Looping?
    case _ => false
  }

  /** What the launched process meets: a marker only if systemd launched it. */
  function LaunchMarker(sys: Sys, step: Step): Option<Reason> {
    if step.SystemdStart? then sys.stack.marker else None
  }

  function LaunchUnit(marker: Option<Reason>, boot: BootEnv): Unit {
    if boot.commands.Answer? && marker.None? && boot.instanceLock.Answer? then Looping
    else if (boot.commands.Answer? && marker.Some?) || !boot.retry then Failed
    else Inactive
  }

  /** The operator's commands that end a running loop: only as far as the stop is proven. */
  predicate StopsLoop(step: Step) {
    || (step.CliStop? && (step.report.Proven? || step.report.stopped))
    || (step.CliRestart? && step.supervised && (step.report.Proven? || step.report.stopped))
  }

  function UnitAfter(sys: Sys, step: Step): Unit {
    if Launches(sys, step) then LaunchUnit(LaunchMarker(sys, step), step.boot)
    else if !sys.unit.Looping? then sys.unit
    else if step.LoopTrips? || (step.LoopEnds? && !step.retry) then Failed
    else if step.LoopEnds? || StopsLoop(step) then Inactive
    else Looping
  }

  /** The step puts the unit into the failed state, and its fail-safe runs with these replies. */
  function FailSafeRuns(sys: Sys, step: Step): Option<StopEnv> {
    if Launches(sys, step) && LaunchUnit(LaunchMarker(sys, step), step.boot).Failed? then Some(step.boot.failsafe)
    else if sys.unit.Looping? && (step.LoopTrips? || (step.LoopEnds? && !step.retry)) then Some(step.failsafe)
    else None
  }

  // ----- The marker -----

  /** The step removes a marker: a reset that lifts it, or a confirmed unlock. */
  predicate Unlocks(step: Step) {
    || (step.CliRestart? && step.supervised && step.report.Proven? && ResetLifts(step.start))
    || (step.OrchestratorReset? && ResetLifts(step.start))
    || (step.CliUnlock? && step.confirmed && step.unlink.Answer?)
  }

  /** A removed marker is gone, a trip writes its reason, and the fail-safe adds one of its own
      where there is none. */
  function MarkerAfter(sys: Sys, step: Step): Option<Reason> {
    var m := if Unlocks(step) then None
             else if step.LoopTrips? && sys.unit.Looping? && step.trip.marker.Answer? then Some(step.reason)
             else sys.stack.marker;
    var failsafe := FailSafeRuns(sys, step);
    if failsafe.Some? && m.None? && failsafe.value.marker.Answer? then Some(WatchdogUnstable) else m
  }

  // ----- Starts and stops -----

  predicate StartsServices(sys: Sys, step: Step) {
    match step
    case CliStart(supervised, start, _, _) => supervised && StartStarts(sys.stack, start)
    case CliRestart(supervised, report, start, _) => supervised && report.Proven? && SetupStarts(sys.stack, true, start)
    case OrchestratorStart(start) => StartStarts(sys.stack, start)
    case OrchestratorReset(start) => SetupStarts(sys.stack, true, start)
    case LoopStartsServices => sys.unit.Looping?
    case _ => false
  }

  predicate StopsServices(sys: Sys, step: Step) {
    || step.CliStop?
    || (step.LoopTrips? && sys.unit.Looping?)
    || (FailSafeRuns(sys, step).Some? && FailSafeRuns(sys, step).value.commands.Answer?)
  }

  /** Some effect of this kind was added. */
  ghost predicate Added(before: Stack, after: Stack, kind: Effect -> bool) {
    exists i :: |before.effects| <= i < |after.effects| && kind(after.effects[i])
  }

  ghost predicate StartAdded(before: Stack, after: Stack) {
    Added(before, after, (e: Effect) => e.ServicesUp?)
  }

  ghost predicate StopAdded(before: Stack, after: Stack) {
    Added(before, after, (e: Effect) => e.ServicesStop?)
  }

  // ----- What the commands do -----

  lemma StartLeaves(s: Stack, env: StartEnv)
    ensures var d := StartActiveServices(s, env);
            && (d.status.Answer? <==> StartSucceeds(s, env))
            && d.stack.marker == s.marker && s.effects <= d.stack.effects
            && (StartAdded(s, d.stack) <==> StartStarts(s, env)) && !StopAdded(s, d.stack)
            && (d.status.Answer? ==> s.marker.None?)
  {
    StartStartsExactlyWhen(s, env);
    StartKeepsMarker(s, env);
    var tail := StartStartsVerified(s, env);
    var d := StartActiveServices(s, env);
    hide StartActiveServices, Reaches;
    TailAdds(s, d.stack, tail);
  }

  lemma StartKeepsMarker(s: Stack, env: StartEnv)
    ensures var d := StartActiveServices(s, env);
            && d.stack.marker == s.marker && (d.status.Answer? ==> s.marker.None?)
            && !StopAdded(s, d.stack)
  {
  }

  /** Starts are added only as the last effect of a command. */
  lemma TailAdds(before: Stack, after: Stack, tail: seq<Effect>)
    requires after.effects == before.effects + tail && StartsVerified(tail)
    ensures StartAdded(before, after) <==> EndsInStart(before, after)
  {
    var n := |before.effects|;
    if EndsInStart(before, after) {
      assert after.effects[|after.effects| - 1].ServicesUp?;
    }
    if StartAdded(before, after) {
      var i :| n <= i < |after.effects| && after.effects[i].ServicesUp?;
      assert tail[i - n] == after.effects[i];
    }
  }

  lemma ResetLeaves(s: Stack, env: StartEnv)
    ensures var d := SetupActiveServices(s, true, env);
            && (d.status.Answer? <==> ResetSucceeds(s, env))
            && d.stack.marker == (if ResetLifts(env) then None else s.marker) && s.effects <= d.stack.effects
            && (StartAdded(s, d.stack) <==> SetupStarts(s, true, env)) && !StopAdded(s, d.stack)
            && (d.status.Answer? ==> d.stack.marker.None?)
  {
    SetupStartsExactlyWhen(s, true, env);
    ResetKeepsOrLifts(s, env);
    var tail := SetupStartsVerified(s, true, env);
    var d := SetupActiveServices(s, true, env);
    hide SetupActiveServices, Reaches, ResetLifts;
    TailAdds(s, d.stack, tail);
  }

  lemma ResetKeepsOrLifts(s: Stack, env: StartEnv)
    ensures var d := SetupActiveServices(s, true, env);
            && d.stack.marker == (if ResetLifts(env) then None else s.marker)
            && (d.status.Answer? ==> d.stack.marker.None?)
            && !StopAdded(s, d.stack)
  {
  }

  // ----- What each step does -----

  lemma BootLeaves(s: Stack, env: BootEnv)
    ensures var after := Boot(s, env);
            var unit := LaunchUnit(s.marker, env);
            && after.unit == unit
            && after.stack.marker == (if unit.Failed? && s.marker.None? && env.failsafe.marker.Answer?
                                      then Some(WatchdogUnstable) else s.marker)
            && s.effects <= after.stack.effects && !StartAdded(s, after.stack)
            && (StopAdded(s, after.stack) <==> unit.Failed? && env.failsafe.commands.Answer?)
  {
    FailSafeLeaves(s, env.failsafe);
    NothingAdded(s);
    hide FailSafe;
  }

  lemma FailSafeLeaves(s: Stack, env: StopEnv)
    ensures var t := FailSafe(s, env).stack;
            && t.marker == (if s.marker.None? && env.marker.Answer? then Some(WatchdogUnstable) else s.marker)
            && s.effects <= t.effects && !StartAdded(s, t)
            && (StopAdded(s, t) <==> env.commands.Answer?)
  {
    FailSafeReports(s, env);
    var t := FailSafe(s, env).stack;
    assert env.commands.Answer? ==> t.effects[|t.effects| - 1].ServicesStop?;
  }

  lemma NothingAdded(s: Stack)
    ensures !StartAdded(s, s) && !StopAdded(s, s)
  {
  }

  /** Effects added by two parts of a step, one after the other. */
  lemma AddedTwice(a: Stack, b: Stack, c: Stack)
    requires a.effects <= b.effects <= c.effects
    ensures StartAdded(a, c) <==> StartAdded(a, b) || StartAdded(b, c)
    ensures StopAdded(a, c) <==> StopAdded(a, b) || StopAdded(b, c)
  {
    AddedBefore(a, b, c, (e: Effect) => e.ServicesUp?);
    AddedBefore(a, b, c, (e: Effect) => e.ServicesStop?);
  }

  lemma AddedBefore(a: Stack, b: Stack, c: Stack, kind: Effect -> bool)
    requires a.effects <= b.effects <= c.effects
    ensures Added(a, c, kind) <==> Added(a, b, kind) || Added(b, c, kind)
  {
    if Added(a, b, kind) {
      var i :| |a.effects| <= i < |b.effects| && kind(b.effects[i]);
      assert c.effects[i] == b.effects[i];
    }
    if i :| |a.effects| <= i < |c.effects| && kind(c.effects[i]) && i < |b.effects| {
      assert b.effects[i] == c.effects[i];
    }
  }

  /** Unit, marker, starts and stops after a step. */
  ghost predicate StepDoes(sys: Sys, step: Step, next: Sys) {
    && next.unit == UnitAfter(sys, step)
    && next.stack.marker == MarkerAfter(sys, step)
    && sys.stack.effects <= next.stack.effects
    && (StartAdded(sys.stack, next.stack) <==> StartsServices(sys, step))
    && (StopAdded(sys.stack, next.stack) <==> StopsServices(sys, step))
  }

  lemma CliStartExactly(sys: Sys, step: Step)
    requires step.CliStart?
    ensures StepDoes(sys, step, Next(sys, step))
  {
    StartLeaves(sys.stack, step.start);
    NothingAdded(sys.stack);
    var d := StartActiveServices(sys.stack, step.start);
    NothingAdded(d.stack);
    BootLeaves(d.stack, step.boot);
    hide StartActiveServices, Boot, StartAdded, StopAdded, StartStarts, StartSucceeds;
    AddedTwice(sys.stack, d.stack, Boot(d.stack, step.boot).stack);
  }

  lemma CliRestartExactly(sys: Sys, step: Step)
    requires step.CliRestart?
    ensures StepDoes(sys, step, Next(sys, step))
  {
    ResetLeaves(sys.stack, step.start);
    NothingAdded(sys.stack);
    var d := SetupActiveServices(sys.stack, true, step.start);
    NothingAdded(d.stack);
    BootLeaves(d.stack, step.boot);
    hide SetupActiveServices, Boot, StartAdded, StopAdded, SetupStarts, ResetSucceeds, ResetLifts;
    AddedTwice(sys.stack, d.stack, Boot(d.stack, step.boot).stack);
  }

  lemma LoopTripsExactly(sys: Sys, step: Step)
    requires step.LoopTrips?
    ensures StepDoes(sys, step, Next(sys, step))
  {
    TripCompletes(sys.stack, step.reason, step.trip);
    NothingAdded(sys.stack);
    var t := Trip(sys.stack, step.reason, step.trip).stack;
    FailSafeLeaves(t, step.failsafe);
    hide Trip, FailSafe;
    var n := |sys.stack.effects| + if step.trip.marker.Answer? then 1 else 0;
    assert t.effects[n].ServicesStop?;
    assert !StartAdded(sys.stack, t) && StopAdded(sys.stack, t);
    AddedTwice(sys.stack, t, FailSafe(t, step.failsafe).stack);
  }

  lemma OtherStepExactly(sys: Sys, step: Step)
    requires !step.CliStart? && !step.CliRestart? && !step.LoopTrips?
    ensures StepDoes(sys, step, Next(sys, step))
  {
    NothingAdded(sys.stack);
    match step
    case OrchestratorStart(start) =>
      StartLeaves(sys.stack, start);
      hide StartActiveServices, StartAdded, StopAdded, StartStarts;
    case OrchestratorReset(start) =>
      ResetLeaves(sys.stack, start);
      hide SetupActiveServices, StartAdded, StopAdded, SetupStarts, ResetLifts;
    case SystemdStart(boot) =>
      BootLeaves(sys.stack, boot);
      hide Boot, StartAdded, StopAdded;
    case LoopEnds(retry, failsafe) =>
      FailSafeLeaves(sys.stack, failsafe);
      hide FailSafe, StartAdded, StopAdded;
    case CliStop(report) =>
      assert Effected(sys.stack, ServicesStop).effects[|sys.stack.effects|].ServicesStop?;
    case CliUnlock(confirmed, unlink) =>
    case LoopStartsServices =>
      assert StartServices(sys.stack, Done).stack.effects[|sys.stack.effects|].ServicesUp?;
  }

  /** Every step does exactly what its case says, whatever its replies and the state it finds. */
  lemma StepExactly(sys: Sys, step: Step)
    ensures StepDoes(sys, step, Next(sys, step))
  {
    hide StepDoes, Next;
    match step
    case CliStart(_, _, _, _) => CliStartExactly(sys, step);
    case CliRestart(_, _, _, _) => CliRestartExactly(sys, step);
    case LoopTrips(_, _, _) => LoopTripsExactly(sys, step);
    case _ => OtherStepExactly(sys, step);
  }

  // ----- The way out of a lockout -----

  /** From any lockout, after any steps that do not lift it: a supervised restart that proves
      the watchdog stopped, and whose tunnel is verified or handed over, ends with no marker and
      the watchdog in its loop as soon as that can be launched, and has started services
      exactly when the tunnel was verified and the build answered. */
  lemma RestartRecovers(sys: Sys, steps: seq<Step>, start: StartEnv, boot: BootEnv)
    requires sys.stack.marker.Some? && !sys.unit.Looping? && forall step <- steps :: !Lifts(step)
    requires ResetSucceeds(sys.stack, start) && boot.commands.Answer? && boot.instanceLock.Answer?
    ensures var locked := Run(sys, steps);
            var end := Next(locked, CliRestart(true, Proven, start, boot));
            && end.unit.Looping? && end.stack.marker.None?
            && (StartAdded(locked.stack, end.stack) <==> SetupStarts(sys.stack, true, start))
  {
    LockoutLatch(sys, steps);
    var locked := Run(sys, steps);
    StepExactly(locked, CliRestart(true, Proven, start, boot));
    SameReset(sys.stack, locked.stack, start);
    ResetLeaves(locked.stack, start);
    hide Next, SetupStarts, ResetSucceeds, ResetLifts, StartAdded, StopAdded, SetupActiveServices;
  }

  lemma SameReset(s: Stack, t: Stack, env: StartEnv)
    requires s.marker == t.marker
    ensures ResetSucceeds(s, env) == ResetSucceeds(t, env) && SetupStarts(s, true, env) == SetupStarts(t, true, env)
  {
  }
}

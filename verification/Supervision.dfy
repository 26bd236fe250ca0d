/** The watchdog unit, its fail-safe and the command line as one step system. Each command
    is one step; the fail-safe runs as part of the unit entering the failed state. */
module Supervision {
  import opened Breaker
  import opened Replies
  import opened Lockout

  /** `Inactive` includes waiting for an automatic restart. */
  datatype Unit = Inactive | Looping | Failed

  datatype Sys = Sys(stack: Stack, unit: Unit)

  /** Start-up of the supervised process. `retry` tells whether systemd still restarts it
      after an exit other than 78. */
  datatype BootEnv = BootEnv(commands: Reply<()>, instanceLock: Reply<()>, retry: bool, failsafe: StopEnv)

  /** What `stop_watchdog` established; unproven, the unit may or may not have stopped. */
  datatype StopReport = Proven | Unproven(stopped: bool)

  datatype Step =
    | CliStart(supervised: bool, start: StartEnv, changed: bool, boot: BootEnv)
    | CliRestart(supervised: bool, report: StopReport, start: StartEnv, boot: BootEnv)
    | CliStop(report: StopReport)
    | CliUnlock(confirmed: bool, unlink: Reply<()>)
    | OrchestratorStart(start: StartEnv)
    | OrchestratorReset(start: StartEnv)
    | SystemdStart(boot: BootEnv)
    | LoopStartsServices
    | LoopTrips(reason: Reason, trip: StopEnv, failsafe: StopEnv)
    | LoopEnds(retry: bool, failsafe: StopEnv)

  /** `OnFailure=` runs the fail-safe whenever the unit enters the failed state. */
  function EnterFailed(s: Stack, env: StopEnv): Sys {
    Sys(FailSafe(s, env).stack, Failed)
  }

  /** `RestartPreventExitStatus=78`; any other exit is retried until the start limit. */
  function ProcessExit(s: Stack, code: int, retry: bool, env: StopEnv): Sys {
    if code == LOCKED_OUT || !retry then EnterFailed(s, env) else Sys(s, Inactive)
  }

  /** `watch_stremio` up to its loop. */
  function Boot(s: Stack, env: BootEnv): Sys {
    if env.commands.IsFailure() then ProcessExit(s, 1, env.retry, env.failsafe)
    else if CheckLockout(s, false).IsFailure() then ProcessExit(s, LOCKED_OUT, env.retry, env.failsafe)
    else if env.instanceLock.IsFailure() then ProcessExit(s, 1, env.retry, env.failsafe)
    else Sys(s, Looping)
  }

  function StartWatchdog(sys: Sys, changed: bool, boot: BootEnv): Sys {
    if sys.unit.Looping? && !changed then sys else Boot(sys.stack, boot)
  }

  function StopUnit(sys: Sys, report: StopReport): Sys {
    if report.Proven? || report.stopped then sys.(unit := if sys.unit.Looping? then Inactive else sys.unit) else sys
  }

  function Next(sys: Sys, step: Step): Sys {
    match step
    case CliStart(supervised, start, changed, boot) =>
      if !supervised then sys else
        var d := StartActiveServices(sys.stack, start);
        if d.status.IsFailure() then sys.(stack := d.stack)
        else StartWatchdog(sys.(stack := d.stack), changed, boot)
    case CliRestart(supervised, report, start, boot) =>
      if !supervised then sys
      else if !report.Proven? then StopUnit(sys, report)
      else
        var stopped := StopUnit(sys, report);
        var d := SetupActiveServices(sys.stack, true, start);
        if d.status.IsFailure() then stopped.(stack := d.stack)
        else StartWatchdog(stopped.(stack := d.stack), true, boot)
    case CliStop(report) =>
      var stopped := StopUnit(sys, report);
      stopped.(stack := Effected(sys.stack, ServicesStop))
    case CliUnlock(confirmed, unlink) =>
      if confirmed then sys.(stack := ClearLockout(sys.stack, unlink).stack) else sys
    case OrchestratorStart(start) =>
      sys.(stack := StartActiveServices(sys.stack, start).stack)
    case OrchestratorReset(start) =>
      sys.(stack := SetupActiveServices(sys.stack, true, start).stack)
    case SystemdStart(boot) =>
      if sys.unit.Looping? then sys else Boot(sys.stack, boot)
    case LoopStartsServices =>
      if sys.unit.Looping? then sys.(stack := StartServices(sys.stack, Done).stack) else sys
    case LoopTrips(reason, trip, failsafe) =>
      if sys.unit.Looping? then
        var d := Trip(sys.stack, reason, trip);
        ProcessExit(d.stack, LOCKED_OUT, true, failsafe)
      else sys
    case LoopEnds(retry, failsafe) =>
      if sys.unit.Looping? then ProcessExit(sys.stack, 1, retry, failsafe) else sys
  }

  function Run(sys: Sys, steps: seq<Step>): Sys
    decreases |steps|
  {
    if steps == [] then sys else Run(Next(sys, steps[0]), steps[1..])
  }

  // ----- Safety -----

  /** A marker keeps the watchdog out of its loop, and no service start was ever issued
      while a marker was present. */
  predicate Inv(sys: Sys) {
    && (sys.stack.marker.Some? ==> !sys.unit.Looping?)
    && NeverStartedLocked(sys.stack)
  }

  predicate NeverStartedLocked(s: Stack) {
    forall e <- s.effects :: e.ServicesUp? ==> !e.locked
  }

  /** A service start comes last, without a marker, right after the verification of the
      tunnel or with only the removal of the marker in between. */
  predicate StartsVerified(tail: seq<Effect>) {
    forall i :: 0 <= i < |tail| && tail[i].ServicesUp? ==>
      && i == |tail| - 1 && tail[i] == ServicesUp(false)
      && i >= 2
      && tail[if tail[i - 1].MarkerCleared? then i - 2 else i - 1].EgressVerified?
  }

  /** Effects of a preflight: never a start, and when ready the verification comes last,
      or last but for the removal of the marker. */
  predicate PreflightTail(tail: seq<Effect>, ready: bool) {
    && (forall e <- tail :: !e.ServicesUp?)
    && (ready ==> |tail| >= 2 && tail[if tail[|tail| - 1].MarkerCleared? then |tail| - 2 else |tail| - 1].EgressVerified?)
  }

  lemma PreflightAdds(s: Stack, allowRecovery: bool, env: PreflightEnv) returns (tail: seq<Effect>)
    ensures var p := Preflight(s, allowRecovery, true, env);
            && p.stack.effects == s.effects + tail
            && PreflightTail(tail, p.ready == Answer(true))
            && (p.ready == Answer(true) ==> p.stack.marker.None?)
  {
    var p := Preflight(s, allowRecovery, true, env);
    var up, verified, cleared := [GluetunUp], [GluetunUp, EgressVerified], [GluetunUp, EgressVerified, MarkerCleared];
    assert verified == up + [EgressVerified] && cleared == verified + [MarkerCleared];
    assert Effected(s, GluetunUp).effects == s.effects + up;
    TailOfTwo(s.effects, up, [EgressVerified]);
    TailOfTwo(s.effects, verified, [MarkerCleared]);
    tail := if p.stack.effects == s.effects then []
            else if p.stack.effects == s.effects + up then up
            else if p.stack.effects == s.effects + verified then verified else cleared;
    assert s.effects + [] == s.effects;
    PreflightCases(s, allowRecovery, env);
    hide Preflight;
  }

  /** The four lists of effects a preflight can add, and when it is ready. */
  lemma PreflightCases(s: Stack, allowRecovery: bool, env: PreflightEnv)
    ensures var p := Preflight(s, allowRecovery, true, env);
            var e := p.stack.effects;
            && (p.ready == Answer(true) ==>
                  p.stack.marker.None?
                  && (e == s.effects + [GluetunUp] + [EgressVerified]
                      || e == s.effects + [GluetunUp] + [EgressVerified] + [MarkerCleared]))
            && (e == s.effects || e == s.effects + [GluetunUp] || e == s.effects + [GluetunUp] + [EgressVerified]
                || e == s.effects + [GluetunUp] + [EgressVerified] + [MarkerCleared])
  {
  }

  lemma TailOfTwo(before: seq<Effect>, a: seq<Effect>, b: seq<Effect>)
    ensures before + (a + b) == before + a + b
  {
  }

  lemma StartAfterPreflight(head: seq<Effect>, tail: seq<Effect>)
    requires PreflightTail(tail, true) && forall e <- head :: !e.ServicesUp?
    ensures StartsVerified(head + tail + [ServicesUp(false)])
  {
  }

  /** What `start` and `reset` add to the effects: services come up only right after the
      tunnel was verified in that same command, and never under a marker. */
  lemma SetupStartsVerified(s: Stack, reset: bool, env: StartEnv) returns (tail: seq<Effect>)
    ensures SetupActiveServices(s, reset, env).stack.effects == s.effects + tail && StartsVerified(tail)
  {
    var head := if reset then [ComposeDown] else [];
    var s1 := if reset then Effected(s, ComposeDown) else s;
    assert s1.effects == s.effects + head;
    var t := PreflightAdds(s1, reset, env.preflight);
    var p := Preflight(s1, reset, true, env.preflight);
    TailOfTwo(s.effects, head, t);
    hide Preflight, PreflightTail;
    if env.dataDir.IsFailure() {
      tail := [];
    } else if reset && env.down.IsFailure() {
      tail := head;
    } else if p.ready == Answer(true) && env.build.Answer? {
      tail := head + t + [ServicesUp(false)];
      StartAfterPreflight(head, t);
      TailOfTwo(s.effects, head + t, [ServicesUp(false)]);
    } else {
      NoStartIn(head, t, p.ready == Answer(true));
      tail := head + t;
      if p.ready == Answer(false) && reset && p.stack.marker.Some? && env.handover.Answer? {
        tail := head + t + [MarkerCleared];
        TailOfTwo(s.effects, head + t, [MarkerCleared]);
      }
    }
  }

  lemma NoStartIn(head: seq<Effect>, tail: seq<Effect>, ready: bool)
    requires PreflightTail(tail, ready) && forall e <- head :: !e.ServicesUp?
    ensures forall e <- head + tail :: !e.ServicesUp?
  {
  }

  lemma StartStartsVerified(s: Stack, env: StartEnv) returns (tail: seq<Effect>)
    ensures StartActiveServices(s, env).stack.effects == s.effects + tail && StartsVerified(tail)
  {
    if env.instance == Answer(false) {
      tail := SetupStartsVerified(s, false, env);
    } else {
      var t := PreflightAdds(s, false, env.preflight);
      var p := Preflight(s, false, true, env.preflight);
      hide Preflight, PreflightTail;
      if env.instance.IsFailure() || env.dataDir.IsFailure() {
        tail := [];
      } else if p.ready == Answer(true) {
        tail := [] + t + [ServicesUp(false)];
        StartAfterPreflight([], t);
        TailOfTwo(s.effects, [] + t, [ServicesUp(false)]);
        assert [] + t == t;
      } else {
        NoStartIn([], t, false);
        tail := [] + t;
        assert [] + t == t;
      }
    }
  }

  // ----- When a command does start services -----

  /** The replies that lead a preflight up to gluetun. */
  predicate Reaches(s: Stack, allowRecovery: bool, env: PreflightEnv) {
    && env.commands.Answer? && env.envFile && (s.marker.None? || allowRecovery)
    && env.binds.Answer? && env.comet.Answer? && env.gluetunUp.Answer?
  }

  /** The tunnel is verified, and a marker could be removed. */
  predicate Verifies(s: Stack, env: PreflightEnv) {
    env.healthy == Answer(true) && env.safe == Answer(true) && (s.marker.Some? ==> env.unlink.Answer?)
  }

  /** The tunnel does not come up in time or is not shown safe: the watchdog has to recover it. */
  predicate HandsOver(env: PreflightEnv) {
    env.healthy == Answer(false) || (env.healthy == Answer(true) && env.safe == Answer(false))
  }

  function VerifiedTail(s: Stack): seq<Effect> {
    [GluetunUp, EgressVerified] + if s.marker.Some? then [MarkerCleared] else []
  }

  /** A preflight is ready exactly when it reaches gluetun and verifies the tunnel; a tunnel
      that does not come up or is not safe is handed over if recovery may be deferred, and is
      an error if not. */
  lemma PreflightExactly(s: Stack, allowRecovery: bool, defer: bool, env: PreflightEnv)
    ensures var p := Preflight(s, allowRecovery, defer, env);
            var reached := Reaches(s, allowRecovery, env);
            && (p.ready == Answer(true) <==> reached && Verifies(s, env))
            && (p.ready == Answer(false) <==> reached && HandsOver(env) && defer)
            && (reached && HandsOver(env) && !defer ==> p.ready.Raises?)
            && (p.ready == Answer(true) ==> p.stack.effects == s.effects + VerifiedTail(s) && p.stack.marker.None?)
            && (reached && HandsOver(env) ==> p.stack == s.(effects := s.effects + [GluetunUp]))
  {
    TailOfTwo(s.effects, [GluetunUp], [EgressVerified]);
    TailOfTwo(s.effects, [GluetunUp, EgressVerified], [MarkerCleared]);
    assert [GluetunUp, EgressVerified] + [] == [GluetunUp, EgressVerified];
  }

  /** None of the calls unwinds the process on its own. */
  predicate NoneExits(env: StartEnv) {
    var p := env.preflight;
    && !env.instance.Exits? && !env.dataDir.Exits? && !env.down.Exits? && !env.build.Exits? && !env.up.Exits?
    && !env.handover.Exits? && !p.commands.Exits? && !p.binds.Exits? && !p.comet.Exits? && !p.gluetunUp.Exits?
    && !p.healthy.Exits? && !p.safe.Exits? && !p.unlink.Exits?
  }

  /** The one refusal by exit status: `start` and a first-time setup exit, with 78, exactly when
      they get as far as the marker and find it; a reset never does. */
  lemma RefusedExactlyWhen(s: Stack, env: StartEnv)
    requires NoneExits(env)
    ensures var refused := && s.marker.Some? && env.instance.Answer? && env.dataDir.Answer?
                           && env.preflight.commands.Answer? && env.preflight.envFile;
            var status := StartActiveServices(s, env).status;
            (status.Exits? <==> refused) && (refused ==> status == Exits(78))
    ensures !SetupActiveServices(s, true, env).status.Exits?
  {
  }

  /** Removing the marker succeeds exactly when there is none or its file can be unlinked; a
      failed unlink keeps it and is an error, except that an exit stays that exit. */
  lemma ClearExactly(s: Stack, unlink: Reply<()>)
    ensures var d := ClearLockout(s, unlink);
            && (d.status == Done <==> s.marker.None? || unlink.Answer?)
            && d.stack.marker == (if unlink.Answer? then None else s.marker)
            && (s.marker.Some? && unlink.Exits? ==> d.status == unlink)
            && (s.marker.Some? && unlink.Raises? ==> d.status.Raises?)
  {
  }

  /** Services were brought up, without a marker, as the last thing this command did. */
  predicate EndsInStart(before: Stack, after: Stack) {
    |after.effects| > |before.effects| && after.effects[|after.effects| - 1] == ServicesUp(false)
  }

  /** The replies under which a setup starts services. */
  predicate SetupStarts(s: Stack, reset: bool, env: StartEnv) {
    && env.dataDir.Answer? && (reset ==> env.down.Answer?)
    && Reaches(s, reset, env.preflight) && Verifies(s, env.preflight) && env.build.Answer?
  }

  /** A first-time setup or a reset starts services exactly when everything up to the tunnel
      answers, the tunnel is healthy and safe, a marker could be removed (without a reset there
      must be none), and the build answers. Gluetun's start, its verification and the removal
      are then all that came before, and the command ends as that start does. It succeeds
      without a start exactly when recovery is handed over to the watchdog. */
  lemma SetupStartsExactlyWhen(s: Stack, reset: bool, env: StartEnv)
    ensures var d := SetupActiveServices(s, reset, env);
            var head := if reset then [ComposeDown] else [];
            && (EndsInStart(s, d.stack) <==> SetupStarts(s, reset, env))
            && (SetupStarts(s, reset, env) ==>
                  d.status == env.up && d.stack.effects == s.effects + head + VerifiedTail(s) + [ServicesUp(false)])
            && (!SetupStarts(s, reset, env) ==>
                  (d.status.Answer? <==>
                    && env.dataDir.Answer? && (reset ==> env.down.Answer?)
                    && Reaches(s, reset, env.preflight) && HandsOver(env.preflight)
                    && (s.marker.Some? ==> env.handover.Answer?)))
  {
    var s1 := if reset then Effected(s, ComposeDown) else s;
    PreflightExactly(s1, reset, true, env.preflight);
    SetupStartNeedsReady(s, reset, env);
    assert s.effects + [] == s.effects;
    hide Preflight, StartsVerified, PreflightTail, Reaches, Verifies, HandsOver;
    SameReplies(s, s1, reset, env.preflight);
  }

  lemma SameReplies(s: Stack, s1: Stack, allowRecovery: bool, env: PreflightEnv)
    requires s.marker == s1.marker
    ensures Reaches(s, allowRecovery, env) == Reaches(s1, allowRecovery, env)
    ensures Verifies(s, env) == Verifies(s1, env) && VerifiedTail(s) == VerifiedTail(s1)
  {
  }

  /** A setup that does not get as far as its start ends in another effect. */
  lemma SetupStartNeedsReady(s: Stack, reset: bool, env: StartEnv)
    ensures var s1 := if reset then Effected(s, ComposeDown) else s;
            EndsInStart(s, SetupActiveServices(s, reset, env).stack) ==>
              && env.dataDir.Answer? && (reset ==> env.down.Answer?) && env.build.Answer?
              && Preflight(s1, reset, true, env.preflight).ready == Answer(true)
  {
    var s1 := if reset then Effected(s, ComposeDown) else s;
    var t := PreflightAdds(s1, reset, env.preflight);
    hide Preflight;
  }

  /** The replies under which `start` starts services: never under a marker. */
  predicate StartStarts(s: Stack, env: StartEnv) {
    && env.instance.Answer? && s.marker.None? && env.dataDir.Answer?
    && Reaches(s, false, env.preflight) && Verifies(s, env.preflight)
    && (env.instance == Answer(false) ==> env.build.Answer?)
  }

  /** The same for `start`, which builds only on a first-time setup. */
  lemma StartStartsExactlyWhen(s: Stack, env: StartEnv)
    ensures var d := StartActiveServices(s, env);
            && (EndsInStart(s, d.stack) <==> StartStarts(s, env))
            && (StartStarts(s, env) ==>
                  d.status == env.up && d.stack.effects == s.effects + [GluetunUp, EgressVerified, ServicesUp(false)])
            && (!StartStarts(s, env) ==>
                  (d.status.Answer? <==>
                    && env.instance.Answer? && env.dataDir.Answer?
                    && Reaches(s, false, env.preflight) && HandsOver(env.preflight)))
  {
    if env.instance == Answer(false) {
      SetupStartsExactlyWhen(s, false, env);
      assert s.effects + [] + VerifiedTail(s) + [ServicesUp(false)]
             == s.effects + (VerifiedTail(s) + [ServicesUp(false)]);
      hide SetupActiveServices, EndsInStart;
    } else {
      PreflightExactly(s, false, true, env.preflight);
      var t := PreflightAdds(s, false, env.preflight);
      assert s.effects + VerifiedTail(s) + [ServicesUp(false)] == s.effects + (VerifiedTail(s) + [ServicesUp(false)]);
      hide Preflight;
    }
  }

  lemma CommandsNeverStartLocked(s: Stack, start: StartEnv, reset: bool)
    requires NeverStartedLocked(s)
    ensures NeverStartedLocked(StartActiveServices(s, start).stack)
    ensures NeverStartedLocked(SetupActiveServices(s, reset, start).stack)
  {
    var t1 := StartStartsVerified(s, start);
    var t2 := SetupStartsVerified(s, reset, start);
    hide StartActiveServices, SetupActiveServices;
  }

  lemma StepKeepsInv(sys: Sys, step: Step)
    requires Inv(sys)
    ensures Inv(Next(sys, step))
  {
    hide StartActiveServices, SetupActiveServices, Lockout.Trip;
    match step
    case CliStart(supervised, start, changed, boot) =>
      CommandsNeverStartLocked(sys.stack, start, false);
      StartsWriteNoMarker(sys.stack, start);
    case OrchestratorStart(start) =>
      CommandsNeverStartLocked(sys.stack, start, false);
      StartsWriteNoMarker(sys.stack, start);
    case CliRestart(supervised, report, start, boot) =>
      CommandsNeverStartLocked(sys.stack, start, true);
      ResetWritesNoMarker(sys.stack, start);
    case OrchestratorReset(start) =>
      CommandsNeverStartLocked(sys.stack, start, true);
      ResetWritesNoMarker(sys.stack, start);
    case LoopTrips(reason, trip, failsafe) =>
      TripCompletes(sys.stack, reason, trip);
    case _ =>
  }

  lemma StartsWriteNoMarker(s: Stack, start: StartEnv)
    ensures s.marker.None? ==> StartActiveServices(s, start).stack.marker.None?
  {
  }

  lemma ResetWritesNoMarker(s: Stack, start: StartEnv)
    ensures s.marker.None? ==> SetupActiveServices(s, true, start).stack.marker.None?
  {
  }

  /** In every run of steps from a state without a watchdog loop under a marker: the
      watchdog never loops under a marker, and services never start under one. */
  lemma {:induction false} LockoutInvariant(sys: Sys, steps: seq<Step>)
    requires Inv(sys)
    ensures Inv(Run(sys, steps))
    decreases |steps|
  {
    if steps != [] {
      StepKeepsInv(sys, steps[0]);
      LockoutInvariant(Next(sys, steps[0]), steps[1..]);
    }
  }

  // ----- The latch -----

  /** The only steps by which an operator lifts a lockout. */
  predicate Lifts(step: Step) {
    step.CliRestart? || step.OrchestratorReset? || (step.CliUnlock? && step.confirmed)
  }

  /** Nothing but service stops was added to the effects. */
  predicate OnlyStops(before: Stack, after: Stack) {
    && before.effects <= after.effects
    && forall i :: |before.effects| <= i < |after.effects| ==> after.effects[i].ServicesStop?
  }

  lemma StepKeepsLock(sys: Sys, step: Step)
    requires sys.stack.marker.Some? && !sys.unit.Looping? && !Lifts(step)
    ensures var next := Next(sys, step);
            next.stack.marker == sys.stack.marker && !next.unit.Looping? && OnlyStops(sys.stack, next.stack)
  {
    if step.CliStart? || step.OrchestratorStart? {
      LockedStartDoesNothing(sys.stack, step.start);
    }
  }

  lemma LockedStartDoesNothing(s: Stack, start: StartEnv)
    requires s.marker.Some?
    ensures StartActiveServices(s, start).stack == s && StartActiveServices(s, start).status.IsFailure()
  {
  }

  /** Once a marker exists it stays, with its reason, until a restart or a confirmed
      unlock: no start, boot start, systemd restart or first-time setup in between starts
      services or gluetun, the watchdog is never in its loop, and the fail-safe leaves the
      marker as it found it. */
  lemma {:induction false} LockoutLatch(sys: Sys, steps: seq<Step>)
    requires sys.stack.marker.Some? && !sys.unit.Looping?
    requires forall step <- steps :: !Lifts(step)
    ensures var end := Run(sys, steps);
            end.stack.marker == sys.stack.marker && !end.unit.Looping? && OnlyStops(sys.stack, end.stack)
    decreases |steps|
  {
    if steps != [] {
      StepKeepsLock(sys, steps[0]);
      LockoutLatch(Next(sys, steps[0]), steps[1..]);
    }
  }

  /** A breaker trip leaves the unit failed, and the marker absent only if both the trip's
      and the fail-safe's write failed; otherwise it names the first write that succeeded. */
  lemma TripLocks(sys: Sys, reason: Reason, trip: StopEnv, failsafe: StopEnv)
    requires sys.unit.Looping? && sys.stack.marker.None?
    ensures var next := Next(sys, LoopTrips(reason, trip, failsafe));
            && next.unit.Failed?
            && next.stack.marker == (if trip.marker.Answer? then Some(reason)
                                     else if failsafe.marker.Answer? then Some(WatchdogUnstable) else None)
            && (exists i, j :: |sys.stack.effects| <= i < j < |next.stack.effects| &&
                  next.stack.effects[i].ServicesStop? && next.stack.effects[j].GluetunStop?)
  {
    TripCompletes(sys.stack, reason, trip);
    hide Lockout.Trip;
    var n := |sys.stack.effects| + if trip.marker.Answer? then 1 else 0;
    var after := Trip(sys.stack, reason, trip).stack.effects;
    var next := Next(sys, LoopTrips(reason, trip, failsafe)).stack.effects;
    assert after[n].ServicesStop? && after[n + 1].GluetunStop? && after <= next;
    assert next[n].ServicesStop? && next[n + 1].GluetunStop?;
  }

  /** The replies under which a reset gets to the end of its preflight, or hands recovery
      over to the watchdog, and the unlink that then happens succeeds. */
  predicate ResetLifts(env: StartEnv) {
    var p := env.preflight;
    && env.dataDir.Answer? && env.down.Answer?
    && p.commands.Answer? && p.envFile && p.binds.Answer? && p.comet.Answer? && p.gluetunUp.Answer?
    && p.healthy.Answer? && (p.healthy.value ==> p.safe.Answer?)
    && (if p.healthy.value && p.safe.value then p.unlink.Answer? else env.handover.Answer?)
  }

  /** A reset lifts the lockout exactly when its preflight ends in a verified or a
      handed-over tunnel and the marker can be removed; in every other case the marker is
      unchanged and no services start. */
  lemma ResetLiftsExactlyWhen(s: Stack, env: StartEnv)
    requires s.marker.Some?
    ensures var d := SetupActiveServices(s, true, env);
            && (d.stack.marker.None? <==> ResetLifts(env))
            && (d.stack.marker.Some? ==> d.stack.marker == s.marker && d.status.IsFailure())
            && (d.stack.marker.Some? ==>
                  forall i :: |s.effects| <= i < |d.stack.effects| ==> !d.stack.effects[i].ServicesUp?)
  {
  }
}

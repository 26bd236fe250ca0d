/** The VPN lockout marker, and the commands that write, honour and lift it. */
module Lockout {
  import opened Breaker
  import opened Replies

  /** What a command did, in order. Services that are started record whether a marker was
      present at that moment. */
  datatype Effect =
    | ComposeDown
    | GluetunUp
    | EgressVerified
    | MarkerWritten(reason: Reason)
    | MarkerCleared
    | ServicesUp(locked: bool)
    | ServicesStop
    | GluetunStop

  /** The marker file and the effects so far. */
  datatype Stack = Stack(marker: Option<Reason>, effects: seq<Effect>)

  datatype Did = Did(stack: Stack, status: Reply<()>)

  datatype Prepared = Prepared(stack: Stack, ready: Reply<bool>)

  /** Replies met by one `preflight`. `healthy` is false when gluetun stays unavailable. */
  datatype PreflightEnv = PreflightEnv(
    commands: Reply<()>, envFile: bool, binds: Reply<()>, comet: Reply<()>, gluetunUp: Reply<()>,
    healthy: Reply<bool>, safe: Reply<bool>, unlink: Reply<()>)

  datatype StartEnv = StartEnv(
    instance: Reply<bool>, dataDir: Reply<()>, down: Reply<()>, preflight: PreflightEnv,
    build: Reply<()>, up: Reply<()>, handover: Reply<()>)

  datatype StopEnv = StopEnv(marker: Reply<()>, commands: Reply<()>, stop: Reply<bool>, gluetun: Reply<()>)

  function Effected(s: Stack, e: Effect): Stack {
    s.(effects := s.effects + [e])
  }

  // ----- Specification -----

  /** Raising `LockoutActiveError` ends the process with 78. */
  function CheckLockout(s: Stack, allowRecovery: bool): Reply<()> {
    if s.marker.None? || allowRecovery then Done else Exits(LOCKED_OUT)
  }

  function ClearLockout(s: Stack, unlink: Reply<()>): Did {
    if s.marker.None? then Did(s, Done)
    else if unlink.IsFailure() then Did(s, if unlink.Exits? then unlink else Raises)
    else Did(Effected(s.(marker := None), MarkerCleared), Done)
  }

  function WriteLockout(s: Stack, reason: Reason, write: Reply<()>): Did {
    if write.IsFailure() then Did(s, write)
    else Did(Effected(s.(marker := Some(reason)), MarkerWritten(reason)), Done)
  }

  function Preflight(s: Stack, allowRecovery: bool, defer: bool, env: PreflightEnv): Prepared {
    if env.commands.IsFailure() then Prepared(s, env.commands.PropagateFailure())
    else if !env.envFile then Prepared(s, Raises)
    else if CheckLockout(s, allowRecovery).IsFailure() then Prepared(s, Exits(LOCKED_OUT))
    else if env.binds.IsFailure() then Prepared(s, env.binds.PropagateFailure())
    else if env.comet.IsFailure() then Prepared(s, env.comet.PropagateFailure())
    else
      var s1 := Effected(s, GluetunUp);
      if env.gluetunUp.IsFailure() then Prepared(s1, env.gluetunUp.PropagateFailure())
      else if env.healthy.IsFailure() then Prepared(s1, env.healthy)
      else if !env.healthy.value then Prepared(s1, if defer then Answer(false) else Raises)
      else if env.safe.IsFailure() then Prepared(s1, env.safe)
      else if !env.safe.value then Prepared(s1, if defer then Answer(false) else Raises)
      else
        var cleared := ClearLockout(Effected(s1, EgressVerified), env.unlink);
        Prepared(cleared.stack, if cleared.status.IsFailure() then cleared.status.PropagateFailure() else Answer(true))
  }

  function StartServices(s: Stack, up: Reply<()>): Did {
    Did(Effected(s, ServicesUp(s.marker.Some?)), up)
  }

  function SetupActiveServices(s: Stack, reset: bool, env: StartEnv): Did {
    if env.dataDir.IsFailure() then Did(s, env.dataDir)
    else if reset && env.down.IsFailure() then Did(Effected(s, ComposeDown), env.down)
    else
      var s1 := if reset then Effected(s, ComposeDown) else s;
      var p := Preflight(s1, reset, true, env.preflight);
      if p.ready.IsFailure() then Did(p.stack, Status(p.ready))
      else if !p.ready.value then if reset then ClearLockout(p.stack, env.handover) else Did(p.stack, Done)
      else if env.build.IsFailure() then Did(p.stack, env.build)
      else StartServices(p.stack, env.up)
  }

  function StartActiveServices(s: Stack, env: StartEnv): Did {
    if env.instance.IsFailure() then Did(s, Status(env.instance))
    else if !env.instance.value then SetupActiveServices(s, false, env)
    else if env.dataDir.IsFailure() then Did(s, env.dataDir)
    else
      var p := Preflight(s, false, true, env.preflight);
      if p.ready.IsFailure() then Did(p.stack, Status(p.ready))
      else if !p.ready.value then Did(p.stack, Done)
      else StartServices(p.stack, env.up)
  }

  /** The marker part of the fail-safe: an existing marker is kept. */
  function EnsureMarker(s: Stack, write: Reply<()>): (Stack, Reply<()>) {
    if s.marker.Some? then (s, Done) else
      var d := WriteLockout(s, WatchdogUnstable, write);
      (d.stack, d.status)
  }

  function StopVerified(s: Stack, env: StopEnv): (Stack, Reply<()>) {
    if env.commands.IsFailure() then (s, env.commands)
    else
      var s1 := Effected(s, ServicesStop);
      if env.stop.IsFailure() then (s1, Status(env.stop))
      else (s1, if env.stop.value then Done else Raises)
  }

  /** A failed write of the marker cannot skip the shutdown; an exit pending from it is
      raised once the shutdown is through. */
  function FailSafe(s: Stack, env: StopEnv): Did {
    var (stack, status) := Finally(Swallow(EnsureMarker(s, env.marker)), (t: Stack) => StopVerified(t, env));
    Did(stack, status)
  }

  /** The fail-safe reports success exactly when the daemon could be checked, the services are
      confirmed stopped and nothing is pending; a stop is attempted whatever the marker's
      write did, and the marker ends up there if it was or could be written. */
  lemma FailSafeReports(s: Stack, env: StopEnv)
    ensures var d := FailSafe(s, env);
            && (d.status == Done <==> env.commands.Answer? && env.stop == Answer(true)
                                      && !(s.marker.None? && env.marker.Exits?))
            && (d.stack.marker.Some? <==> s.marker.Some? || env.marker.Answer?)
            && (s.marker.Some? ==> d.stack.marker == s.marker)
            && (env.commands.Answer? <==>
                  |d.stack.effects| > |s.effects| && d.stack.effects[|d.stack.effects| - 1].ServicesStop?)
  {
    var e := EnsureMarker(s, env.marker);
    assert FailSafe(s, env).stack == StopVerified(e.0, env).0;
  }

  function Trip(s: Stack, reason: Reason, env: StopEnv): Did {
    var write := WriteLockout(s, reason, env.marker);
    var (stack, status) := TripBlocks(
      (write.stack, write.status),
      (t: Stack) => (Effected(t, ServicesStop), Status(env.stop)),
      (t: Stack) => (Effected(t, GluetunStop), env.gluetun));
    Did(stack, status)
  }

  /** Whichever of the three calls fail, and however: all are attempted, in this order, and
      the process exits with 78. */
  lemma TripCompletes(s: Stack, reason: Reason, env: StopEnv)
    ensures var s1 := WriteLockout(s, reason, env.marker).stack;
            Trip(s, reason, env) == Did(Effected(Effected(s1, ServicesStop), GluetunStop), Exits(LOCKED_OUT))
  {
    var write := WriteLockout(s, reason, env.marker);
    TripBlocksComplete((write.stack, write.status),
                       (t: Stack) => (Effected(t, ServicesStop), Status(env.stop)),
                       (t: Stack) => (Effected(t, GluetunStop), env.gluetun));
    hide TripBlocks;
  }

  // ----- The object -----

  class Orchestrator {
    var marker: Option<Reason>
    ghost var effects: seq<Effect>

    constructor (marker: Option<Reason>)
      ensures View() == Stack(marker, [])
    {
      this.marker, effects := marker, [];
    }

    ghost function View(): Stack
      reads this
    {
      Stack(marker, effects)
    }

    ghost method Do(e: Effect)
      modifies this`effects
      ensures View() == Effected(old(View()), e)
    {
      effects := effects + [e];
    }

    method ClearVpnLockout(unlink: Reply<()>) returns (r: Reply<()>)
      modifies this
      ensures Did(View(), r) == ClearLockout(old(View()), unlink)
    {
      if marker.Some? {
        if unlink.IsFailure() {
          return if unlink.Exits? then unlink else Raises;
        }
        marker := None;
        Do(MarkerCleared);
      }
      return Done;
    }

    method WriteVpnLockout(reason: Reason, write: Reply<()>) returns (r: Reply<()>)
      modifies this
      ensures Did(View(), r) == WriteLockout(old(View()), reason, write)
    {
      if write.IsFailure() {
        return write;
      }
      marker := Some(reason);
      Do(MarkerWritten(reason));
      return Done;
    }

    method PreparePreflight(allowRecovery: bool, defer: bool, env: PreflightEnv) returns (r: Reply<bool>)
      modifies this
      ensures Prepared(View(), r) == Preflight(old(View()), allowRecovery, defer, env)
    {
      var _ :- env.commands;
      if !env.envFile {
        return Raises;
      }
      if marker.Some? && !allowRecovery {
        return Exits(LOCKED_OUT);
      }
      var _ :- env.binds;
      var _ :- env.comet;
      Do(GluetunUp);
      var _ :- env.gluetunUp;
      var healthy :- env.healthy;
      if !healthy {
        return if defer then Answer(false) else Raises;
      }
      var safe :- env.safe;
      if !safe {
        return if defer then Answer(false) else Raises;
      }
      Do(EgressVerified);
      var cleared := ClearVpnLockout(env.unlink);
      var _ :- cleared;
      return Answer(true);
    }

    method Setup(reset: bool, env: StartEnv) returns (r: Reply<()>)
      modifies this
      ensures Did(View(), r) == SetupActiveServices(old(View()), reset, env)
    {
      var _ :- env.dataDir;
      if reset {
        Do(ComposeDown);
        var _ :- env.down;
      }
      var prepared := PreparePreflight(reset, true, env.preflight);
      var ready :- prepared;
      if !ready {
        if reset {
          r := ClearVpnLockout(env.handover);
          return;
        }
        return Done;
      }
      var _ :- env.build;
      Do(ServicesUp(marker.Some?));
      return env.up;
    }

    method Start(env: StartEnv) returns (r: Reply<()>)
      modifies this
      ensures Did(View(), r) == StartActiveServices(old(View()), env)
    {
      var created :- env.instance;
      if !created {
        r := Setup(false, env);
        return;
      }
      var _ :- env.dataDir;
      var prepared := PreparePreflight(false, true, env.preflight);
      var ready :- prepared;
      if !ready {
        return Done;
      }
      Do(ServicesUp(marker.Some?));
      return env.up;
    }

    method RequireStopped(env: StopEnv) returns (r: Reply<()>)
      modifies this`effects
      ensures (View(), r) == StopVerified(old(View()), env)
    {
      var _ :- env.commands;
      Do(ServicesStop);
      var stopped :- env.stop;
      return if stopped then Done else Raises;
    }

    method RunFailSafe(env: StopEnv) returns (r: Reply<()>)
      modifies this
      ensures Did(View(), r) == FailSafe(old(View()), env)
    {
      var pending := Done;
      if marker.None? {
        pending := WriteVpnLockout(WatchdogUnstable, env.marker);
        if pending.Raises? {
          pending := Done;
        }
      }
      r := RequireStopped(env);
      if !r.IsFailure() {
        r := pending;
      }
    }
  }
}

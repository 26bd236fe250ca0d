/** Invariants of the watchdog over every script of replies. */
module WatchdogInvariant {
  import opened Breaker
  import opened Replies
  import opened Egress
  import opened Trace
  import opened Watchdog

  /** Clock readings never go back. */
  predicate Monotone(script: seq<TickEnv>, t: real) {
    script == [] || (t <= script[0].now <= script[0].later && Monotone(script[1..], script[0].later))
  }

  /** The outage fields are all set or all null together, and match the outage an
      observer would infer from the log. */
  predicate OutageAgrees(c: Settings, f: Fields, k: Seen, t: real) {
    && f.outageStartedAt.Some? == f.outageStartWall.Some? == f.lastAuthCheckWall.Some? == k.outage.Some?
    && (k.outage.None? ==> f.lastRestartAt == 0.0 && !f.escalationTriggered)
    && (k.outage.Some? ==>
          var o := k.outage.value;
          && f.outageStartedAt.value == o.at && f.outageStartWall.value == o.wall
          && f.lastAuthCheckWall.value == o.cursor && f.lastRestartAt == o.last
          && f.escalationTriggered == o.escalated
          && o.at <= o.last <= t
          && (o.escalated ==> o.relaxed)
          && (o.relaxed ==> c.HasNarrowFilter() && t - o.at >= c.budget as real * ESCALATION_RATIO))
  }

  /** A non-empty cache is the most recent live probe, and outside an outage that probe
      is newer than everything bad. */
  predicate ProofHeld(cache: Cache, k: Seen) {
    cache.egress.Some? ==>
      && k.probe.Some?
      && k.probe.value.at == cache.probedAt
      && (k.outage.None? ==> k.badTick < k.probe.value.tick)
  }

  /** Lifetime totals equal what the log counts, and the sum of the emitted summaries
      plus the open window. */
  predicate Conserved(f: Fields, k: Seen) {
    && f.totals == k.counted
    && f.totals.errors == k.summed.errors + f.window.errors
    && f.totals.drops == k.summed.drops + f.window.drops
    && f.totals.ipFailures == k.summed.ipFailures + f.window.ipFailures
  }

  predicate TicksUpTo(k: Seen, tick: int) {
    && k.tick <= tick && k.healthyTick <= tick && k.badTick <= tick && k.stopTick <= tick && k.raisedTick <= tick
    && (k.judged.Some? ==> k.judged.value.tick <= tick)
    && (k.probe.Some? ==> k.probe.value.tick <= tick)
  }

  ghost predicate Core(c: Settings, s: State, t: real) {
    var k := s.record.seen;
    && s.record.Sound(c)
    && TicksUpTo(k, s.tick)
    && OutageAgrees(c, s.f, k, t)
    && ProofHeld(s.cache, k)
    && s.f.unknowns == k.unknowns && k.run <= k.unknowns
    && s.f.loopErrors == k.errorRun
    && Conserved(s.f, k)
    && !Owes(c, k) && k.due.NothingDue?
  }

  /** Holds between ticks. */
  ghost predicate Inv(c: Settings, s: State, t: real) {
    && Core(c, s, t)
    && TicksUpTo(s.record.seen, s.tick - 1)
    && s.record.seen.trip.NoTrip? && !s.record.seen.dead
  }

  /** Holds when `watch_once` returns: either the breaker has run to its end and the exit
      is on its way, or the tick may still be completed, failed or cut short. */
  ghost predicate Post(c: Settings, step: Step, tick: nat, t: real) {
    var k := step.state.record.seen;
    && Core(c, step.state, t)
    && step.state.tick == tick
    && !k.dead && k.raisedTick < tick
    && (Obliged(c, k, tick) ==> k.stopTick == tick)
    && (k.trip.NoTrip? || (k.trip.TunnelStopped? && step.status == Exits(LOCKED_OUT)))
    && (step.status.Answer? ==> Permitted(c, k, Entry(tick, TickCompleted)))
  }

  lemma NoteSound(c: Settings, s: State, e: Event)
    requires s.record.Sound(c) && Permitted(c, s.record.seen, Entry(s.tick, e))
    ensures Note(s, e).record.Sound(c)
  {
    AddKeepsSound(c, s.record, Entry(s.tick, e));
  }

  lemma InitialInv(c: Settings, now: real)
    ensures Inv(c, Initial(now), now)
  {
  }

  lemma SummaryKeeps(c: Settings, s: State, now: real, t: real)
    requires Core(c, s, t) && !s.record.seen.dead && s.record.seen.trip.NoTrip?
    ensures var s' := MaybeLogSummary(c, s, now);
            && Core(c, s', t)
            && s'.tick == s.tick
            && (s'.record.seen == s.record.seen
                || s'.record.seen == Observe(s.record.seen, Entry(s.tick, Summarised(s.f.window))))
  {
    hide Fold, Accepts, Permitted, Observe, OutageAgrees, ProofHeld, Conserved;
    SummaryPermitted(c, s);
    hide Core;
    NoteSound(c, s, Summarised(s.f.window));
    SummaryCore(c, s, now, t);
  }

  lemma SummaryCore(c: Settings, s: State, now: real, t: real)
    requires Core(c, s, t) && Note(s, Summarised(s.f.window)).record.Sound(c)
    ensures Core(c, Note(s, Summarised(s.f.window)).(f := s.f.(window := Window(now, 0, 0, 0, 0, 0))), t)
  {
    hide Fold, Accepts, Permitted;
  }

  lemma SummaryPermitted(c: Settings, s: State)
    requires TicksUpTo(s.record.seen, s.tick) && !Owes(c, s.record.seen) && s.record.seen.due.NothingDue?
    requires !s.record.seen.dead && s.record.seen.trip.NoTrip?
    ensures Permitted(c, s.record.seen, Entry(s.tick, Summarised(s.f.window)))
  {
  }

  lemma FinishKeeps<T>(c: Settings, s: State, r: Reply<T>, now: real, tick: nat, t: real)
    requires Post(c, Step(s, Done), tick, t) && s.record.seen.trip.NoTrip?
    ensures Post(c, Finish(c, s, r, now), tick, t)
  {
    hide Fold, Accepts, MaybeLogSummary;
    SummaryKeeps(c, s, now, t);
  }

  /** Before the breaker: an unhealthy tick of an open outage. */
  lemma TripKeeps(c: Settings, s: State, reason: Reason, env: TickEnv, t: real)
    requires Core(c, s, t) && t <= env.later
    requires !s.record.seen.dead && s.record.seen.trip.NoTrip?
    requires s.record.seen.badTick == s.tick && s.record.seen.outage.Some? && s.record.seen.raisedTick < s.tick
    requires reason.BudgetExhausted? ==> env.later - s.f.outageStartedAt.value >= c.budget as real
    requires s.record.seen.judged.Some? ==> s.record.seen.judged.value.tick < s.tick
    ensures Post(c, TripCircuitBreaker(s, reason, env), s.tick, env.later)
  {
    TripCompletes(s, reason, env);
    hide Fold, Accepts, TripCircuitBreaker;
    var elapsed := env.later - s.f.outageStartedAt.value;
    NoteSound(c, s, LockoutWrite(reason, elapsed));
    var s1 := Note(s, LockoutWrite(reason, elapsed));
    NoteSound(c, s1, Stopped(None));
    var s2 := Note(s1, Stopped(None));
    NoteSound(c, s2, GluetunStopped);
  }

  lemma BeginsKeeps(c: Settings, s: State, services: seq<string>, env: TickEnv, t: real)
    requires Inv(c, s, t) && t <= env.now <= env.later && s.f.outageStartedAt.None?
    ensures Post(c, OutageBegins(c, Note(s, SawUnhealthy(env.now, env.wall)), services, env), s.tick, env.later)
  {
    hide Fold, Accepts, TripCircuitBreaker, Finish;
    NoteSound(c, s, SawUnhealthy(env.now, env.wall));
    var s0 := OpenOutage(Note(s, SawUnhealthy(env.now, env.wall)), env.now, env.wall);
    NoteSound(c, s0, Stopped(Some(services)));
    var s1 := Note(s0, Stopped(Some(services)));
    assert Core(c, s1, env.now);
    NoteSound(c, s1, Scanned(None, env.wall, env.authFailed.IsFailure()));
    var s2 := Note(s1, Scanned(None, env.wall, env.authFailed.IsFailure()));
    assert Core(c, s2, env.now);
    if env.stop.Answer? && env.authFailed.Answer? {
      if env.authFailed.value {
        TripKeeps(c, s2, AuthRejected, env, env.now);
      } else {
        var e := Restarted(false, env.now, env.restart.IsFailure());
        NoteSound(c, s2, e);
        FinishKeeps(c, Note(s2, e), env.restart, env.later, s.tick, env.later);
      }
    }
  }

  lemma ReselectKeeps(c: Settings, s: State, env: TickEnv)
    requires Core(c, s, env.now) && env.now <= env.later
    requires Post(c, Step(s, Done), s.tick, env.later) && s.record.seen.trip.NoTrip?
    requires s.record.seen.outage.Some? && s.record.seen.badTick == s.tick
    requires env.now - s.f.outageStartedAt.value < c.budget as real
    ensures var step := Reselect(c, s, env);
            && Post(c, Step(step.state, Done), s.tick, env.later)
            && step.state.record.seen.trip.NoTrip?
  {
    hide Fold, Accepts;
    var elapsed := env.now - s.f.outageStartedAt.value;
    if c.HasNarrowFilter() && !s.f.escalationTriggered && elapsed >= c.budget as real * ESCALATION_RATIO {
      NoteSound(c, s, Restarted(true, env.now, env.restart.IsFailure()));
    } else if env.now - s.f.lastRestartAt >= c.cadence as real {
      NoteSound(c, s, Restarted(s.f.escalationTriggered, env.now, env.restart.IsFailure()));
    }
  }

  /** Within a later unhealthy tick, once its scan is issued. */
  lemma ContinuesScans(c: Settings, s: State, env: TickEnv, t: real)
    requires Inv(c, s, t) && t <= env.now <= env.later && s.f.outageStartedAt.Some?
    ensures var s1 := ScanLog(Note(s, SawUnhealthy(env.now, env.wall)), env.wall, env.authFailed.IsFailure());
            var k := s1.record.seen;
            && Core(c, s1, env.now) && Post(c, Step(s1, Raises), s.tick, env.later)
            && (env.now - s.f.outageStartedAt.value < c.budget as real ==> Post(c, Step(s1, Done), s.tick, env.later))
            && s1.tick == s.tick && s1.f.outageStartedAt == s.f.outageStartedAt
            && !k.dead && k.trip.NoTrip? && k.badTick == s.tick && k.outage.Some? && k.raisedTick < s.tick
            && (k.judged.Some? ==> k.judged.value.tick < s.tick)
  {
    hide Fold, Accepts;
    NoteSound(c, s, SawUnhealthy(env.now, env.wall));
    var s0 := Note(s, SawUnhealthy(env.now, env.wall));
    var since := if s.f.lastAuthCheckWall.value != 0.0 then s.f.lastAuthCheckWall else s.f.outageStartWall;
    NoteSound(c, s0, Scanned(since, env.wall, env.authFailed.IsFailure()));
  }

  lemma ContinuesKeeps(c: Settings, s: State, env: TickEnv, t: real)
    requires Inv(c, s, t) && t <= env.now <= env.later && s.f.outageStartedAt.Some?
    ensures Post(c, OutageContinues(c, Note(s, SawUnhealthy(env.now, env.wall)), env), s.tick, env.later)
  {
    ContinuesScans(c, s, env, t);
    hide Fold, Accepts, TripCircuitBreaker, Finish, Reselect, Core, ScanLog, Permitted, Obliged;
    var s1 := ScanLog(Note(s, SawUnhealthy(env.now, env.wall)), env.wall, env.authFailed.IsFailure());
    if env.authFailed.Answer? {
      if env.authFailed.value {
        TripKeeps(c, s1, AuthRejected, env, env.now);
      } else if env.now - s.f.outageStartedAt.value >= c.budget as real {
        TripKeeps(c, s1, BudgetExhausted, env, env.now);
      } else {
        ReselectKeeps(c, s1, env);
        var step := Reselect(c, s1, env);
        FinishKeeps(c, step.state, step.status, env.later, s.tick, env.later);
      }
    }
  }

  /** After an assessment: the verdict is on record and nothing else has happened. */
  ghost predicate Verified(c: Settings, s: State, verdict: Verdict, t: real) {
    var k := s.record.seen;
    && k.judged == Some(Judged(s.tick, t, verdict))
    && k.healthyTick == s.tick && k.badTick < s.tick && k.stopTick < s.tick && k.raisedTick < s.tick
    && !k.dead && k.trip.NoTrip? && k.due.NothingDue?
    && s.record.Sound(c)
    && TicksUpTo(k, s.tick)
    && ProofHeld(s.cache, k)
    && k.run <= k.unknowns
    && s.f.loopErrors == k.errorRun
    && Conserved(s.f, k)
    && (verdict.Safe? ==> s.cache.egress.Some? && t - s.cache.probedAt < c.egress.interval as real)
  }

  /** An assessment as seen from outside: from the cache, from a live probe, or failed. */
  lemma AssessmentCases(c: Egress.Config, cache: Cache, force: bool, now: real, p: Probes)
    ensures var a := Assess(c, cache, force, now, p);
            match a.probe
            case Idle =>
              && a.cache.egress == cache.egress && a.cache.probedAt == cache.probedAt
              && (a.reply.Answer? ==> a.reply.value.Safe? && !force && cache.egress.Some?
                                      && now - cache.probedAt < c.interval as real)
            case Live(v) =>
              && a.reply == Answer(v) && (a.cache.egress.Some? <==> v.Safe?)
              && (v.Safe? ==> a.cache.probedAt == now)
            case Broken => a.reply.IsFailure() && a.cache.egress.None?
  {
  }

  /** Between a probe and its judgement. */
  ghost predicate Probing(c: Settings, s: State, r: Reply<Verdict>, t: real) {
    var k := s.record.seen;
    && Core(c, s, t)
    && k.healthyTick == s.tick && k.badTick < s.tick && k.stopTick < s.tick && k.raisedTick < s.tick
    && !k.dead && k.trip.NoTrip?
    && (k.judged.Some? ==> k.judged.value.tick < s.tick)
    && (r == Answer(Safe) ==>
          && s.cache.egress.Some? && t - s.cache.probedAt < c.egress.interval as real
          && k.badTick < k.probe.value.tick)
  }

  lemma ProbeKeeps(c: Settings, s: State, env: TickEnv, t: real)
    requires Inv(c, s, t) && t <= env.now
    ensures var (s1, r) := ProbeEgress(c, Note(s, SawHealthy), s.f.outageStartedAt.Some?, env);
            && Probing(c, s1, r, env.now)
            && s1.f == s.f && s1.tick == s.tick && s1.record.seen.outage == s.record.seen.outage
  {
    hide Fold, Accepts, Assess;
    NoteSound(c, s, SawHealthy);
    AssessmentCases(c.egress, s.cache, s.f.outageStartedAt.Some?, env.now, env.probes);
    var a := Assess(c.egress, s.cache, s.f.outageStartedAt.Some?, env.now, env.probes);
    if a.probe != Idle {
      var s1 := Note(s, SawHealthy).(cache := a.cache);
      NoteSound(c, s1, Probed(env.now, if a.probe.Live? then Some(a.probe.verdict) else None));
    }
  }

  lemma VerifyKeeps(c: Settings, s: State, env: TickEnv, t: real)
    requires Inv(c, s, t) && t <= env.now <= env.later
    ensures var (s1, r) := Verify(c, Note(s, SawHealthy), s.f.outageStartedAt.Some?, env);
            && s1.f == s.f && s1.tick == s.tick
            && (r.IsFailure() ==> Post(c, Step(s1, Status(r)), s.tick, env.later))
            && (r.Answer? ==>
                  && Verified(c, s1, r.value, env.now)
                  && s1.record.seen.outage == (if r.value.Safe? then None else s.record.seen.outage)
                  && s1.record.seen.unknowns == match r.value
                                                case Unknown => s.f.unknowns + 1
                                                case Unsafe => 0
                                                case Safe => if s.f.outageStartedAt.Some? then s.f.unknowns else 0)
  {
    hide Fold, Accepts, ProbeEgress;
    ProbeKeeps(c, s, env, t);
    var (s1, r) := ProbeEgress(c, Note(s, SawHealthy), s.f.outageStartedAt.Some?, env);
    if r.Answer? {
      NoteSound(c, s1, Assessed(env.now, r.value));
    }
  }

  lemma HandleKeeps(c: Settings, s: State, verdict: Verdict, services: seq<string>, env: TickEnv)
    requires verdict != Safe && env.now <= env.later
    requires Verified(c, s, verdict, env.now)
    requires OutageAgrees(c, s.f, s.record.seen, env.now)
    requires s.record.seen.unknowns == if verdict.Unknown? then s.f.unknowns + 1 else 0
    ensures Post(c, HandleUnhealthy(c, s, verdict, services, env), s.tick, env.later)
  {
    hide Fold, Accepts, Finish;
    var s1 := if verdict.Unsafe? then CountIpFailure(s) else s;
    var s2 := s1.(f := s1.f.(unknowns := if verdict.Unsafe? then 0 else s1.f.unknowns + 1));
    if verdict.Unsafe? {
      NoteSound(c, s2, Stopped(Some(services)));
      FinishKeeps(c, Note(s2, Stopped(Some(services))), env.stop, env.later, s.tick, env.later);
    } else if s2.f.unknowns >= c.threshold {
      NoteSound(c, CountIpFailure(s2), Stopped(Some(services)));
      FinishKeeps(c, Note(CountIpFailure(s2), Stopped(Some(services))), env.stop, env.later, s.tick, env.later);
    } else {
      FinishKeeps(c, s2, Done, env.later, s.tick, env.later);
    }
  }

  lemma StartKeeps(c: Settings, s: State, services: seq<string>, env: TickEnv)
    requires env.now <= env.later
    requires Verified(c, s, Safe, env.now) && Core(c, s, env.later) && s.record.seen.outage.None?
    ensures var step := StartIfDown(c, s, services, env);
            && Post(c, step, s.tick, env.later)
            && step.state.record.seen.trip.NoTrip?
  {
    hide Fold, Accepts;
    NoteSound(c, s, Started(services));
  }

  lemma HealthyKeeps(c: Settings, s: State, services: seq<string>, env: TickEnv, t: real)
    requires Inv(c, s, t) && t <= env.now <= env.later
    ensures var s0 := Note(s, SawHealthy);
            var step := if s.f.outageStartedAt.Some? then Recover(c, s0, services, env) else Steady(c, s0, services, env);
            Post(c, step, s.tick, env.later)
  {
    hide Fold, Accepts, Verify, HandleUnhealthy, StartIfDown;
    VerifyKeeps(c, s, env, t);
    var (s1, r) := Verify(c, Note(s, SawHealthy), s.f.outageStartedAt.Some?, env);
    if r.Answer? {
      if r.value != Safe {
        HandleKeeps(c, s1, r.value, services, env);
      } else {
        var s2 := if s.f.outageStartedAt.Some? then Closed(s1) else Remember(s1.(f := s1.f.(unknowns := 0)));
        StartKeeps(c, s2, services, env);
        var step := StartIfDown(c, s2, services, env);
        if step.status.Answer? {
          var s3 := if s.f.outageStartedAt.Some? then Remember(step.state) else step.state;
          FinishKeeps(c, s3, Done, env.later, s.tick, env.later);
        }
      }
    }
  }

  lemma WatchOnceKeeps(c: Settings, s: State, env: TickEnv, t: real)
    requires Inv(c, s, t) && t <= env.now <= env.later
    ensures Post(c, WatchOnce(c, s, env), s.tick, env.later)
  {
    hide Fold, Accepts, Recover, Steady, OutageBegins, OutageContinues;
    var s0 := s.(f := s.f.(window := s.f.window.(checks := s.f.window.checks + 1)));
    assert Inv(c, s0, t);
    if env.services.Answer? && env.healthy.Answer? {
      if env.healthy.value {
        HealthyKeeps(c, s0, env.services.value, env, t);
      } else if s.f.outageStartedAt.None? {
        BeginsKeeps(c, s0, env.services.value, env, t);
      } else {
        ContinuesKeeps(c, s0, env, t);
      }
    }
  }

  /** What is left when the loop has returned or its script is used up. */
  ghost predicate Outcome(c: Settings, step: Step, t: real) {
    if step.status.Answer? then Inv(c, step.state, t)
    else step.status.Exits? && Core(c, step.state, t) && step.state.record.seen.dead
  }

  lemma BeatKeeps(c: Settings, s: State, t: real)
    requires Core(c, s, t) && !s.record.seen.dead && s.record.seen.trip.NoTrip?
    requires Obliged(c, s.record.seen, s.tick) ==> s.record.seen.stopTick == s.tick
    ensures Inv(c, NextTick(s).state, t)
  {
    hide Fold, Accepts;
    NoteSound(c, s, Heartbeat);
  }

  /** Alive, with the breaker at rest. */
  ghost predicate Alive(c: Settings, s: State, t: real) {
    Core(c, s, t) && !s.record.seen.dead && s.record.seen.trip.NoTrip?
  }

  lemma CountKeeps(c: Settings, s: State, t: real)
    requires Post(c, Step(s, Raises), s.tick, t) && CountLoopError(s).f.loopErrors < LOOP_ERROR_LIMIT
    ensures var s1 := CountLoopError(s);
            && Alive(c, s1, t)
            && (Obliged(c, s1.record.seen, s.tick) ==> s1.record.seen.stopTick == s.tick)
  {
    hide Fold, Accepts;
    NoteSound(c, s, TickRaised);
  }

  /** From the third error on the stop comes directly after the error. */
  lemma CountAndStopKeeps(c: Settings, s: State, t: real)
    requires Post(c, Step(s, Raises), s.tick, t) && CountLoopError(s).f.loopErrors >= LOOP_ERROR_LIMIT
    ensures var s2 := Note(CountLoopError(s), Stopped(None)); Alive(c, s2, t) && s2.record.seen.stopTick == s.tick
  {
    hide Fold, Accepts;
    NoteSound(c, s, TickRaised);
    StopDirectlyAfter(c, CountLoopError(s));
    NoteSound(c, CountLoopError(s), Stopped(None));
  }

  lemma StopDirectlyAfter(c: Settings, s: State)
    requires s.record.seen.tick == s.tick && s.record.seen.due.FallbackStop? && !Owes(c, s.record.seen)
    requires !s.record.seen.dead && s.record.seen.trip.NoTrip?
    ensures Permitted(c, s.record.seen, Entry(s.tick, Stopped(None)))
  {
  }

  lemma AfterErrorKeeps(c: Settings, s: State, env: TickEnv, t: real)
    requires Post(c, Step(s, Raises), s.tick, t)
    ensures Outcome(c, AfterError(s, env), t)
  {
    var s1 := CountLoopError(s);
    hide Fold, Accepts, NextTick, TicksUpTo, OutageAgrees, ProofHeld, Conserved;
    if s1.f.loopErrors < LOOP_ERROR_LIMIT {
      CountKeeps(c, s, t);
      BeatKeeps(c, s1, t);
      NextBeats(s1);
    } else {
      CountAndStopKeeps(c, s, t);
      var s2 := Note(s1, Stopped(None));
      if env.fallbackStop.Exits? {
        ExitedKeeps(c, s2, env.fallbackStop.code, t);
      } else {
        BeatKeeps(c, s2, t);
        NextBeats(s2);
      }
    }
  }

  lemma ExitedKeeps(c: Settings, s: State, code: int, t: real)
    requires Alive(c, s, t) && s.record.seen.stopTick == s.tick
    ensures Outcome(c, Step(Note(s, Exited(code)), Exits(code)), t)
  {
    hide Fold, Accepts;
    NoteSound(c, s, Exited(code));
  }

  lemma NextBeats(s: State)
    ensures NextTick(s).status == Done
  {
  }

  lemma LoopTickKeeps(c: Settings, s: State, env: TickEnv, t: real)
    requires Inv(c, s, t) && t <= env.now <= env.later
    ensures Outcome(c, LoopTick(c, s, env), env.later)
  {
    hide Fold, Accepts, WatchOnce, AfterError, Observe, NextTick;
    WatchOnceKeeps(c, s, env, t);
    var step := WatchOnce(c, s, env);
    match step.status
    case Exits(code) => ExitKeeps(c, step.state, code, env.later);
    case Answer(_) => CompletedKeeps(c, step.state, env.later);
    case Raises => AfterErrorKeeps(c, step.state, env, env.later);
  }

  lemma ExitKeeps(c: Settings, s: State, code: int, t: real)
    requires Post(c, Step(s, Exits(code)), s.tick, t)
    ensures Outcome(c, Step(Note(s, Exited(code)), Exits(code)), t)
  {
    hide Fold, Accepts;
    NoteSound(c, s, Exited(code));
  }

  lemma CompletedKeeps(c: Settings, s: State, t: real)
    requires Post(c, Step(s, Done), s.tick, t)
    ensures Outcome(c, NextTick(Note(s.(f := s.f.(loopErrors := 0)), TickCompleted)), t)
  {
    hide Fold, Accepts;
    var s1 := s.(f := s.f.(loopErrors := 0));
    NoteSound(c, s1, TickCompleted);
    BeatKeeps(c, Note(s1, TickCompleted), t);
  }

  /** The invariant holds after every script, from every state that satisfies it. */
  lemma {:induction false} RunKeeps(c: Settings, s: State, script: seq<TickEnv>, t: real)
    requires Inv(c, s, t) && Monotone(script, t)
    ensures exists t' :: Outcome(c, Run(c, s, script), t')
    decreases |script|
  {
    hide Core, Inv, LoopTick;
    if script == [] {
      assert Outcome(c, Run(c, s, script), t);
    } else {
      LoopTickKeeps(c, s, script[0], t);
      var step := LoopTick(c, s, script[0]);
      if step.status.Answer? {
        RunKeeps(c, step.state, script[1..], script[0].later);
        assert Run(c, s, script) == Run(c, step.state, script[1..]);
      } else {
        assert Outcome(c, Run(c, s, script), script[0].later);
      }
    }
  }
}

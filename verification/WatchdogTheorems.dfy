/** The theorems about whole watchdog runs, under any script of replies whose monotonic
    clock does not go back. Any call of any tick may raise or exit. */
module WatchdogTheorems {
  import opened Breaker
  import opened Replies
  import opened Egress
  import opened Trace
  import opened Watchdog
  import opened WatchdogInvariant
  import opened WatchdogSafety
  import opened WatchdogTick

  function End(c: Settings, start: real, script: seq<TickEnv>): Step {
    Run(c, Initial(start), script)
  }

  function History(c: Settings, start: real, script: seq<TickEnv>): seq<Entry> {
    End(c, start, script).state.record.log
  }

  /** Every run ends in a state that agrees with its history, and every entry of that
      history was permitted. All statements about accepted logs thus hold of every run. */
  lemma HistoryAccepted(c: Settings, start: real, script: seq<TickEnv>)
    requires Monotone(script, start)
    ensures Accepts(c, History(c, start, script))
    ensures exists t :: Outcome(c, End(c, start, script), t)
  {
    InitialInv(c, start);
    RunKeeps(c, Initial(start), script, start);
  }

  /** Every service start, in every run: gluetun was seen healthy and the egress judged
      SAFE in that very tick; the judgement rests on the most recent live probe, which was
      SAFE, is younger than the probe interval, and was taken in a later tick than every
      unhealthy observation and every gluetun restart before it. */
  lemma ServicesStartOnLiveProof(c: Settings, start: real, script: seq<TickEnv>, i: nat)
    requires Monotone(script, start)
    requires var log := History(c, start, script); i < |log| && log[i].event.Started?
    ensures exists h, j, a :: RestsOn(c, History(c, start, script), i, h, j, a)
  {
    hide End, Accepts;
    HistoryAccepted(c, start, script);
    var h, j, a := StartRests(c, History(c, start, script), i);
  }

  /** After any run the outage fields are all set or all null together, escalation and
      restart time are reset with them, and an outage is open exactly when some unhealthy
      observation has not been followed by a SAFE assessment. */
  lemma OutageFieldsTogether(c: Settings, start: real, script: seq<TickEnv>)
    requires Monotone(script, start)
    ensures var f := End(c, start, script).state.f;
            var log := History(c, start, script);
            && f.outageStartedAt.Some? == f.outageStartWall.Some? == f.lastAuthCheckWall.Some?
            && (f.outageStartedAt.None? ==> f.lastRestartAt == 0.0 && !f.escalationTriggered)
            && (f.outageStartedAt.Some? <==>
                  exists k :: 0 <= k < |log| && log[k].event.SawUnhealthy? && NoneSafe(log, k, |log|))
  {
    HistoryAccepted(c, start, script);
    hide End, Accepts, Fold;
    OutageIffOpen(History(c, start, script));
  }

  /** The counters after any run, read off its history: UNKNOWNs since the last UNSAFE or
      steady SAFE; raising ticks since the last completed one; lifetime totals as the sum
      of all emitted summaries plus the open window, with loop errors the number of raising
      ticks, drops the number of outages, and IP failures the UNSAFE verdicts and the UNKNOWNs
      at or above the threshold. */
  lemma CountersMatchHistory(c: Settings, start: real, script: seq<TickEnv>)
    requires Monotone(script, start)
    ensures var f := End(c, start, script).state.f;
            var log := History(c, start, script);
            && f.unknowns == UnknownsSinceReset(log)
            && f.unknowns >= TrailingUnknowns(Verdicts(log))
            && f.loopErrors == RaisesInARow(log)
            && f.totals.errors == Summed(log, (w: Window) => w.errors) + f.window.errors
            && f.totals.drops == Summed(log, (w: Window) => w.drops) + f.window.drops
            && f.totals.ipFailures == Summed(log, (w: Window) => w.ipFailures) + f.window.ipFailures
            && f.totals.errors == Count(log, (e: Event) => e.TickRaised?)
            && f.totals.drops == Outages(log)
            && f.totals.ipFailures == IpFailures(c, log)
  {
    var log := History(c, start, script);
    HistoryAccepted(c, start, script);
    IpFailuresCounted(c, log);
    hide End, Accepts, Fold;
    CounterIsUnknowns(log);
    RunIsTrailing(log);
    ErrorRunIsRaises(log);
    DropsAreOutages(log);
    FoldSums(log);
  }

  /** Once a breaker trip begins nothing can cut it short: marker, service stop, gluetun
      stop and exit 78 follow in this order and end the history, whichever calls fail. */
  lemma TripRunsToTheEnd(c: Settings, start: real, script: seq<TickEnv>, i: nat)
    requires Monotone(script, start)
    requires var log := History(c, start, script); i < |log| && log[i].event.LockoutWrite?
    ensures var log := History(c, start, script);
            && |log| == i + 4
            && log[i + 1].event == Stopped(None)
            && log[i + 2].event == GluetunStopped
            && log[i + 3].event == Exited(78)
  {
    var log := History(c, start, script);
    HistoryAccepted(c, start, script);
    assert Fold(log).trip.NoTrip? || Fold(log).dead;
    hide End, Accepts, Fold;
    TripStep(c, log, i);
    if |log| == i + 1 { Whole(log); }
    TripStep(c, log, i + 1);
    if |log| == i + 2 { Whole(log); }
    TripStep(c, log, i + 2);
    if |log| == i + 3 { Whole(log); }
    TripStep(c, log, i + 3);
    DeadEnds(c, log, i + 4);
  }

  lemma DeadEnds(c: Settings, log: seq<Entry>, n: nat)
    requires n <= |log| && Accepts(c, log) && Fold(log[..n]).dead
    ensures n == |log|
  {
    if n < |log| {
      TripStep(c, log, n);
    }
  }

  lemma TripStep(c: Settings, log: seq<Entry>, n: nat)
    requires n < |log| && Accepts(c, log)
    ensures var s, t, e := Fold(log[..n]), Fold(log[..n + 1]), log[n].event;
            && !s.dead
            && (t.dead <==> e.Exited?)
            && (e.LockoutWrite? ==> t.trip.MarkerAttempted?)
            && (s.trip.MarkerAttempted? ==> e == Stopped(None) && t.trip.ServicesStopped?)
            && (s.trip.ServicesStopped? ==> e == GluetunStopped && t.trip.TunnelStopped?)
            && (s.trip.TunnelStopped? ==> e == Exited(LOCKED_OUT))
  {
    FoldStep(log, n);
    assert Permitted(c, Fold(log[..n]), log[n]);
  }

  /** No run ends with a stop still due. */
  lemma NothingLeftDue(c: Settings, start: real, script: seq<TickEnv>)
    requires Monotone(script, start)
    ensures Fold(History(c, start, script)).due.NothingDue?
  {
    HistoryAccepted(c, start, script);
    hide Accepts, Fold, End;
  }

  /** In every run the observation that opens an outage is followed directly, in its own tick,
      by a stop of listed services. */
  lemma OutageOpensWithStop(c: Settings, start: real, script: seq<TickEnv>, i: nat)
    requires Monotone(script, start)
    requires var log := History(c, start, script); i < |log| && Opens(log, i)
    ensures var log := History(c, start, script);
            i + 1 < |log| && log[i + 1].tick == log[i].tick && log[i + 1].event.Stopped? && log[i + 1].event.only.Some?
  {
    HistoryAccepted(c, start, script);
    NothingLeftDue(c, start, script);
    hide End, Accepts, Fold, Opens;
    OpeningIsStopped(c, History(c, start, script), i);
  }

  lemma OpeningIsStopped(c: Settings, log: Log, i: nat)
    requires Accepts(c, log) && Fold(log).due.NothingDue? && i < |log| && Opens(log, i)
    ensures i + 1 < |log| && log[i + 1].tick == log[i].tick && log[i + 1].event.Stopped? && log[i + 1].event.only.Some?
  {
    hide Accepts, Fold, Opens;
    OpeningStops(c, log, i);
    Whole(log);
  }

  /** And every third raising tick in a row, and each one after it, by a stop of all. */
  lemma ThirdErrorIsFollowedByStop(c: Settings, start: real, script: seq<TickEnv>, i1: nat, i2: nat, i3: nat)
    requires Monotone(script, start)
    requires var log := History(c, start, script);
             && i1 < i2 < i3 < |log|
             && log[i1].event.TickRaised? && log[i2].event.TickRaised? && log[i3].event.TickRaised?
             && forall k :: i1 <= k <= i3 ==> !log[k].event.TickCompleted?
    ensures var log := History(c, start, script); i3 + 1 < |log| && log[i3 + 1] == Entry(log[i3].tick, Stopped(None))
  {
    HistoryAccepted(c, start, script);
    NothingLeftDue(c, start, script);
    hide End, Accepts, Fold, History;
    ThirdErrorIsStopped(c, History(c, start, script), i1, i2, i3);
  }

  lemma ThirdErrorIsStopped(c: Settings, log: Log, i1: nat, i2: nat, i3: nat)
    requires Accepts(c, log) && Fold(log).due.NothingDue? && i1 < i2 < i3 < |log|
    requires log[i1].event.TickRaised? && log[i2].event.TickRaised? && log[i3].event.TickRaised?
    requires forall k :: i1 <= k <= i3 ==> !log[k].event.TickCompleted?
    ensures i3 + 1 < |log| && log[i3 + 1] == Entry(log[i3].tick, Stopped(None))
  {
    hide Accepts, Fold;
    ThirdErrorStops(c, log, i1, i2, i3);
    Whole(log);
  }

  // ----- The recovery deadline -----

  /** No call of this tick unwinds the process on its own. */
  predicate NoneExits(env: TickEnv) {
    && !env.services.Exits? && !env.healthy.Exits? && !env.stop.Exits? && !env.authFailed.Exits?
    && !env.restart.Exits? && !env.running.Exits? && !env.start.Exits? && !env.fallbackStop.Exits?
    && !env.probes.control.Exits? && !env.probes.egress.Exits? && !env.probes.home.Exits? && !env.probes.host.Exits?
  }

  /** In an open outage a tick, whatever raises in it, exits exactly when it sees gluetun
      down, its scan answers, and the credentials were rejected or the budget is used up; and
      it exits with 78. When the scan raises the budget is not even looked at. */
  lemma BreakerTripsExactlyWhen(c: Settings, s: State, env: TickEnv)
    requires s.f.outageStartedAt.Some? && NoneExits(env)
    ensures var step := WatchOnce(c, s, env);
            && (step.status.Exits? <==>
                  SawItDown(env) && env.authFailed.Answer? &&
                  (env.authFailed.value || env.now - s.f.outageStartedAt.value >= c.budget as real))
            && (step.status.Exits? ==> step.status == Exits(LOCKED_OUT))
  {
    if SawItDown(env) {
      DownTickInOutage(c, s, env);
    } else if env.healthy == Answer(true) {
      HealthyTickNeverExits(c, s, env);
    }
    hide OutageContinues, Recover;
  }

  lemma TripExits(s: State, reason: Reason, env: TickEnv)
    ensures var step := TripCircuitBreaker(s, reason, env); step.status == Exits(LOCKED_OUT) && step.state.f == s.f
  {
    TripCompletes(s, reason, env);
    hide TripCircuitBreaker, Record.Add;
  }

  lemma FinishKeepsOutage(c: Settings, s: State, r: Reply<()>, now: real)
    ensures var step := Finish(c, s, r, now);
            step.state.f.outageStartedAt == s.f.outageStartedAt && (step.status.Exits? <==> r.Exits?)
  {
    hide Record.Add;
  }

  lemma ReselectNeverExits(c: Settings, s: State, env: TickEnv)
    requires s.f.outageStartedAt.Some? && !env.restart.Exits?
    ensures var step := Reselect(c, s, env);
            step.state.f.outageStartedAt == s.f.outageStartedAt && !step.status.Exits?
  {
    hide Record.Add, Settings.HasNarrowFilter;
  }

  lemma ContinuedOutage(c: Settings, s: State, env: TickEnv)
    requires s.f.outageStartedAt.Some? && NoneExits(env)
    ensures var step := OutageContinues(c, s, env);
            && (step.status.Exits? <==>
                  env.authFailed.Answer? &&
                  (env.authFailed.value || env.now - s.f.outageStartedAt.value >= c.budget as real))
            && (step.status.Exits? ==> step.status == Exits(LOCKED_OUT))
            && step.state.f.outageStartedAt == s.f.outageStartedAt
  {
    var s1 := ScanLog(s, env.wall, env.authFailed.IsFailure());
    assert s1.f.outageStartedAt == s.f.outageStartedAt;
    hide TripCircuitBreaker, Reselect, Finish, ScanLog, Record.Add;
    TripExits(s1, AuthRejected, env);
    TripExits(s1, BudgetExhausted, env);
    ReselectNeverExits(c, s1, env);
    var t := Reselect(c, s1, env);
    FinishKeepsOutage(c, t.state, t.status, env.later);
  }

  lemma DownTickInOutage(c: Settings, s: State, env: TickEnv)
    requires s.f.outageStartedAt.Some? && NoneExits(env) && SawItDown(env)
    ensures var step := WatchOnce(c, s, env);
            && (step.status.Exits? <==>
                  env.authFailed.Answer? &&
                  (env.authFailed.value || env.now - s.f.outageStartedAt.value >= c.budget as real))
            && (step.status.Exits? ==> step.status == Exits(LOCKED_OUT))
            && step.state.f.outageStartedAt == s.f.outageStartedAt
  {
    var checks := s.f.window.checks + 1;
    var s1 := Note(s.(f := s.f.(window := s.f.window.(checks := checks))), SawUnhealthy(env.now, env.wall));
    hide OutageContinues, Record.Add;
    ContinuedOutage(c, s1, env);
  }

  lemma HealthyTickNeverExits(c: Settings, s: State, env: TickEnv)
    requires s.f.outageStartedAt.Some? && NoneExits(env) && env.healthy == Answer(true)
    ensures !WatchOnce(c, s, env).status.Exits?
  {
    AssessmentNeverExits(c.egress, s.cache, true, env.now, env.probes);
    hide Assess, Record.Add;
  }

  lemma AssessmentNeverExits(c: Egress.Config, cache: Cache, force: bool, now: real, p: Probes)
    requires !p.control.Exits? && !p.egress.Exits? && !p.home.Exits? && !p.host.Exits?
    ensures !Assess(c, cache, force, now, p).reply.Exits?
  {
  }

  /** The failing family: a raising scan keeps the breaker from tripping, however far past
      the budget the outage is. */
  lemma RaisingScanBlocksBreaker(c: Settings, s: State, env: TickEnv)
    requires s.f.outageStartedAt.Some? && SawItDown(env) && env.authFailed.Raises?
    ensures var step := WatchOnce(c, s, env);
            step.status.Raises? && step.state.f.outageStartedAt == s.f.outageStartedAt
            && step.state.record.seen.trip == s.record.seen.trip
  {
  }

  /** The number of iterations the loop completes before it stops. */
  function Ticks(c: Settings, s: State, script: seq<TickEnv>): (k: nat)
    ensures k <= |script|
    decreases |script|
  {
    if script == [] then 0 else
      var step := LoopTick(c, s, script[0]);
      if step.status.IsFailure() then 0 else 1 + Ticks(c, step.state, script[1..])
  }

  /** Unhealthy, with an auth-log scan that answers; stops and restarts may raise. */
  predicate DownAndScanned(env: TickEnv) {
    SawItDown(env) && env.authFailed.Answer? && NoneExits(env)
  }

  predicate GapsUpTo(script: seq<TickEnv>, delta: real) {
    forall k :: 0 < k < |script| ==> script[k].now <= script[k - 1].now + delta
  }

  /** An iteration that does not exit goes on with the same outage. */
  lemma IterationKeepsOutage(c: Settings, s: State, env: TickEnv)
    requires s.f.outageStartedAt.Some? && DownAndScanned(env)
    ensures var step := LoopTick(c, s, env);
            if env.authFailed.value || env.now - s.f.outageStartedAt.value >= c.budget as real
            then step.status == Exits(LOCKED_OUT)
            else step.status == Done && step.state.f.outageStartedAt == s.f.outageStartedAt
  {
    hide WatchOnce;
    DownTickInOutage(c, s, env);
  }

  lemma OpenedOutage(c: Settings, s: State, services: seq<string>, env: TickEnv)
    requires env.authFailed.Answer? && !env.stop.Exits? && !env.restart.Exits?
    ensures var step := OutageBegins(c, s, services, env);
            && step.state.f.outageStartedAt == Some(env.now)
            && if env.stop.Answer? && env.authFailed.value then step.status == Exits(LOCKED_OUT) else !step.status.Exits?
  {
    var s2 := Note(Note(OpenOutage(s, env.now, env.wall), Stopped(Some(services))), Scanned(None, env.wall, false));
    var s3 := Note(s2, Restarted(false, env.now, env.restart.IsFailure()));
    hide TripCircuitBreaker, Finish, Record.Add;
    TripExits(s2, AuthRejected, env);
    FinishKeepsOutage(c, s3, env.restart, env.later);
  }

  lemma DownTickOpens(c: Settings, s: State, env: TickEnv)
    requires s.f.outageStartedAt.None? && DownAndScanned(env)
    ensures var step := WatchOnce(c, s, env);
            && step.state.f.outageStartedAt == Some(env.now)
            && if env.stop.Answer? && env.authFailed.value then step.status == Exits(LOCKED_OUT) else !step.status.Exits?
  {
    var checks := s.f.window.checks + 1;
    var s1 := Note(s.(f := s.f.(window := s.f.window.(checks := checks))), SawUnhealthy(env.now, env.wall));
    hide OutageBegins, Record.Add;
    OpenedOutage(c, s1, env.services.value, env);
  }

  /** The first unhealthy tick opens the outage at its own time, also when its stop or its
      restart raises, or exits because the credentials were rejected. */
  lemma IterationOpensOutage(c: Settings, s: State, env: TickEnv)
    requires s.f.outageStartedAt.None? && DownAndScanned(env)
    ensures var step := LoopTick(c, s, env);
            if env.stop.Answer? && env.authFailed.value then step.status == Exits(LOCKED_OUT)
            else step.status == Done && step.state.f.outageStartedAt == Some(env.now)
  {
    DownTickOpens(c, s, env);
    hide WatchOnce, Record.Add;
  }

  lemma {:induction false} OpenOutageEnds(c: Settings, s: State, script: seq<TickEnv>, delta: real)
    requires s.f.outageStartedAt.Some? && script != [] && GapsUpTo(script, delta)
    requires forall env <- script :: DownAndScanned(env)
    requires var t0 := s.f.outageStartedAt.value;
             script[0].now - t0 < c.budget as real + delta && script[|script| - 1].now - t0 >= c.budget as real
    ensures Run(c, s, script).status == Exits(LOCKED_OUT)
    ensures Ticks(c, s, script) < |script|
    ensures script[Ticks(c, s, script)].now - s.f.outageStartedAt.value < c.budget as real + delta
    decreases |script|
  {
    hide LoopTick, DownAndScanned;
    IterationKeepsOutage(c, s, script[0]);
    if LoopTick(c, s, script[0]).status.Answer? {
      var step := LoopTick(c, s, script[0]);
      var rest := script[1..];
      assert forall k :: 0 <= k < |rest| ==> rest[k] == script[k + 1];
      OpenOutageEnds(c, step.state, rest, delta);
    }
  }

  lemma {:induction false} RunAppend(c: Settings, s: State, before: seq<TickEnv>, script: seq<TickEnv>)
    requires Run(c, s, before).status.Answer?
    ensures Run(c, s, before + script) == Run(c, Run(c, s, before).state, script)
    ensures Ticks(c, s, before + script) == |before| + Ticks(c, Run(c, s, before).state, script)
    decreases |before|
  {
    hide LoopTick;
    if before == [] {
      assert before + script == script;
    } else {
      RunAppend(c, LoopTick(c, s, before[0]).state, before[1..], script);
      assert (before + script)[0] == before[0] && (before + script)[1..] == before[1..] + script;
    }
  }

  /** The recovery deadline, for any run: after a start and any history that leaves no outage
      open, let gluetun be seen down in every tick, with gaps of at most `delta`, until the
      budget has passed. If every auth-log scan answers, the run exits with 78 in a tick less
      than `delta` past the budget counted from the first of these ticks; stops and restarts
      may raise anywhere. */
  lemma OutageEndsByDeadline(c: Settings, start: real, before: seq<TickEnv>, script: seq<TickEnv>, delta: real)
    requires End(c, start, before).status.Answer? && End(c, start, before).state.f.outageStartedAt.None?
    requires |script| > 1 && GapsUpTo(script, delta) && delta >= 0.0
    requires forall env <- script :: DownAndScanned(env)
    requires script[|script| - 1].now - script[0].now >= c.budget as real
    ensures End(c, start, before + script).status == Exits(LOCKED_OUT)
    ensures var k := Ticks(c, Initial(start), before + script);
            && |before| <= k < |before + script|
            && (before + script)[k].now - script[0].now < c.budget as real + delta
  {
    var s := End(c, start, before).state;
    EndOfAppended(c, start, before, script, s);
    assert script[0] in script;
    var total := before + script;
    assert total[|before|..] == script;
    FirstIterationEnds(c, s, script, delta);
    hide *;
    assert total[|before| + Ticks(c, s, script)] == script[Ticks(c, s, script)];
  }

  lemma FirstIterationEnds(c: Settings, s: State, script: seq<TickEnv>, delta: real)
    requires s.f.outageStartedAt.None? && |script| > 1 && GapsUpTo(script, delta) && delta >= 0.0
    requires forall env <- script :: DownAndScanned(env)
    requires script[|script| - 1].now - script[0].now >= c.budget as real
    ensures Run(c, s, script).status == Exits(LOCKED_OUT)
    ensures Ticks(c, s, script) < |script|
    ensures script[Ticks(c, s, script)].now - script[0].now < c.budget as real + delta
  {
    hide LoopTick, DownAndScanned;
    IterationOpensOutage(c, s, script[0]);
    var step := LoopTick(c, s, script[0]);
    if step.status.Answer? {
      var rest := script[1..];
      assert forall k :: 0 <= k < |rest| ==> rest[k] == script[k + 1];
      OpenOutageEnds(c, step.state, rest, delta);
    }
  }

  lemma EndOfAppended(c: Settings, start: real, before: seq<TickEnv>, script: seq<TickEnv>, s: State)
    requires End(c, start, before).status.Answer? && s == End(c, start, before).state
    ensures End(c, start, before + script) == Run(c, s, script)
    ensures Ticks(c, Initial(start), before + script) == |before| + Ticks(c, s, script)
  {
    RunAppend(c, Initial(start), before, script);
  }
}

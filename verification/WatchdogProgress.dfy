/** What has to happen: exactly when a tick starts services and restarts gluetun, in one tick
    and along whole runs. */
module WatchdogProgress {
  import opened Breaker
  import opened Replies
  import opened Egress
  import opened Trace
  import opened Watchdog
  import opened WatchdogInvariant
  import opened WatchdogTick
  import opened WatchdogTheorems

  // ----- One tick -----

  /** A tick starts these services exactly when it lists them, sees gluetun healthy, judges the
      egress SAFE and finds them down; how the start goes is then how the tick goes. */
  lemma StartsExactlyWhen(c: Settings, s: State, env: TickEnv, services: seq<string>)
    ensures var step := WatchOnce(c, s, env);
            var verdict := Assess(c.egress, s.cache, s.f.outageStartedAt.Some?, env.now, env.probes).reply;
            var due := && env.services == Answer(services) && env.healthy == Answer(true)
                       && verdict == Answer(Safe) && env.running == Answer(false);
            && (Adds(s.record.log, step.state.record.log, Entry(s.tick, Started(services))) <==> due)
            && (due ==> step.status == Status(env.start))
  {
    TickExactly(c, s, env);
    TickAdds(c, s, env, Entry(s.tick, Started(services)));
    hide WatchOnce, TickLog, TickFields, Assess, Adds;
  }

  /** Whether gluetun is restarted now, relaxed exactly if the escalation is due or done. */
  predicate RestartsNow(c: Settings, f: Fields, now: real, relaxed: bool)
    requires f.outageStartedAt.Some?
  {
    var escalates := && c.HasNarrowFilter() && !f.escalationTriggered
                     && now - f.outageStartedAt.value >= c.budget as real / 2.0;
    (escalates || now - f.lastRestartAt >= c.cadence as real) && relaxed == (escalates || f.escalationTriggered)
  }

  /** In an open outage inside its budget, a tick that sees gluetun down and finds no rejection
      restarts gluetun exactly when the escalation is due or the cadence has passed. The
      escalation counts, for the pacing and for good, only when its restart goes through; a
      restart at the cadence counts for the pacing in any case. */
  lemma RestartsExactlyWhen(c: Settings, s: State, env: TickEnv, relaxed: bool, raised: bool)
    requires s.f.outageStartedAt.Some? && SawItDown(env) && env.authFailed == Answer(false)
    requires env.now - s.f.outageStartedAt.value < c.budget as real
    ensures var step := WatchOnce(c, s, env);
            var f := step.state.f;
            var restarts := RestartsNow(c, s.f, env.now, relaxed);
            && (Adds(s.record.log, step.state.record.log, Entry(s.tick, Restarted(relaxed, env.now, raised))) <==>
                  restarts && raised == env.restart.IsFailure())
            && (restarts && !raised && env.restart.Answer? ==>
                  f.lastRestartAt == env.now && f.escalationTriggered == relaxed && step.status == Done)
            && (restarts && env.restart.IsFailure() ==>
                  && step.status == Status(env.restart) && f.escalationTriggered == s.f.escalationTriggered
                  && f.lastRestartAt == if relaxed && !s.f.escalationTriggered then s.f.lastRestartAt else env.now)
            && (!restarts && !RestartsNow(c, s.f, env.now, !relaxed) ==>
                  && f.lastRestartAt == s.f.lastRestartAt && f.escalationTriggered == s.f.escalationTriggered
                  && step.status == Done)
  {
    TickExactly(c, s, env);
    TickAdds(c, s, env, Entry(s.tick, Restarted(relaxed, env.now, raised)));
    hide WatchOnce, TickLog, Assess, Adds, Settings.HasNarrowFilter, Counted;
  }

  /** A first unhealthy tick restarts gluetun exactly when its stop and its scan answer and no
      rejection is found. */
  lemma OpeningRestartsExactlyWhen(c: Settings, s: State, env: TickEnv)
    requires s.f.outageStartedAt.None? && SawItDown(env)
    ensures var step := WatchOnce(c, s, env);
            var x := Entry(s.tick, Restarted(false, env.now, env.restart.IsFailure()));
            && (Adds(s.record.log, step.state.record.log, x) <==>
                  env.stop.Answer? && env.authFailed == Answer(false))
            && step.state.f.lastRestartAt == env.now
  {
    TickExactly(c, s, env);
    TickAdds(c, s, env, Entry(s.tick, Restarted(false, env.now, env.restart.IsFailure())));
    hide WatchOnce, TickLog, Assess, Adds, Settings.HasNarrowFilter, Counted;
  }

  // ----- One iteration -----

  /** The tick raised, and is at least the third in a row to do so. */
  predicate FallbackIsDue(c: Settings, s: State, env: TickEnv) {
    TickStatus(c, s, env).Raises? && s.f.loopErrors + 1 >= 3
  }

  /** The loop goes on unless the tick exits, or the fallback stop does. */
  function IterationStatus(c: Settings, s: State, env: TickEnv): Reply<()> {
    if TickStatus(c, s, env).Exits? then TickStatus(c, s, env)
    else if FallbackIsDue(c, s, env) && env.fallbackStop.Exits? then Exits(env.fallbackStop.code)
    else Done
  }

  function IterationFields(c: Settings, s: State, env: TickEnv): Fields {
    var f := TickFields(c, s, env);
    var raises := Bit(TickStatus(c, s, env).Raises?);
    f.(loopErrors := if TickStatus(c, s, env).Answer? then 0 else f.loopErrors + raises,
       totals := f.totals.(errors := f.totals.errors + raises),
       window := f.window.(errors := f.window.errors + raises))
  }

  function IterationLog(c: Settings, s: State, env: TickEnv): seq<Entry> {
    var status, end := TickStatus(c, s, env), IterationStatus(c, s, env);
    var l1 := LogIf(TickLog(c, s, env), s.tick, status.Answer?, TickCompleted);
    var l2 := LogIf(l1, s.tick, status.Raises?, TickRaised);
    var l3 := LogIf(l2, s.tick, FallbackIsDue(c, s, env), Stopped(None));
    var l4 := LogIf(l3, s.tick, end.Exits?, Exited(if end.Exits? then end.code else 0));
    LogIf(l4, s.tick, !end.Exits?, Heartbeat)
  }

  lemma ErrorLeaves(s: State, env: TickEnv)
    ensures var step := AfterError(s, env);
            && step.status == (if s.f.loopErrors + 1 >= LOOP_ERROR_LIMIT && env.fallbackStop.Exits?
                               then Exits(env.fallbackStop.code) else Done)
            && step.state.f == s.f.(loopErrors := s.f.loopErrors + 1,
                                    totals := s.f.totals.(errors := s.f.totals.errors + 1),
                                    window := s.f.window.(errors := s.f.window.errors + 1))
            && step.state.tick == s.tick + Bit(step.status.Answer?)
  {
    hide Record.Add;
  }

  lemma FieldsOfIteration(c: Settings, s: State, env: TickEnv)
    ensures var step := LoopTick(c, s, env);
            && step.status == IterationStatus(c, s, env)
            && step.state.f == IterationFields(c, s, env)
            && step.state.tick == s.tick + Bit(step.status.Answer?)
  {
    TickExactly(c, s, env);
    assert TickFields(c, s, env).loopErrors == s.f.loopErrors;
    ErrorLeaves(WatchOnce(c, s, env).state, env);
    hide WatchOnce, AfterError, TickLog, TickStatus, TickFields, Record.Add;
  }

  lemma LogOfIteration(c: Settings, s: State, env: TickEnv)
    ensures LoopTick(c, s, env).state.record.log == IterationLog(c, s, env)
  {
    TickExactly(c, s, env);
    assert TickFields(c, s, env).loopErrors == s.f.loopErrors;
    hide WatchOnce, TickLog, TickStatus, TickFields, Observe;
  }

  /** One iteration of the loop, quantity by quantity. */
  lemma IterationExactly(c: Settings, s: State, env: TickEnv)
    ensures var step := LoopTick(c, s, env);
            && step.status == IterationStatus(c, s, env)
            && step.state.f == IterationFields(c, s, env)
            && step.state.tick == s.tick + Bit(step.status.Answer?)
            && step.state.record.log == IterationLog(c, s, env)
  {
    FieldsOfIteration(c, s, env);
    LogOfIteration(c, s, env);
    hide LoopTick, IterationStatus, IterationFields, IterationLog;
  }

  /** This event is one of the iteration's. */
  predicate Occurs(c: Settings, s: State, env: TickEnv, e: Event) {
    || Happens(c, s, env, e)
    || (e.TickCompleted? && TickStatus(c, s, env).Answer?)
    || (e.TickRaised? && TickStatus(c, s, env).Raises?)
    || (e == Stopped(None) && FallbackIsDue(c, s, env))
    || (e.Heartbeat? && IterationStatus(c, s, env).Answer?)
    || (e.Exited? && IterationStatus(c, s, env) == Exits(e.code))
  }

  lemma IterationAdds(c: Settings, s: State, env: TickEnv, x: Entry)
    ensures var after := LoopTick(c, s, env).state.record.log;
            && s.record.log <= after
            && (Adds(s.record.log, after, x) <==> x.tick == s.tick && Occurs(c, s, env, x.event))
  {
    IterationExactly(c, s, env);
    TickAdds(c, s, env, x);
    var log, t, status, end := s.record.log, s.tick, TickStatus(c, s, env), IterationStatus(c, s, env);
    assert !end.Raises?;
    hide LoopTick, TickLog, LogIf, Adds, Happens, TickStatus, IterationStatus, FallbackIsDue, IterationFields;
    var l0 := TickLog(c, s, env);
    var l1 := LogIf(l0, t, status.Answer?, TickCompleted);
    var l2 := LogIf(l1, t, status.Raises?, TickRaised);
    var l3 := LogIf(l2, t, FallbackIsDue(c, s, env), Stopped(None));
    var e4 := Exited(if end.Exits? then end.code else 0);
    var l4 := LogIf(l3, t, end.Exits?, e4);
    AddsIf(log, l0, t, status.Answer?, TickCompleted, x);
    AddsIf(log, l1, t, status.Raises?, TickRaised, x);
    AddsIf(log, l2, t, FallbackIsDue(c, s, env), Stopped(None), x);
    AddsIf(log, l3, t, end.Exits?, e4, x);
    AddsIf(log, l4, t, !end.Exits?, Heartbeat, x);
  }

  // ----- Whole runs -----

  lemma {:induction false} RunGrows(c: Settings, s: State, script: seq<TickEnv>)
    ensures s.record.log <= Run(c, s, script).state.record.log
    decreases |script|
  {
    hide LoopTick;
    if script != [] {
      IterationAdds(c, s, script[0], Entry(0, Heartbeat));
      hide Adds;
      if LoopTick(c, s, script[0]).status.Answer? {
        RunGrows(c, LoopTick(c, s, script[0]).state, script[1..]);
      }
    }
  }

  /** An entry added by a run was added by the iteration of its number, from the state that
      the ticks before it left. */
  lemma {:induction false} EntryOfTick(c: Settings, s: State, script: seq<TickEnv>, i: nat) returns (k: nat)
    requires |s.record.log| <= i < |Run(c, s, script).state.record.log|
    ensures k < |script| && Run(c, s, script[..k]).status.Answer?
    ensures var before := Run(c, s, script[..k]).state;
            var after := LoopTick(c, before, script[k]).state.record.log;
            && before.tick == s.tick + k
            && after <= Run(c, s, script).state.record.log && |before.record.log| <= i < |after|
            && Run(c, s, script).state.record.log[i].tick == s.tick + k
    decreases |script|
  {
    hide LoopTick;
    assert script != [];
    var step := LoopTick(c, s, script[0]);
    var log := Run(c, s, script).state.record.log;
    IterationExactly(c, s, script[0]);
    hide IterationLog, IterationFields, IterationStatus;
    if step.status.Answer? {
      RunGrows(c, step.state, script[1..]);
    }
    if i < |step.state.record.log| {
      k := 0;
      assert script[..0] == [];
      IterationAdds(c, s, script[0], log[i]);
      assert step.state.record.log[i] == log[i];
      assert step.state.record.log[|s.record.log|..][i - |s.record.log|] == log[i];
    } else {
      k := EntryOfTick(c, step.state, script[1..], i);
      k := k + 1;
      assert script[..k][0] == script[0] && script[..k][1..] == script[1..][..k - 1];
    }
  }

  lemma {:induction false} TickCount(c: Settings, s: State, script: seq<TickEnv>)
    requires Run(c, s, script).status.Answer?
    ensures Run(c, s, script).state.tick == s.tick + |script|
    decreases |script|
  {
    hide LoopTick;
    if script != [] {
      IterationExactly(c, s, script[0]);
      hide IterationLog, IterationFields, IterationStatus;
      TickCount(c, LoopTick(c, s, script[0]).state, script[1..]);
    }
  }

  lemma SplitRun(c: Settings, s: State, script: seq<TickEnv>, k: nat)
    requires k < |script| && Run(c, s, script[..k]).status.Answer?
    ensures LoopTick(c, Run(c, s, script[..k]).state, script[k]).state.record.log <= Run(c, s, script).state.record.log
  {
    RunAppend(c, s, script[..k], script[k..]);
    assert script[..k] + script[k..] == script;
    var before := Run(c, s, script[..k]).state;
    var step := LoopTick(c, before, script[k]);
    hide LoopTick;
    if step.status.Answer? {
      RunGrows(c, step.state, script[k + 1..]);
      assert script[k..][1..] == script[k + 1..];
    }
  }

  /** An entry of the history occurs in the tick of its number. */
  lemma HistoryOccurs(c: Settings, start: real, script: seq<TickEnv>, i: nat) returns (k: nat)
    requires i < |History(c, start, script)|
    ensures k < |script| && End(c, start, script[..k]).status.Answer?
    ensures var x := History(c, start, script)[i];
            x.tick == k && Occurs(c, End(c, start, script[..k]).state, script[k], x.event)
  {
    k := EntryOfTick(c, Initial(start), script, i);
    var before := Run(c, Initial(start), script[..k]).state;
    var after := LoopTick(c, before, script[k]).state.record.log;
    var x := History(c, start, script)[i];
    hide LoopTick, Occurs, Run;
    IterationAdds(c, before, script[k], x);
    assert after[|before.record.log|..][i - |before.record.log|] == x;
  }

  /** What occurs in a reached tick is in the history. */
  lemma OccurrencesLogged(c: Settings, start: real, script: seq<TickEnv>, k: nat, e: Event)
    requires k < |script| && End(c, start, script[..k]).status.Answer?
    requires Occurs(c, End(c, start, script[..k]).state, script[k], e)
    ensures Entry(k, e) in History(c, start, script)
  {
    var s := Initial(start);
    TickCount(c, s, script[..k]);
    hide LoopTick, Occurs, Run;
    IterationAdds(c, Run(c, s, script[..k]).state, script[k], Entry(k, e));
    SplitRun(c, s, script, k);
  }

  /** The history of a run, tick by tick: a reached tick has exactly the entries that occur in
      it, from the state the ticks before it left. */
  lemma HistoryExactly(c: Settings, start: real, script: seq<TickEnv>, k: nat, e: Event)
    requires k < |script| && End(c, start, script[..k]).status.Answer?
    ensures Entry(k, e) in History(c, start, script) <==> Occurs(c, End(c, start, script[..k]).state, script[k], e)
  {
    var log := History(c, start, script);
    hide Occurs, History, End;
    if Occurs(c, End(c, start, script[..k]).state, script[k], e) {
      OccurrencesLogged(c, start, script, k, e);
    }
    if i :| 0 <= i < |log| && log[i] == Entry(k, e) {
      var j := HistoryOccurs(c, start, script, i);
    }
  }

  /** In every run a tick judged SAFE starts the services it lists exactly when it finds them
      down, and a start that raises is the error of that tick. */
  lemma SafeTicksStartServices(c: Settings, start: real, script: seq<TickEnv>, i: nat)
    requires var log := History(c, start, script); i < |log| && log[i].event.Assessed? && log[i].event.verdict.Safe?
    ensures var log := History(c, start, script);
            var k := log[i].tick;
            && k < |script| && script[k].services.Answer?
            && (Entry(k, Started(script[k].services.value)) in log <==> script[k].running == Answer(false))
            && (script[k].running == Answer(false) && script[k].start.Raises? ==> Entry(k, TickRaised) in log)
            && (script[k].running == Answer(false) && script[k].start.Answer? ==> Entry(k, TickCompleted) in log)
  {
    var e := History(c, start, script)[i].event;
    var k := HistoryOccurs(c, start, script, i);
    var before := End(c, start, script[..k]).state;
    HistoryExactly(c, start, script, k, TickRaised);
    HistoryExactly(c, start, script, k, TickCompleted);
    SafeMeans(c, before, script[k], e.at);
    HistoryExactly(c, start, script, k, Started(script[k].services.value));
    hide End, History, Occurs, Assess;
  }

  lemma SafeMeans(c: Settings, s: State, env: TickEnv, at: real)
    requires Occurs(c, s, env, Assessed(at, Safe))
    ensures SawItUp(env) && env.services.Answer?
    ensures Occurs(c, s, env, Started(env.services.value)) <==> env.running == Answer(false)
    ensures env.running == Answer(false) && env.start.Raises? ==> Occurs(c, s, env, TickRaised)
    ensures env.running == Answer(false) && env.start.Answer? ==> Occurs(c, s, env, TickCompleted)
  {
    hide Assess;
  }

  // ----- The pace of restarts -----

  /** Gluetun is down, its log shows no rejection, and nothing raises. */
  predicate DownQuietly(env: TickEnv) {
    SawItDown(env) && env.stop.Answer? && env.authFailed == Answer(false) && env.restart.Answer?
  }

  /** Gluetun was restarted at this time. */
  ghost predicate RestartedAt(log: seq<Entry>, relaxed: bool, at: real) {
    exists tick: nat :: Entry(tick, Restarted(relaxed, at, false)) in log
  }

  /** A quiet tick of an open outage goes on with it. It restarts gluetun exactly when that is
      due, and then the last restart is now. */
  lemma QuietTick(c: Settings, s: State, env: TickEnv)
    requires s.f.outageStartedAt.Some? && DownQuietly(env) && env.now - s.f.outageStartedAt.value < c.budget as real
    ensures var step := LoopTick(c, s, env);
            var f := step.state.f;
            var due := EscalationIsDue(c, s, env) || CadencePassed(c, s, env);
            && step.status == Done && s.record.log <= step.state.record.log
            && f.outageStartedAt == s.f.outageStartedAt
            && f.lastRestartAt == (if due then env.now else s.f.lastRestartAt)
            && f.escalationTriggered == (s.f.escalationTriggered || EscalationIsDue(c, s, env))
            && (due ==> RestartedAt(step.state.record.log, f.escalationTriggered, env.now))
  {
    var x := Entry(s.tick, Restarted(Relaxed(c, s, env), env.now, false));
    IterationExactly(c, s, env);
    IterationAdds(c, s, env, x);
    hide LoopTick, IterationLog, Settings.HasNarrowFilter, Assess, Counted;
    assert RestartIsDue(c, s, env) ==> x in LoopTick(c, s, env).state.record.log;
  }

  /** A quiet tick that opens an outage restarts gluetun. */
  lemma QuietOpening(c: Settings, s: State, env: TickEnv)
    requires s.f.outageStartedAt.None? && DownQuietly(env)
    ensures var step := LoopTick(c, s, env);
            var f := step.state.f;
            && step.status == Done && s.record.log <= step.state.record.log
            && f.outageStartedAt == Some(env.now) && f.lastRestartAt == env.now
            && f.escalationTriggered == s.f.escalationTriggered
            && RestartedAt(step.state.record.log, false, env.now)
  {
    var x := Entry(s.tick, Restarted(false, env.now, false));
    IterationExactly(c, s, env);
    IterationAdds(c, s, env, x);
    hide LoopTick, IterationLog, Settings.HasNarrowFilter, Assess, Counted;
    assert x in LoopTick(c, s, env).state.record.log;
  }

  /** Some restart lies strictly before `x`, by less than this much. */
  ghost predicate RestartedWithin(log: seq<Entry>, length: real, x: real) {
    exists relaxed: bool, at: real :: RestartedAt(log, relaxed, at) && x - length < at < x
  }

  lemma WithinGrows(log: seq<Entry>, longer: seq<Entry>, relaxed: bool, at: real)
    requires log <= longer && RestartedAt(log, relaxed, at)
    ensures RestartedAt(longer, relaxed, at)
  {
    var tick: nat :| Entry(tick, Restarted(relaxed, at, false)) in log;
    assert Entry(tick, Restarted(relaxed, at, false)) in longer;
  }

  ghost predicate LastRestartLogged(s: State, at: real) {
    s.f.lastRestartAt == at && exists relaxed: bool :: RestartedAt(s.record.log, relaxed, at)
  }

  /** The ticks of a script follow each other by at most `delta`, the first one `prev`. */
  predicate Paced(script: seq<TickEnv>, prev: real, delta: real) {
    script == [] || (prev <= script[0].now <= prev + delta && Paced(script[1..], script[0].now, delta))
  }

  /** The time of the last tick, or `prev` if there is none. */
  function LastTime(script: seq<TickEnv>, prev: real): real {
    if script == [] then prev else LastTime(script[1..], script[0].now)
  }

  lemma {:induction false} LaterTicks(script: seq<TickEnv>, prev: real, delta: real)
    requires Paced(script, prev, delta)
    ensures prev <= LastTime(script, prev)
  {
    if script != [] {
      LaterTicks(script[1..], script[0].now, delta);
    }
  }

  lemma {:induction false} OpenOutagePaced(c: Settings, s: State, script: seq<TickEnv>, delta: real,
                                           prev: real, last: real, x: real)
    requires s.f.outageStartedAt.Some? && Paced(script, prev, delta) && forall env <- script :: DownQuietly(env)
    requires LastTime(script, prev) - s.f.outageStartedAt.value < c.budget as real
    requires LastRestartLogged(s, last) && last <= prev && prev - last < c.cadence as real
    requires prev < x <= LastTime(script, prev)
    ensures RestartedWithin(Run(c, s, script).state.record.log, c.cadence as real + delta, x)
    decreases |script|
  {
    hide LoopTick;
    RunGrows(c, s, script);
    if x <= script[0].now {
      var relaxed: bool :| RestartedAt(s.record.log, relaxed, last);
      WithinGrows(s.record.log, Run(c, s, script).state.record.log, relaxed, last);
    } else {
      var env := script[0];
      LaterTicks(script[1..], env.now, delta);
      QuietTick(c, s, env);
      var next := LoopTick(c, s, env).state;
      hide EscalationIsDue, RestartedAt;
      if next.f.lastRestartAt == last {
        var relaxed: bool :| RestartedAt(s.record.log, relaxed, last);
        WithinGrows(s.record.log, next.record.log, relaxed, last);
      }
      OpenOutagePaced(c, next, script[1..], delta, env.now, next.f.lastRestartAt, x);
    }
  }

  /** The pace of restarts, for any run: after a start and any history that leaves no outage
      open, let gluetun be down in every tick, with gaps of at most `delta` and nothing raising
      or rejected. As long as the budget lasts, every moment after the first of these ticks, and
      so every restart after the first, has one less than `cadence + delta` before it. */
  lemma RestartsKeepPace(c: Settings, start: real, before: seq<TickEnv>, script: seq<TickEnv>, delta: real, x: real)
    requires End(c, start, before).status.Answer? && End(c, start, before).state.f.outageStartedAt.None?
    requires script != [] && (forall env <- script :: DownQuietly(env)) && Paced(script, script[0].now, delta)
    requires LastTime(script, script[0].now) - script[0].now < c.budget as real
    requires script[0].now < x <= LastTime(script, script[0].now)
    ensures RestartedWithin(History(c, start, before + script), c.cadence as real + delta, x)
  {
    var s := End(c, start, before).state;
    var t0 := script[0].now;
    QuietOpening(c, s, script[0]);
    var next := LoopTick(c, s, script[0]).state;
    RunAppend(c, Initial(start), before, script);
    assert LastRestartLogged(next, t0);
    assert Run(c, s, script) == Run(c, next, script[1..]);
    hide LoopTick, Run, RestartedAt, LastRestartLogged, RestartedWithin, DownQuietly;
    OpenOutagePaced(c, next, script[1..], delta, t0, t0, x);
  }

  /** Gluetun was restarted relaxed in the first `delta` after half the budget. */
  ghost predicate RelaxedInTime(c: Settings, log: seq<Entry>, t0: real, delta: real) {
    exists at: real ::
      RestartedAt(log, true, at) && c.budget as real / 2.0 <= at - t0 < c.budget as real / 2.0 + delta
  }

  lemma {:induction false} OpenOutageEscalates(c: Settings, s: State, script: seq<TickEnv>, delta: real, prev: real)
    requires s.f.outageStartedAt.Some? && Paced(script, prev, delta) && forall env <- script :: DownQuietly(env)
    requires c.HasNarrowFilter() && !s.f.escalationTriggered
    requires var t0 := s.f.outageStartedAt.value;
             && prev - t0 < c.budget as real * ESCALATION_RATIO <= LastTime(script, prev) - t0
             && LastTime(script, prev) - t0 < c.budget as real
    ensures RelaxedInTime(c, Run(c, s, script).state.record.log, s.f.outageStartedAt.value, delta)
    decreases |script|
  {
    hide LoopTick, RestartedAt;
    var env := script[0];
    LaterTicks(script[1..], env.now, delta);
    QuietTick(c, s, env);
    var next := LoopTick(c, s, env).state;
    if EscalationIsDue(c, s, env) {
      RunGrows(c, next, script[1..]);
      WithinGrows(next.record.log, Run(c, s, script).state.record.log, true, env.now);
    } else {
      OpenOutageEscalates(c, next, script[1..], delta, env.now);
    }
  }

  /** The escalation, for any run: under a narrow filter such an outage has had a relaxed
      restart less than `delta` after half its budget. */
  lemma EscalatesInTime(c: Settings, start: real, before: seq<TickEnv>, script: seq<TickEnv>, delta: real)
    requires Monotone(before, start) && c.HasNarrowFilter()
    requires End(c, start, before).status.Answer? && End(c, start, before).state.f.outageStartedAt.None?
    requires script != [] && (forall env <- script :: DownQuietly(env)) && Paced(script, script[0].now, delta)
    requires var lasted := LastTime(script, script[0].now) - script[0].now;
             c.budget as real / 2.0 <= lasted < c.budget as real
    ensures RelaxedInTime(c, History(c, start, before + script), script[0].now, delta)
  {
    var s := End(c, start, before).state;
    OutageFieldsTogether(c, start, before);
    QuietOpening(c, s, script[0]);
    var next := LoopTick(c, s, script[0]).state;
    RunAppend(c, Initial(start), before, script);
    assert Run(c, s, script) == Run(c, next, script[1..]);
    hide LoopTick, Run, RestartedAt, RelaxedInTime, DownQuietly;
    OpenOutageEscalates(c, next, script[1..], delta, script[0].now);
  }
}

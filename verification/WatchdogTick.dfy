/** What one tick does, quantity by quantity: the events it logs, the fields it leaves and how
    it ends, each with the exact condition under which it happens. The tick itself is written
    branch by branch; the two forms are proved equal. */
module WatchdogTick {
  import opened Breaker
  import opened Replies
  import opened Egress
  import opened Trace
  import opened Watchdog

  // ----- What the tick meets -----

  predicate SawItUp(env: TickEnv) {
    env.services.Answer? && env.healthy == Answer(true)
  }

  /** Gluetun was seen unhealthy. */
  predicate SawItDown(env: TickEnv) {
    env.services.Answer? && env.healthy == Answer(false)
  }

  predicate Begins(s: State, env: TickEnv) {
    SawItDown(env) && s.f.outageStartedAt.None?
  }

  predicate Continues(s: State, env: TickEnv) {
    SawItDown(env) && s.f.outageStartedAt.Some?
  }

  /** The guard's assessment, forced while an outage is open. */
  function Judgement(c: Settings, s: State, env: TickEnv): Assessment {
    Assess(c.egress, s.cache, s.f.outageStartedAt.Some?, env.now, env.probes)
  }

  predicate Judges(c: Settings, s: State, env: TickEnv, verdict: Verdict) {
    SawItUp(env) && Judgement(c, s, env).reply == Answer(verdict)
  }

  // ----- What the tick has to do -----

  /** A verdict that counts as an IP failure: a leak, or the UNKNOWN that reaches the threshold. */
  predicate Fails(c: Settings, s: State, env: TickEnv) {
    Judges(c, s, env, Unsafe) || (Judges(c, s, env, Unknown) && s.f.unknowns + 1 >= c.threshold)
  }

  predicate Recovers(c: Settings, s: State, env: TickEnv) {
    Judges(c, s, env, Safe) && s.f.outageStartedAt.Some?
  }

  /** Services are down although the egress is SAFE. */
  predicate StartIsDue(c: Settings, s: State, env: TickEnv) {
    Judges(c, s, env, Safe) && env.running == Answer(false)
  }

  predicate StopIsDue(c: Settings, s: State, env: TickEnv) {
    Begins(s, env) || Fails(c, s, env)
  }

  /** The auth log is scanned on every unhealthy tick, the first one only after its stop. */
  predicate ScanIsDue(s: State, env: TickEnv) {
    Continues(s, env) || (Begins(s, env) && env.stop.Answer?)
  }

  predicate ScanFinds(s: State, env: TickEnv, rejected: bool) {
    ScanIsDue(s, env) && env.authFailed == Answer(rejected)
  }

  predicate BudgetSpent(c: Settings, s: State, env: TickEnv) {
    s.f.outageStartedAt.Some? && env.now - s.f.outageStartedAt.value >= c.budget as real
  }

  function TripIsDue(c: Settings, s: State, env: TickEnv): Option<Reason> {
    if ScanFinds(s, env, true) then Some(AuthRejected)
    else if ScanFinds(s, env, false) && BudgetSpent(c, s, env) then Some(BudgetExhausted)
    else None
  }

  /** A narrow filter has had half the budget, and no relaxed restart has gone through. */
  predicate EscalationIsDue(c: Settings, s: State, env: TickEnv) {
    && s.f.outageStartedAt.Some? && c.HasNarrowFilter() && !s.f.escalationTriggered
    && env.now - s.f.outageStartedAt.value >= c.budget as real * ESCALATION_RATIO
  }

  predicate CadencePassed(c: Settings, s: State, env: TickEnv) {
    env.now - s.f.lastRestartAt >= c.cadence as real
  }

  /** Gluetun is restarted on the first unhealthy tick, and on later ones inside the budget
      when the escalation is due or the cadence has passed. */
  predicate RestartIsDue(c: Settings, s: State, env: TickEnv) {
    ScanFinds(s, env, false) &&
    (Begins(s, env) || (!BudgetSpent(c, s, env) && (EscalationIsDue(c, s, env) || CadencePassed(c, s, env))))
  }

  predicate Relaxed(c: Settings, s: State, env: TickEnv) {
    Continues(s, env) && (EscalationIsDue(c, s, env) || s.f.escalationTriggered)
  }

  predicate SummaryIsDue(c: Settings, s: State, env: TickEnv) {
    TickStatus(c, s, env).Answer? &&
    (c.summaryInterval == 0 || env.later - s.f.window.startedAt >= c.summaryInterval as real)
  }

  // ----- The tick, quantity by quantity -----

  /** `next` is only reached when `first` answered. */
  function Then(first: Reply<()>, next: Reply<()>): Reply<()> {
    if first.IsFailure() then first else next
  }

  function When(due: bool, r: Reply<()>): Reply<()> {
    if due then r else Done
  }

  /** The first failure among the calls that were due, or the breaker's exit. */
  function TickStatus(c: Settings, s: State, env: TickEnv): Reply<()> {
    Then(Status(env.services), Then(Status(env.healthy),
      Then(When(SawItUp(env), Status(Judgement(c, s, env).reply)),
      Then(When(StopIsDue(c, s, env), Status(env.stop)),
      Then(When(ScanIsDue(s, env), Status(env.authFailed)),
      Then(When(TripIsDue(c, s, env).Some?, Exits(LOCKED_OUT)),
      Then(When(RestartIsDue(c, s, env), Status(env.restart)),
      Then(When(Judges(c, s, env, Safe), Status(env.running)),
           When(StartIsDue(c, s, env), Status(env.start))))))))))
  }

  function Bit(b: bool): nat {
    if b then 1 else 0
  }

  /** The open summary window with this tick counted. */
  function Counted(c: Settings, s: State, env: TickEnv): Window {
    var w := s.f.window;
    Window(w.startedAt, w.checks + 1, w.autoStarts + Bit(StartIsDue(c, s, env)), w.drops + Bit(Begins(s, env)),
           w.ipFailures + Bit(Fails(c, s, env)), w.errors)
  }

  function Cursor(s: State): Option<real> {
    if s.f.lastAuthCheckWall.Some? && s.f.lastAuthCheckWall.value != 0.0 then s.f.lastAuthCheckWall
    else s.f.outageStartWall
  }

  /** The address kept for the summaries: noted with every failure and every completed check. */
  function AddressNoted(c: Settings, s: State, env: TickEnv): Option<Addr> {
    var seen := Judgement(c, s, env).cache.lastObserved;
    var notes := Fails(c, s, env) || (Judges(c, s, env, Safe) && (Recovers(c, s, env) ==> TickStatus(c, s, env).Answer?));
    if notes && seen.Some? then seen else s.f.lastPublicIp
  }

  function TickFields(c: Settings, s: State, env: TickEnv): Fields {
    Fields(
      if Begins(s, env) then Some(env.now) else if Recovers(c, s, env) then None else s.f.outageStartedAt,
      if Begins(s, env) then Some(env.wall) else if Recovers(c, s, env) then None else s.f.outageStartWall,
      if SawItDown(env) then Some(env.wall) else if Recovers(c, s, env) then None else s.f.lastAuthCheckWall,
      if Begins(s, env) then env.now
      else if Recovers(c, s, env) then 0.0
      else if RestartIsDue(c, s, env) && (EscalationIsDue(c, s, env) ==> env.restart.Answer?) then env.now
      else s.f.lastRestartAt,
      !Recovers(c, s, env) &&
        (s.f.escalationTriggered || (RestartIsDue(c, s, env) && EscalationIsDue(c, s, env) && env.restart.Answer?)),
      if Judges(c, s, env, Unknown) then s.f.unknowns + 1
      else if Judges(c, s, env, Unsafe) || (Judges(c, s, env, Safe) && !Recovers(c, s, env)) then 0
      else s.f.unknowns,
      s.f.loopErrors,
      AddressNoted(c, s, env),
      Totals(s.f.totals.errors, s.f.totals.drops + Bit(Begins(s, env)), s.f.totals.ipFailures + Bit(Fails(c, s, env))),
      if SummaryIsDue(c, s, env) then Window(env.later, 0, 0, 0, 0, 0) else Counted(c, s, env))
  }

  function Services(env: TickEnv): seq<string> {
    if env.services.Answer? then env.services.value else []
  }

  /** The log with one more event of this tick, when it is due. */
  function LogIf(log: seq<Entry>, tick: nat, due: bool, e: Event): seq<Entry> {
    if due then log + [Entry(tick, e)] else log
  }

  function Observation(c: Settings, s: State, env: TickEnv): seq<Entry> {
    var a := Judgement(c, s, env);
    var up := SawItUp(env);
    var l1 := LogIf(s.record.log, s.tick, up, SawHealthy);
    var l2 := LogIf(l1, s.tick, SawItDown(env), SawUnhealthy(env.now, env.wall));
    var l3 := LogIf(l2, s.tick, up && a.probe != Idle,
                    Probed(env.now, if a.probe.Live? then Some(a.probe.verdict) else None));
    LogIf(l3, s.tick, up && a.reply.Answer?, Assessed(env.now, if a.reply.Answer? then a.reply.value else Unknown))
  }

  function OutageStart(s: State, env: TickEnv): real {
    if s.f.outageStartedAt.Some? then s.f.outageStartedAt.value else env.now
  }

  /** What it saw, then the stop and the scan that were due. */
  function StoppingLog(c: Settings, s: State, env: TickEnv): seq<Entry> {
    var l1 := LogIf(Observation(c, s, env), s.tick, StopIsDue(c, s, env), Stopped(Some(Services(env))));
    LogIf(l1, s.tick, ScanIsDue(s, env),
          Scanned(if Begins(s, env) then None else Cursor(s), env.wall, env.authFailed.IsFailure()))
  }

  /** Then the three parts of a trip. */
  function TrippingLog(c: Settings, s: State, env: TickEnv): seq<Entry> {
    var trip := TripIsDue(c, s, env);
    var l3 := LogIf(StoppingLog(c, s, env), s.tick, trip.Some?,
                    LockoutWrite(if trip.Some? then trip.value else AuthRejected, env.later - OutageStart(s, env)));
    var l4 := LogIf(l3, s.tick, trip.Some?, Stopped(None));
    LogIf(l4, s.tick, trip.Some?, GluetunStopped)
  }

  /** What the tick logs, in order: then the restart of gluetun, the start and the summary. */
  function TickLog(c: Settings, s: State, env: TickEnv): seq<Entry> {
    var l5 := TrippingLog(c, s, env);
    var l6 := LogIf(l5, s.tick, RestartIsDue(c, s, env),
                    Restarted(Relaxed(c, s, env), env.now, env.restart.IsFailure()));
    var l7 := LogIf(l6, s.tick, StartIsDue(c, s, env), Started(Services(env)));
    LogIf(l7, s.tick, SummaryIsDue(c, s, env), Summarised(Counted(c, s, env)))
  }

  // ----- The two forms agree -----

  /** The state in which a tick starts, its check counted. */
  function WithCheck(s: State): State {
    s.(f := s.f.(window := s.f.window.(checks := s.f.window.checks + 1)))
  }

  lemma FieldsOfBegins(c: Settings, s: State, env: TickEnv)
    requires Begins(s, env)
    ensures var step := WatchOnce(c, s, env);
            step.status == TickStatus(c, s, env) && step.state.f == TickFields(c, s, env)
            && step.state.cache == s.cache && step.state.tick == s.tick
  {
    var s1 := Note(WithCheck(s), SawUnhealthy(env.now, env.wall));
    var s2 := Note(Note(OpenOutage(s1, env.now, env.wall), Stopped(Some(env.services.value))),
                   Scanned(None, env.wall, env.authFailed.IsFailure()));
    TripLeaves(s2, AuthRejected, env);
    hide TripCircuitBreaker, Record.Add, Assess;
  }

  lemma TripLeaves(s: State, reason: Reason, env: TickEnv)
    ensures var step := TripCircuitBreaker(s, reason, env);
            && step.status == Exits(LOCKED_OUT)
            && step.state.f == s.f && step.state.cache == s.cache && step.state.tick == s.tick
  {
    TripCompletes(s, reason, env);
    hide TripCircuitBreaker, Record.Add;
  }

  lemma FieldsOfContinues(c: Settings, s: State, env: TickEnv)
    requires Continues(s, env)
    ensures var step := WatchOnce(c, s, env);
            step.status == TickStatus(c, s, env) && step.state.f == TickFields(c, s, env)
            && step.state.cache == s.cache && step.state.tick == s.tick
  {
    var s2 := AfterScan(s, env);
    TripLeaves(s2, AuthRejected, env);
    TripLeaves(s2, BudgetExhausted, env);
    ReselectLeaves(c, s2, env);
    hide TripCircuitBreaker, Reselect, Record.Add, Assess, Settings.HasNarrowFilter;
  }

  /** The state after the scan of a later unhealthy tick. */
  function AfterScan(s: State, env: TickEnv): State {
    var s1 := Note(WithCheck(s), SawUnhealthy(env.now, env.wall));
    ScanLog(s1, env.wall, env.authFailed.IsFailure())
  }

  lemma ReselectLeaves(c: Settings, s: State, env: TickEnv)
    requires s.f.outageStartedAt.Some?
    ensures var step := Reselect(c, s, env);
            var restarts := EscalationIsDue(c, s, env) || CadencePassed(c, s, env);
            && step.status == When(restarts, Status(env.restart))
            && step.state.cache == s.cache && step.state.tick == s.tick
            && step.state.f == s.f.(
                 lastRestartAt := if restarts && (EscalationIsDue(c, s, env) ==> env.restart.Answer?) then env.now
                                  else s.f.lastRestartAt,
                 escalationTriggered := s.f.escalationTriggered || (EscalationIsDue(c, s, env) && env.restart.Answer?))
  {
    hide Record.Add, Settings.HasNarrowFilter;
  }

  /** The state after the assessment of a healthy tick. */
  function AfterAssessment(c: Settings, s: State, env: TickEnv): State {
    var s1 := Note(WithCheck(s), SawHealthy);
    Verify(c, s1, s.f.outageStartedAt.Some?, env).0
  }

  lemma VerifyLeaves(c: Settings, s: State, env: TickEnv)
    ensures var t := AfterAssessment(c, s, env);
            && t.f == WithCheck(s).f
            && t.cache == Judgement(c, s, env).cache && t.tick == s.tick
    ensures SawItUp(env) ==>
            WatchOnce(c, s, env) ==
              var t := AfterAssessment(c, s, env);
              var r := Judgement(c, s, env).reply;
              if r.IsFailure() then Step(t, Status(r))
              else if r.value != Safe then HandleUnhealthy(c, t, r.value, env.services.value, env)
              else if s.f.outageStartedAt.Some? then
                var u := StartIfDown(c, Closed(t), env.services.value, env);
                if u.status.IsFailure() then u else Finish(c, Remember(u.state), Done, env.later)
              else
                var u := StartIfDown(c, Remember(t.(f := t.f.(unknowns := 0))), env.services.value, env);
                Finish(c, u.state, u.status, env.later)
  {
    hide Record.Add, Assess, HandleUnhealthy, StartIfDown, Finish, OutageBegins, OutageContinues;
  }

  lemma FieldsOfUnsafe(c: Settings, s: State, env: TickEnv)
    requires SawItUp(env) && !Judges(c, s, env, Safe)
    ensures var step := WatchOnce(c, s, env);
            step.status == TickStatus(c, s, env) && step.state.f == TickFields(c, s, env)
            && step.state.cache == Judgement(c, s, env).cache && step.state.tick == s.tick
  {
    VerifyLeaves(c, s, env);
    hide WatchOnce, AfterAssessment, Record.Add, Assess;
  }

  lemma FieldsOfSafe(c: Settings, s: State, env: TickEnv)
    requires Judges(c, s, env, Safe)
    ensures var step := WatchOnce(c, s, env);
            step.status == TickStatus(c, s, env) && step.state.f == TickFields(c, s, env)
            && step.state.cache == Judgement(c, s, env).cache && step.state.tick == s.tick
  {
    VerifyLeaves(c, s, env);
    hide WatchOnce, AfterAssessment, Record.Add, Assess;
  }

  /** The state after the stop of a first unhealthy tick. */
  function AfterStop(s: State, env: TickEnv): State {
    var s1 := Note(WithCheck(s), SawUnhealthy(env.now, env.wall));
    Note(OpenOutage(s1, env.now, env.wall), Stopped(Some(Services(env))))
  }

  lemma BeginsLeaves(c: Settings, s: State, env: TickEnv)
    requires Begins(s, env)
    ensures var s2 := AfterStop(s, env);
            var s3 := Note(s2, Scanned(None, env.wall, env.authFailed.IsFailure()));
            WatchOnce(c, s, env) ==
              if env.stop.IsFailure() then Step(s2, Status(env.stop))
              else if env.authFailed.IsFailure() then Step(s3, Status(env.authFailed))
              else if env.authFailed.value then TripCircuitBreaker(s3, AuthRejected, env)
              else Finish(c, Note(s3, Restarted(false, env.now, env.restart.IsFailure())), env.restart, env.later)
    ensures AfterStop(s, env).f.outageStartedAt == Some(env.now) && AfterStop(s, env).tick == s.tick
  {
    hide Record.Add, TripCircuitBreaker, Finish, Assess;
  }

  lemma StoppedLogs(c: Settings, s: State, env: TickEnv)
    requires Begins(s, env)
    ensures AfterStop(s, env).record.log == LogIf(Observation(c, s, env), s.tick, true, Stopped(Some(Services(env))))
  {
    hide Observe, Assess;
  }

  lemma LogOfBegins(c: Settings, s: State, env: TickEnv)
    requires Begins(s, env)
    ensures WatchOnce(c, s, env).state.record.log == TickLog(c, s, env)
  {
    FieldsOfBegins(c, s, env);
    BeginsLeaves(c, s, env);
    StoppedLogs(c, s, env);
    var s3 := Note(AfterStop(s, env), Scanned(None, env.wall, env.authFailed.IsFailure()));
    hide WatchOnce, TripCircuitBreaker, Observe, TickStatus, TickFields, AfterStop, Observation, Judgement;
    TripCompletes(s3, AuthRejected, env);
  }

  lemma ContinuesLeaves(c: Settings, s: State, env: TickEnv)
    requires Continues(s, env)
    ensures var t := AfterScan(s, env);
            && t.f.outageStartedAt == s.f.outageStartedAt && t.tick == s.tick
            && WatchOnce(c, s, env) ==
                 if env.authFailed.IsFailure() then Step(t, Status(env.authFailed))
                 else if TripIsDue(c, s, env).Some? then TripCircuitBreaker(t, TripIsDue(c, s, env).value, env)
                 else var u := Reselect(c, t, env); Finish(c, u.state, u.status, env.later)
  {
    hide Record.Add, TripCircuitBreaker, Reselect, Finish, Assess;
  }

  lemma ScannedLogs(c: Settings, s: State, env: TickEnv)
    requires Continues(s, env)
    ensures AfterScan(s, env).record.log ==
            LogIf(Observation(c, s, env), s.tick, true, Scanned(Cursor(s), env.wall, env.authFailed.IsFailure()))
  {
    hide Observe, Assess;
  }

  lemma ReselectLogs(c: Settings, s: State, env: TickEnv)
    requires s.f.outageStartedAt.Some?
    ensures var e := Restarted(EscalationIsDue(c, s, env) || s.f.escalationTriggered, env.now, env.restart.IsFailure());
            Reselect(c, s, env).state.record.log ==
            LogIf(s.record.log, s.tick, EscalationIsDue(c, s, env) || CadencePassed(c, s, env), e)
  {
    hide Observe;
  }

  lemma LogOfContinues(c: Settings, s: State, env: TickEnv)
    requires Continues(s, env)
    ensures WatchOnce(c, s, env).state.record.log == TickLog(c, s, env)
  {
    FieldsOfContinues(c, s, env);
    ContinuesLeaves(c, s, env);
    ScannedLogs(c, s, env);
    var t := AfterScan(s, env);
    ReselectLogs(c, t, env);
    ReselectLeaves(c, t, env);
    hide WatchOnce, TripCircuitBreaker, Observe, TickStatus, TickFields, Observation, Judgement, Reselect;
    if TripIsDue(c, s, env).Some? {
      TripCompletes(t, TripIsDue(c, s, env).value, env);
    }
  }

  lemma LogOfUnsafe(c: Settings, s: State, env: TickEnv)
    requires SawItUp(env) && !Judges(c, s, env, Safe)
    ensures WatchOnce(c, s, env).state.record.log == TickLog(c, s, env)
  {
    VerifyLeaves(c, s, env);
    VerifyLogs(c, s, env);
    FieldsOfUnsafe(c, s, env);
    hide WatchOnce, Assess, Observe, AfterAssessment, Observation, TickStatus, TickFields;
  }

  lemma LogOfSafe(c: Settings, s: State, env: TickEnv)
    requires Judges(c, s, env, Safe)
    ensures WatchOnce(c, s, env).state.record.log == TickLog(c, s, env)
  {
    VerifyLeaves(c, s, env);
    VerifyLogs(c, s, env);
    FieldsOfSafe(c, s, env);
    hide WatchOnce, Assess, Observe, AfterAssessment, Observation, TickStatus, TickFields;
  }

  lemma VerifyLogs(c: Settings, s: State, env: TickEnv)
    requires SawItUp(env)
    ensures AfterAssessment(c, s, env).record.log == Observation(c, s, env)
  {
    hide Assess, Observe;
  }

  /** One call of `watch_once` is this tick, whatever its replies and whatever state it finds. */
  lemma TickExactly(c: Settings, s: State, env: TickEnv)
    ensures var step := WatchOnce(c, s, env);
            && step.status == TickStatus(c, s, env)
            && step.state.f == TickFields(c, s, env)
            && step.state.cache == (if SawItUp(env) then Judgement(c, s, env).cache else s.cache)
            && step.state.tick == s.tick
            && step.state.record.log == TickLog(c, s, env)
  {
    if Begins(s, env) {
      FieldsOfBegins(c, s, env);
      LogOfBegins(c, s, env);
    } else if Continues(s, env) {
      FieldsOfContinues(c, s, env);
      LogOfContinues(c, s, env);
    } else if Judges(c, s, env, Safe) {
      FieldsOfSafe(c, s, env);
      LogOfSafe(c, s, env);
    } else if SawItUp(env) {
      FieldsOfUnsafe(c, s, env);
      LogOfUnsafe(c, s, env);
    } else {
      NothingSeen(c, s, env);
    }
    hide WatchOnce, TickStatus, TickFields, TickLog, Assess;
  }

  lemma NothingSeen(c: Settings, s: State, env: TickEnv)
    requires !SawItUp(env) && !SawItDown(env)
    ensures var step := WatchOnce(c, s, env);
            && step.status == TickStatus(c, s, env) && step.state.f == TickFields(c, s, env)
            && step.state.cache == s.cache && step.state.tick == s.tick && step.state.record.log == TickLog(c, s, env)
  {
    hide Assess, Observe;
  }

  // ----- Exactly when each event is logged -----

  /** This event is one of the tick's. */
  predicate Happens(c: Settings, s: State, env: TickEnv, e: Event) {
    var a := Judgement(c, s, env);
    match e
    case SawHealthy => SawItUp(env)
    case SawUnhealthy(at, wall) => SawItDown(env) && at == env.now && wall == env.wall
    case Probed(at, outcome) =>
      SawItUp(env) && at == env.now
      && ((a.probe.Live? && outcome == Some(a.probe.verdict)) || (a.probe.Broken? && outcome.None?))
    case Assessed(at, verdict) => Judges(c, s, env, verdict) && at == env.now
    case Started(services) => StartIsDue(c, s, env) && services == Services(env)
    case Stopped(only) =>
      if only.Some? then StopIsDue(c, s, env) && only.value == Services(env) else TripIsDue(c, s, env).Some?
    case Scanned(since, upTo, raised) =>
      ScanIsDue(s, env) && upTo == env.wall && raised == env.authFailed.IsFailure()
      && since == (if Begins(s, env) then None else Cursor(s))
    case Restarted(relaxed, at, raised) =>
      RestartIsDue(c, s, env) && relaxed == Relaxed(c, s, env) && at == env.now && raised == env.restart.IsFailure()
    case LockoutWrite(reason, duration) =>
      TripIsDue(c, s, env) == Some(reason) && duration == env.later - OutageStart(s, env)
    case GluetunStopped => TripIsDue(c, s, env).Some?
    case Summarised(window) => SummaryIsDue(c, s, env) && window == Counted(c, s, env)
    case _ => false
  }

  /** The log grew, and this entry is among the new ones. */
  predicate Adds(before: seq<Entry>, after: seq<Entry>, x: Entry) {
    before <= after && x in after[|before|..]
  }

  lemma AddsIf(before: seq<Entry>, log: seq<Entry>, tick: nat, due: bool, e: Event, x: Entry)
    requires before <= log
    ensures var after := LogIf(log, tick, due, e);
            before <= after && (Adds(before, after, x) <==> Adds(before, log, x) || (due && x == Entry(tick, e)))
  {
    var after := LogIf(log, tick, due, e);
    if due {
      assert after[|before|..] == log[|before|..] + [Entry(tick, e)];
    }
  }

  lemma ObservationAdds(c: Settings, s: State, env: TickEnv, x: Entry)
    ensures var e := x.event;
            var log := Observation(c, s, env);
            && s.record.log <= log
            && (Adds(s.record.log, log, x) <==>
                  && x.tick == s.tick && (e.SawHealthy? || e.SawUnhealthy? || e.Probed? || e.Assessed?)
                  && Happens(c, s, env, e))
  {
    var log, t, a, up := s.record.log, s.tick, Judgement(c, s, env), SawItUp(env);
    var e3 := Probed(env.now, if a.probe.Live? then Some(a.probe.verdict) else None);
    var e4 := Assessed(env.now, if a.reply.Answer? then a.reply.value else Unknown);
    var l1 := LogIf(log, t, up, SawHealthy);
    var l2 := LogIf(l1, t, SawItDown(env), SawUnhealthy(env.now, env.wall));
    var l3 := LogIf(l2, t, up && a.probe != Idle, e3);
    assert !Adds(log, log, x);
    hide LogIf, Adds, Judgement;
    AddsIf(log, log, t, up, SawHealthy, x);
    AddsIf(log, l1, t, SawItDown(env), SawUnhealthy(env.now, env.wall), x);
    AddsIf(log, l2, t, up && a.probe != Idle, e3, x);
    AddsIf(log, l3, t, up && a.reply.Answer?, e4, x);
  }

  lemma StoppingAdds(c: Settings, s: State, env: TickEnv, x: Entry)
    ensures var e := x.event;
            var log := StoppingLog(c, s, env);
            && s.record.log <= log
            && (Adds(s.record.log, log, x) <==>
                  && x.tick == s.tick && Happens(c, s, env, e)
                  && (e.SawHealthy? || e.SawUnhealthy? || e.Probed? || e.Assessed? || e.Scanned?
                      || (e.Stopped? && e.only.Some?)))
  {
    var log, t := s.record.log, s.tick;
    var e1 := Stopped(Some(Services(env)));
    var e2 := Scanned(if Begins(s, env) then None else Cursor(s), env.wall, env.authFailed.IsFailure());
    var l0 := Observation(c, s, env);
    var l1 := LogIf(l0, t, StopIsDue(c, s, env), e1);
    ObservationAdds(c, s, env, x);
    hide LogIf, Adds, Judgement, Observation, Services, Judges, Begins, StopIsDue, ScanIsDue, Cursor;
    AddsIf(log, l0, t, StopIsDue(c, s, env), e1, x);
    AddsIf(log, l1, t, ScanIsDue(s, env), e2, x);
  }

  lemma TrippingAdds(c: Settings, s: State, env: TickEnv, x: Entry)
    ensures var e := x.event;
            var log := TrippingLog(c, s, env);
            && s.record.log <= log
            && (Adds(s.record.log, log, x) <==>
                  x.tick == s.tick && Happens(c, s, env, e) && !e.Restarted? && !e.Started? && !e.Summarised?)
  {
    var log, t, trip := s.record.log, s.tick, TripIsDue(c, s, env);
    var e3 := LockoutWrite(if trip.Some? then trip.value else AuthRejected, env.later - OutageStart(s, env));
    var l2 := StoppingLog(c, s, env);
    var l3 := LogIf(l2, t, trip.Some?, e3);
    var l4 := LogIf(l3, t, trip.Some?, Stopped(None));
    StoppingAdds(c, s, env, x);
    hide LogIf, Adds, Judgement, StoppingLog, Services, Judges, Begins, StopIsDue, ScanIsDue, TripIsDue;
    hide OutageStart, Cursor;
    AddsIf(log, l2, t, trip.Some?, e3, x);
    AddsIf(log, l3, t, trip.Some?, Stopped(None), x);
    AddsIf(log, l4, t, trip.Some?, GluetunStopped, x);
  }

  /** A tick appends exactly the entries that happen in it, all under its own number. */
  lemma TickAdds(c: Settings, s: State, env: TickEnv, x: Entry)
    ensures s.record.log <= TickLog(c, s, env)
    ensures Adds(s.record.log, TickLog(c, s, env), x) <==> x.tick == s.tick && Happens(c, s, env, x.event)
  {
    var log, t := s.record.log, s.tick;
    var e6 := Restarted(Relaxed(c, s, env), env.now, env.restart.IsFailure());
    var l5 := TrippingLog(c, s, env);
    var l6 := LogIf(l5, t, RestartIsDue(c, s, env), e6);
    var l7 := LogIf(l6, t, StartIsDue(c, s, env), Started(Services(env)));
    TrippingAdds(c, s, env, x);
    hide LogIf, Adds, Judgement, TrippingLog, Services, Judges, Begins;
    hide StopIsDue, ScanIsDue, TripIsDue, RestartIsDue, StartIsDue, Relaxed, SummaryIsDue, Counted, Cursor;
    AddsIf(log, l5, t, RestartIsDue(c, s, env), e6, x);
    AddsIf(log, l6, t, StartIsDue(c, s, env), Started(Services(env)), x);
    AddsIf(log, l7, t, SummaryIsDue(c, s, env), Summarised(Counted(c, s, env)), x);
  }
}

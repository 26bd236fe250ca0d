/** The observable history of a watchdog, and a monitor that judges it.

    The monitor is written against the history alone: it never looks at the watchdog's
    fields. `Fold` rebuilds from the log what an observer knows, and `Permitted` says
    which next entry is allowed. */
module Trace {
  import opened Breaker
  import opened Replies
  import opened Egress

  const ESCALATION_RATIO := 0.5
  const LOOP_ERROR_LIMIT := 3

  datatype Settings = Settings(
    egress: Config,
    budget: Positive,
    cadence: Positive,
    threshold: Positive,
    summaryInterval: nat,
    cities: Option<string>,
    hostnames: Option<string>,
    regions: Option<string>,
    categories: Option<string>)
  {
    predicate HasNarrowFilter() {
      Truthy(cities) || Truthy(hostnames) || Truthy(regions) || Truthy(categories)
    }
  }

  datatype Window = Window(startedAt: real, checks: nat, autoStarts: nat, drops: nat, ipFailures: nat, errors: nat)

  /** Observations made and actions issued. An action is logged when it is issued,
      whether or not the call then raises; scans and restarts say which. */
  datatype Event =
    | SawHealthy
    | SawUnhealthy(at: real, wall: real)
    | Probed(at: real, outcome: Option<Verdict>)
    | Assessed(at: real, verdict: Verdict)
    | Started(services: seq<string>)
    | Stopped(only: Option<seq<string>>)
    | Scanned(since: Option<real>, upTo: real, raised: bool)
    | Restarted(relaxed: bool, at: real, raised: bool)
    | LockoutWrite(reason: Reason, duration: real)
    | GluetunStopped
    | Summarised(window: Window)
    | TickCompleted
    | TickRaised
    | Heartbeat
    | Exited(code: int)

  datatype Entry = Entry(tick: nat, event: Event)

  // ----- What an observer of the log knows -----

  datatype Proof = Proof(tick: nat, at: real)

  datatype Judged = Judged(tick: nat, at: real, verdict: Verdict)

  /** An open outage. `last` is the time of the last restart that counts for pacing. */
  datatype Outage = Outage(
    tick: nat, at: real, wall: real,
    latest: real, latestWall: real,
    cursor: real, last: real,
    restarts: nat, retries: nat,
    relaxed: bool, escalated: bool)

  datatype Totals = Totals(errors: nat, drops: nat, ipFailures: nat)

  datatype Trip = NoTrip | MarkerAttempted | ServicesStopped | TunnelStopped

  /** The stop that the very next entry has to be. */
  datatype Due = NothingDue | OpeningStop | FallbackStop

  datatype Seen = Seen(
    tick: int, healthyTick: int, badTick: int, stopTick: int, raisedTick: int,
    probe: Option<Proof>,
    judged: Option<Judged>,
    outage: Option<Outage>,
    unknowns: nat, run: nat,
    errorRun: nat,
    counted: Totals, summed: Totals,
    trip: Trip, dead: bool, due: Due)

  const Nothing := Seen(-1, -1, -1, -1, -1, None, None, None, 0, 0, 0, Totals(0, 0, 0), Totals(0, 0, 0), NoTrip, false, NothingDue)

  /** A relaxed restart is the escalation until one has gone through. */
  predicate Escalating(o: Outage, relaxed: bool) {
    relaxed && !o.escalated
  }

  function AfterRestart(o: Outage, relaxed: bool, at: real, raised: bool): Outage {
    if Escalating(o, relaxed) then
      if raised then o.(restarts := o.restarts + 1, retries := o.retries + 1, relaxed := true)
      else o.(restarts := o.restarts + 1, relaxed := true, escalated := true, last := at)
    else o.(restarts := o.restarts + 1, last := at)
  }

  function Observe(before: Seen, entry: Entry): Seen {
    var s := before.(tick := entry.tick, due := NothingDue);
    match entry.event
    case Started(_) => s
    case SawHealthy => s.(healthyTick := entry.tick)
    case SawUnhealthy(at, wall) =>
      if s.outage.None? then
        s.(badTick := entry.tick, due := OpeningStop,
           outage := Some(Outage(entry.tick, at, wall, at, wall, wall, at, 0, 0, false, false)),
           counted := s.counted.(drops := s.counted.drops + 1))
      else s.(badTick := entry.tick, outage := Some(s.outage.value.(latest := at, latestWall := wall)))
    case Probed(at, outcome) =>
      s.(probe := if outcome == Some(Safe) then Some(Proof(entry.tick, at)) else None)
    case Assessed(at, verdict) =>
      s.(judged := Some(Judged(entry.tick, at, verdict)),
         outage := if verdict.Safe? then None else s.outage,
         unknowns := match verdict
                     case Unknown => s.unknowns + 1
                     case Unsafe => 0
                     case Safe => if s.outage.Some? then s.unknowns else 0,
         run := if verdict.Unknown? then s.run + 1 else 0)
    case Stopped(only) =>
      s.(stopTick := entry.tick,
         counted := if only.Some? && s.judged.Some? && s.judged.value.tick == entry.tick
                    then s.counted.(ipFailures := s.counted.ipFailures + 1) else s.counted,
         trip := if s.trip.MarkerAttempted? then ServicesStopped else s.trip)
    case Scanned(_, upTo, _) =>
      if s.outage.None? then s else s.(outage := Some(s.outage.value.(cursor := upTo)))
    case Restarted(relaxed, at, raised) =>
      s.(badTick := entry.tick,
         outage := if s.outage.None? then None else Some(AfterRestart(s.outage.value, relaxed, at, raised)))
    case LockoutWrite(_, _) => s.(trip := MarkerAttempted)
    case GluetunStopped => s.(trip := TunnelStopped)
    case Summarised(w) =>
      s.(summed := Totals(s.summed.errors + w.errors, s.summed.drops + w.drops, s.summed.ipFailures + w.ipFailures))
    case TickCompleted => s.(errorRun := 0)
    case TickRaised =>
      s.(errorRun := s.errorRun + 1, raisedTick := entry.tick,
         due := if s.errorRun + 1 >= LOOP_ERROR_LIMIT then FallbackStop else NothingDue,
         counted := s.counted.(errors := s.counted.errors + 1))
    case Heartbeat => s
    case Exited(_) => s.(dead := true)
  }

  // ----- What the monitor allows next -----

  /** Services may start only in a tick that saw gluetun healthy and was judged SAFE on
      a live SAFE probe that is young enough, and newer (by tick) than every unhealthy
      observation and every gluetun restart. */
  predicate MayStart(c: Settings, s: Seen, tick: nat) {
    && s.healthyTick == tick
    && s.judged.Some? && s.judged.value.tick == tick && s.judged.value.verdict.Safe?
    && s.probe.Some?
    && s.judged.value.at - s.probe.value.at < c.egress.interval as real
    && s.badTick < s.probe.value.tick
  }

  /** Restarts stay inside the budget, never go back from relaxed to preferred, relax
      only a narrow filter in the second half of the budget, and keep the cadence except
      for the opening restart and the escalation. */
  predicate MayRestart(c: Settings, s: Seen, tick: nat, relaxed: bool, at: real) {
    && s.badTick == tick
    && s.outage.Some?
    && var o := s.outage.value;
    && o.last <= at
    && at - o.at < c.budget as real
    && (if relaxed then c.HasNarrowFilter() && at - o.at >= c.budget as real * ESCALATION_RATIO else !o.relaxed)
    && (Escalating(o, relaxed) || at - o.last >= c.cadence as real || (o.restarts == 0 && at == o.at))
  }

  /** Each scan resumes where the previous one ended, raised or not; the bounded tail is
      scanned in the opening tick only. */
  predicate MayScan(s: Seen, tick: nat, since: Option<real>, upTo: real) {
    && s.outage.Some?
    && var o := s.outage.value;
    && upTo == o.latestWall
    && (if since.None? then o.tick == tick && o.at == o.latest && o.wall == upTo
        else since.value == (if o.cursor != 0.0 then o.cursor else o.wall))
  }

  /** The last assessment is one that counts as an IP failure: a definitive leak, or an
      UNKNOWN at or above the threshold. */
  predicate Counts(c: Settings, s: Seen) {
    s.judged.Some? &&
    (s.judged.value.verdict.Unsafe? || (s.judged.value.verdict.Unknown? && s.unknowns >= c.threshold))
  }

  /** Such an assessment is followed by its stop, and by nothing else before it. */
  predicate Owes(c: Settings, s: Seen) {
    Counts(c, s) && s.stopTick < s.judged.value.tick
  }

  /** What a tick owes before its heartbeat or exit: a stop for a definitive leak, for
      the threshold of unknowns, and for the third error in a row. */
  predicate Obliged(c: Settings, s: Seen, tick: nat) {
    || (Counts(c, s) && s.judged.value.tick == tick)
    || (s.raisedTick == tick && s.errorRun >= LOOP_ERROR_LIMIT)
  }

  predicate Permitted(c: Settings, s: Seen, entry: Entry) {
    && !s.dead
    && s.tick <= entry.tick
    && (s.trip.MarkerAttempted? ==> entry.event == Stopped(None))
    && (s.trip.ServicesStopped? ==> entry.event.GluetunStopped?)
    && (s.trip.TunnelStopped? ==> entry.event == Exited(LOCKED_OUT))
    && (s.due.OpeningStop? ==> entry.tick == s.tick && entry.event.Stopped? && entry.event.only.Some?)
    && (s.due.FallbackStop? ==> entry.tick == s.tick && entry.event == Stopped(None))
    && (Owes(c, s) ==> entry.event.Stopped? && entry.event.only.Some? && entry.tick == s.judged.value.tick)
    && match entry.event
       case Assessed(_, _) =>
         && s.healthyTick == entry.tick && s.badTick < entry.tick && s.stopTick < entry.tick
         && (s.judged.Some? ==> s.judged.value.tick < entry.tick)
       case Stopped(only) =>
         only.Some? && s.judged.Some? && s.judged.value.tick == entry.tick ==> Owes(c, s)
       case Started(_) => MayStart(c, s, entry.tick)
       case Restarted(relaxed, at, _) => MayRestart(c, s, entry.tick, relaxed, at)
       case Scanned(since, upTo, _) => MayScan(s, entry.tick, since, upTo)
       case LockoutWrite(reason, duration) =>
         && s.badTick == entry.tick && s.outage.Some?
         && (reason.BudgetExhausted? ==> duration >= c.budget as real)
       case GluetunStopped => s.trip.ServicesStopped?
       case TickCompleted =>
         s.badTick == entry.tick ==>
           && s.outage.Some?
           && s.outage.value.latest - s.outage.value.at < c.budget as real
           && s.outage.value.cursor == s.outage.value.latestWall
       case Heartbeat => Obliged(c, s, entry.tick) ==> s.stopTick == entry.tick
       case Exited(_) => Obliged(c, s, entry.tick) ==> s.stopTick == entry.tick
       case _ => true
  }

  function Fold(log: seq<Entry>): Seen {
    if log == [] then Nothing else Observe(Fold(log[..|log| - 1]), log[|log| - 1])
  }

  /** Every entry of the log was permitted by what came before it. */
  predicate Accepts(c: Settings, log: seq<Entry>) {
    forall i :: 0 <= i < |log| ==> Permitted(c, Fold(log[..i]), log[i])
  }

  /** A log together with its running fold. */
  datatype Record = Record(log: seq<Entry>, seen: Seen) {

    predicate Sound(c: Settings) {
      seen == Fold(log) && Accepts(c, log)
    }

    function Add(entry: Entry): Record {
      Record(log + [entry], Observe(seen, entry))
    }
  }

  const EmptyRecord := Record([], Nothing)

  lemma AddKeepsSound(c: Settings, r: Record, entry: Entry)
    requires r.Sound(c) && Permitted(c, r.seen, entry)
    ensures r.Add(entry).Sound(c)
  {
    var log := r.log + [entry];
    assert log[..|log| - 1] == r.log;
    forall i | 0 <= i < |log| ensures Permitted(c, Fold(log[..i]), log[i]) {
      assert log[..i] == r.log[..i];
    }
  }
}

/** What an accepted log means, entry by entry, and the same for every watchdog run. */
module WatchdogSafety {
  import opened Breaker
  import opened Replies
  import opened Egress
  import opened Trace
  import opened Watchdog
  import opened WatchdogInvariant

  type Log = seq<Entry>

  predicate Bad(e: Event) {
    e.SawUnhealthy? || e.Restarted?
  }

  predicate SafeAt(e: Event) {
    e.Assessed? && e.verdict.Safe?
  }

  /** No SAFE assessment among the entries from `i` up to `n`: an outage open at `i` is
      still open at `n`. */
  predicate NoneSafe(log: Log, i: nat, n: nat)
    requires n <= |log|
  {
    forall k :: i <= k < n ==> !SafeAt(log[k].event)
  }

  /** Entry `i` is the unhealthy observation that opens an outage. */
  predicate Opens(log: Log, i: nat)
    requires i < |log|
  {
    log[i].event.SawUnhealthy? &&
    forall k :: 0 <= k < i && log[k].event.SawUnhealthy? ==> !NoneSafe(log, k, i)
  }

  lemma FoldStep(log: Log, n: nat)
    requires n < |log|
    ensures Fold(log[..n + 1]) == Observe(Fold(log[..n]), log[n])
  {
    assert log[..n + 1][..n] == log[..n];
  }

  lemma Whole(log: Log)
    ensures log[..|log|] == log
  {
  }

  // ----- Starts -----

  lemma {:induction false} ProbeOnRecord(log: Log) returns (j: nat)
    requires Fold(log).probe.Some?
    ensures j < |log| && log[j] == Entry(Fold(log).probe.value.tick, Probed(Fold(log).probe.value.at, Some(Safe)))
    ensures forall k :: j < k < |log| ==> !log[k].event.Probed?
  {
    if log[|log| - 1].event.Probed? {
      j := |log| - 1;
    } else {
      j := ProbeOnRecord(log[..|log| - 1]);
    }
  }

  lemma {:induction false} JudgementOnRecord(log: Log) returns (a: nat)
    requires Fold(log).judged.Some?
    ensures a < |log| && log[a].event.Assessed?
    ensures Fold(log).judged == Some(Judged(log[a].tick, log[a].event.at, log[a].event.verdict))
    ensures forall k :: a < k < |log| ==> !log[k].event.Assessed?
  {
    if log[|log| - 1].event.Assessed? {
      a := |log| - 1;
    } else {
      a := JudgementOnRecord(log[..|log| - 1]);
    }
  }

  lemma {:induction false} HealthOnRecord(log: Log) returns (h: nat)
    requires Fold(log).healthyTick >= 0
    ensures h < |log| && log[h] == Entry(log[h].tick, SawHealthy) && log[h].tick == Fold(log).healthyTick
  {
    if log[|log| - 1].event.SawHealthy? {
      h := |log| - 1;
    } else {
      h := HealthOnRecord(log[..|log| - 1]);
    }
  }

  lemma ObserveTick(c: Settings, s: Seen, entry: Entry)
    requires Permitted(c, s, entry)
    ensures s.tick <= entry.tick == Observe(s, entry).tick
    ensures Observe(s, entry).badTick == if Bad(entry.event) then entry.tick else s.badTick
  {
  }

  lemma FoldTicks(c: Settings, log: Log)
    requires Accepts(c, log) && log != []
    ensures var s, last := Fold(log[..|log| - 1]), log[|log| - 1];
            && s.tick <= last.tick == Fold(log).tick
            && Fold(log).badTick == if Bad(last.event) then last.tick else s.badTick
  {
    var n := |log| - 1;
    assert Permitted(c, Fold(log[..n]), log[n]);
    ObserveTick(c, Fold(log[..n]), log[n]);
  }

  /** Ticks never go back, and the fold's tick fields bound the entries they stand for. */
  lemma {:induction false} TicksBound(c: Settings, log: Log, k: nat)
    requires Accepts(c, log) && k < |log|
    ensures log[k].tick <= Fold(log).tick && Fold(log).badTick <= Fold(log).tick
    ensures Bad(log[k].event) ==> log[k].tick <= Fold(log).badTick
    decreases |log|
  {
    hide Accepts, Fold, Bad;
    var n := |log| - 1;
    AcceptsPrefix(c, log, n);
    FoldTicks(c, log);
    if n == 0 {
      EmptyFold(log[..n]);
    } else {
      assert log[..n][if k < n then k else 0] == log[if k < n then k else 0];
      TicksBound(c, log[..n], if k < n then k else 0);
    }
  }

  lemma EmptyFold(log: Log)
    requires log == []
    ensures Fold(log).badTick == Fold(log).tick == -1
  {
  }

  lemma AcceptsPrefix(c: Settings, log: Log, n: nat)
    requires n <= |log| && Accepts(c, log)
    ensures Accepts(c, log[..n])
  {
    forall i | 0 <= i < n ensures Permitted(c, Fold(log[..n][..i]), log[..n][i]) {
      assert log[..n][..i] == log[..i];
    }
  }

  /** The start at `i` rests on the live SAFE probe at `j` through the assessment at `a`. */
  predicate RestsOn(c: Settings, log: Log, i: nat, h: nat, j: nat, a: nat)
    requires i < |log|
  {
    && h < i && log[h] == Entry(log[i].tick, SawHealthy)
    && a < i && log[a].tick == log[i].tick && SafeAt(log[a].event)
    && j < i && log[j].event.Probed? && log[j].event.outcome == Some(Safe)
    && log[a].event.at - log[j].event.at < c.egress.interval as real
    && (forall k :: j < k < i ==> !log[k].event.Probed?)
    && (forall k :: 0 <= k < i && Bad(log[k].event) ==> log[k].tick < log[j].tick)
    && (forall k :: a < k < i ==> !log[k].event.Assessed?)
  }

  lemma StartPermitted(c: Settings, log: Log, i: nat)
    requires Accepts(c, log) && i < |log| && log[i].event.Started?
    ensures var s := Fold(log[..i]);
            && s.healthyTick == log[i].tick && s.judged.Some? && s.probe.Some?
            && s.judged.value.tick == log[i].tick && s.judged.value.verdict.Safe?
            && s.judged.value.at - s.probe.value.at < c.egress.interval as real
            && s.badTick < s.probe.value.tick
  {
    assert Permitted(c, Fold(log[..i]), log[i]);
  }

  /** What was found before the start, read as positions of the whole log. */
  lemma RestsFrom(c: Settings, log: Log, past: Log, i: nat, h: nat, j: nat, a: nat)
    requires i < |log| && past == log[..i] && h < i && j < i && a < i
    requires past[h] == Entry(log[i].tick, SawHealthy)
    requires past[a].tick == log[i].tick && SafeAt(past[a].event)
    requires past[j].event.Probed? && past[j].event.outcome == Some(Safe)
    requires past[a].event.at - past[j].event.at < c.egress.interval as real
    requires forall k :: j < k < i ==> !past[k].event.Probed?
    requires forall k :: a < k < i ==> !past[k].event.Assessed?
    requires forall k :: 0 <= k < i && Bad(past[k].event) ==> past[k].tick < past[j].tick
    ensures RestsOn(c, log, i, h, j, a)
  {
    assert forall k :: 0 <= k < i ==> past[k] == log[k];
    hide SafeAt, Bad;
  }

  lemma StartRests(c: Settings, log: Log, i: nat) returns (h: nat, j: nat, a: nat)
    requires Accepts(c, log) && i < |log| && log[i].event.Started?
    ensures RestsOn(c, log, i, h, j, a)
  {
    hide *;
    var past := log[..i];
    StartPermitted(c, log, i);
    AcceptsPrefix(c, log, i);
    h := HealthOnRecord(past);
    j := ProbeOnRecord(past);
    a := JudgementOnRecord(past);
    forall k | 0 <= k < i && Bad(past[k].event) ensures past[k].tick < past[j].tick {
      TicksBound(c, past, k);
    }
    SafeIs(past[a].event);
    RestsFrom(c, log, past, i, h, j, a);
  }

  lemma SafeIs(e: Event)
    ensures SafeAt(e) <==> e.Assessed? && e.verdict.Safe?
  {
  }

  // ----- Outages -----

  /** The fold has an outage exactly when some unhealthy observation has not been
      followed by a SAFE assessment. */
  lemma {:induction false} OutageIffOpen(log: Log)
    ensures Fold(log).outage.Some? <==>
            exists k :: 0 <= k < |log| && log[k].event.SawUnhealthy? && NoneSafe(log, k, |log|)
  {
    if log != [] {
      var n := |log| - 1;
      var past := log[..n];
      OutageIffOpen(past);
      assert forall k :: 0 <= k < n ==> past[k] == log[k];
      if Fold(log).outage.Some? {
        if Fold(past).outage.Some? {
          var k :| 0 <= k < n && past[k].event.SawUnhealthy? && NoneSafe(past, k, n);
          assert NoneSafe(log, k, |log|);
        } else {
          assert NoneSafe(log, n, |log|);
        }
      } else {
        forall k | 0 <= k < |log| && log[k].event.SawUnhealthy? ensures !NoneSafe(log, k, |log|) {
          if k < n && NoneSafe(log, k, |log|) {
            assert NoneSafe(past, k, n);
          }
        }
      }
    }
  }

  lemma OpensFromNone(log: Log, i: nat)
    requires i < |log| && Opens(log, i)
    ensures Fold(log[..i]).outage.None?
  {
    OutageIffOpen(log[..i]);
    forall k | 0 <= k < i && log[k].event.SawUnhealthy? ensures !NoneSafe(log[..i], k, i) {
      assert !NoneSafe(log, k, i);
    }
  }

  function Restarts(log: Log, i: nat, n: nat): nat
    requires i <= n <= |log|
  {
    if n == i then 0 else Restarts(log, i, n - 1) + if log[n - 1].event.Restarted? then 1 else 0
  }

  predicate RelaxedRestart(e: Event) {
    e.Restarted? && e.relaxed
  }

  /** A relaxed restart has gone through since entry `i`. */
  predicate Escalated(log: Log, i: nat, n: nat)
    requires i <= n <= |log|
  {
    exists k :: i <= k < n && RelaxedRestart(log[k].event) && !log[k].event.raised
  }

  predicate Relaxed(log: Log, i: nat, n: nat)
    requires i <= n <= |log|
  {
    exists k :: i <= k < n && RelaxedRestart(log[k].event)
  }

  /** Escalation calls that raised: relaxed restarts before any has gone through. */
  function FailedEscalations(log: Log, i: nat, n: nat): nat
    requires i <= n <= |log|
  {
    if n == i then 0 else
      FailedEscalations(log, i, n - 1) +
      if RelaxedRestart(log[n - 1].event) && log[n - 1].event.raised && !Escalated(log, i, n - 1) then 1 else 0
  }

  /** The first restart, and the one escalation that goes through, are free of the cadence. */
  predicate Paced(c: Settings, o: Outage) {
    (o.restarts - o.retries - (if o.escalated then 2 else 1)) as real * c.cadence as real <= o.last - o.at
  }

  lemma AddOne(n: int, cadence: real)
    ensures (n + 1) as real * cadence == n as real * cadence + cadence
  {
  }

  lemma RestartKeepsPace(c: Settings, o: Outage, relaxed: bool, at: real, raised: bool)
    requires Paced(c, o) && o.at <= o.last <= at
    requires Escalating(o, relaxed) || at - o.last >= c.cadence as real || (o.restarts == 0 && at == o.at)
    ensures Paced(c, AfterRestart(o, relaxed, at, raised))
  {
    var n := o.restarts - o.retries - if o.escalated then 2 else 1;
    AddOne(n, c.cadence as real);
    if o.restarts == 0 && at == o.at {
      assert (n + 1) as real * c.cadence as real <= 0.0;
    }
  }

  /** What the fold holds about the outage opened at `i`, as long as it is open. */
  predicate Describes(c: Settings, o: Outage, log: Log, i: nat, n: nat)
    requires i < n <= |log| && log[i].event.SawUnhealthy?
  {
    && o.tick == log[i].tick && o.at == log[i].event.at && o.wall == log[i].event.wall
    && o.restarts == Restarts(log, i, n)
    && o.retries == FailedEscalations(log, i, n)
    && o.escalated == Escalated(log, i, n)
    && o.relaxed == Relaxed(log, i, n)
    && o.at <= o.last && o.last - o.at < c.budget as real
    && Paced(c, o)
  }

  /** How one entry changes the outage the fold holds. */
  lemma OutageStep(s: Seen, entry: Entry)
    ensures var e := entry.event;
            var after := Observe(s, entry).outage;
            && (s.outage.None? && e.SawUnhealthy? ==>
                  after == Some(Outage(entry.tick, e.at, e.wall, e.at, e.wall, e.wall, e.at, 0, 0, false, false)))
            && (s.outage.Some? && e.Restarted? ==>
                  after == Some(AfterRestart(s.outage.value, e.relaxed, e.at, e.raised)))
            && (s.outage.Some? && !e.Restarted? && !SafeAt(e) ==>
                  && after.Some?
                  && var o, p := s.outage.value, after.value;
                  p == o.(latest := p.latest, latestWall := p.latestWall, cursor := p.cursor))
            && (s.outage.Some? && !SafeAt(e) ==>
                  after.value.cursor == if e.Scanned? then e.upTo else s.outage.value.cursor)
            && (s.outage.Some? && !SafeAt(e) ==>
                  after.value.latest == (if e.SawUnhealthy? then e.at else s.outage.value.latest) &&
                  after.value.latestWall == if e.SawUnhealthy? then e.wall else s.outage.value.latestWall)
  {
  }

  lemma {:induction false} OutageDescribed(c: Settings, log: Log, i: nat, n: nat)
    requires Accepts(c, log) && i < n <= |log| && Opens(log, i) && NoneSafe(log, i, n)
    ensures Fold(log[..n]).outage.Some? && Describes(c, Fold(log[..n]).outage.value, log, i, n)
    decreases n
  {
    assert log[i].event.SawUnhealthy?;
    hide Accepts, Opens, Observe, Fold, Paced, Restarts, FailedEscalations, Escalated, Relaxed;
    FoldStep(log, n - 1);
    OutageStep(Fold(log[..n - 1]), log[n - 1]);
    if n == i + 1 {
      OpensFromNone(log, i);
      DescribeFresh(c, Fold(log[..n]).outage.value, log, i);
    } else {
      OutageDescribed(c, log, i, n - 1);
      var o := Fold(log[..n - 1]).outage.value;
      var e := log[n - 1].event;
      if e.Restarted? {
        RestartPermitted(c, log, n - 1);
        RestartKeepsPace(c, o, e.relaxed, e.at, e.raised);
        DescribeRestart(c, o, log, i, n);
      } else {
        DescribeOther(c, o, Fold(log[..n]).outage.value, log, i, n);
      }
    }
  }

  lemma DescribeFresh(c: Settings, o: Outage, log: Log, i: nat)
    requires i < |log| && log[i].event.SawUnhealthy?
    requires var e := log[i].event; o == Outage(log[i].tick, e.at, e.wall, e.at, e.wall, e.wall, e.at, 0, 0, false, false)
    ensures Describes(c, o, log, i, i + 1)
  {
  }

  lemma RestartPermitted(c: Settings, log: Log, n: nat)
    requires Accepts(c, log) && n < |log| && log[n].event.Restarted?
    ensures MayRestart(c, Fold(log[..n]), log[n].tick, log[n].event.relaxed, log[n].event.at)
  {
    assert Permitted(c, Fold(log[..n]), log[n]);
  }

  lemma DescribeOther(c: Settings, o: Outage, p: Outage, log: Log, i: nat, n: nat)
    requires i < n - 1 && n <= |log| && log[i].event.SawUnhealthy? && !log[n - 1].event.Restarted?
    requires Describes(c, o, log, i, n - 1)
    requires p == o.(latest := p.latest, latestWall := p.latestWall, cursor := p.cursor)
    ensures Describes(c, p, log, i, n)
  {
  }

  lemma DescribeRestart(c: Settings, o: Outage, log: Log, i: nat, n: nat)
    requires i < n - 1 && n <= |log| && log[i].event.SawUnhealthy? && log[n - 1].event.Restarted?
    requires Describes(c, o, log, i, n - 1)
    requires o.last <= log[n - 1].event.at && log[n - 1].event.at - o.at < c.budget as real
    requires Paced(c, AfterRestart(o, log[n - 1].event.relaxed, log[n - 1].event.at, log[n - 1].event.raised))
    ensures var e := log[n - 1].event; Describes(c, AfterRestart(o, e.relaxed, e.at, e.raised), log, i, n)
  {
  }

  /** Restart budget. In an outage open from entry `i` up to `n`, with `r` restarts issued
      of which `f` are escalation calls that raised: (r - f - 2) cadences fit strictly in
      the budget, and (r - 1) do when nothing was relaxed. */
  lemma RestartBudget(c: Settings, log: Log, i: nat, n: nat)
    requires Accepts(c, log) && i < n <= |log| && Opens(log, i) && NoneSafe(log, i, n)
    ensures (Restarts(log, i, n) - FailedEscalations(log, i, n) - 2) as real * c.cadence as real < c.budget as real
    ensures !Relaxed(log, i, n) ==> (Restarts(log, i, n) - 1) as real * c.cadence as real < c.budget as real
  {
    hide Accepts, Opens, Fold, Restarts, FailedEscalations, Relaxed, Escalated;
    OutageDescribed(c, log, i, n);
    var o := Fold(log[..n]).outage.value;
    AddOne(o.restarts - o.retries - 2, c.cadence as real);
    if !Relaxed(log, i, n) {
      NoFailures(log, i, n);
    }
  }

  lemma {:induction false} NoFailures(log: Log, i: nat, n: nat)
    requires i <= n <= |log| && !Relaxed(log, i, n)
    ensures FailedEscalations(log, i, n) == 0 && !Escalated(log, i, n)
    decreases n
  {
    if n > i {
      assert forall k :: i <= k < n - 1 && RelaxedRestart(log[k].event) ==> Relaxed(log, i, n);
      NoFailures(log, i, n - 1);
    }
  }

  /** Restart kinds of one outage: each restart is inside the budget; a relaxed one needs
      a narrow filter and half the budget, and is never followed by a preferred one. */
  lemma RestartKinds(c: Settings, log: Log, i: nat, j: nat)
    requires Accepts(c, log) && i < j < |log| && Opens(log, i) && NoneSafe(log, i, j) && log[j].event.Restarted?
    ensures log[j].event.at - log[i].event.at < c.budget as real
    ensures log[j].event.relaxed ==>
              c.HasNarrowFilter() && log[j].event.at - log[i].event.at >= c.budget as real * ESCALATION_RATIO
    ensures forall k :: i <= k < j && RelaxedRestart(log[k].event) ==> log[j].event.relaxed
  {
    OutageDescribed(c, log, i, j);
    RestartPermitted(c, log, j);
  }

  /** The last unhealthy observation before `n` is entry `j`. */
  predicate LastUnhealthy(log: Log, j: nat, n: nat)
    requires n <= |log|
  {
    j < n && log[j].event.SawUnhealthy? && forall k :: j < k < n ==> !log[k].event.SawUnhealthy?
  }

  lemma {:induction false} LatestOnRecord(log: Log, i: nat, j: nat, n: nat)
    requires i <= j < n <= |log| && Opens(log, i) && NoneSafe(log, i, n) && LastUnhealthy(log, j, n)
    ensures var o := Fold(log[..n]).outage;
            o.Some? && o.value.at == log[i].event.at && o.value.wall == log[i].event.wall
            && o.value.latest == log[j].event.at && o.value.latestWall == log[j].event.wall
    decreases n
  {
    assert log[i].event.SawUnhealthy?;
    hide Observe, Fold, Opens;
    FoldStep(log, n - 1);
    OutageStep(Fold(log[..n - 1]), log[n - 1]);
    if n - 1 == i {
      OpensFromNone(log, i);
    } else if n - 1 == j {
      var p := PreviousUnhealthy(log, i, j);
      LatestOnRecord(log, i, p, n - 1);
    } else {
      LatestOnRecord(log, i, j, n - 1);
    }
  }

  lemma {:induction false} PreviousUnhealthy(log: Log, i: nat, n: nat) returns (p: nat)
    requires i < n <= |log| && log[i].event.SawUnhealthy?
    ensures i <= p && LastUnhealthy(log, p, n)
    decreases n
  {
    if log[n - 1].event.SawUnhealthy? {
      p := n - 1;
    } else {
      p := PreviousUnhealthy(log, i, n - 1);
    }
  }

  lemma {:induction false} BadTickIs(log: Log, j: nat, n: nat)
    requires n <= |log| && LastUnhealthy(log, j, n)
    requires forall k :: j < k < n ==> log[k].tick == log[j].tick
    ensures Fold(log[..n]).badTick == log[j].tick
    decreases n
  {
    FoldStep(log, n - 1);
    if j < n - 1 {
      BadTickIs(log, j, n - 1);
    }
  }

  /** A tick that saw gluetun unhealthy and still completed is inside the budget: at
      `elapsed >= budget` the tick exits, or raises before it gets there. */
  lemma CompletedWithinBudget(c: Settings, log: Log, i: nat, j: nat, n: nat)
    requires Accepts(c, log) && i <= j < n < |log| && Opens(log, i) && NoneSafe(log, i, n) && LastUnhealthy(log, j, n)
    requires log[n].event.TickCompleted? && forall k :: j <= k <= n ==> log[k].tick == log[n].tick
    ensures log[j].event.at - log[i].event.at < c.budget as real
  {
    LatestOnRecord(log, i, j, n);
    BadTickIs(log, j, n);
    assert Permitted(c, Fold(log[..n]), log[n]);
  }

  // ----- Auth-log scans -----

  predicate InWindow(e: Event, w: real) {
    e.Scanned? && e.since.Some? && e.since.value <= w <= e.upTo
  }

  /** A scan that answered has searched its window; one that raised has not. */
  predicate Covers(e: Event, w: real) {
    InWindow(e, w) && !e.raised
  }

  predicate Lost(e: Event) {
    e.Scanned? && e.since.Some? && e.raised
  }

  predicate Searched(log: Log, i: nat, n: nat, w: real)
    requires n <= |log|
  {
    exists k :: i < k < n && Covers(log[k].event, w)
  }

  /** Every wall time after `lo` and up to `hi` was searched. */
  ghost predicate AllSearched(log: Log, i: nat, n: nat, lo: real, hi: real)
    requires n <= |log|
  {
    forall w :: lo < w <= hi ==> Searched(log, i, n, w)
  }

  function Max(a: real, b: real): real {
    if a < b then b else a
  }

  function Min(a: real, b: real): real {
    if a < b then a else b
  }

  lemma ScanPermitted(c: Settings, log: Log, n: nat)
    requires Accepts(c, log) && n < |log| && log[n].event.Scanned?
    ensures MayScan(Fold(log[..n]), log[n].tick, log[n].event.since, log[n].event.upTo)
  {
    assert Permitted(c, Fold(log[..n]), log[n]);
  }

  /** `j` is the last unhealthy observation before `n`, in the outage opened at `i`. */
  predicate LastIn(log: Log, i: nat, j: nat, n: nat) {
    i <= j < n <= |log| && Opens(log, i) && NoneSafe(log, i, n) && LastUnhealthy(log, j, n)
  }

  /** The unhealthy tick that observed at `j` completed at `n`. */
  predicate CompletesIn(log: Log, i: nat, j: nat, n: nat) {
    && LastIn(log, i, j, n) && n < |log|
    && log[n].event.TickCompleted? && forall k :: j <= k <= n ==> log[k].tick == log[n].tick
  }

  /** The tick that observed at `j` has issued its scan before `n`, or has completed there. It
      may go on to trip, raise or exit. */
  predicate ScannedIn(log: Log, i: nat, j: nat, n: nat) {
    LastIn(log, i, j, n) && ((exists m :: j < m < n && log[m].event.Scanned?) || CompletesIn(log, i, j, n))
  }

  lemma CursorAtCompletion(c: Settings, log: Log, i: nat, j: nat, n: nat)
    requires Accepts(c, log) && CompletesIn(log, i, j, n)
    ensures Fold(log[..n]).outage.Some? && Fold(log[..n]).outage.value.cursor == log[j].event.wall
  {
    LatestOnRecord(log, i, j, n);
    BadTickIs(log, j, n);
    assert Permitted(c, Fold(log[..n]), log[n]);
  }

  lemma LatestIn(log: Log, i: nat, j: nat, n: nat)
    requires LastIn(log, i, j, n)
    ensures i <= j < n <= |log| && log[j].event.SawUnhealthy?
    ensures Fold(log[..n]).outage.Some? && Fold(log[..n]).outage.value.latestWall == log[j].event.wall
  {
    LatestOnRecord(log, i, j, n);
    hide Fold, Opens, NoneSafe;
  }

  lemma {:induction false} CursorAfterScan(c: Settings, log: Log, i: nat, j: nat, m: nat, n: nat)
    requires Accepts(c, log) && LastIn(log, i, j, n) && j < m < n && log[m].event.Scanned?
    ensures Fold(log[..n]).outage.Some? && Fold(log[..n]).outage.value.cursor == log[j].event.wall
    decreases n
  {
    hide *;
    LatestIn(log, i, j, n);
    LastInShorter(log, i, j, n);
    LatestIn(log, i, j, n - 1);
    CursorStep(c, log, n - 1);
    if !log[n - 1].event.Scanned? {
      CursorAfterScan(c, log, i, j, m, n - 1);
    }
  }

  lemma CursorStep(c: Settings, log: Log, n: nat)
    requires Accepts(c, log) && n < |log| && Fold(log[..n]).outage.Some? && !SafeAt(log[n].event)
    ensures var s, t := Fold(log[..n]).outage, Fold(log[..n + 1]).outage;
            t.Some? && t.value.cursor == if log[n].event.Scanned? then s.value.latestWall else s.value.cursor
  {
    FoldStep(log, n);
    OutageStep(Fold(log[..n]), log[n]);
    if log[n].event.Scanned? {
      ScanPermitted(c, log, n);
    }
    hide Fold, Accepts, Observe;
  }

  lemma LastInShorter(log: Log, i: nat, j: nat, n: nat)
    requires LastIn(log, i, j, n) && j < n - 1
    ensures LastIn(log, i, j, n - 1) && !SafeAt(log[n - 1].event)
  {
  }

  lemma CursorReached(c: Settings, log: Log, i: nat, j: nat, n: nat)
    requires Accepts(c, log) && ScannedIn(log, i, j, n)
    ensures Fold(log[..n]).outage.Some? && Fold(log[..n]).outage.value.cursor == log[j].event.wall
  {
    hide Fold, Accepts;
    if CompletesIn(log, i, j, n) {
      CursorAtCompletion(c, log, i, j, n);
    } else {
      var m :| j < m < n && log[m].event.Scanned?;
      CursorAfterScan(c, log, i, j, m, n);
    }
  }

  /** Once an unhealthy tick has issued its scan, and whether it then completes, trips or
      raises, every wall time after the outage's first and up to this tick's has been searched
      by a scan that answered, exactly when every window whose scan raised was searched again
      by one that did; whatever healthy but unverified ticks came between, and even if the
      wall clock jumped back. */
  lemma ScansTileExactlyWhen(c: Settings, log: Log, i: nat, j: nat, n: nat)
    requires Accepts(c, log) && ScannedIn(log, i, j, n)
    ensures var lo, hi := log[i].event.wall, log[j].event.wall;
            AllSearched(log, i, n, lo, hi) <==>
            forall k :: i < k < n && Lost(log[k].event) ==>
              AllSearched(log, i, n, Max(lo, log[k].event.since.value), Min(hi, log[k].event.upTo))
  {
    var lo, hi := log[i].event.wall, log[j].event.wall;
    CursorReached(c, log, i, j, n);
    hide Accepts, Fold, Opens, NoneSafe, LastUnhealthy, LastIn, ScannedIn;
    if AllSearched(log, i, n, lo, hi) {
      forall k | i < k < n && Lost(log[k].event)
        ensures AllSearched(log, i, n, Max(lo, log[k].event.since.value), Min(hi, log[k].event.upTo))
      {
      }
    }
    if forall k :: i < k < n && Lost(log[k].event) ==>
         AllSearched(log, i, n, Max(lo, log[k].event.since.value), Min(hi, log[k].event.upTo)) {
      forall w | lo < w <= hi ensures Searched(log, i, n, w) {
        RaisedWindowOnly(c, log, i, j, n, w);
      }
    }
  }

  /** A time that no answered scan searched lies in the window of a scan that raised, past
      its start. */
  lemma RaisedWindowOnly(c: Settings, log: Log, i: nat, j: nat, n: nat, w: real)
    requires Accepts(c, log) && ScannedIn(log, i, j, n)
    requires log[i].event.wall < w <= log[j].event.wall
    ensures Searched(log, i, n, w) ||
            exists k :: i < k < n && Lost(log[k].event) && log[k].event.since.value < w <= log[k].event.upTo
  {
    CursorReached(c, log, i, j, n);
    var m := FirstWindow(c, log, i, n, w);
    assert InWindow(log[m].event, w);
  }

  /** The windows of one outage tile: whatever the cursor has passed lies in one of them, and
      past the start of the earliest. */
  lemma {:induction false} FirstWindow(c: Settings, log: Log, i: nat, n: nat, w: real) returns (k: nat)
    requires Accepts(c, log) && i < n <= |log| && Opens(log, i) && NoneSafe(log, i, n)
    requires Fold(log[..n]).outage.Some? && log[i].event.wall < w <= Fold(log[..n]).outage.value.cursor
    ensures i < k < n && InWindow(log[k].event, w) && log[k].event.since.value < w
    decreases n
  {
    hide Accepts, Fold, Observe, Restarts, FailedEscalations, Escalated, Relaxed, Paced;
    FoldStep(log, n - 1);
    OutageStep(Fold(log[..n - 1]), log[n - 1]);
    if n - 1 == i {
      OpensFromNone(log, i);
    } else {
      OutageDescribed(c, log, i, n - 1);
      var e := log[n - 1].event;
      if e.Scanned? {
        ScanPermitted(c, log, n - 1);
        if InWindow(e, w) && e.since.value < w {
          k := n - 1;
        } else {
          k := FirstWindow(c, log, i, n - 1, w);
        }
      } else {
        k := FirstWindow(c, log, i, n - 1, w);
      }
    }
  }

  // ----- Under a wall clock that does not go back -----

  predicate SteadyWall(log: Log, i: nat, n: nat)
    requires i < n <= |log| && log[i].event.SawUnhealthy?
  {
    && log[i].event.wall > 0.0
    && forall a, b :: i <= a <= b < n && log[a].event.SawUnhealthy? && log[b].event.SawUnhealthy? ==>
         log[a].event.wall <= log[b].event.wall
  }

  /** The cursor is past every scan so far, and scans start where it stands. */
  predicate CursorPast(log: Log, i: nat, n: nat, cursor: real, latest: real)
    requires i < n <= |log| && log[i].event.SawUnhealthy?
  {
    && log[i].event.wall <= cursor <= latest
    && (exists a :: i <= a < n && log[a].event.SawUnhealthy? && log[a].event.wall == latest)
    && (forall k :: i < k < n && log[k].event.Scanned? ==> log[k].event.upTo <= cursor)
    && (forall k, m :: i < k < m < n && log[k].event.Scanned? && log[m].event.Scanned? && log[m].event.since.Some? ==>
          log[k].event.upTo <= log[m].event.since.value)
    && (forall k :: i < k < n && log[k].event.Scanned? && log[k].event.since.Some? ==>
          log[i].event.wall <= log[k].event.since.value <= log[k].event.upTo)
  }

  lemma CursorPastStep(log: Log, i: nat, n: nat, cursor: real, latest: real, cursor': real, latest': real)
    requires i < n - 1 && n <= |log| && log[i].event.SawUnhealthy? && CursorPast(log, i, n - 1, cursor, latest)
    requires SteadyWall(log, i, n)
    requires var e := log[n - 1].event;
             && (e.Scanned? ==> e.upTo == latest && cursor' == e.upTo && (e.since.Some? ==> e.since.value == cursor))
             && (!e.Scanned? ==> cursor' == cursor)
             && latest' == if e.SawUnhealthy? then e.wall else latest
    ensures CursorPast(log, i, n, cursor', latest')
  {
    var a :| i <= a < n - 1 && log[a].event.SawUnhealthy? && log[a].event.wall == latest;
    if log[n - 1].event.SawUnhealthy? {
      assert log[a].event.wall <= log[n - 1].event.wall;
    }
  }

  lemma OpensUnhealthy(log: Log, i: nat)
    requires i < |log| && Opens(log, i)
    ensures log[i].event.SawUnhealthy?
  {
  }

  lemma {:induction false} SteadyCursor(c: Settings, log: Log, i: nat, n: nat)
    requires Accepts(c, log) && i < n <= |log| && Opens(log, i) && NoneSafe(log, i, n)
    requires SteadyWall(log, i, n)
    ensures Fold(log[..n]).outage.Some?
    ensures var o := Fold(log[..n]).outage.value; CursorPast(log, i, n, o.cursor, o.latestWall)
    decreases n
  {
    hide *;
    OpensUnhealthy(log, i);
    if n - 1 == i {
      FreshCursor(log, i);
    } else {
      NoneSafeShorter(log, i, n);
      SteadyShorter(log, i, n);
      SteadyCursor(c, log, i, n - 1);
      SteadyStep(c, log, i, n);
    }
  }

  lemma SteadyStep(c: Settings, log: Log, i: nat, n: nat)
    requires Accepts(c, log) && i < n - 1 && n <= |log| && log[i].event.SawUnhealthy? && SteadyWall(log, i, n)
    requires !SafeAt(log[n - 1].event) && Fold(log[..n - 1]).outage.Some?
    requires var o := Fold(log[..n - 1]).outage.value; CursorPast(log, i, n - 1, o.cursor, o.latestWall)
    ensures Fold(log[..n]).outage.Some?
    ensures var o := Fold(log[..n]).outage.value; CursorPast(log, i, n, o.cursor, o.latestWall)
  {
    hide Accepts, Fold, Observe, CursorPast, SteadyWall;
    FoldStep(log, n - 1);
    OutageStep(Fold(log[..n - 1]), log[n - 1]);
    var o := Fold(log[..n - 1]).outage.value;
    SteadyPositive(log, i, n);
    CursorPositive(log, i, n - 1, o.cursor, o.latestWall);
    if log[n - 1].event.Scanned? {
      ScanPermitted(c, log, n - 1);
    }
    var p := Fold(log[..n]).outage.value;
    CursorPastStep(log, i, n, o.cursor, o.latestWall, p.cursor, p.latestWall);
  }

  lemma SteadyPositive(log: Log, i: nat, n: nat)
    requires i < n <= |log| && log[i].event.SawUnhealthy? && SteadyWall(log, i, n)
    ensures log[i].event.wall > 0.0
  {
  }

  lemma NoneSafeShorter(log: Log, i: nat, n: nat)
    requires i < n - 1 && n <= |log| && NoneSafe(log, i, n)
    ensures NoneSafe(log, i, n - 1) && !SafeAt(log[n - 1].event)
  {
  }

  lemma SteadyShorter(log: Log, i: nat, n: nat)
    requires i < n - 1 && n <= |log| && log[i].event.SawUnhealthy? && SteadyWall(log, i, n)
    ensures SteadyWall(log, i, n - 1)
  {
  }

  lemma FreshCursor(log: Log, i: nat)
    requires i < |log| && Opens(log, i)
    ensures Fold(log[..i + 1]).outage.Some?
    ensures var o := Fold(log[..i + 1]).outage.value; CursorPast(log, i, i + 1, o.cursor, o.latestWall)
  {
    assert log[i].event.SawUnhealthy?;
    hide Fold, Observe, Opens, CursorPast;
    FoldStep(log, i);
    OutageStep(Fold(log[..i]), log[i]);
    OpensFromNone(log, i);
    FreshCursorPast(log, i, log[i].event.wall);
  }

  lemma FreshCursorPast(log: Log, i: nat, wall: real)
    requires i < |log| && log[i].event.SawUnhealthy? && wall == log[i].event.wall
    ensures CursorPast(log, i, i + 1, wall, wall)
  {
  }

  lemma CursorPositive(log: Log, i: nat, n: nat, cursor: real, latest: real)
    requires i < n <= |log| && log[i].event.SawUnhealthy? && log[i].event.wall > 0.0
    requires CursorPast(log, i, n, cursor, latest)
    ensures cursor > 0.0
  {
  }

  /** With a wall clock that does not go back a raised scan is never made up for: the
      outage is searched without a gap exactly when every raised scan had an empty window. */
  lemma SteadyScansTileExactlyWhen(c: Settings, log: Log, i: nat, j: nat, n: nat)
    requires Accepts(c, log) && ScannedIn(log, i, j, n) && SteadyWall(log, i, n)
    ensures AllSearched(log, i, n, log[i].event.wall, log[j].event.wall) <==>
            forall k :: i < k < n && Lost(log[k].event) ==> log[k].event.since.value == log[k].event.upTo
  {
    SteadyCursor(c, log, i, n);
    CursorReached(c, log, i, j, n);
    LatestOnRecord(log, i, j, n);
    var o := Fold(log[..n]).outage.value;
    hide Fold, Accepts, Opens, NoneSafe, LastUnhealthy, LastIn, ScannedIn, SteadyWall;
    forall k | i < k < n && Lost(log[k].event) && log[k].event.since.value != log[k].event.upTo
      ensures !AllSearched(log, i, n, log[i].event.wall, log[j].event.wall)
    {
      var w := (log[k].event.since.value + log[k].event.upTo) / 2.0;
      NeverMadeUpFor(log, i, n, o.cursor, o.latestWall, k, w);
    }
    if forall k :: i < k < n && Lost(log[k].event) ==> log[k].event.since.value == log[k].event.upTo {
      forall w | log[i].event.wall < w <= log[j].event.wall ensures Searched(log, i, n, w) {
        RaisedWindowOnly(c, log, i, j, n, w);
      }
    }
  }

  lemma NeverMadeUpFor(log: Log, i: nat, n: nat, cursor: real, latest: real, k: nat, w: real)
    requires i < k < n <= |log| && log[i].event.SawUnhealthy? && CursorPast(log, i, n, cursor, latest)
    requires Lost(log[k].event) && log[k].event.since.value < w < log[k].event.upTo
    ensures !Searched(log, i, n, w) && log[i].event.wall < w <= cursor
  {
    forall m | i < m < n ensures !Covers(log[m].event, w) {
    }
  }

  /** The bounded tail before the outage is scanned in the opening tick or never. */
  lemma TailScannedOnlyAtOpening(c: Settings, log: Log, i: nat, k: nat)
    requires Accepts(c, log) && i < k < |log| && Opens(log, i) && NoneSafe(log, i, k)
    requires log[k].event.Scanned? && log[k].event.since.None?
    ensures log[k].tick == log[i].tick
  {
    OutageDescribed(c, log, i, k);
    ScanPermitted(c, log, k);
  }

  // ----- Debounce -----

  function Verdicts(log: Log): seq<Verdict> {
    if log == [] then [] else
      var past := Verdicts(log[..|log| - 1]);
      if log[|log| - 1].event.Assessed? then past + [log[|log| - 1].event.verdict] else past
  }

  /** Length of the run of UNKNOWNs at the end. */
  function TrailingUnknowns(vs: seq<Verdict>): nat {
    if vs == [] || vs[|vs| - 1] != Unknown then 0 else 1 + TrailingUnknowns(vs[..|vs| - 1])
  }

  lemma RunStep(s: Seen, entry: Entry)
    requires s.run <= s.unknowns
    ensures var t := Observe(s, entry);
            && t.run <= t.unknowns
            && t.run == if !entry.event.Assessed? then s.run else if entry.event.verdict.Unknown? then s.run + 1 else 0
  {
  }

  lemma TrailingStep(vs: seq<Verdict>, v: Verdict)
    ensures TrailingUnknowns(vs + [v]) == if v == Unknown then 1 + TrailingUnknowns(vs) else 0
  {
    assert (vs + [v])[..|vs|] == vs;
  }

  lemma {:induction false} RunIsTrailing(log: Log)
    ensures Fold(log).run == TrailingUnknowns(Verdicts(log)) <= Fold(log).unknowns
  {
    hide Observe, TrailingUnknowns;
    if log == [] {
      NoTrailing();
    } else {
      var past, last := log[..|log| - 1], log[|log| - 1];
      RunIsTrailing(past);
      RunStep(Fold(past), last);
      if last.event.Assessed? {
        TrailingStep(Verdicts(past), last.event.verdict);
      }
    }
  }

  lemma NoTrailing()
    ensures TrailingUnknowns([]) == 0
  {
  }

  /** Assessments of UNKNOWN since the last UNSAFE, or the last SAFE outside an outage. */
  function UnknownsSinceReset(log: Log): nat {
    if log == [] then 0 else
      var past := log[..|log| - 1];
      var e := log[|log| - 1].event;
      if !e.Assessed? then UnknownsSinceReset(past)
      else match e.verdict
           case Unknown => UnknownsSinceReset(past) + 1
           case Unsafe => 0
           case Safe =>
             if exists k :: 0 <= k < |past| && past[k].event.SawUnhealthy? && NoneSafe(past, k, |past|)
             then UnknownsSinceReset(past) else 0
  }

  lemma {:induction false} CounterIsUnknowns(log: Log)
    ensures Fold(log).unknowns == UnknownsSinceReset(log)
  {
    if log != [] {
      CounterIsUnknowns(log[..|log| - 1]);
      OutageIffOpen(log[..|log| - 1]);
    }
  }

  lemma {:induction false} StopOnRecord(log: Log) returns (m: nat)
    requires Fold(log).stopTick >= 0
    ensures m < |log| && log[m].event.Stopped? && log[m].tick == Fold(log).stopTick
  {
    if log[|log| - 1].event.Stopped? {
      m := |log| - 1;
    } else {
      m := StopOnRecord(log[..|log| - 1]);
    }
  }

  predicate TickEnds(e: Event) {
    e.Heartbeat? || e.Exited?
  }

  /** A definitive leak, and every run of `threshold` UNKNOWNs, has a service stop issued
      in the tick of its last assessment. */
  lemma LeakAndDebounceStop(c: Settings, log: Log, a: nat, n: nat) returns (m: nat)
    requires Accepts(c, log) && a < n < |log| && TickEnds(log[n].event) && log[a].tick == log[n].tick
    requires log[a].event.Assessed? && forall k :: a < k < n ==> !log[k].event.Assessed?
    requires log[a].event.verdict.Unsafe? || TrailingUnknowns(Verdicts(log[..n])) >= c.threshold
    ensures m < n && log[m].event.Stopped? && log[m].tick == log[n].tick
  {
    var past := log[..n];
    var k := JudgedIs(log, a, n);
    RunIsTrailing(past);
    if log[a].event.verdict != Unsafe {
      TrailingMeansUnknown(past, a);
    }
    EndOwesStop(c, log, n);
    m := StopOnRecord(past);
  }

  lemma JudgedIs(log: Log, a: nat, n: nat) returns (k: nat)
    requires a < n <= |log| && log[a].event.Assessed? && forall k :: a < k < n ==> !log[k].event.Assessed?
    ensures k == a && Fold(log[..n]).judged == Some(Judged(log[a].tick, log[a].event.at, log[a].event.verdict))
  {
    JudgedSome(log[..n], a);
    k := JudgementOnRecord(log[..n]);
  }

  lemma {:induction false} JudgedSome(log: Log, a: nat)
    requires a < |log| && log[a].event.Assessed?
    ensures Fold(log).judged.Some?
  {
    if a < |log| - 1 {
      JudgedSome(log[..|log| - 1], a);
    }
  }

  lemma {:induction false} TrailingMeansUnknown(log: Log, a: nat)
    requires a < |log| && log[a].event.Assessed? && forall k :: a < k < |log| ==> !log[k].event.Assessed?
    requires TrailingUnknowns(Verdicts(log)) > 0
    ensures log[a].event.verdict == Unknown
  {
    if a < |log| - 1 {
      TrailingMeansUnknown(log[..|log| - 1], a);
    }
  }

  lemma JudgedStep(c: Settings, s: Seen, entry: Entry)
    requires Permitted(c, s, entry)
    ensures var t := Observe(s, entry).judged;
            if entry.event.Assessed? then
              t.Some? && t.value.tick == entry.tick && (s.judged.Some? ==> s.judged.value.tick < entry.tick)
            else t == s.judged
  {
  }

  lemma JudgedNext(c: Settings, log: Log)
    requires Accepts(c, log) && log != []
    ensures var s, t, last := Fold(log[..|log| - 1]).judged, Fold(log).judged, log[|log| - 1];
            if last.event.Assessed? then
              t.Some? && t.value.tick == last.tick && (s.Some? ==> s.value.tick < last.tick)
            else t == s
  {
    var n := |log| - 1;
    assert Permitted(c, Fold(log[..n]), log[n]);
    hide Observe, Permitted;
    JudgedStep(c, Fold(log[..n]), log[n]);
  }

  lemma {:induction false} JudgementsBound(c: Settings, log: Log, k: nat)
    requires Accepts(c, log) && k < |log| && log[k].event.Assessed?
    ensures Fold(log).judged.Some? && log[k].tick <= Fold(log).judged.value.tick
    decreases |log|
  {
    hide *;
    var n := |log| - 1;
    JudgedNext(c, log);
    if k < n {
      AcceptsPrefix(c, log, n);
      assert log[..n][k] == log[k];
      JudgementsBound(c, log[..n], k);
    }
  }

  /** At most one assessment per tick. */
  lemma JudgementsDiffer(c: Settings, log: Log, a: nat, k: nat)
    requires Accepts(c, log) && a < k < |log| && log[a].event.Assessed? && log[k].event.Assessed?
    ensures log[a].tick < log[k].tick
  {
    AcceptsPrefix(c, log, k);
    JudgementsBound(c, log[..k], a);
    assert Permitted(c, Fold(log[..k]), log[k]);
  }

  /** No tick with a non-SAFE assessment ever starts services, before or after it. */
  lemma NonSafeNeverStarts(c: Settings, log: Log, i: nat, k: nat)
    requires Accepts(c, log) && i < |log| && k < |log|
    requires log[i].event.Started? && log[k].event.Assessed? && log[k].tick == log[i].tick
    ensures log[k].event.verdict == Safe
  {
    hide Accepts, Fold, Observe;
    var _, _, a := StartRests(c, log, i);
    if a < k {
      JudgementsDiffer(c, log, a, k);
    } else if k < a {
      JudgementsDiffer(c, log, k, a);
    }
  }

  // ----- Errors, trip and totals -----

  lemma ErrorStep(s: Seen, entry: Entry)
    ensures entry.event.TickRaised? ==> Observe(s, entry).errorRun == s.errorRun + 1
    ensures !entry.event.TickRaised? && !entry.event.TickCompleted? ==> Observe(s, entry).errorRun == s.errorRun
  {
  }

  lemma {:induction false} ErrorsAdd(log: Log, i: nat, n: nat)
    requires i <= n <= |log| && forall k :: i <= k < n ==> !log[k].event.TickCompleted?
    ensures Fold(log[..n]).errorRun == Fold(log[..i]).errorRun + |set k | i <= k < n && log[k].event.TickRaised?|
    decreases n
  {
    hide Fold, Observe;
    var now := set k | i <= k < n && log[k].event.TickRaised?;
    if i < n {
      FoldStep(log, n - 1);
      ErrorStep(Fold(log[..n - 1]), log[n - 1]);
      ErrorsAdd(log, i, n - 1);
      var before := set k | i <= k < n - 1 && log[k].event.TickRaised?;
      assert now == if log[n - 1].event.TickRaised? then before + {n - 1} else before;
    } else {
      assert now == {};
    }
  }

  /** What is due after an error and after an opening observation. */
  lemma DueStep(s: Seen, entry: Entry)
    ensures entry.event.TickRaised? && Observe(s, entry).errorRun >= LOOP_ERROR_LIMIT ==> Observe(s, entry).due.FallbackStop?
    ensures entry.event.SawUnhealthy? && s.outage.None? ==> Observe(s, entry).due.OpeningStop?
    ensures Observe(s, entry).tick == entry.tick
  {
  }

  /** The third raising tick in a row, and each one after it, is followed directly by a stop
      of all services. */
  lemma ThirdErrorStops(c: Settings, log: Log, i1: nat, i2: nat, i3: nat)
    requires Accepts(c, log) && i1 < i2 < i3 < |log|
    requires log[i1].event.TickRaised? && log[i2].event.TickRaised? && log[i3].event.TickRaised?
    requires forall k :: i1 <= k <= i3 ==> !log[k].event.TickCompleted?
    ensures Fold(log[..i3 + 1]).due.FallbackStop?
    ensures i3 + 1 < |log| ==> log[i3 + 1] == Entry(log[i3].tick, Stopped(None))
  {
    hide Fold, Observe;
    ErrorsAdd(log, i1, i3 + 1);
    var raised := set k | i1 <= k < i3 + 1 && log[k].event.TickRaised?;
    assert {i1, i2, i3} <= raised;
    Subset({i1, i2, i3}, raised);
    FoldStep(log, i3);
    DueStep(Fold(log[..i3]), log[i3]);
    if i3 + 1 < |log| {
      assert Permitted(c, Fold(log[..i3 + 1]), log[i3 + 1]);
    }
  }

  /** The observation that opens an outage is followed directly by a stop of the services. */
  lemma OpeningStops(c: Settings, log: Log, i: nat)
    requires Accepts(c, log) && i < |log| && Opens(log, i)
    ensures Fold(log[..i + 1]).due.OpeningStop?
    ensures i + 1 < |log| ==>
              log[i + 1].tick == log[i].tick && log[i + 1].event.Stopped? && log[i + 1].event.only.Some?
  {
    assert log[i].event.SawUnhealthy?;
    OpensFromNone(log, i);
    hide Fold, Observe, Opens;
    FoldStep(log, i);
    DueStep(Fold(log[..i]), log[i]);
    if i + 1 < |log| {
      assert Permitted(c, Fold(log[..i + 1]), log[i + 1]);
    }
  }

  lemma EndOwesStop(c: Settings, log: Log, n: nat)
    requires Accepts(c, log) && n < |log| && TickEnds(log[n].event)
    ensures Obliged(c, Fold(log[..n]), log[n].tick) ==> Fold(log[..n]).stopTick == log[n].tick
  {
    assert Permitted(c, Fold(log[..n]), log[n]);
  }

  lemma {:induction false} Subset<T>(a: set<T>, b: set<T>)
    requires a <= b
    ensures |a| <= |b|
  {
    if a != {} {
      var x :| x in a;
      Subset(a - {x}, b - {x});
    }
  }

  /** How many entries satisfy `p`. */
  function Count(log: Log, p: Event -> bool): nat {
    if log == [] then 0 else Count(log[..|log| - 1], p) + if p(log[|log| - 1].event) then 1 else 0
  }

  /** The sum of one column over the emitted summaries. */
  function Summed(log: Log, column: Window -> nat): nat {
    if log == [] then 0 else
      Summed(log[..|log| - 1], column) +
      if log[|log| - 1].event.Summarised? then column(log[|log| - 1].event.window) else 0
  }

  lemma {:induction false} FoldSums(log: Log)
    ensures Fold(log).summed.errors == Summed(log, (w: Window) => w.errors)
    ensures Fold(log).summed.drops == Summed(log, (w: Window) => w.drops)
    ensures Fold(log).summed.ipFailures == Summed(log, (w: Window) => w.ipFailures)
    ensures Fold(log).counted.errors == Count(log, (e: Event) => e.TickRaised?)
  {
    if log != [] {
      FoldSums(log[..|log| - 1]);
    }
  }

  /** Raising ticks since the last completed one. */
  function RaisesInARow(log: Log): nat {
    if log == [] || log[|log| - 1].event.TickCompleted? then 0
    else RaisesInARow(log[..|log| - 1]) + if log[|log| - 1].event.TickRaised? then 1 else 0
  }

  lemma {:induction false} ErrorRunIsRaises(log: Log)
    ensures Fold(log).errorRun == RaisesInARow(log)
  {
    if log != [] {
      ErrorRunIsRaises(log[..|log| - 1]);
      ErrorStep(Fold(log[..|log| - 1]), log[|log| - 1]);
    }
  }

  /** Unhealthy observations that open an outage. */
  function Outages(log: Log): nat {
    if log == [] then 0 else
      var past := log[..|log| - 1];
      Outages(past) +
      if log[|log| - 1].event.SawUnhealthy? &&
         !exists k :: 0 <= k < |past| && past[k].event.SawUnhealthy? && NoneSafe(past, k, |past|)
      then 1 else 0
  }

  lemma {:induction false} DropsAreOutages(log: Log)
    ensures Fold(log).counted.drops == Outages(log)
  {
    if log != [] {
      DropsAreOutages(log[..|log| - 1]);
      OutageIffOpen(log[..|log| - 1]);
    }
  }

  /** Assessments that count as IP failures: definitive leaks, and UNKNOWNs at which the
      debounce has reached the threshold. */
  function IpFailures(c: Settings, log: Log): nat {
    if log == [] then 0 else
      var e := log[|log| - 1].event;
      IpFailures(c, log[..|log| - 1]) +
      if e.Assessed? && (e.verdict.Unsafe? || (e.verdict.Unknown? && UnknownsSinceReset(log) >= c.threshold)) then 1 else 0
  }

  function Owed(c: Settings, s: Seen): nat {
    if Owes(c, s) then 1 else 0
  }

  lemma IpFailureStep(c: Settings, s: Seen, entry: Entry)
    requires Permitted(c, s, entry) && TicksUpTo(s, s.tick)
    ensures TicksUpTo(Observe(s, entry), entry.tick)
    ensures var t, e := Observe(s, entry), entry.event;
            t.counted.ipFailures + Owed(c, t) == s.counted.ipFailures + Owed(c, s) +
              if e.Assessed? && (e.verdict.Unsafe? || (e.verdict.Unknown? && t.unknowns >= c.threshold)) then 1 else 0
  {
  }

  /** Failures are counted at their stop, so the count lags by the stop still owed. */
  lemma {:induction false} IpFailuresCounted(c: Settings, log: Log)
    requires Accepts(c, log)
    ensures TicksUpTo(Fold(log), Fold(log).tick)
    ensures Fold(log).counted.ipFailures + Owed(c, Fold(log)) == IpFailures(c, log)
  {
    hide Permitted, Observe, Owed, UnknownsSinceReset;
    if log == [] {
      NothingOwed(c);
    } else {
      var n := |log| - 1;
      AcceptsPrefix(c, log, n);
      IpFailuresCounted(c, log[..n]);
      assert Permitted(c, Fold(log[..n]), log[n]);
      IpFailureStep(c, Fold(log[..n]), log[n]);
      ObserveTick(c, Fold(log[..n]), log[n]);
      CounterIsUnknowns(log);
    }
  }

  lemma NothingOwed(c: Settings)
    ensures Owed(c, Nothing) == 0
  {
  }
}

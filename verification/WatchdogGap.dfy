/** A run in which an auth-log window is lost for good. */
module WatchdogGap {
  import opened Breaker
  import opened Replies
  import opened Egress
  import opened Trace
  import opened Watchdog
  import opened WatchdogSafety
  import opened WatchdogTheorems

  const CONFIG := Settings(Config(60, None), 600, 60, 3, 3600, None, None, None, None)

  const PROBES := Probes(Raises, Raises, Raises, Raises)

  /** Gluetun is down at second `t`, and the auth-log scan replies `authFailed`. */
  function Down(t: real, authFailed: Reply<bool>): TickEnv {
    TickEnv(Answer([]), Answer(false), t, 1000.0 + t, t, Answer(true), authFailed, Done, PROBES,
            Answer(true), Done, Done, Answer(true), Done, Answer(true))
  }

  const SCRIPT := [Down(0.0, Answer(false)), Down(10.0, Raises), Down(20.0, Answer(false))]

  const LOG: seq<Entry> := [
    Entry(0, SawUnhealthy(0.0, 1000.0)), Entry(0, Stopped(Some([]))), Entry(0, Scanned(None, 1000.0, false)),
    Entry(0, Restarted(false, 0.0, false)), Entry(0, TickCompleted), Entry(0, Heartbeat),
    Entry(1, SawUnhealthy(10.0, 1010.0)), Entry(1, Scanned(Some(1000.0), 1010.0, true)),
    Entry(1, TickRaised), Entry(1, Heartbeat),
    Entry(2, SawUnhealthy(20.0, 1020.0)), Entry(2, Scanned(Some(1010.0), 1020.0, false)),
    Entry(2, TickCompleted), Entry(2, Heartbeat)]

  /** The state between these ticks, up to its record. */
  predicate Between(s: State, tick: nat, cursor: Option<real>, errors: nat) {
    && s.tick == tick && s.f.lastAuthCheckWall == cursor && s.f.loopErrors == errors
    && !s.f.escalationTriggered && s.f.window.startedAt == 0.0
    && s.f.outageStartedAt == (if tick == 0 then None else Some(0.0))
    && (tick > 0 ==> s.f.lastRestartAt == 0.0)
  }

  lemma FirstTick(s: State)
    requires Between(s, 0, None, 0)
    ensures var step := LoopTick(CONFIG, s, SCRIPT[0]);
            step.status == Done && Between(step.state, 1, Some(1000.0), 0)
            && step.state.record.log == s.record.log + LOG[..6]
  {
    hide Observe;
  }

  lemma SecondTick(s: State)
    requires Between(s, 1, Some(1000.0), 0)
    ensures var step := LoopTick(CONFIG, s, SCRIPT[1]);
            step.status == Done && Between(step.state, 2, Some(1010.0), 1)
            && step.state.record.log == s.record.log + LOG[6..10]
  {
    hide Observe;
  }

  lemma ThirdTick(s: State)
    requires Between(s, 2, Some(1010.0), 1)
    ensures var step := LoopTick(CONFIG, s, SCRIPT[2]);
            step.status == Done && step.state.record.log == s.record.log + LOG[10..]
  {
    hide Observe;
  }

  /** The second scan raises after the cursor has moved past its window, so the third one
      starts behind it: second 1005 is searched by no scan, although the tick that observed
      second 1020 of the same outage completed. */
  lemma RaisedScanLosesItsWindow()
    ensures var log := History(CONFIG, 0.0, SCRIPT);
            && CompletesIn(log, 0, 10, 12)
            && log[0].event.wall < 1005.0 <= log[10].event.wall
            && !Searched(log, 0, 12, 1005.0)
  {
    hide LoopTick, Observe;
    var s0 := Initial(0.0);
    FirstTick(s0);
    var s1 := LoopTick(CONFIG, s0, SCRIPT[0]).state;
    SecondTick(s1);
    var s2 := LoopTick(CONFIG, s1, SCRIPT[1]).state;
    ThirdTick(s2);
    var s3 := LoopTick(CONFIG, s2, SCRIPT[2]).state;
    ThreeTicks(CONFIG, s0, SCRIPT[0], SCRIPT[1], SCRIPT[2]);
    assert History(CONFIG, 0.0, SCRIPT) == s3.record.log;
    hide *;
    WholeLog(s0.record.log, s1.record.log, s2.record.log, s3.record.log);
    LogHasGap();
  }

  lemma ThreeTicks(c: Settings, s: State, a: TickEnv, b: TickEnv, d: TickEnv)
    requires LoopTick(c, s, a).status == Done && LoopTick(c, LoopTick(c, s, a).state, b).status == Done
    ensures var t := LoopTick(c, LoopTick(c, LoopTick(c, s, a).state, b).state, d);
            Run(c, s, [a, b, d]).state == t.state
  {
    hide LoopTick;
    var s1 := LoopTick(c, s, a).state;
    var s2 := LoopTick(c, s1, b).state;
    var t := LoopTick(c, s2, d);
    assert [a, b, d][1..] == [b, d] && [b, d][1..] == [d] && [d][1..] == [];
    assert Run(c, s2, [d]).state == t.state;
    assert Run(c, s1, [b, d]) == Run(c, s2, [d]);
  }

  lemma WholeLog(l0: seq<Entry>, l1: seq<Entry>, l2: seq<Entry>, l3: seq<Entry>)
    requires l0 == [] && l1 == l0 + LOG[..6] && l2 == l1 + LOG[6..10] && l3 == l2 + LOG[10..]
    ensures l3 == LOG
  {
    Slices(LOG, 6, 10);
    hide LOG;
    assert [] + LOG[..6] == LOG[..6];
  }

  lemma Slices<T>(s: seq<T>, i: nat, j: nat)
    requires i <= j <= |s|
    ensures s[..i] + s[i..j] + s[j..] == s
  {
  }

  lemma LogHasGap()
    ensures CompletesIn(LOG, 0, 10, 12) && LOG[0].event.wall < 1005.0 <= LOG[10].event.wall && !Searched(LOG, 0, 12, 1005.0)
  {
  }
}

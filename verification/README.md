# StremioGuard verification

A Dafny model of StremioGuard's protocols, and proofs about them. StremioGuard keeps
Stremio and Comet behind a VPN container (gluetun): a watchdog verifies the tunnel's egress
address, stops services when it cannot, and locks the stack out when recovery fails.

Everything the program does not own (Docker, Compose, the network, clocks, the disk, systemd,
random draws) is an oracle. A call may answer anything, raise, or unwind the process; a run is
described by the script of those replies, and a theorem about all scripts is a theorem about
every behaviour of the environment. Objects that change state are classes whose methods are
proved equal to a specification function on values; the theorems are about those functions and
about whole runs of them.

| file | part of the program |
|---|---|
| `Replies.dfy` | replies of oracles: answer, exception, process exit; `finally` and `except` blocks over them |
| `Breaker.dfy` | exit status and lockout reasons |
| `Egress.dfy` | the guard's egress assessment and its cache |
| `Trace.dfy` | the event log of a watchdog run and the monitor that says which event may come next |
| `Watchdog.dfy` | one watchdog tick, the loop around it, the circuit breaker |
| `WatchdogRuns.dfy` | the invariant every tick keeps |
| `WatchdogSafety.dfy` | what follows for any log the monitor accepts |
| `WatchdogTheorems.dfy` | the theorems about whole watchdog runs |
| `WatchdogTick.dfy` | one tick quantity by quantity: status, every field, and the log it appends, each with its exact condition |
| `WatchdogProgress.dfy` | what has to happen: starts and restarts in one tick and along whole runs |
| `WatchdogGap.dfy` | a run in which an auth-log window is lost |
| `Heartbeat.dfy` | the chunked sleep between ticks |
| `Lockout.dfy`, `Supervision.dfy` | the lockout marker; watchdog unit, fail-safe unit and commands as one step system |
| `SupervisionSteps.dfy` | what each step of that system does to unit, marker and services |
| `Patching.dfy` | the substring splice behind the overrides |
| `Bundle.dfy` | the override bundle and its manifest |
| `Comet.dfy`, `CometRuns.dfy` | the Comet digest machine, the guard's `up` of it, and their runs |
| `CometProgress.dfy` | exactly when a Comet command adopts a digest, completes, brings up or records |
| `CometFindings.dfy` | short runs of a fresh deployment that go wrong |
| `Dotenv.dfy` | the `.env` writer and reader |
| `Tokens.dfy` | the gateway's token store and its rendered map |
| `Ports.dfy` | published ports and the checks against collisions |
| `Packs.dfy` | pack evidence in the patched orchestration |

## What turned out to be false of the code

Each is proved by a lemma that names an input, a run or a family of them, next to the exact
condition under which the code does what is expected.

- The auth-log scans of an outage leave a gap when a scan raises: its cursor has already
  moved, and the next scan starts behind it (`WatchdogGap.RaisedScanLosesItsWindow`;
  `WatchdogSafety.ScansTileExactlyWhen`, `WatchdogSafety.SteadyScansTileExactlyWhen`).
- A raising scan also keeps the breaker from tripping, however long ago the budget was used
  up (`WatchdogTheorems.RaisingScanBlocksBreaker`; `WatchdogTheorems.BreakerTripsExactlyWhen`).
- A SAFE verdict excludes the host's own address exactly if the host probe answered, or no
  baseline is recorded (then nothing is SAFE), or the baseline is that very address, or the
  expected VPN address differs from it; a baseline of the other family never helps
  (`Egress.OtherFamilyBaselineIsNoProof`; `Egress.SafeExcludesHostAddress`).
- The dotenv round trip fails for values with an inner line break (a `\r` included, because
  reading is in text mode) and, when the key already has a line, for values with a backslash
  escape, because the value is used as a replacement template (`Dotenv.InnerReturnIsLost`,
  `Dotenv.EscapeIsLost`; `Dotenv.RoundTripExactlyWhen`).
- A bundle write that breaks off leaves files of one image under the manifest of another, and
  the cache key does not cover files, so a later rollback mounts them
  (`CometFindings.RollbackMountsForeignFile`; `Bundle.BrokenOffCoherentExactlyWhen`,
  `CometRuns.EveryUpMountsOwnFilesExactlyWhen`).
- The guard brings Comet up without inspecting the image. After a promotion that broke off
  once the state was saved, it runs the new image with the patches of the old one
  (`CometFindings.GuardMountsOtherPatches`; `CometRuns.GuardUpSoundExactlyWhen`).
- A required patch that fails to render once, even for a passing reason, is never rendered
  again by starting again: the manifest it leaves is a cache hit that the publisher rejects
  (`CometFindings.FirstInstallCanStick`, `CometRuns.RejectedBundleSticks`;
  `CometRuns.MissedPatchIsRejected`, `CometRuns.RetryComesUpExactlyWhen`).
- `stream` is declared as required only with the gateway, but the rank contract makes it
  required always (`Bundle.StreamAlwaysRequired`).
- Revoking or rotating a token leaves the old one accepted when a later write fails; after a
  rotation it can be accepted although the store no longer lists it
  (`Tokens.RevokedButAccepted`, `Tokens.RotatedOutButAccepted`;
  `Tokens.StillAcceptedAfterRevoke`, `Tokens.StillAcceptedAfterRotate`).
- The multi-candidate edit is not idempotent in general (`Patching.SecondRenderChangesText`;
  `Patching.IdempotentExactlyWhen`, `Patching.ApartIsIdempotent`).
- With the gateway on, raw Comet is not on 127.0.0.1 only: the services share one network
  namespace, the checks compare host ports, and a Stremio mapping whose container port is
  Comet's publishes Comet beside the gateway (`Ports.StremioMappingReachesRawComet`;
  `Ports.RawCometIsLocalExactlyWhen`).
- The port checks refuse configurations that would not collide
  (`Ports.RefusedWithoutCollision`; `Ports.NeedlesslyRefusedExactlyWhen`).

## Model

| member | source | states |
|---|---|---|
| Egress.GluetunGuard.ControlServerIp | src/stremioguard/guard.py:428-479 | the control-server answer, and that a rejected server is remembered and not asked again |
| Egress.GluetunGuard.PublicIpAssessment | src/stremioguard/guard.py:481-561 | reply, whether it probed live, and the new cache are those of the specification, for every force flag, clock and oracle reply; a verdict it probed for is exact: SAFE exactly when the egress differs from the host's address and the baseline, one of the two is known and the expected address matches, UNKNOWN exactly when the egress or both of them are missing, UNSAFE otherwise |
| Egress.LiveVerdictExactly | src/stremioguard/guard.py:499-561 | the same of the specification, and that a probe without a verdict is one whose calls failed |
| Egress.CacheHoldsLastLive | src/stremioguard/guard.py:481-561 | over any calls: the cache is non-empty exactly when the most recent live probe was SAFE, and then holds that probe's time and control address |
| Egress.CachedAssessmentRefinesLive | src/stremioguard/guard.py:481-561 | each call answers the live decision, or answers SAFE unprobed, which it does exactly when the last live decision was SAFE, is young enough, saw the same control address and no probe was forced |
| Egress.RejectedRouteStaysUnused | src/stremioguard/guard.py:428-479 | over any calls: the control address counts exactly until some call was told that the server rejects the route, and never again |
| Egress.LastObservedIsLatest | src/stremioguard/guard.py:499-512 | over any calls: the address last observed is the egress of the most recent probe that got one |
| Egress.FailureKeepsNoNewTrust | src/stremioguard/guard.py:481-561 | a call that raises leaves the cache empty or as it was |
| Egress.SafeExcludesHostAddress | src/stremioguard/guard.py:518-561 | exactly when a SAFE verdict rules out that the egress is the host's own address |
| Egress.OtherFamilyBaselineIsNoProof | src/stremioguard/guard.py:518-561 | a concrete SAFE verdict on the host's own IPv4 address, with an IPv6 baseline and a failed host probe |
| Watchdog.Orchestrator.MaybeSummary | src/stremioguard/orchestrator.py:405-430 | a due summary emits the window and resets it, otherwise nothing changes |
| Watchdog.Orchestrator.Trip | src/stremioguard/orchestrator.py:233-254 | the trip equals the nested `try`/`except`/`finally` blocks over the three replies |
| Watchdog.TripCompletes | src/stremioguard/orchestrator.py:243-254 | consequence of those blocks: whichever calls fail and however, marker, service stop and gluetun stop are attempted in order and 78 replaces every pending failure |
| Watchdog.Orchestrator.HandleUnhealthyIpAssessment | src/stremioguard/orchestrator.py:256-284 | an UNSAFE stops at once and resets the debounce; an UNKNOWN counts and stops from the threshold on |
| Watchdog.Orchestrator.BeginOutage | src/stremioguard/orchestrator.py:296-315 | first unhealthy tick: fields set, services stopped, tail scan, restart, with the state left by each call that raises |
| Watchdog.Orchestrator.ReselectTunnel | src/stremioguard/orchestrator.py:327-356 | escalation once under a narrow filter from half the budget, else restart at the cadence; a raising escalation is not remembered, a raising cadence restart is |
| Watchdog.Orchestrator.ContinueOutage | src/stremioguard/orchestrator.py:317-359 | later unhealthy ticks: scan from the cursor, trip on rejection or spent budget, otherwise reselect |
| Watchdog.Orchestrator.VerifyEgress | src/stremioguard/orchestrator.py:362-393 | one assessment per healthy tick, forced while an outage is open |
| Watchdog.Orchestrator.RecoverFromOutage | src/stremioguard/orchestrator.py:362-387 | a healthy tick in an outage: only SAFE closes it and may start services |
| Watchdog.Orchestrator.MonitorSteadyState | src/stremioguard/orchestrator.py:389-403 | a healthy tick outside an outage, where SAFE resets the debounce |
| Watchdog.Orchestrator.Watch | src/stremioguard/orchestrator.py:286-403 | one tick equals the specification for every environment |
| Watchdog.Orchestrator.LoopIteration | src/stremioguard/orchestrator.py:197-223 | error accounting, the stop from the third error in a row, one heartbeat per finished tick |
| Watchdog.Orchestrator.WatchLoop | src/stremioguard/orchestrator.py:197-223 | the loop over a script of ticks equals the specified run |
| WatchdogTick.TickExactly | src/stremioguard/orchestrator.py:286-430 | a tick, written branch by branch, equals its description by quantities: the status is the first failure among the calls that were due, each field and the appended log follow from what the tick met |
| WatchdogTick.TickAdds | src/stremioguard/orchestrator.py:286-430 | for every kind of event, exactly when a tick logs it and with which content |
| WatchdogProgress.StartsExactlyWhen | src/stremioguard/orchestrator.py:361-403 | a tick starts the services it lists exactly when gluetun is healthy, the assessment SAFE and the services found down; how the start goes is how the tick goes |
| WatchdogProgress.RestartsExactlyWhen | src/stremioguard/orchestrator.py:327-356 | in an open outage inside its budget: exactly when gluetun is restarted, exactly when relaxed, and what pacing and escalation remember for every outcome |
| WatchdogProgress.OpeningRestartsExactlyWhen | src/stremioguard/orchestrator.py:296-315 | the first unhealthy tick restarts gluetun exactly when stop and scan answer without a rejection |
| WatchdogProgress.IterationExactly | src/stremioguard/orchestrator.py:197-223 | the same description of a loop iteration: status, counters, tick number and log |
| WatchdogProgress.IterationAdds | src/stremioguard/orchestrator.py:197-223 | exactly when an iteration logs each kind of event |
| WatchdogProgress.HistoryExactly | src/stremioguard/orchestrator.py:197-403 | for any run: the entries of a reached tick are exactly the events that occur in it from the state the ticks before it left |
| WatchdogProgress.HistoryOccurs | src/stremioguard/orchestrator.py:197-403 | every entry of any run's history occurs in the reached tick of its number |
| WatchdogProgress.SafeTicksStartServices | src/stremioguard/orchestrator.py:361-403 | in every run, every tick judged SAFE has its start entry exactly when its running check answers false, and a raising start is the error of that tick |
| WatchdogProgress.RestartsKeepPace | src/stremioguard/orchestrator.py:290-356 | a lower bound over runs: after any history, while gluetun stays down with gaps of at most delta, nothing raises or is rejected and the budget lasts, every moment after the first, and so every later restart, has a restart less than cadence plus delta before it |
| WatchdogProgress.EscalatesInTime | src/stremioguard/orchestrator.py:327-347 | and under a narrow filter a relaxed restart less than delta after half the budget |
| WatchdogInvariant.WatchOnceKeeps | src/stremioguard/orchestrator.py:286-403 | from any invariant state, a tick with any replies ends with fields and log in agreement, all duties of the tick met or the breaker run to its end |
| WatchdogInvariant.LoopTickKeeps | src/stremioguard/orchestrator.py:197-223 | a loop iteration keeps the invariant or ends the process |
| WatchdogInvariant.RunKeeps | src/stremioguard/orchestrator.py:197-223 | so does any script whose clock does not go back |
| WatchdogTheorems.HistoryAccepted | src/stremioguard/orchestrator.py:197-403 | the log of every run is one the monitor accepts, so all log theorems below hold of every run |
| WatchdogTheorems.ServicesStartOnLiveProof | src/stremioguard/orchestrator.py:361-403 | every service start follows, in its own tick, a healthy observation and a SAFE judgement resting on the latest live probe, younger than the interval and from a later tick than every unhealthy observation and gluetun restart |
| WatchdogSafety.StartRests | src/stremioguard/orchestrator.py:361-403 | the same for any accepted log, with the witnesses |
| WatchdogTheorems.OutageFieldsTogether | src/stremioguard/orchestrator.py:296-301 | the outage fields are all set or all null together, and set exactly while some unhealthy observation has not been followed by SAFE |
| WatchdogTheorems.CountersMatchHistory | src/stremioguard/orchestrator.py:405-430 | after any run: debounce counter as the UNKNOWNs since the last reset, consecutive errors as the raising ticks since the last completed one, lifetime totals as emitted summaries plus the open window, with errors the raising ticks, drops the outages, IP failures the UNSAFE verdicts and the UNKNOWNs at or above the threshold |
| WatchdogTheorems.TripRunsToTheEnd | src/stremioguard/orchestrator.py:233-254 | in every run, once a trip begins, marker attempt, stop, gluetun stop and exit 78 follow in order and end the log |
| WatchdogTheorems.BreakerTripsExactlyWhen | src/stremioguard/orchestrator.py:286-359 | in an open outage a tick in which no call unwinds the process, whatever raises in it, exits exactly when it sees gluetun down, its scan answers, and credentials were rejected or the budget is spent; and with 78 |
| WatchdogTheorems.RaisingScanBlocksBreaker | src/stremioguard/orchestrator.py:318-325 | a tick whose scan raises never trips, at any elapsed time |
| WatchdogTheorems.OutageEndsByDeadline | src/stremioguard/orchestrator.py:291-359 | from the first unhealthy tick after any history: continuous unhealthiness with gaps of at most delta and answering scans exits 78 less than delta past the budget; stops and restarts may raise, but no call unwinds the process on its own |
| WatchdogTheorems.IterationOpensOutage | src/stremioguard/orchestrator.py:296-315 | the first unhealthy tick opens the outage at its own time although its stop or restart raises |
| WatchdogSafety.RestartBudget | src/stremioguard/orchestrator.py:312-356 | cadence times (restarts - raising escalations - 2) is below the budget, and times (restarts - 1) if nothing was relaxed |
| WatchdogSafety.RestartKinds | src/stremioguard/orchestrator.py:327-356 | restarts stay inside the budget, preferred ones come before relaxed ones, relaxed ones need a narrow filter and half the budget |
| WatchdogSafety.CompletedWithinBudget | src/stremioguard/orchestrator.py:323-325 | an unhealthy tick that completes is inside the budget |
| WatchdogSafety.ScansTileExactlyWhen | src/stremioguard/orchestrator.py:309-321 | once an unhealthy tick has scanned or completed, whether it then trips or raises, every wall time of the outage up to it was searched by an answered scan, exactly when every window whose scan raised was searched again |
| WatchdogSafety.SteadyScansTileExactlyWhen | src/stremioguard/orchestrator.py:309-321 | with a wall clock that does not go back: exactly when every raised scan had an empty window |
| WatchdogSafety.TailScannedOnlyAtOpening | src/stremioguard/orchestrator.py:308-310 | the tail before the outage is scanned in its first tick or never |
| WatchdogGap.RaisedScanLosesItsWindow | src/stremioguard/orchestrator.py:317-321 | a run of three ticks whose second scan raises and whose window no scan ever searches |
| WatchdogSafety.RunIsTrailing | src/stremioguard/orchestrator.py:268-284 | the trailing run of UNKNOWNs never exceeds the counter |
| WatchdogSafety.CounterIsUnknowns | src/stremioguard/orchestrator.py:256-284 | the counter is the UNKNOWNs since the last UNSAFE or steady SAFE; a recovery SAFE does not reset it |
| WatchdogSafety.LeakAndDebounceStop | src/stremioguard/orchestrator.py:256-284 | a leak, and any trailing run of threshold UNKNOWNs, has a stop issued in the same tick |
| WatchdogSafety.NonSafeNeverStarts | src/stremioguard/orchestrator.py:361-403 | no tick with a non-SAFE assessment starts services |
| WatchdogSafety.ThirdErrorStops | src/stremioguard/orchestrator.py:204-219 | the third raising tick in a row, and each one after it, is followed directly by a stop of all services, if by anything |
| WatchdogTheorems.ThirdErrorIsFollowedByStop | src/stremioguard/orchestrator.py:204-219 | in every run it is |
| WatchdogTheorems.OutageOpensWithStop | src/stremioguard/orchestrator.py:296-307 | in every run the observation that opens an outage is followed directly, in its tick, by a stop of listed services |
| WatchdogSafety.ErrorsAdd | src/stremioguard/orchestrator.py:199-208 | the error counter is the raising ticks since the last completed one |
| WatchdogSafety.FoldSums | src/stremioguard/orchestrator.py:405-430 | the monitor's sums are the sums over the emitted summaries |
| WatchdogSafety.IpFailuresCounted | src/stremioguard/orchestrator.py:256-284 | failures counted are the UNSAFE verdicts and the UNKNOWNs at or above the threshold, up to a stop still owed |
| HeartbeatSleep.SleepWithHeartbeat | src/stremioguard/orchestrator.py:225-231 | at most ceil(seconds/30) sleeps (exactly that many if none is late), each at most 30 s and followed by one heartbeat, and the whole interval has passed on return |
| HeartbeatSleep.Chunks | src/stremioguard/orchestrator.py:225-231 | the measure: the ceiling of remaining time over the chunk, zero once nothing remains |
| Lockout.Orchestrator.ClearVpnLockout | src/stremioguard/guard.py:163-175 | removes a marker, or raises and keeps it |
| Lockout.Orchestrator.WriteVpnLockout | src/stremioguard/guard.py:146-161 | writes the marker with its reason, or raises and leaves what was there |
| Lockout.Orchestrator.PreparePreflight | src/stremioguard/guard.py:620-672 | honours the marker first, launches gluetun, and reports ready only after a verified egress and a removed marker |
| Lockout.Orchestrator.Setup | src/stremioguard/orchestrator.py:87-117 | setup with or without reset, including handing recovery to the watchdog |
| Lockout.Orchestrator.Start | src/stremioguard/orchestrator.py:119-134 | start, which falls back to first-time setup without the right to recover |
| Lockout.Orchestrator.RunFailSafe | src/stremioguard/orchestrator.py:489-511 | the fail-safe equals its `try`/`except`/`finally` blocks: existing marker kept, services stopped although the write failed, an exit pending from the write raised afterwards |
| Lockout.FailSafeReports | src/stremioguard/orchestrator.py:489-511 | exactly when it reports success, when a stop is attempted and when a marker is there afterwards |
| Lockout.TripCompletes | src/stremioguard/orchestrator.py:243-254 | the trip's effect on the marker and the stops it issues, whichever calls fail |
| Breaker.TripBlocksComplete | src/stremioguard/orchestrator.py:243-254 | of any three calls nested like this each runs on what the one before left, and 78 replaces every failure |
| Supervision.PreflightExactly | src/stremioguard/guard.py:620-672 | exactly when a preflight is ready, hands recovery over, or raises instead, and what it has done by then |
| Supervision.ClearExactly | src/stremioguard/guard.py:163-175 | exactly when the marker is removed, and how a failed removal ends |
| Supervision.SetupStartsExactlyWhen | src/stremioguard/orchestrator.py:87-117 | exactly when setup, with or without reset, starts services, everything it did before, and that it ends as that start does; exactly when it succeeds without a start |
| Supervision.StartStartsExactlyWhen | src/stremioguard/orchestrator.py:119-134 | the same for start: never under a marker, with a build only on a first-time setup |
| Supervision.RefusedExactlyWhen | src/stremioguard/guard.py:117-144 | start exits, with 78, exactly when it gets as far as the marker and finds it; a reset never does |
| SupervisionSteps.StepExactly | src/stremioguard/cli/supervisor.py:410-456 | for every step: the state of the unit, the marker, and whether services were started or stopped, each with its exact condition over the replies |
| SupervisionSteps.RestartRecovers | src/stremioguard/cli/commands/general.py:247-255 | from any lockout, after any steps that do not lift it, a supervised restart whose tunnel is verified or handed over ends unlocked and with the watchdog in its loop, and starts services exactly when verified and built |
| Supervision.LockoutInvariant | src/stremioguard/orchestrator.py:160-177 | over every run of steps: no watchdog loop under a marker, and no service start was ever issued under one |
| Supervision.LockoutLatch | src/stremioguard/guard.py:117-144 | a marker stays, with its reason, through any steps but restart and confirmed unlock, while nothing is started |
| Supervision.StepKeepsLock | src/stremioguard/orchestrator.py:489-511 | the same for a single step, fail-safe included |
| Supervision.TripLocks | src/stremioguard/cli/supervisor.py:191-218 | after a trip the unit is failed and the marker is missing only if both writes failed |
| Supervision.ResetLiftsExactlyWhen | src/stremioguard/orchestrator.py:87-117 | a reset lifts the marker exactly when its preflight ends verified or handed over and the file can be removed |
| Supervision.SetupStartsVerified | src/stremioguard/orchestrator.py:87-117 | setup starts services only directly after a verification in the same command and without a marker |
| Supervision.StartStartsVerified | src/stremioguard/orchestrator.py:119-134 | so does start |
| Supervision.PreflightAdds | src/stremioguard/guard.py:620-672 | a preflight starts no services; when ready, the verification is its last effect but for the marker's removal |
| Supervision.CommandsNeverStartLocked | src/stremioguard/cli/commands/general.py:236-255 | start and restart never add a start under a marker |
| Patching.SpliceIsExact | src/stremioguard/overrides/_patching.py:17-45 | replacing keeps the pieces between the non-overlapping sites and joins them by the replacement; counting counts those sites |
| Patching.EmptyAnchorIsEverywhere | src/stremioguard/overrides/_patching.py:17-45 | an empty anchor counts, and is replaced, before every character and at the end |
| Patching.EditIsExact | src/stremioguard/overrides/_patching.py:17-45 | the edit replaces exactly the expected sites of the first matching anchor and nothing else, with the exact length |
| Patching.RaisesExactlyWhen | src/stremioguard/overrides/_patching.py:17-45 | it raises exactly when nothing known is present or the deciding anchor has the wrong count |
| Patching.StableExactlyWhen | src/stremioguard/overrides/_patching.py:17-45 | exactly which texts the edit leaves as they are |
| Patching.AppearsExactlyAcross | src/stremioguard/overrides/_patching.py:17-45 | a text absent from the content is in the edited text exactly when it reads across an inserted replacement |
| Patching.IdempotentExactlyWhen | src/stremioguard/overrides/_patching.py:17-45 | exactly when a second edit changes nothing, over content and candidates: which earlier anchors and replacements read across an insertion; always with one candidate |
| Patching.ApartIsIdempotent | src/stremioguard/overrides/_patching.py:17-45 | candidates whose anchors share no aligned character with later replacements make every content idempotent |
| Patching.SecondRenderChangesText | src/stremioguard/overrides/_patching.py:17-45 | two concrete candidates under which a second render changes the text again |
| Patching.CountPositive | src/stremioguard/overrides/_patching.py:17-45 | an anchor is present exactly when it is counted at least once |
| Bundle.GatewayRequirements | src/stremioguard/overrides/bundle.py:176-183 | what the publisher's check asks of the shipped specs with the gateway off and on, and that the latter is the former and three files |
| Bundle.StateDir.WriteOverrideBundle | src/stremioguard/overrides/bundle.py:186-258 | files, manifest and outcome of a write equal the specification for every rendering, write and unlink reply |
| Bundle.BundleAgreement | src/stremioguard/overrides/bundle.py:186-258 | once the manifest is written: its outputs are exactly the spec files on disk, applied and skipped partition the specs, and the write returns normally exactly when the publisher will accept it |
| Bundle.BrokenOffKeepsManifest | src/stremioguard/overrides/bundle.py:205-242 | a write that breaks off earlier fails and keeps the old manifest |
| Bundle.BrokenOffCoherentExactlyWhen | src/stremioguard/overrides/bundle.py:205-242 | exactly when manifest and files still agree after a broken-off write, over the replies of its turns and the files it found: up to the break it rendered only listed outputs of the same image and skipped only specs without a file |
| Bundle.WriteEffect | src/stremioguard/overrides/bundle.py:208-242 | the file of every spec after any write, by the replies of its turns, and whether the manifest is reached |
| Bundle.ManifestReachedExactlyWhen | src/stremioguard/overrides/bundle.py:208-242 | exactly when a write of the shipped specs gets to its manifest |
| Bundle.ReturnsExactlyWhen | src/stremioguard/overrides/bundle.py:251-258 | exactly when such a write returns normally: every required spec was rendered and written |
| Bundle.ShippedSpecsDistinct | src/stremioguard/overrides/bundle.py:60-148 | the shipped specs have distinct names and output names |
| Bundle.StreamAlwaysRequired | src/stremioguard/overrides/bundle.py:151-173 | no manifest is ever written without `stream.py` and `media_search.py`, gateway or not |
| Comet.CometManager.SaveState | src/stremioguard/comet/manager.py:107-109 | the state is replaced as a whole or not at all |
| Comet.CometManager.Validate | src/stremioguard/comet/manager.py:589-651 | a digest's validation: ordinary errors become a failed report, a pull failure raises |
| Comet.CometManager.BootstrapActiveDigest | src/stremioguard/comet/manager.py:653-723 | the bootstrap step by step, with the state left by each call that fails |
| Comet.CometManager.WriteStackOverride | src/stremioguard/publishing.py:163-258 | what is published, and that nothing is without an acceptable manifest |
| Comet.CometManager.Prepare | src/stremioguard/comet/manager.py:725-759 | bootstrap if needed, inspect, reuse or render the bundle, publish |
| Comet.CometManager.ComposeFreshUp | src/stremioguard/comet/manager.py:564-568 | publish, then issue the `up` |
| Comet.CometManager.ResolveRemoteDigest | src/stremioguard/comet/manager.py:807-821 | remote digest, and the recorded check time |
| CometRuns.AdvisoryChecksDayApart | src/stremioguard/comet/manager.py:784-821 | over any run without explicit update commands, any two recorded upstream checks are at least 24 hours apart |
| Comet.CometManager.StartStack | src/stremioguard/comet/manager.py:775-782 | prepare, check compatibility and addresses, bring up, advise |
| Comet.CometManager.UpdateCheck | src/stremioguard/cli/commands/comet_update.py:47-94 | the check command, with the candidate it records |
| Comet.CometManager.ActivateAndRestart | src/stremioguard/comet/manager.py:864-876 | save first, then prepare, check and bring up |
| Comet.CometManager.PromoteCandidate | src/stremioguard/comet/manager.py:848-876 | re-validation, then the swap |
| Comet.CometManager.UpdateApply | src/stremioguard/cli/commands/comet_update.py:97-127 | the guards of `apply` before a promotion |
| Comet.CometManager.UpdateRollback | src/stremioguard/cli/commands/comet_update.py:130-156 | the guards of `rollback` before the swap back |
| Comet.GluetunGuard.StartServices | src/stremioguard/guard.py:704-719 | the guard's own `up`: publish whatever bundle is on disk, inspect nothing |
| CometProgress.BootstrapAdoptsExactly | src/stremioguard/comet/manager.py:653-723 | which digest a first install adopts: the newest exactly when it passes and is kept (degraded, with a terminal, only if accepted), the tested one exactly when the newest failed or was declined and the tested one passes, else none and a failure |
| CometProgress.PublishExactly | src/stremioguard/publishing.py:163-258 | exactly when publishing succeeds, and what is published then |
| CometProgress.PreparesExactlyWhen | src/stremioguard/comet/manager.py:725-759 | exactly when a preparation completes, and the digest, bundle and override it leaves |
| CometProgress.StartBringsUpExactlyWhen | src/stremioguard/comet/manager.py:775-782 | exactly when start issues its one `up`, of what it prepared, and exactly when it succeeds |
| CometProgress.AdvisoryExactly | src/stremioguard/comet/manager.py:784-821 | exactly when the advisory check records its time, and that only an exit gets out of it |
| CometProgress.CheckRecordsExactlyWhen | src/stremioguard/cli/commands/comet_update.py:47-94 | exactly when an update check records which candidate and check time, and when it succeeds |
| CometProgress.ActivationBringsUpExactlyWhen | src/stremioguard/comet/manager.py:864-876 | exactly when an activation issues its one `up`, of the new state, and when it succeeds |
| CometProgress.ApplySucceedsExactlyWhen | src/stremioguard/cli/commands/comet_update.py:97-127 | exactly when `apply` brings up the candidate, when it succeeds, and when it exits 1 |
| CometProgress.RollbackExactlyWhen | src/stremioguard/cli/commands/comet_update.py:130-156 | exactly when `rollback` swaps, brings up and succeeds |
| CometRuns.RunKeepsInv | src/stremioguard/comet/manager.py:653-894 | over every run of commands, the guard's included: active and previous digests passed validation, active never becomes null again and differs from previous and from the candidate, every `up` is sound |
| CometRuns.CandidateMayBePrevious | src/stremioguard/cli/commands/comet_update.py:47-94 | a candidate can be the previous digest |
| CometRuns.EveryUpRunsItsOwnBundle | src/stremioguard/publishing.py:163-258 | every `up` of Comet, the guard's included, runs the active, validated digest of the repository, pinned, with the mounts of a manifest that has every required patch; one that inspected its image has the manifest of that very image and the current shape |
| CometRuns.EveryUpMountsOwnFilesExactlyWhen | src/stremioguard/comet/manager.py:725-759 | exactly when all files an `up` mounts were rendered from the manifest's image, over the replies of the writes that broke off since |
| CometRuns.GuardUpSoundExactlyWhen | src/stremioguard/guard.py:704-719 | the guard's `up` is as sound as Comet's own exactly when the manifest is of the image the active reference resolves to, and of the current shape |
| CometRuns.EveryGuardUpSoundExactlyWhen | src/stremioguard/guard.py:704-719 | the same of every `up` the guard issued in any run from a fresh install |
| CometRuns.GuardUpAfterPreparation | src/stremioguard/guard.py:638-650 | which it is after a completed preparation, through any commands that leave digest and bundle alone |
| CometFindings.GuardMountsOtherPatches | src/stremioguard/guard.py:704-719 | a run in which the guard brings up an image with another image's patches |
| CometRuns.CheckTouchesNothingLive | src/stremioguard/cli/commands/comet_update.py:47-94 | an update check changes only candidate, check time and validation history |
| CometRuns.ApplyAllOrNothing | src/stremioguard/cli/commands/comet_update.py:97-127 | exactly when `apply` swaps in the candidate; otherwise digests, bundle, override and containers stay; success means the candidate was brought up |
| CometRuns.ActivateInstalls | src/stremioguard/comet/manager.py:864-876 | a failed save changes nothing, a successful one installs the new state whatever fails after it |
| CometRuns.RollbackSwaps | src/stremioguard/comet/manager.py:878-894 | a rollback that saves swaps active and previous, always to a different image |
| CometRuns.RollbackUndoesPromotion | src/stremioguard/comet/manager.py:848-894 | promotion, any other commands, rollback: the old digest is active again, even if later steps failed |
| CometRuns.RollbackTwice | src/stremioguard/comet/manager.py:878-894 | two rollbacks are the identity on active and previous |
| CometRuns.NeutralRunKeepsDigests | src/stremioguard/comet/manager.py:725-846 | no command but promotion and rollback moves an existing active or previous digest |
| CometRuns.MissedPatchIsRejected | src/stremioguard/comet/manager.py:393-407 | a write that reaches its manifest leaves a bundle the cache accepts and the publisher rejects exactly when a required patch was not rendered and written |
| CometRuns.RetryComesUpExactlyWhen | src/stremioguard/comet/manager.py:735-759 | a retry in which nothing fails comes up exactly when the bundle on disk is not such a one |
| CometFindings.FirstInstallCanStick | src/stremioguard/comet/manager.py:725-759 | a fresh install that reaches such a bundle by one failed render |
| CometRuns.RejectedBundleSticks | src/stremioguard/comet/manager.py:735-759 | repeating the same start or preparation never renders it again and changes nothing |
| CometRuns.TornWriteMountsForeignFile | src/stremioguard/comet/manager.py:393-407 | after any promotion interrupted past its first file the rollback mounts that file of the other image |
| CometFindings.RollbackMountsForeignFile | src/stremioguard/comet/manager.py:848-894 | a run of a fresh deployment in which this happens |
| Dotenv.EnvFile.WriteEnvSettings | src/stremioguard/env.py:45-55 | the file after writing equals the specification, or an error leaves it as it was; plain settings read back through `env_file_value` |
| Dotenv.RoundTripExactlyWhen | src/stremioguard/env.py:31-55 | exactly for which values a written key reads back its stripped value |
| Dotenv.InnerReturnIsLost | src/stremioguard/env.py:31-55 | a concrete value with a carriage return that does not read back |
| Dotenv.EscapeIsLost | src/stremioguard/env.py:50-52 | a concrete value with a backslash that does not read back once its key has a line |
| Dotenv.NumericEscapes | src/stremioguard/env.py:50-52 | what the regular-expression library makes of a backslash and digits in the replacement: one character by its octal number, or an error |
| Dotenv.OtherKeysUntouched | src/stremioguard/env.py:45-55 | under the condition of the round trip every other key reads as before |
| Dotenv.OtherKeysUntouchedExactlyWhen | src/stremioguard/env.py:45-55 | for any value: exactly when another key reads as before |
| Dotenv.OtherLinesSurvive | src/stremioguard/env.py:45-55 | for any value: the first line of the key is replaced where it stands, or the new line goes behind the last line that is not blank, and every other line stays in order |
| Dotenv.SettingsRoundTrip | src/stremioguard/env.py:31-55 | for distinct keys and plain values: every key reads back, other keys are untouched, writing again changes nothing |
| Dotenv.AllHold | src/stremioguard/env.py:45-55 | after writing, every key holds exactly its own line |
| Dotenv.Settled | src/stremioguard/env.py:45-55 | a file that holds the settings is left as it is |
| Dotenv.ExpansionShortens | src/stremioguard/env.py:50-54 | an expanded template differs from the value even after stripping |
| Tokens.CometGatewayManager.RenderTokensMap | src/stremioguard/comet_gateway.py:224-236 | the map's lines, one per token with a value, in order |
| Tokens.CometGatewayManager.DrawTokenId | src/stremioguard/comet_gateway.py:117-119 | redrawing ends at the first free id, and otherwise only when the process is interrupted |
| Tokens.CometGatewayManager.AddToken | src/stremioguard/comet_gateway.py:113-131 | store and map after an add, and after either write fails |
| Tokens.CometGatewayManager.RevokeToken | src/stremioguard/comet_gateway.py:133-147 | the same for a revocation |
| Tokens.CometGatewayManager.RotateToken | src/stremioguard/comet_gateway.py:149-162 | the same for a rotation, whose deletion is saved first |
| Tokens.CometGatewayManager.UseToken | src/stremioguard/comet_gateway.py:164-175 | the same for a change of default |
| Tokens.Oldest | src/stremioguard/comet_gateway.py:103-109 | earliest creation time, first inserted among equals |
| Tokens.DefaultIsLive | src/stremioguard/comet_gateway.py:103-175 | over every run, failures included: the default is null exactly when the store is empty and otherwise names a live token |
| Tokens.AddIssuesExactly | src/stremioguard/comet_gateway.py:113-131 | exactly when a token is on record, with a free drawn id, and becomes the default; what a completed add answers is let in |
| Tokens.RevokeDropsExactly | src/stremioguard/comet_gateway.py:133-147 | exactly when a revocation happens and completes: one token goes, the others keep their order, and another default stays |
| Tokens.RotateIssuesExactly | src/stremioguard/comet_gateway.py:149-162 | exactly when a rotation completes, and that the value it answers is let in |
| Tokens.UseSetsDefaultExactly | src/stremioguard/comet_gateway.py:164-175 | a change of default sets exactly the chosen token, and changes no token and no map entry |
| Tokens.RevokePromotesOldest | src/stremioguard/comet_gateway.py:133-147 | revoking the default promotes the earliest survivor |
| Tokens.RotatePreserves | src/stremioguard/comet_gateway.py:149-162 | a completed rotation keeps count, label, default status and all other tokens |
| Tokens.MapAcceptsExactlyLive | src/stremioguard/comet_gateway.py:224-236 | the rendered map marks exactly the non-empty live values as valid |
| Tokens.CompletedIsInSync | src/stremioguard/comet_gateway.py:368-373 | after any completed operation the map accepts exactly the live tokens, whatever failed before |
| Tokens.StillAcceptedAfterRevoke | src/stremioguard/comet_gateway.py:133-147 | exactly when a revoked token is still accepted |
| Tokens.StillAcceptedAfterRotate | src/stremioguard/comet_gateway.py:149-162 | exactly when a rotated-out token is still accepted |
| Tokens.RevokedButAccepted | src/stremioguard/comet_gateway.py:133-147 | a concrete revocation whose nginx write fails |
| Tokens.RotatedOutButAccepted | src/stremioguard/comet_gateway.py:149-162 | a concrete rotation whose second save fails: the token is in no store, and accepted |
| Ports.ParseIpv4Csv | src/stremioguard/config.py:281-298 | the deduplicating loop |
| Ports.CollectExactly | src/stremioguard/config.py:281-298 | it fails exactly on an item that is no IPv4 address, and otherwise lists each address exactly once |
| Ports.CheckPorts | src/stremioguard/config.py:398-407 | the pairwise loop finds a collision exactly when two ports are equal |
| Ports.RenderGluetunPorts | src/stremioguard/publishing.py:51-65 | every address with every mapping, then the extra lines; nothing at all is told apart |
| Ports.PublishPorts | src/stremioguard/publishing.py:68-97 | the mappings of an accepted configuration, or the refusal |
| Ports.AcceptedNeverCollides | src/stremioguard/config.py:388-409 | no two published mappings claim the same host port on overlapping addresses |
| Ports.CollidesExactlyWhen | src/stremioguard/publishing.py:68-97 | which settings make two published mappings collide, for every combination of services, gateway and addresses |
| Ports.NeedlesslyRefusedExactlyWhen | src/stremioguard/config.py:388-409 | exactly which configurations the checks refuse although nothing would collide |
| Ports.RefusedWithoutCollision | src/stremioguard/config.py:398-407 | a concrete one: Stremio is off, and its unused port equals Comet's |
| Ports.ChecksAreExactWithoutGateway | src/stremioguard/config.py:388-409 | with both services on some address and no gateway the checks refuse exactly the colliding configurations |
| Ports.PublishedExactly | src/stremioguard/publishing.py:68-97 | the published mappings, exactly: address, host port and the container port it leads to |
| Ports.HostPortDecidesContainer | src/stremioguard/publishing.py:83-95 | in an accepted configuration each published host port leads to one container port: Stremio's own, 8000 for Comet, 8090 for the gateway |
| Ports.RawCometOnLoopbackOnly | src/stremioguard/publishing.py:83-95 | with the gateway, Comet's own host port is published on 127.0.0.1 only; other mappings to its container port are not covered here |
| Ports.RawCometIsLocalExactlyWhen | src/stremioguard/publishing.py:68-97 | with the gateway, every mapping to container port 8000 is on 127.0.0.1, exactly unless Stremio's container port is 8000 too and Stremio is published elsewhere |
| Ports.StremioMappingReachesRawComet | src/stremioguard/config.py:388-409 | a concrete configuration that the checks accept and that publishes raw Comet on another address |
| Packs.Orchestrator.RecordPackBackedCandidate | src/stremioguard/overrides/orchestration.py:56-82 | one call of the recorder |
| Packs.PackBackedExactlyWhen | src/stremioguard/overrides/orchestration.py:56-82 | a hash is marked exactly when a call flagged a season pack or the other calls differ in episode or in index |
| Packs.OrderDoesNotMatter | src/stremioguard/overrides/orchestration.py:56-82 | order and repetition of calls do not matter |
| Packs.NothingMarkedElsewhere | src/stremioguard/overrides/orchestration.py:64-65 | outside a series episode search nothing is marked |

## Left out

- Docker, Compose, probes, sockets, `systemctl`, clocks and random draws are oracles; what a stop or start did to a container is not claimed, only that the call was issued.
- The services a tick works on, and whether they run, are oracle replies; `container_missing` is never incremented by the program and has no field.
- An auth-log scan that answers searches its whole time window: the `--tail` limit of 50 or 100 lines is not modelled, nor that a scan also answers, with no rejection found, when gluetun has no container or its log cannot be read.
- Lockout commands are atomic steps, and the fail-safe runs as part of the unit entering the failed state; finer interleavings, in which a preflight clears a marker written after its own check, are not modelled, nor are retries of the fail-safe unit.
- Direct `comet start` and `comet update` do not consult the marker and are outside the latch; they are part of the Comet runs only.
- systemd's backoff formula, start limits as numbers, file permissions, and the steps inside an atomic rename.
- An oracle that exits stands for SystemExit or KeyboardInterrupt, which `except Exception` does not catch; `typer.Exit`, which it does, is raised only by the breaker and by the commands' own guards, as no call inside those blocks raises it.
- Comet.CometManager.Validate: render, compile, import smoke test and ephemeral boot are one oracle with a pass or fail answer; `validate_compatibility` is another, without its own cache.
- Digests are non-empty strings; a state file damaged or edited from outside, which is read as an empty state, is not modelled.
- The content of rendered patches: a renderer is an oracle that returns text, nothing or an error; only the splice engine and the rank contract are modelled.
- nginx configuration, the JavaScript patches, logging text, interactive setup, URL helpers, metadata lookup and the resolver.
- Dotenv.Escape: `\g<0>` is an error here; the program replaces it by the whole old line.
- Dotenv.RoundTripExactlyWhen: keys contain no line break, `=` or backslash, as no caller writes such a key; a backslash in a key would be expanded like one in the value.
- Creation times of tokens are integer seconds; their ISO form sorts the same way.
- Ports.ParseIpv4Csv: works on items already split and parsed as addresses; IPv6 and malformed items are one kind of refusal.

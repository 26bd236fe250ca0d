/** The egress verification of `GluetunGuard`: a live decision, and the cache over it. */
module Egress {
  import opened Replies

  /** A parsed address in canonical text, with its IP family (4 or 6). */
  datatype Addr = Addr(text: string, version: int)

  datatype Verdict = Safe | Unsafe | Unknown

  /** The control server either rejects the route for good, or reports a snapshot. */
  datatype ControlReply = Rejected | Snapshot(ip: Option<Addr>)

  /** Replies met by one assessment, in call order. `host` lists the parsed answer of
      each check URL; unreachable and malformed answers are `None`. */
  datatype Probes = Probes(
    control: Reply<ControlReply>,
    egress: Reply<Option<Addr>>,
    home: Reply<Option<Addr>>,
    host: Reply<seq<Option<Addr>>>)

  datatype Config = Config(interval: Positive, expected: Option<string>)

  /** The guard's fields. Only SAFE outcomes are cached. */
  datatype Cache = Cache(
    egress: Option<Addr>,
    control: Option<Addr>,
    probedAt: real,
    controlFailed: bool,
    lastObserved: Option<Addr>)

  const Fresh := Cache(None, None, 0.0, false, None)

  /** Whether a live probe was begun, and what it decided. */
  datatype Probe = Idle | Live(verdict: Verdict) | Broken

  datatype Assessment = Assessment(cache: Cache, reply: Reply<Verdict>, probe: Probe)

  // ----- The live decision -----

  /** The first answer of the wanted family: another family could never match. */
  function HostIp(answers: seq<Option<Addr>>, version: int): (r: Option<Addr>)
    ensures r.Some? ==> r in answers && r.value.version == version
    ensures r.None? <==> forall a <- answers :: a.Some? ==> a.value.version != version
  {
    if answers == [] then None
    else if answers[0].Some? && answers[0].value.version == version then answers[0]
    else HostIp(answers[1..], version)
  }

  function Decide(expected: Option<string>, egress: Addr, host: Option<Addr>, home: Option<Addr>): Verdict {
    if host == Some(egress) then Unsafe
    else if host.None? && home.None? then Unknown
    else if Truthy(expected) && egress.text != expected.value then Unsafe
    else if home == Some(egress) then Unsafe
    else Safe
  }

  /** What must be shown for an egress to be trusted: it is neither the address the host
      answers from nor the recorded baseline, one of the two is known, and it is the
      expected VPN address if one is configured. */
  predicate ShownApart(expected: Option<string>, egress: Addr, host: Option<Addr>, home: Option<Addr>) {
    && host != Some(egress) && home != Some(egress)
    && (host.Some? || home.Some?)
    && (Truthy(expected) ==> egress.text == expected.value)
  }

  /** Control-server address used by this call; a rejected route stays unused for the run. */
  function ControlIp(cache: Cache, r: ControlReply): Option<Addr> {
    if cache.controlFailed || r.Rejected? then None else r.ip
  }

  function AfterControl(cache: Cache, r: ControlReply): Cache {
    if cache.controlFailed then cache else cache.(controlFailed := r.Rejected?)
  }

  predicate Due(c: Config, cache: Cache, force: bool, control: Option<Addr>, now: real) {
    force || cache.egress.None? || control != cache.control || now - cache.probedAt >= c.interval as real
  }

  /** The uncached probe: what the call would answer with no cache at all. */
  function LiveProbe(c: Config, p: Probes): Reply<Verdict> {
    var egress :- p.egress;
    if egress.None? then Answer(Unknown) else
      var home :- p.home;
      var answers :- p.host;
      Answer(Decide(c.expected, egress.value, HostIp(answers, egress.value.version), home))
  }

  /** One call of `public_ip_assessment`. */
  function Assess(c: Config, cache0: Cache, force: bool, now: real, p: Probes): Assessment {
    if !cache0.controlFailed && p.control.IsFailure() then
      Assessment(cache0, p.control.PropagateFailure(), Idle)
    else
      var answer := if cache0.controlFailed then Rejected else p.control.value;
      var control := ControlIp(cache0, answer);
      var cache := AfterControl(cache0, answer);
      if !Due(c, cache, force, control, now) then Assessment(cache, Answer(Safe), Idle) else
        var live := LiveProbe(c, p);
        var observed := if p.egress.Answer? && p.egress.value.Some? then p.egress.value else cache.lastObserved;
        var cleared := cache.(egress := None, lastObserved := observed);
        if live.IsFailure() then Assessment(cleared, live, Broken)
        else if live.value != Safe then Assessment(cleared, live, Live(live.value))
        else Assessment(cleared.(egress := p.egress.value, control := control, probedAt := now), live, Live(Safe))
  }

  /** The guard object: the cache fields and the method that updates them. */
  class GluetunGuard {
    const config: Config
    var verifiedEgress: Option<Addr>
    var verifiedControl: Option<Addr>
    var lastProbeTime: real
    var controlServerFailed: bool
    var lastObservedIp: Option<Addr>

    constructor (config: Config)
      ensures this.config == config && View() == Fresh
    {
      this.config := config;
      verifiedEgress, verifiedControl, lastProbeTime := None, None, 0.0;
      controlServerFailed, lastObservedIp := false, None;
    }

    ghost function View(): Cache
      reads this
    {
      Cache(verifiedEgress, verifiedControl, lastProbeTime, controlServerFailed, lastObservedIp)
    }

    method ControlServerIp(reply: Reply<ControlReply>) returns (r: Reply<Option<Addr>>)
      modifies this`controlServerFailed
      ensures r.IsFailure() <==> !old(controlServerFailed) && reply.IsFailure()
      ensures r.IsFailure() ==> r == reply.PropagateFailure() && unchanged(this)
      ensures r.Answer? && old(controlServerFailed) ==> r.value == None && unchanged(this)
      ensures r.Answer? && !old(controlServerFailed) ==>
                r.value == ControlIp(old(View()), reply.value) && View() == AfterControl(old(View()), reply.value)
    {
      if controlServerFailed {
        return Answer(None);
      }
      var answer :- reply;
      match answer {
        case Rejected =>
          controlServerFailed := true;
          return Answer(None);
        case Snapshot(ip) =>
          return Answer(ip);
      }
    }

    method PublicIpAssessment(force: bool, now: real, p: Probes) returns (r: Reply<Verdict>, ghost probe: Probe)
      modifies this
      ensures Assessment(View(), r, probe) == Assess(config, old(View()), force, now, p)
      ensures probe.Live? ==> r == Answer(probe.verdict) && JudgesExactly(config, p, probe.verdict)
    {
      probe := Idle;
      var control := ControlServerIp(p.control);
      if control.IsFailure() {
        return control.PropagateFailure(), Idle;
      }
      var due := force || verifiedEgress.None? || control.value != verifiedControl
                 || now - lastProbeTime >= config.interval as real;
      if !due {
        return Answer(Safe), Idle;
      }
      verifiedEgress := None;
      if p.egress.IsFailure() {
        return p.egress.PropagateFailure(), Broken;
      }
      if p.egress.value.None? {
        return Answer(Unknown), Live(Unknown);
      }
      var egress := p.egress.value.value;
      lastObservedIp := Some(egress);
      if p.home.IsFailure() {
        return p.home.PropagateFailure(), Broken;
      }
      var home := p.home.value;
      if p.host.IsFailure() {
        return p.host.PropagateFailure(), Broken;
      }
      var host := HostIp(p.host.value, egress.version);
      if host == Some(egress) {
        return Answer(Unsafe), Live(Unsafe);
      }
      if host.None? && home.None? {
        return Answer(Unknown), Live(Unknown);
      }
      if Truthy(config.expected) && egress.text != config.expected.value {
        return Answer(Unsafe), Live(Unsafe);
      }
      if home == Some(egress) {
        return Answer(Unsafe), Live(Unsafe);
      }
      verifiedEgress, verifiedControl, lastProbeTime := Some(egress), control.value, now;
      return Answer(Safe), Live(Safe);
    }
  }

  // ----- The cache refines the live decision, over any sequence of calls -----

  datatype Call = Call(force: bool, now: real, probes: Probes)

  /** The cache before the n-th call: fresh, or what the previous call left behind. */
  function Before(c: Config, calls: seq<Call>, n: nat): Cache
    requires n <= |calls|
    decreases n, 0
  {
    if n == 0 then Fresh else At(c, calls, n - 1).cache
  }

  /** The outcome of the n-th call of the sequence. */
  function At(c: Config, calls: seq<Call>, n: nat): Assessment
    requires n < |calls|
    decreases n, 1
  {
    Assess(c, Before(c, calls, n), calls[n].force, calls[n].now, calls[n].probes)
  }

  /** The control address the n-th call saw. */
  function ControlAt(c: Config, calls: seq<Call>, n: nat): Option<Addr>
    requires n < |calls|
  {
    var cache := Before(c, calls, n);
    if cache.controlFailed || !calls[n].probes.control.Answer? then None
    else ControlIp(cache, calls[n].probes.control.value)
  }

  /** The most recent call before the n-th that probed live. */
  function LastLive(c: Config, calls: seq<Call>, n: nat): (m: Option<nat>)
    requires n <= |calls|
    ensures m.Some? ==> m.value < n && !At(c, calls, m.value).probe.Idle?
    ensures forall k | 0 <= k < n && (m.Some? ==> m.value < k) :: At(c, calls, k).probe.Idle?
  {
    if n == 0 then None
    else if !At(c, calls, n - 1).probe.Idle? then Some(n - 1)
    else LastLive(c, calls, n - 1)
  }

  /** The cache is non-empty exactly when the most recent live probe was SAFE, and then
      it holds that probe's time and control address. */
  lemma {:induction false} CacheHoldsLastLive(c: Config, calls: seq<Call>, n: nat)
    requires n <= |calls|
    ensures var m := LastLive(c, calls, n);
            var cache := Before(c, calls, n);
            && (cache.egress.Some? <==> m.Some? && At(c, calls, m.value).probe == Live(Safe))
            && (cache.egress.Some? ==>
                  cache.probedAt == calls[m.value].now && cache.control == ControlAt(c, calls, m.value))
  {
    if n > 0 {
      CacheHoldsLastLive(c, calls, n - 1);
    }
  }

  /** The cached assessment refines the uncached one. A call that probes live answers
      the live decision and leaves the cache non-empty exactly when that is SAFE. A call
      does not probe exactly when the control server raises, or when it is not forced and the
      most recent live decision was SAFE, is younger than the interval, and saw the same
      control address; it then answers SAFE. */
  lemma CachedAssessmentRefinesLive(c: Config, calls: seq<Call>, n: nat)
    requires n < |calls|
    ensures var a := At(c, calls, n);
            var live := LiveProbe(c, calls[n].probes);
            var m := LastLive(c, calls, n);
            var asked := !Before(c, calls, n).controlFailed;
            && (a.probe.Idle? <==>
                  || (asked && calls[n].probes.control.IsFailure())
                  || (!calls[n].force && m.Some? && At(c, calls, m.value).probe == Live(Safe)
                      && calls[n].now - calls[m.value].now < c.interval as real
                      && ControlAt(c, calls, n) == ControlAt(c, calls, m.value)))
            && (a.probe.Idle? && asked && calls[n].probes.control.IsFailure() ==> a.reply.IsFailure())
            && (a.probe.Live? ==>
                  a.reply == live == Answer(a.probe.verdict) && (a.cache.egress.Some? <==> live.value == Safe))
            && (a.probe.Broken? ==> a.reply == live && live.IsFailure() && a.cache.egress.None?)
            && (a.probe.Idle? && a.reply.Answer? ==>
                  && a.reply.value == Safe
                  && !calls[n].force
                  && m.Some?
                  && LiveProbe(c, calls[m.value].probes) == Answer(Safe)
                  && calls[n].now - calls[m.value].now < c.interval as real
                  && ControlAt(c, calls, n) == ControlAt(c, calls, m.value))
  {
    CacheHoldsLastLive(c, calls, n);
  }

  /** A rejected control route is remembered: it is in use exactly as long as no call has
      been told that the server rejects it, and no later call sees its address. */
  lemma {:induction false} RejectedRouteStaysUnused(c: Config, calls: seq<Call>, n: nat)
    requires n <= |calls|
    ensures Before(c, calls, n).controlFailed <==> exists m :: 0 <= m < n && calls[m].probes.control == Answer(Rejected)
    ensures n < |calls| && Before(c, calls, n).controlFailed ==> ControlAt(c, calls, n).None?
    ensures n < |calls| && !Before(c, calls, n).controlFailed ==>
              var control := calls[n].probes.control;
              control.Answer? && control.value.Snapshot? ==> ControlAt(c, calls, n) == control.value.ip
  {
    if n > 0 {
      RejectedRouteStaysUnused(c, calls, n - 1);
      if calls[n - 1].probes.control == Answer(Rejected) {
        assert 0 <= n - 1 < n;
      }
    }
  }

  /** The egress address last seen is that of the most recent call whose probe got one. */
  lemma {:induction false} LastObservedIsLatest(c: Config, calls: seq<Call>, n: nat)
    requires n <= |calls|
    ensures var seen := Before(c, calls, n).lastObserved;
            if seen.None? then forall k | 0 <= k < n :: !Observes(c, calls, k)
            else exists m :: 0 <= m < n && Observes(c, calls, m) && calls[m].probes.egress.value == seen
                   && forall k | m < k < n :: !Observes(c, calls, k)
  {
    if n > 0 {
      LastObservedIsLatest(c, calls, n - 1);
      var seen := Before(c, calls, n - 1).lastObserved;
      if Observes(c, calls, n - 1) {
        assert calls[n - 1].probes.egress.value == Before(c, calls, n).lastObserved;
      } else {
        assert Before(c, calls, n).lastObserved == seen;
        if seen.Some? {
          var m :| 0 <= m < n - 1 && Observes(c, calls, m) && calls[m].probes.egress.value == seen
                   && forall k | m < k < n - 1 :: !Observes(c, calls, k);
          assert forall k | m < k < n :: !Observes(c, calls, k);
        }
      }
    }
  }

  /** The n-th call probed and was told an egress address. */
  predicate Observes(c: Config, calls: seq<Call>, n: nat)
    requires n < |calls|
  {
    !At(c, calls, n).probe.Idle? && calls[n].probes.egress.Answer? && calls[n].probes.egress.value.Some?
  }

  /** A call that raises never leaves more trust behind than it found. */
  lemma FailureKeepsNoNewTrust(c: Config, cache: Cache, force: bool, now: real, p: Probes)
    requires Assess(c, cache, force, now, p).reply.IsFailure()
    ensures var after := Assess(c, cache, force, now, p).cache;
            after.egress.None? || after == cache
  {
  }

  // ----- What a verdict means -----

  /** The verdict of a live probe in terms of the answers it got: an unanswered egress query is
      UNKNOWN; otherwise SAFE is exactly an egress shown apart, UNKNOWN exactly one with nothing
      to compare it with, and UNSAFE every other. */
  predicate JudgesExactly(c: Config, p: Probes, verdict: Verdict) {
    && p.egress.Answer?
    && (p.egress.value.None? ==> verdict.Unknown?)
    && (p.egress.value.Some? ==>
          && p.home.Answer? && p.host.Answer?
          && var egress, home := p.egress.value.value, p.home.value;
          && var host := HostIp(p.host.value, egress.version);
          && (verdict.Safe? <==> ShownApart(c.expected, egress, host, home))
          && (verdict.Unknown? <==> host.None? && home.None?)
          && (verdict.Unsafe? <==> (host.Some? || home.Some?) && !ShownApart(c.expected, egress, host, home)))
  }

  /** So judges every call that probes and gets its answers, whatever the cache held. */
  lemma LiveVerdictExactly(c: Config, cache: Cache, force: bool, now: real, p: Probes)
    ensures var a := Assess(c, cache, force, now, p);
            && (a.probe.Live? ==> a.reply == Answer(a.probe.verdict) && JudgesExactly(c, p, a.probe.verdict))
            && (a.probe.Broken? ==> p.egress.IsFailure() || (p.egress.value.Some? && (p.home.IsFailure() || p.host.IsFailure())))
  {
  }

  /** SAFE proves that the egress is not the host's own address of that family exactly
      when the host probe answered, or no baseline is recorded (then nothing is SAFE),
      or the baseline is that very address, or the expected VPN address differs from it.
      In particular a baseline of the other family proves nothing about this one. */
  lemma SafeExcludesHostAddress(expected: Option<string>, host: Option<Addr>, home: Option<Addr>, own: Addr)
    requires host.Some? ==> host.value == own
    ensures (forall egress :: Decide(expected, egress, host, home) == Safe ==> egress != own)
            <==> (host.Some? || home.None? || home.value == own || (Truthy(expected) && expected.value != own.text))
  {
    var _ := Decide(expected, own, host, home);
    assert Decide(expected, own, host, home) == Safe ||
           host.Some? || home.None? || home.value == own || (Truthy(expected) && expected.value != own.text);
  }

  /** The gap: the host probe is down and the baseline is IPv6, so an IPv4 egress equal
      to the host's own IPv4 address is judged SAFE. */
  lemma OtherFamilyBaselineIsNoProof()
    ensures var own := Addr("203.0.113.7", 4);
            var home := Addr("2001:db8::7", 6);
            Decide(None, own, HostIp([None], own.version), Some(home)) == Safe
  {
    assert HostIp([None], 4) == HostIp([None][1..], 4);
  }
}

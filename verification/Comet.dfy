/** The Comet image a deployment runs: which digest is active, how one is adopted, promoted
    and rolled back, and what each compose `up` is given. */
module Comet {
  import opened Replies
  import opened Bundle

  /** A digest or image id as Docker reports it, never empty. */
  type Digest = s: string | s != "" witness "sha256:0"

  datatype Candidate = Candidate(digest: Digest, passed: bool)

  /** `CometState`, the content of `state.json`. */
  datatype State = State(
    active: Option<Digest>, previous: Option<Digest>, candidate: Option<Candidate>, lastCheck: Option<int>)

  datatype ImageRef = Pinned(repo: string, digest: Digest) | Floating(repo: string)

  /** The settings one command runs under; they may differ from command to command. */
  datatype Config = Config(repo: string, enabled: bool, gateway: bool, shape: Shape)

  /** The Comet part of the compose override: image, and output name to container path. */
  datatype Section = Section(image: ImageRef, mounts: map<string, string>)

  datatype Override = Override(comet: Option<Section>)

  /** What `ensure_image` was asked and what it answered. */
  datatype Inspected = Inspected(ref: ImageRef, digest: Digest)

  /** A bundle write that broke off before its manifest: what it rendered, over which files. */
  datatype Attempt = Attempt(image: Digest, files: map<string, File>, rendering: Rendering)

  /** One compose `up`, with everything it was issued against. Comet's own commands inspect
      the image first; the guard's `up` does not. */
  datatype Up = Up(
    state: State, dir: Dir, broken: seq<Attempt>, published: Option<Override>, inspected: Option<Inspected>, config: Config)

  /** The deployment: persistent state, live bundle directory and published override; and
      its history: the writes that broke off since the last manifest, the `up`s issued so
      far, and the digests whose validation has passed so far. */
  datatype World = World(
    state: State, dir: Dir, published: Option<Override>, broken: seq<Attempt>, ups: seq<Up>, passed: set<Digest>)

  datatype Step<+T> = Step(w: World, result: Reply<T>)

  datatype Report = Report(passed: bool, degraded: bool)

  /** `attempt` is the whole render, compile and smoke test; its answer tells whether an
      optional patch was skipped. */
  datatype ValidateEnv = ValidateEnv(pull: Reply<()>, attempt: Reply<bool>)

  datatype BootstrapEnv = BootstrapEnv(
    pullLatest: Reply<()>, latest: Reply<Digest>, checkLatest: ValidateEnv,
    interactive: bool, accept: Reply<bool>,
    tested: Reply<Digest>, checkTested: ValidateEnv, save: Reply<()>)

  type Rendering = envs: seq<SpecEnv> | |envs| == |SPECS|
    witness seq(|SPECS|, i => SpecEnv(Raises, Done, Done, Done))

  datatype PublishEnv = PublishEnv(gather: Reply<()>, write: Reply<()>)

  datatype PrepareEnv = PrepareEnv(
    runtimeEnv: Reply<()>, bootstrap: BootstrapEnv, inspect: Reply<Digest>, readable: bool,
    extract: Reply<()>, rendering: Rendering, manifestWrite: Reply<()>, cleanup: Reply<()>, publish: PublishEnv)

  datatype RemoteEnv = RemoteEnv(remote: Reply<Option<Digest>>, now: int, save: Reply<()>)

  datatype UpEnv = UpEnv(publish: PublishEnv, up: Reply<()>)

  datatype StartEnv = StartEnv(
    commands: Reply<()>, prepare: PrepareEnv, compatibility: Reply<()>, binds: Reply<()>, up: UpEnv, advisory: RemoteEnv)

  datatype ActivateEnv = ActivateEnv(save: Reply<()>, prepare: PrepareEnv, compatibility: Reply<()>, up: UpEnv)

  datatype CheckEnv = CheckEnv(remote: RemoteEnv, validate: ValidateEnv, save: Reply<()>)

  datatype ApplyEnv = ApplyEnv(remote: RemoteEnv, validate: ValidateEnv, activate: ActivateEnv)

  const ADVISORY_CHECK_INTERVAL := 24 * 3600

  // ----- Specification -----

  function Save(w: World, s: State, save: Reply<()>): Step<()> {
    if save.IsFailure() then Step(w, save) else Step(w.(state := s), Done)
  }

  /** `_validate_digest`: an ordinary error is a failed report, not an error. */
  function ValidateDigest(w: World, digest: Digest, env: ValidateEnv): Step<Report> {
    if env.pull.IsFailure() then Step(w, env.pull.PropagateFailure())
    else match env.attempt
      case Answer(degraded) => Step(w.(passed := w.passed + {digest}), Answer(Report(true, degraded)))
      case Raises => Step(w, Answer(Report(false, false)))
      case Exits(code) => Step(w, Exits(code))
  }

  /** The maintainer-tested digest, when the newest image failed or was declined. */
  function AdoptTested(w: World, env: BootstrapEnv): Step<()> {
    if env.tested.IsFailure() then Step(w, Status(env.tested))
    else
      var v := ValidateDigest(w, env.tested.value, env.checkTested);
      if v.result.IsFailure() then Step(v.w, Status(v.result))
      else if !v.result.value.passed then Step(v.w, Raises)
      else Save(v.w, v.w.state.(active := Some(env.tested.value)), env.save)
  }

  /** `_bootstrap_active_digest` */
  function Bootstrap(w: World, env: BootstrapEnv): (s: Step<()>)
    ensures s.result.Answer? ==> s.w.state.active.Some?
  {
    if env.pullLatest.IsFailure() then Step(w, env.pullLatest)
    else if env.latest.IsFailure() then Step(w, Status(env.latest))
    else
      var v := ValidateDigest(w, env.latest.value, env.checkLatest);
      if v.result.IsFailure() then Step(v.w, Status(v.result))
      else if !v.result.value.passed then AdoptTested(v.w, env)
      else if v.result.value.degraded && env.interactive && env.accept.IsFailure() then Step(v.w, Status(env.accept))
      else if v.result.value.degraded && env.interactive && !env.accept.value then AdoptTested(v.w, env)
      else Save(v.w, v.w.state.(active := Some(env.latest.value)), env.save)
  }

  function Ref(repo: string, active: Option<Digest>): ImageRef {
    if active.Some? then Pinned(repo, active.value) else Floating(repo)
  }

  /** `StackPublisher.publish`; nothing is written without a manifest that carries every
      patch the deployment shape requires. */
  function Publish(w: World, c: Config, env: PublishEnv): Step<()> {
    if env.gather.IsFailure() then Step(w, env.gather)
    else if c.enabled && !PublisherAccepts(SPECS, w.dir.manifest, c.gateway) then Step(w, Raises)
    else if env.write.IsFailure() then Step(w, env.write)
    else
      var section := if c.enabled then Some(Section(Ref(c.repo, w.state.active), w.dir.manifest.value.outputs)) else None;
      Step(w.(published := Some(Override(section))), Done)
  }

  /** The cached bundle is keyed by the image digest and the shape, not by the gateway flag
      and not by the files. */
  predicate CacheValid(dir: Dir, digest: Digest, shape: Shape, readable: bool) {
    readable && dir.manifest.Some? && dir.manifest.value.image == digest && dir.manifest.value.shape == shape
  }

  /** Render the bundle of the inspected image, unless the cached one fits. */
  function RefreshBundle(w: World, c: Config, digest: Digest, env: PrepareEnv): Step<()> {
    if CacheValid(w.dir, digest, c.shape, env.readable) then Step(w, Done)
    else if env.extract.IsFailure() then Step(w, env.extract)
    else
      var written := WriteBundle(SPECS, w.dir, digest, c.shape, c.gateway, env.rendering, env.manifestWrite);
      var broken := if ManifestReached(SPECS, w.dir, digest, env.rendering, env.manifestWrite) then []
                    else w.broken + [Attempt(digest, w.dir.files, env.rendering)];
      Step(w.(dir := written.dir, broken := broken), if written.status.IsFailure() then written.status else env.cleanup)
  }

  /** `prepare_runtime`, returning what the image inspection said. */
  function PrepareRuntime(w: World, c: Config, env: PrepareEnv): Step<Inspected> {
    if env.runtimeEnv.IsFailure() then Step(w, env.runtimeEnv.PropagateFailure())
    else
      var b := if w.state.active.None? then Bootstrap(w, env.bootstrap) else Step(w, Done);
      if b.result.IsFailure() then Step(b.w, b.result.PropagateFailure())
      else if env.inspect.IsFailure() then Step(b.w, env.inspect.PropagateFailure())
      else
        var r := RefreshBundle(b.w, c, env.inspect.value, env);
        if r.result.IsFailure() then Step(r.w, r.result.PropagateFailure())
        else
          var p := Publish(r.w, c, env.publish);
          if p.result.IsFailure() then Step(p.w, p.result.PropagateFailure())
          else Step(p.w, Answer(Inspected(Pinned(c.repo, b.w.state.active.value), env.inspect.value)))
  }

  /** `compose_fresh("up", …)` */
  function ComposeUp(w: World, c: Config, inspected: Option<Inspected>, env: UpEnv): Step<()> {
    var p := Publish(w, c, env.publish);
    if p.result.IsFailure() then p
    else Step(p.w.(ups := p.w.ups + [Up(p.w.state, p.w.dir, p.w.broken, p.w.published, inspected, c)]), env.up)
  }

  /** `GluetunGuard.start_services`: publish whatever bundle is there, then `up`. */
  function GuardUp(w: World, c: Config, env: UpEnv): Step<()> {
    ComposeUp(w, c, None, env)
  }

  /** `resolve_remote_digest` */
  function ResolveRemote(w: World, env: RemoteEnv): Step<Option<Digest>> {
    if env.remote.IsFailure() then Step(w, env.remote)
    else
      var s := Save(w, w.state.(lastCheck := Some(env.now)), env.save);
      Step(s.w, if s.result.IsFailure() then s.result.PropagateFailure() else env.remote)
  }

  /** `advisory_update_check`: throttled, and swallowing every ordinary error. */
  function AdvisoryCheck(w: World, env: RemoteEnv): Step<()> {
    if w.state.active.None? then Step(w, Done)
    else if w.state.lastCheck.Some? && env.now - w.state.lastCheck.value < ADVISORY_CHECK_INTERVAL then Step(w, Done)
    else
      var r := ResolveRemote(w, env);
      Step(r.w, if r.result.Exits? then Exits(r.result.code) else Done)
  }

  function Start(w: World, c: Config, env: StartEnv): Step<()> {
    if env.commands.IsFailure() then Step(w, env.commands)
    else
      var p := PrepareRuntime(w, c, env.prepare);
      if p.result.IsFailure() then Step(p.w, Status(p.result))
      else if env.compatibility.IsFailure() then Step(p.w, env.compatibility)
      else if env.binds.IsFailure() then Step(p.w, env.binds)
      else
        var u := ComposeUp(p.w, c, Some(p.result.value), env.up);
        if u.result.IsFailure() then u else AdvisoryCheck(u.w, env.advisory)
  }

  /** `comet update check`: resolve, validate in isolation, record the candidate. */
  function Check(w: World, env: CheckEnv): Step<()> {
    if w.state.active.None? then Step(w, Exits(1))
    else
      var r := ResolveRemote(w, env.remote);
      if r.result.IsFailure() then Step(r.w, Status(r.result))
      else if r.result.value.None? then Step(r.w, Exits(1))
      else if r.result.value == w.state.active then Step(r.w, Done)
      else
        var v := ValidateDigest(r.w, r.result.value.value, env.validate);
        if v.result.IsFailure() then Step(v.w, Status(v.result))
        else
          var candidate := Candidate(r.result.value.value, v.result.value.passed);
          Save(v.w, v.w.state.(candidate := Some(candidate)), env.save)
  }

  /** Save the new state first, then prepare, force a compatibility check, and restart. */
  function Activate(w: World, c: Config, next: State, env: ActivateEnv): Step<()> {
    var s := Save(w, next, env.save);
    if s.result.IsFailure() then s
    else
      var p := PrepareRuntime(s.w, c, env.prepare);
      if p.result.IsFailure() then Step(p.w, Status(p.result))
      else if env.compatibility.IsFailure() then Step(p.w, env.compatibility)
      else ComposeUp(p.w, c, Some(p.result.value), env.up)
  }

  function Swapped(s: State, active: Digest): State {
    State(Some(active), s.active, None, s.lastCheck)
  }

  /** `promote_candidate` */
  function Promote(w: World, c: Config, validate: ValidateEnv, env: ActivateEnv): Step<()> {
    if w.state.candidate.None? then Step(w, Raises)
    else
      var digest := w.state.candidate.value.digest;
      var v := ValidateDigest(w, digest, validate);
      if v.result.IsFailure() then Step(v.w, Status(v.result))
      else if !v.result.value.passed then Step(v.w, Raises)
      else Activate(v.w, c, Swapped(w.state, digest), env)
  }

  /** `comet update apply` */
  function Apply(w: World, c: Config, env: ApplyEnv): Step<()> {
    if w.state.candidate.None? || !w.state.candidate.value.passed then Step(w, Exits(1))
    else
      var r := ResolveRemote(w, env.remote);
      if r.result.IsFailure() then Step(r.w, Status(r.result))
      else if r.result.value.Some? && r.result.value.value != w.state.candidate.value.digest then Step(r.w, Exits(1))
      else Promote(r.w, c, env.validate, env.activate)
  }

  /** `comet update rollback`; `confirmed` answers the prompt. */
  function Rollback(w: World, c: Config, confirmed: Reply<bool>, env: ActivateEnv): Step<()> {
    if w.state.previous.None? then Step(w, Exits(1))
    else if confirmed.IsFailure() then Step(w, Status(confirmed))
    else if !confirmed.value then Step(w, Done)
    else Activate(w, c, Swapped(w.state, w.state.previous.value), env)
  }

  // ----- The object -----

  class CometManager {
    var state: State
    const bundle: StateDir
    var published: Option<Override>
    ghost var broken: seq<Attempt>
    ghost var ups: seq<Up>
    ghost var passed: set<Digest>

    /** A first run: no state file, no override, an empty state directory. */
    constructor ()
      ensures View() == World(State(None, None, None, None), Dir(map[], None), None, [], [], {})
      ensures fresh(bundle)
    {
      state := State(None, None, None, None);
      bundle := new StateDir(map[], None);
      published := None;
      broken, ups, passed := [], [], {};
    }

    ghost function View(): World
      reads this, bundle
    {
      World(state, bundle.View(), published, broken, ups, passed)
    }

    method SaveState(s: State, save: Reply<()>) returns (r: Reply<()>)
      modifies this`state
      ensures Step(View(), r) == Save(old(View()), s, save)
    {
      var _ :- save;
      state := s;
      return Done;
    }

    method Validate(digest: Digest, env: ValidateEnv) returns (r: Reply<Report>)
      modifies this`passed
      ensures Step(View(), r) == ValidateDigest(old(View()), digest, env)
    {
      var _ :- env.pull;
      match env.attempt {
        case Answer(degraded) =>
          passed := passed + {digest};
          return Answer(Report(true, degraded));
        case Raises =>
          return Answer(Report(false, false));
        case Exits(code) =>
          return Exits(code);
      }
    }

    method BootstrapActiveDigest(env: BootstrapEnv) returns (r: Reply<()>)
      modifies this`state, this`passed
      ensures Step(View(), r) == Bootstrap(old(View()), env)
    {
      var _ :- env.pullLatest;
      var latest :- env.latest;
      var checked := Validate(latest, env.checkLatest);
      var report :- checked;
      if report.passed {
        var accept := true;
        if report.degraded && env.interactive {
          accept :- env.accept;
        }
        if accept {
          r := SaveState(state.(active := Some(latest)), env.save);
          return;
        }
      }
      var tested :- env.tested;
      var rechecked := Validate(tested, env.checkTested);
      var fallback :- rechecked;
      if !fallback.passed {
        return Raises;
      }
      r := SaveState(state.(active := Some(tested)), env.save);
    }

    method WriteStackOverride(c: Config, env: PublishEnv) returns (r: Reply<()>)
      modifies this`published
      ensures Step(View(), r) == Publish(old(View()), c, env)
    {
      var _ :- env.gather;
      if c.enabled && !PublisherAccepts(SPECS, bundle.manifest, c.gateway) {
        return Raises;
      }
      var _ :- env.write;
      if c.enabled {
        published := Some(Override(Some(Section(Ref(c.repo, state.active), bundle.manifest.value.outputs))));
      } else {
        published := Some(Override(None));
      }
      return Done;
    }

    method Prepare(c: Config, env: PrepareEnv) returns (r: Reply<Inspected>)
      modifies this, bundle
      ensures Step(View(), r) == PrepareRuntime(old(View()), c, env)
    {
      hide Bootstrap, Publish, WriteBundle, ManifestReached;
      var _ :- env.runtimeEnv;
      if state.active.None? {
        var booted := BootstrapActiveDigest(env.bootstrap);
        var _ :- booted;
      }
      var digest :- env.inspect;
      var inspected := Inspected(Pinned(c.repo, state.active.value), digest);
      var m := bundle.manifest;
      if !(env.readable && m.Some? && m.value.image == digest && m.value.shape == c.shape) {
        var _ :- env.extract;
        if ManifestReached(SPECS, bundle.View(), digest, env.rendering, env.manifestWrite) {
          broken := [];
        } else {
          broken := broken + [Attempt(digest, bundle.files, env.rendering)];
        }
        var written := bundle.WriteOverrideBundle(SPECS, digest, c.shape, c.gateway, env.rendering, env.manifestWrite);
        var _ :- written;
        var _ :- env.cleanup;
      }
      var wrote := WriteStackOverride(c, env.publish);
      var _ :- wrote;
      return Answer(inspected);
    }

    method ComposeFreshUp(c: Config, ghost inspected: Option<Inspected>, env: UpEnv) returns (r: Reply<()>)
      modifies this
      ensures Step(View(), r) == ComposeUp(old(View()), c, inspected, env)
    {
      var wrote := WriteStackOverride(c, env.publish);
      var _ :- wrote;
      ups := ups + [Up(state, bundle.View(), broken, published, inspected, c)];
      return env.up;
    }

    method ResolveRemoteDigest(env: RemoteEnv) returns (r: Reply<Option<Digest>>)
      modifies this`state
      ensures Step(View(), r) == ResolveRemote(old(View()), env)
    {
      var remote :- env.remote;
      var saved := SaveState(state.(lastCheck := Some(env.now)), env.save);
      var _ :- saved;
      return Answer(remote);
    }

    method AdvisoryUpdateCheck(env: RemoteEnv) returns (r: Reply<()>)
      modifies this`state
      ensures Step(View(), r) == AdvisoryCheck(old(View()), env)
    {
      if state.active.None? {
        return Done;
      }
      if state.lastCheck.Some? && env.now - state.lastCheck.value < ADVISORY_CHECK_INTERVAL {
        return Done;
      }
      var resolved := ResolveRemoteDigest(env);
      return if resolved.Exits? then Exits(resolved.code) else Done;
    }

    method StartStack(c: Config, env: StartEnv) returns (r: Reply<()>)
      modifies this, bundle
      ensures Step(View(), r) == Start(old(View()), c, env)
    {
      hide PrepareRuntime, ComposeUp, AdvisoryCheck;
      var _ :- env.commands;
      var prepared := Prepare(c, env.prepare);
      var inspected :- prepared;
      var _ :- env.compatibility;
      var _ :- env.binds;
      var upped := ComposeFreshUp(c, Some(inspected), env.up);
      var _ :- upped;
      r := AdvisoryUpdateCheck(env.advisory);
    }

    method UpdateCheck(env: CheckEnv) returns (r: Reply<()>)
      modifies this`state, this`passed
      ensures Step(View(), r) == Check(old(View()), env)
    {
      var active := state.active;
      if active.None? {
        return Exits(1);
      }
      var resolved := ResolveRemoteDigest(env.remote);
      var remote :- resolved;
      if remote.None? {
        return Exits(1);
      }
      if remote == active {
        return Done;
      }
      var checked := Validate(remote.value, env.validate);
      var report :- checked;
      r := SaveState(state.(candidate := Some(Candidate(remote.value, report.passed))), env.save);
    }

    method ActivateAndRestart(c: Config, next: State, env: ActivateEnv) returns (r: Reply<()>)
      modifies this, bundle
      ensures Step(View(), r) == Activate(old(View()), c, next, env)
    {
      hide PrepareRuntime, ComposeUp;
      var saved := SaveState(next, env.save);
      var _ :- saved;
      var prepared := Prepare(c, env.prepare);
      var inspected :- prepared;
      var _ :- env.compatibility;
      r := ComposeFreshUp(c, Some(inspected), env.up);
    }

    method PromoteCandidate(c: Config, validate: ValidateEnv, env: ActivateEnv) returns (r: Reply<()>)
      modifies this, bundle
      ensures Step(View(), r) == Promote(old(View()), c, validate, env)
    {
      hide Activate;
      var before := state;
      if before.candidate.None? {
        return Raises;
      }
      var digest := before.candidate.value.digest;
      var checked := Validate(digest, validate);
      var report :- checked;
      if !report.passed {
        return Raises;
      }
      r := ActivateAndRestart(c, State(Some(digest), before.active, None, before.lastCheck), env);
    }

    method UpdateApply(c: Config, env: ApplyEnv) returns (r: Reply<()>)
      modifies this, bundle
      ensures Step(View(), r) == Apply(old(View()), c, env)
    {
      hide Promote;
      var candidate := state.candidate;
      if candidate.None? {
        return Exits(1);
      }
      if !candidate.value.passed {
        return Exits(1);
      }
      var resolved := ResolveRemoteDigest(env.remote);
      var remote :- resolved;
      if remote.Some? && remote.value != candidate.value.digest {
        return Exits(1);
      }
      r := PromoteCandidate(c, env.validate, env.activate);
    }

    method UpdateRollback(c: Config, confirmed: Reply<bool>, env: ActivateEnv) returns (r: Reply<()>)
      modifies this, bundle
      ensures Step(View(), r) == Rollback(old(View()), c, confirmed, env)
    {
      hide Activate;
      var before := state;
      if before.previous.None? {
        return Exits(1);
      }
      var yes :- confirmed;
      if !yes {
        return Done;
      }
      r := ActivateAndRestart(c, State(Some(before.previous.value), before.active, None, before.lastCheck), env);
    }
  }

  /** The VPN guard's side of the stack: it shares the publisher with the Comet manager. */
  class GluetunGuard {
    const comet: CometManager

    constructor (comet: CometManager)
      ensures this.comet == comet
    {
      this.comet := comet;
    }

    method StartServices(c: Config, env: UpEnv) returns (r: Reply<()>)
      modifies comet
      ensures Step(comet.View(), r) == GuardUp(old(comet.View()), c, env)
    {
      r := comet.ComposeFreshUp(c, None, env);
    }
  }
}

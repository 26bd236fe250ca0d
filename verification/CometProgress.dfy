/** What a Comet command has to do: exactly when a digest is adopted, a preparation completes,
    an `up` is issued, a candidate or a check time is recorded. */
module CometProgress {
  import opened Replies
  import opened Bundle
  import opened Comet
  import opened CometRuns

  // ----- The first digest -----

  /** The newest image is pulled, passes, and is not declined: it can only be declined when it
      is degraded and a terminal is attached. */
  predicate KeepsNewest(env: BootstrapEnv) {
    && env.pullLatest.Answer? && env.latest.Answer?
    && env.checkLatest.pull.Answer? && env.checkLatest.attempt.Answer?
    && (env.checkLatest.attempt.value && env.interactive ==> env.accept == Answer(true))
  }

  /** The newest image is pulled, and fails its validation or is declined. */
  predicate LeavesNewest(env: BootstrapEnv) {
    && env.pullLatest.Answer? && env.latest.Answer? && env.checkLatest.pull.Answer?
    && (env.checkLatest.attempt.Raises?
        || (env.checkLatest.attempt == Answer(true) && env.interactive && env.accept == Answer(false)))
  }

  predicate TestedPasses(env: BootstrapEnv) {
    env.tested.Answer? && env.checkTested.pull.Answer? && env.checkTested.attempt.Answer?
  }

  /** The digest a bootstrap settles on. */
  function Adopted(env: BootstrapEnv): Option<Digest> {
    if env.save.IsFailure() then None
    else if KeepsNewest(env) then Some(env.latest.value)
    else if LeavesNewest(env) && TestedPasses(env) then Some(env.tested.value)
    else None
  }

  /** A first install adopts the newest image exactly when it passes and is kept, the tested
      one exactly when the newest failed or was declined and the tested one passes, and
      otherwise none; it succeeds exactly when it adopts one, and changes nothing else. */
  lemma BootstrapAdoptsExactly(w: World, env: BootstrapEnv)
    requires w.state.active.None?
    ensures var s := Bootstrap(w, env);
            && s.w == w.(state := w.state.(active := Adopted(env)), passed := s.w.passed)
            && (s.result.Answer? <==> Adopted(env).Some?)
            && (s.w.passed == w.passed
                + (if env.pullLatest.Answer? && env.latest.Answer? && env.checkLatest.pull.Answer?
                      && env.checkLatest.attempt.Answer?
                   then {env.latest.value} else {})
                + (if LeavesNewest(env) && TestedPasses(env) then {env.tested.value} else {}))
  {
    assert w.passed + {} == w.passed;
  }

  // ----- Preparation -----

  /** Publishing needs its inputs, a manifest with every required patch, and the write. */
  predicate CanPublish(dir: Dir, c: Config, env: PublishEnv) {
    env.gather.Answer? && env.write.Answer? && (c.enabled ==> PublisherAccepts(SPECS, dir.manifest, c.gateway))
  }

  function DigestAfter(s: State, env: BootstrapEnv): Option<Digest> {
    if s.active.Some? then s.active else Adopted(env)
  }

  /** The directory a preparation leaves when nothing before the bundle fails. */
  function DirAfter(dir: Dir, c: Config, env: PrepareEnv): Dir
    requires env.inspect.Answer?
  {
    if CacheValid(dir, env.inspect.value, c.shape, env.readable) || env.extract.IsFailure() then dir
    else WriteBundle(SPECS, dir, env.inspect.value, c.shape, c.gateway, env.rendering, env.manifestWrite).dir
  }

  predicate BundleServes(dir: Dir, c: Config, env: PrepareEnv)
    requires env.inspect.Answer?
  {
    CacheValid(dir, env.inspect.value, c.shape, env.readable) ||
    (env.extract.Answer? && env.cleanup.Answer?
     && WriteBundle(SPECS, dir, env.inspect.value, c.shape, c.gateway, env.rendering, env.manifestWrite).status.Answer?)
  }

  predicate Prepares(w: World, c: Config, env: PrepareEnv) {
    && env.runtimeEnv.Answer? && DigestAfter(w.state, env.bootstrap).Some? && env.inspect.Answer?
    && BundleServes(w.dir, c, env) && CanPublish(DirAfter(w.dir, c, env), c, env.publish)
  }

  /** The override that publishes this state and directory. */
  function Mounting(s: State, dir: Dir, c: Config): Override
    requires c.enabled ==> dir.manifest.Some?
  {
    Override(if c.enabled then Some(Section(Ref(c.repo, s.active), dir.manifest.value.outputs)) else None)
  }

  lemma PublishExactly(w: World, c: Config, env: PublishEnv)
    ensures var s := Publish(w, c, env);
            && (s.result.Answer? <==> CanPublish(w.dir, c, env))
            && s.w == if CanPublish(w.dir, c, env) then w.(published := Some(Mounting(w.state, w.dir, c))) else w
  {
    hide RequiredOutputs;
  }

  lemma RefreshExactly(w: World, c: Config, env: PrepareEnv)
    requires env.inspect.Answer?
    ensures var s := RefreshBundle(w, c, env.inspect.value, env);
            && (s.result.Answer? <==> BundleServes(w.dir, c, env))
            && s.w == w.(dir := DirAfter(w.dir, c, env), broken := s.w.broken)
  {
    hide WriteBundle, ManifestReached;
  }

  /** A preparation completes exactly when a digest is active or adopted, the image can be
      inspected, the cached bundle fits or a new one is written, and it can be published; it
      then answers for the active digest, with its override published. */
  lemma PreparesExactlyWhen(w: World, c: Config, env: PrepareEnv)
    ensures var s := PrepareRuntime(w, c, env);
            && (s.result.Answer? <==> Prepares(w, c, env))
            && (s.result.Answer? ==>
                  && s.w.state == w.state.(active := DigestAfter(w.state, env.bootstrap)) && s.w.state.active.Some?
                  && s.w.dir == DirAfter(w.dir, c, env) && (c.enabled ==> s.w.dir.manifest.Some?)
                  && s.w.published == Some(Mounting(s.w.state, s.w.dir, c))
                  && s.w.ups == w.ups
                  && s.result.value == Inspected(Pinned(c.repo, s.w.state.active.value), env.inspect.value))
  {
    if w.state.active.None? {
      BootstrapAdoptsExactly(w, env.bootstrap);
    }
    var b := if w.state.active.None? then Bootstrap(w, env.bootstrap) else Step(w, Done);
    hide Bootstrap, RefreshBundle, Publish, Adopted, BundleServes, CanPublish, DirAfter;
    if env.inspect.Answer? {
      RefreshExactly(b.w, c, env);
      PublishExactly(RefreshBundle(b.w, c, env.inspect.value, env).w, c, env.publish);
    }
  }

  // ----- Bringing up -----

  lemma UpExactly(w: World, c: Config, i: Option<Inspected>, env: UpEnv)
    ensures var s := ComposeUp(w, c, i, env);
            && (s.result.Answer? <==> CanPublish(w.dir, c, env.publish) && env.up.Answer?)
            && s.w.ups == w.ups + (if CanPublish(w.dir, c, env.publish)
                                   then [Up(w.state, w.dir, w.broken, Some(Mounting(w.state, w.dir, c)), i, c)] else [])
            && s.w.state == w.state && s.w.dir == w.dir
  {
    PublishExactly(w, c, env.publish);
    hide Publish, CanPublish;
  }

  predicate StartsUp(w: World, c: Config, env: StartEnv) {
    && env.commands.Answer? && Prepares(w, c, env.prepare) && env.compatibility.Answer? && env.binds.Answer?
    && env.up.publish.gather.Answer? && env.up.publish.write.Answer?
  }

  /** An `up` with the digest, bundle and override that a completed preparation leaves. */
  predicate PreparedUp(u: Up, w: World, c: Config, env: PrepareEnv)
    requires env.inspect.Answer?
  {
    && u.state.active == DigestAfter(w.state, env.bootstrap) && u.state.active.Some?
    && u.inspected == Some(Inspected(Pinned(c.repo, u.state.active.value), env.inspect.value))
    && u.dir == DirAfter(w.dir, c, env)
    && (c.enabled ==> u.dir.manifest.Some?) && u.published == Some(Mounting(u.state, u.dir, c))
    && u.config == c
  }

  /** `comet start` issues exactly one `up`, of the digest it prepared, exactly when the
      preparation completes and compatibility, binds and the second publication answer; it
      then succeeds unless that `up` fails or the advisory check is cut off by an exit. */
  lemma StartBringsUpExactlyWhen(w: World, c: Config, env: StartEnv)
    ensures var s := Start(w, c, env);
            && (StartsUp(w, c, env) ==>
                  && |s.w.ups| == |w.ups| + 1 && s.w.ups[..|w.ups|] == w.ups
                  && PreparedUp(s.w.ups[|w.ups|], w, c, env.prepare))
            && (!StartsUp(w, c, env) ==> s.w.ups == w.ups && s.result.IsFailure())
            && (s.result.Answer? <==>
                  && StartsUp(w, c, env) && env.up.up.Answer?
                  && !AdvisoryExits(s.w.state.active, w.state.lastCheck, env.advisory))
  {
    PreparesExactlyWhen(w, c, env.prepare);
    PreparationFrame(w, c, env.prepare);
    var p := PrepareRuntime(w, c, env.prepare);
    hide PrepareRuntime, Prepares, ComposeUp, AdvisoryCheck;
    if p.result.Answer? {
      UpExactly(p.w, c, Some(p.result.value), env.up);
      var u := ComposeUp(p.w, c, Some(p.result.value), env.up);
      AdvisoryExactly(u.w, env.advisory);
      assert Prepares(w, c, env.prepare);
      StillPublishable(w, c, env.prepare, env.up.publish);
    }
  }

  lemma StillPublishable(w: World, c: Config, env: PrepareEnv, again: PublishEnv)
    requires Prepares(w, c, env)
    ensures CanPublish(DirAfter(w.dir, c, env), c, again) <==> again.gather.Answer? && again.write.Answer?
  {
    hide DirAfter, PublisherAccepts, BundleServes;
  }

  lemma PreparationFrame(w: World, c: Config, env: PrepareEnv)
    ensures PrepareRuntime(w, c, env).w.ups == w.ups
    ensures w.state.active.Some? ==> PrepareRuntime(w, c, env).w.state == w.state
  {
    if w.state.active.None? {
      BootstrapAdoptsExactly(w, env.bootstrap);
    }
    var b := if w.state.active.None? then Bootstrap(w, env.bootstrap) else Step(w, Done);
    hide Bootstrap, RefreshBundle, Publish, Adopted, BundleServes, CanPublish, DirAfter;
    if env.inspect.Answer? {
      RefreshExactly(b.w, c, env);
      PublishExactly(RefreshBundle(b.w, c, env.inspect.value, env).w, c, env.publish);
    }
  }

  // ----- Checks -----

  /** When the throttled check asks upstream. */
  predicate Asks(active: Option<Digest>, last: Option<int>, now: int) {
    active.Some? && (last.Some? ==> now - last.value >= 86400)
  }

  predicate AdvisoryExits(active: Option<Digest>, last: Option<int>, env: RemoteEnv) {
    Asks(active, last, env.now) && (env.remote.Exits? || (env.remote.Answer? && env.save.Exits?))
  }

  /** The advisory check records its time exactly when it was due, upstream answered and the
      state could be saved; nothing but an exit gets out of it. */
  lemma AdvisoryExactly(w: World, env: RemoteEnv)
    ensures var s := AdvisoryCheck(w, env);
            && s.w == w.(state := w.state.(lastCheck :=
                 if Asks(w.state.active, w.state.lastCheck, env.now) && env.remote.Answer? && env.save.Answer?
                 then Some(env.now) else w.state.lastCheck))
            && (s.result.IsFailure() <==> AdvisoryExits(w.state.active, w.state.lastCheck, env))
            && !s.result.Raises?
  {
  }

  /** The replies under which an update check records a candidate: upstream names a digest
      that is not the active one, its validation runs to a verdict, and both saves succeed. */
  predicate Records(s: State, env: CheckEnv) {
    && s.active.Some? && env.remote.remote.Answer? && env.remote.save.Answer?
    && env.remote.remote.value.Some? && env.remote.remote.value != s.active
    && env.validate.pull.Answer? && !env.validate.attempt.Exits? && env.save.Answer?
  }

  /** An update check records upstream's digest as the candidate, passed exactly if its
      validation did, exactly under those replies; the candidate is otherwise kept. It
      succeeds exactly when it recorded one, or upstream names the active digest. */
  lemma CheckRecordsExactlyWhen(w: World, env: CheckEnv)
    ensures var s := Check(w, env);
            var asked := w.state.active.Some? && env.remote.remote.Answer? && env.remote.save.Answer?;
            && s.w.state.candidate ==
                 (if Records(w.state, env)
                  then Some(Candidate.Candidate(env.remote.remote.value.value, env.validate.attempt.Answer?))
                  else w.state.candidate)
            && s.w.state.lastCheck == (if asked then Some(env.remote.now) else w.state.lastCheck)
            && (s.result.Answer? <==> Records(w.state, env) || (asked && env.remote.remote.value == w.state.active))
            && (w.state.active.None? || (asked && env.remote.remote.value.None?) ==> s.result == Exits(1))
  {
  }

  // ----- Activation -----

  predicate ActivatesUp(w: World, c: Config, next: State, env: ActivateEnv) {
    && env.save.Answer? && Prepares(w.(state := next), c, env.prepare) && env.compatibility.Answer?
    && env.up.publish.gather.Answer? && env.up.publish.write.Answer?
  }

  /** An activation issues exactly one `up`, of the new state, exactly when the state is saved,
      the preparation completes and compatibility and publication answer; it succeeds exactly
      when that `up` does. */
  lemma ActivationBringsUpExactlyWhen(w: World, c: Config, next: State, env: ActivateEnv)
    requires next.active.Some?
    ensures var s := Activate(w, c, next, env);
            && (ActivatesUp(w, c, next, env) ==>
                  && |s.w.ups| == |w.ups| + 1 && s.w.ups[..|w.ups|] == w.ups
                  && s.w.ups[|w.ups|].state == next && s.w.ups[|w.ups|].dir == DirAfter(w.dir, c, env.prepare))
            && (!ActivatesUp(w, c, next, env) ==> s.w.ups == w.ups && s.result.IsFailure())
            && (s.result.Answer? <==> ActivatesUp(w, c, next, env) && env.up.up.Answer?)
  {
    var v := w.(state := next);
    PreparesExactlyWhen(v, c, env.prepare);
    PreparationFrame(v, c, env.prepare);
    var p := PrepareRuntime(v, c, env.prepare);
    hide PrepareRuntime, Prepares, ComposeUp;
    if p.result.Answer? {
      UpExactly(p.w, c, Some(p.result.value), env.up);
      assert Prepares(v, c, env.prepare);
      StillPublishable(v, c, env.prepare, env.up.publish);
    }
  }

  /** `rollback` goes through with its swap exactly when there is a previous digest, the
      operator confirms and the state can be saved; declining is a success that changes
      nothing, and without a previous digest the command exits 1. */
  lemma RollbackExactlyWhen(w: World, c: Config, confirmed: Reply<bool>, env: ActivateEnv)
    ensures var s := Rollback(w, c, confirmed, env);
            var goes := w.state.previous.Some? && confirmed == Answer(true);
            && (goes && env.save.Answer? ==>
                  && s.w.state == State(w.state.previous, w.state.active, None, w.state.lastCheck)
                  && (|s.w.ups| > |w.ups| <==> ActivatesUp(w, c, s.w.state, env))
                  && (s.result.Answer? <==> ActivatesUp(w, c, s.w.state, env) && env.up.up.Answer?))
            && (!(goes && env.save.Answer?) ==> s.w == w)
            && (!goes ==> (s.result.Answer? <==> w.state.previous.Some? && confirmed == Answer(false)))
            && (w.state.previous.None? ==> s.result == Exits(1))
            && (goes && env.save.IsFailure() ==> s.result.IsFailure())
  {
    if w.state.previous.Some? {
      var next := Swapped(w.state, w.state.previous.value);
      ActivationBringsUpExactlyWhen(w, c, next, env);
      ActivationInstalls(w, c, next, env);
      hide Activate, ActivatesUp;
    }
  }

  lemma ActivationInstalls(w: World, c: Config, next: State, env: ActivateEnv)
    requires next.active.Some?
    ensures var s := Activate(w, c, next, env);
            if env.save.Answer? then s.w.state == next else s.w == w && s.result.IsFailure()
  {
    var v := w.(state := next);
    PreparationFrame(v, c, env.prepare);
    hide PrepareRuntime, ComposeUp;
    var p := PrepareRuntime(v, c, env.prepare);
    if p.result.Answer? {
      UpExactly(p.w, c, Some(p.result.value), env.up);
    }
  }

  /** `apply` succeeds exactly when it swaps the candidate in and the activation of the new
      state comes up; without a candidate that passed, or when upstream names another digest,
      it exits 1. */
  lemma ApplySucceedsExactlyWhen(w: World, c: Config, env: ApplyEnv)
    requires w.state.active.Some?
    ensures var s := Apply(w, c, env);
            && (s.result.Answer? <==>
                  && ApplyTakes(w.state, env) && ActivatesUp(Promoted(w, env), c, Promoted(w, env).state, env.activate)
                  && env.activate.up.up.Answer?)
            && (|s.w.ups| > |w.ups| <==>
                  ApplyTakes(w.state, env) && ActivatesUp(Promoted(w, env), c, Promoted(w, env).state, env.activate))
            && (w.state.candidate.None? || !w.state.candidate.value.passed
                || (env.remote.remote.Answer? && env.remote.save.Answer? && env.remote.remote.value.Some?
                    && env.remote.remote.value.value != w.state.candidate.value.digest)
                ==> s.result == Exits(1))
  {
    if w.state.candidate.Some? {
      var r := ResolveRemote(w, env.remote);
      var v := ValidateDigest(r.w, w.state.candidate.value.digest, env.validate);
      var next := Swapped(r.w.state, w.state.candidate.value.digest);
      ActivationBringsUpExactlyWhen(v.w, c, next, env.activate);
      if ApplyTakes(w.state, env) {
        SameActivation(v.w, Promoted(w, env), c, next, env.activate);
      }
      hide Activate, ActivatesUp;
    }
  }

  /** The deployment with the candidate swapped in and the time of the check recorded. */
  function Promoted(w: World, env: ApplyEnv): World
    requires ApplyTakes(w.state, env)
  {
    w.(state := State(Some(w.state.candidate.value.digest), w.state.active, None, Some(env.remote.now)))
  }

  lemma SameActivation(v: World, w: World, c: Config, next: State, env: ActivateEnv)
    requires v.dir == w.dir
    ensures ActivatesUp(v, c, next, env) <==> ActivatesUp(w, c, next, env)
  {
    hide DirAfter, BundleServes, CanPublish;
  }
}

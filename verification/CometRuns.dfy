/** Runs of Comet commands under arbitrary settings, failures and interruptions: what every
    compose `up` runs, and what promotion and rollback keep. */
module CometRuns {
  import opened Replies
  import opened Bundle
  import opened Comet

  /** One command, with the settings it runs under and every reply it meets. */
  datatype Command =
    | PrepareOnly(config: Config, prepare: PrepareEnv)
    | PublishOnly(config: Config, publish: PublishEnv)
    | StartStack(config: Config, start: StartEnv)
    | StartServices(config: Config, up: UpEnv)
    | Advise(advisory: RemoteEnv)
    | UpdateCheck(check: CheckEnv)
    | UpdateApply(config: Config, apply: ApplyEnv)
    | UpdateRollback(config: Config, confirmed: Reply<bool>, rollback: ActivateEnv)

  function Next(w: World, cmd: Command): World {
    match cmd
    case PrepareOnly(c, env) => PrepareRuntime(w, c, env).w
    case PublishOnly(c, env) => Publish(w, c, env).w
    case StartStack(c, env) => Start(w, c, env).w
    case StartServices(c, env) => GuardUp(w, c, env).w
    case Advise(env) => AdvisoryCheck(w, env).w
    case UpdateCheck(env) => Check(w, env).w
    case UpdateApply(c, env) => Apply(w, c, env).w
    case UpdateRollback(c, confirmed, env) => Rollback(w, c, confirmed, env).w
  }

  function Run(w: World, cmds: seq<Command>): World
    decreases |cmds|
  {
    if cmds == [] then w else Run(Next(w, cmds[0]), cmds[1..])
  }

  const FRESH := World(State(None, None, None, None), Dir(map[], None), None, [], [], {})

  // ----- Invariant -----

  /** Every digest on record has passed a validation, or is a candidate on record as
      failed; active differs from previous and from the candidate; and only a deployment
      with an active digest has a previous one or a candidate. */
  predicate DigestsSound(s: State, passed: set<Digest>) {
    && (s.active.Some? ==> s.active.value in passed)
    && (s.previous.Some? ==> s.active.Some? && s.previous.value in passed && s.previous != s.active)
    && (s.candidate.Some? ==>
          && s.active.Some? && s.candidate.value.digest != s.active.value
          && (s.candidate.value.passed ==> s.candidate.value.digest in passed))
  }

  /** What a broken-off write did to the file of spec `j`. */
  datatype Touch = Untouched | Wrote(image: Digest) | Removed

  function TouchOf(a: Attempt, j: nat): Touch
    requires j < |SPECS|
  {
    if j >= FirstBreak(SPECS, a.rendering, a.files, 0) then Untouched
    else if Applies(a.rendering[j]) then Wrote(a.image)
    else if SPECS[j].outputName in a.files then Removed
    else Untouched
  }

  /** What the broken-off writes since the last manifest did to it, the latest one deciding. */
  function LastTouch(broken: seq<Attempt>, j: nat): Touch
    requires j < |SPECS|
  {
    if broken == [] then Untouched else
      var t := TouchOf(broken[|broken| - 1], j);
      if t.Untouched? then LastTouch(broken[..|broken| - 1], j) else t
  }

  /** The file of a spec, given what happened to it since the manifest was written. */
  predicate Follows(spec: Spec, touch: Touch, m: Manifest, files: map<string, File>) {
    match touch
    case Untouched => SpecAgrees(spec, m, files)
    case Wrote(image) => spec.outputName in files && files[spec.outputName].image == image
    case Removed => spec.outputName !in files
  }

  predicate FilesFollow(dir: Dir, broken: seq<Attempt>) {
    dir.manifest.Some? ==>
      && (forall j :: 0 <= j < |SPECS| ==> Follows(SPECS[j], LastTouch(broken, j), dir.manifest.value, dir.files))
      && (forall n <- dir.manifest.value.outputs :: exists j :: 0 <= j < |SPECS| && SPECS[j].outputName == n)
  }

  predicate ContractMounted(dir: Dir) {
    dir.manifest.Some? ==>
      "stream.py" in dir.manifest.value.outputs && "media_search.py" in dir.manifest.value.outputs
  }

  predicate DirSound(dir: Dir, broken: seq<Attempt>) {
    FilesFollow(dir, broken) && ContractMounted(dir)
  }

  /** What every `up` with Comet enabled is, the guard's included: it runs the active digest,
      one that passed validation, pinned, with the mounts of the manifest on disk, and that
      manifest has every patch this deployment needs. */
  predicate Pinning(u: Up, passed: set<Digest>) {
    && u.state.active.Some? && u.state.active.value in passed
    && u.dir.manifest.Some? && DirSound(u.dir, u.broken)
    && PublisherAccepts(SPECS, u.dir.manifest, u.config.gateway)
    && u.published == Some(Override(Some(Section(Pinned(u.config.repo, u.state.active.value), u.dir.manifest.value.outputs))))
  }

  /** The bundle belongs to the image that was inspected under the published reference, and
      has the current shape. */
  predicate OwnBundle(u: Up, i: Inspected) {
    && u.state.active.Some? && i.ref == Pinned(u.config.repo, u.state.active.value)
    && (u.config.enabled ==>
          && u.dir.manifest.Some? && u.dir.manifest.value.image == i.digest
          && u.dir.manifest.value.shape == u.config.shape)
  }

  predicate UpSound(u: Up, passed: set<Digest>) {
    && (if u.config.enabled then Pinning(u, passed) else u.published == Some(Override(None)))
    && (u.inspected.Some? ==> OwnBundle(u, u.inspected.value))
  }

  predicate Inv(w: World) {
    && DigestsSound(w.state, w.passed)
    && DirSound(w.dir, w.broken)
    && (w.dir.manifest.Some? ==> w.state.active.Some?)
    && forall u <- w.ups :: UpSound(u, w.passed)
  }

  /** What no command ever takes back. */
  predicate Kept(before: World, after: World) {
    && (before.state.active.Some? ==> after.state.active.Some?)
    && before.passed <= after.passed
    && before.ups <= after.ups
  }

  // ----- What each part changes -----

  lemma ValidateChanges(w: World, digest: Digest, env: ValidateEnv)
    ensures var s := ValidateDigest(w, digest, env);
            && s.w == w.(passed := s.w.passed) && w.passed <= s.w.passed
            && (s.result.Answer? && s.result.value.passed ==> digest in s.w.passed)
  {
  }

  lemma AdoptChanges(w: World, env: BootstrapEnv)
    requires w.state.active.None?
    ensures var s := AdoptTested(w, env);
            && s.w == w.(state := w.state.(active := s.w.state.active), passed := s.w.passed)
            && w.passed <= s.w.passed
            && (s.w.state.active.Some? ==> s.w.state.active.value in s.w.passed)
  {
    if env.tested.Answer? {
      ValidateChanges(w, env.tested.value, env.checkTested);
    }
  }

  lemma BootstrapChanges(w: World, env: BootstrapEnv)
    requires w.state.active.None?
    ensures var s := Bootstrap(w, env);
            && s.w == w.(state := w.state.(active := s.w.state.active), passed := s.w.passed)
            && w.passed <= s.w.passed
            && (s.w.state.active.Some? ==> s.w.state.active.value in s.w.passed)
  {
    if env.latest.Answer? {
      ValidateChanges(w, env.latest.value, env.checkLatest);
      var v := ValidateDigest(w, env.latest.value, env.checkLatest).w;
      AdoptChanges(v, env);
      hide AdoptTested, ValidateDigest;
    }
  }

  /** A bundle write that reaches its manifest starts a clean history; one that does not
      leaves the old manifest, and its files follow the longer history. */
  lemma WriteLeavesSound(dir: Dir, broken: seq<Attempt>, digest: Digest, c: Config, envs: Rendering, manifestWrite: Reply<()>)
    requires DirSound(dir, broken)
    ensures var written := WriteBundle(SPECS, dir, digest, c.shape, c.gateway, envs, manifestWrite);
            var reached := ManifestReached(SPECS, dir, digest, envs, manifestWrite);
            && DirSound(written.dir, if reached then [] else broken + [Attempt(digest, dir.files, envs)])
            && (written.status.Answer? ==> reached)
            && (!reached ==> written.dir.manifest == dir.manifest)
            && (reached ==> written.dir.manifest.Some? && written.dir.manifest.value.image == digest
                            && written.dir.manifest.value.shape == c.shape)
  {
    hide WriteBundle, ManifestReached, FilesFollow, Coherent, PublisherAccepts, Distinct, SPECS;
    ShippedSpecsDistinct();
    var written := WriteBundle(SPECS, dir, digest, c.shape, c.gateway, envs, manifestWrite);
    if ManifestReached(SPECS, dir, digest, envs, manifestWrite) {
      BundleAgreement(SPECS, dir, digest, c.shape, c.gateway, envs, manifestWrite);
      StreamAlwaysRequired(dir, digest, c.shape, c.gateway, envs, manifestWrite);
      CoherentFollows(written.dir);
    } else {
      BrokenOffKeepsManifest(SPECS, dir, digest, c.shape, c.gateway, envs, manifestWrite);
      BrokenOffFollows(dir, broken, digest, c, envs, manifestWrite);
    }
  }

  lemma CoherentFollows(dir: Dir)
    requires Coherent(SPECS, dir)
    ensures FilesFollow(dir, [])
  {
    hide SPECS;
    if dir.manifest.Some? {
      forall n | n in dir.manifest.value.outputs
        ensures exists j :: 0 <= j < |SPECS| && SPECS[j].outputName == n
      {
        var s :| s in SPECS && s.outputName == n;
        var j :| 0 <= j < |SPECS| && SPECS[j] == s;
      }
    }
  }

  lemma BrokenOffFollows(dir: Dir, broken: seq<Attempt>, digest: Digest, c: Config, envs: Rendering, manifestWrite: Reply<()>)
    requires FilesFollow(dir, broken) && !ManifestReached(SPECS, dir, digest, envs, manifestWrite)
    ensures FilesFollow(WriteBundle(SPECS, dir, digest, c.shape, c.gateway, envs, manifestWrite).dir,
                        broken + [Attempt(digest, dir.files, envs)])
  {
    hide WriteBundle, ManifestReached, SPECS, FirstBreak, Distinct;
    ShippedSpecsDistinct();
    WriteEffect(SPECS, dir, digest, c.shape, c.gateway, envs, manifestWrite);
    BrokenOffKeepsManifest(SPECS, dir, digest, c.shape, c.gateway, envs, manifestWrite);
    var written := WriteBundle(SPECS, dir, digest, c.shape, c.gateway, envs, manifestWrite);
    var a := Attempt(digest, dir.files, envs);
    var k := FirstBreak(SPECS, envs, dir.files, 0);
    assert (broken + [a])[..|broken|] == broken;
    if dir.manifest.Some? {
      var m := dir.manifest.value;
      forall j | 0 <= j < |SPECS| ensures Follows(SPECS[j], LastTouch(broken + [a], j), m, written.dir.files) {
        assert Left(SPECS[j], envs[j], digest, j < k, dir.files, written.dir.files);
        assert Follows(SPECS[j], LastTouch(broken, j), m, dir.files);
      }
    }
  }

  lemma RefreshChanges(w: World, c: Config, digest: Digest, env: PrepareEnv)
    requires DirSound(w.dir, w.broken)
    ensures var s := RefreshBundle(w, c, digest, env);
            && s.w == w.(dir := s.w.dir, broken := s.w.broken) && DirSound(s.w.dir, s.w.broken)
            && (s.result.Answer? ==>
                  && s.w.dir.manifest.Some? && s.w.dir.manifest.value.image == digest
                  && s.w.dir.manifest.value.shape == c.shape)
  {
    hide WriteBundle, ManifestReached, DirSound, SPECS;
    WriteLeavesSound(w.dir, w.broken, digest, c, env.rendering, env.manifestWrite);
  }

  /** What a preparation may change, and what its success establishes. */
  predicate Prepared(w: World, c: Config, s: Step<Inspected>) {
    && s.w.ups == w.ups && w.passed <= s.w.passed && DirSound(s.w.dir, s.w.broken)
    && s.w.state == w.state.(active := s.w.state.active)
    && (s.w.dir.manifest.Some? ==> w.dir.manifest.Some? || s.w.state.active.Some?)
    && (w.state.active.Some? ==> s.w.state == w.state)
    && (s.w.state.active.Some? ==> s.w.state.active == w.state.active || s.w.state.active.value in s.w.passed)
    && (s.result.Answer? ==> Ready(s.w, c, s.result.value))
  }

  /** Everything an `up` relies on. */
  predicate Ready(w: World, c: Config, i: Inspected) {
    && w.state.active.Some? && i.ref == Pinned(c.repo, w.state.active.value)
    && w.dir.manifest.Some? && w.dir.manifest.value.image == i.digest && w.dir.manifest.value.shape == c.shape
  }

  lemma PublishChanges(w: World, c: Config, env: PublishEnv)
    ensures var s := Publish(w, c, env); s.w == w.(published := s.w.published)
  {
  }

  lemma PrepareChanges(w: World, c: Config, env: PrepareEnv)
    requires DirSound(w.dir, w.broken)
    ensures Prepared(w, c, PrepareRuntime(w, c, env))
  {
    hide Bootstrap, RefreshBundle, Publish, DirSound;
    if env.runtimeEnv.Answer? {
      var b := if w.state.active.None? then Bootstrap(w, env.bootstrap) else Step(w, Done);
      if w.state.active.None? {
        BootstrapChanges(w, env.bootstrap);
      }
      if b.result.Answer? && env.inspect.Answer? {
        RefreshChanges(b.w, c, env.inspect.value, env);
        PublishChanges(RefreshBundle(b.w, c, env.inspect.value, env).w, c, env.publish);
      }
    }
  }

  lemma UpChanges(w: World, c: Config, i: Option<Inspected>, env: UpEnv)
    requires Inv(w) && (i.Some? ==> Ready(w, c, i.value))
    ensures var s := ComposeUp(w, c, i, env);
            && s.w == w.(published := s.w.published, ups := s.w.ups)
            && (s.w.ups == w.ups || (|s.w.ups| == |w.ups| + 1 && s.w.ups[..|w.ups|] == w.ups
                                     && UpSound(s.w.ups[|w.ups|], w.passed)))
            && (s.result.Answer? ==> |s.w.ups| == |w.ups| + 1)
  {
    assert PublisherAccepts(SPECS, w.dir.manifest, c.gateway) ==> w.dir.manifest.Some?;
    hide DirSound, PublisherAccepts;
  }

  lemma RemoteChanges(w: World, env: RemoteEnv)
    ensures ResolveRemote(w, env).w == w.(state := w.state.(lastCheck := ResolveRemote(w, env).w.state.lastCheck))
    ensures AdvisoryCheck(w, env).w == w.(state := w.state.(lastCheck := AdvisoryCheck(w, env).w.state.lastCheck))
  {
  }

  // ----- The invariant is kept -----

  lemma PreparedKeepsInv(w: World, c: Config, s: Step<Inspected>)
    requires Inv(w) && Prepared(w, c, s)
    ensures Inv(s.w) && Kept(w, s.w)
  {
    hide DirSound;
    forall u | u in s.w.ups ensures UpSound(u, s.w.passed) {
      assert UpSound(u, w.passed);
    }
  }

  lemma UpKeepsInv(w: World, c: Config, i: Option<Inspected>, env: UpEnv)
    requires Inv(w) && (i.Some? ==> Ready(w, c, i.value))
    ensures Inv(ComposeUp(w, c, i, env).w) && Kept(w, ComposeUp(w, c, i, env).w)
  {
    UpChanges(w, c, i, env);
    hide ComposeUp, DirSound, UpSound;
    var s := ComposeUp(w, c, i, env);
    forall u | u in s.w.ups ensures UpSound(u, w.passed) {
      if s.w.ups != w.ups {
        assert s.w.ups == s.w.ups[..|w.ups|] + [s.w.ups[|w.ups|]];
      }
    }
  }

  lemma KeptTwice(a: World, b: World, c: World)
    requires Kept(a, b) && Kept(b, c)
    ensures Kept(a, c)
  {
  }

  /** A step that changes nothing but the recorded candidate, the check time and the set of
      passed digests. */
  lemma RecordKeepsInv(w: World, after: World)
    requires Inv(w) && w.passed <= after.passed && DigestsSound(after.state, after.passed)
    requires after == w.(state := after.state, passed := after.passed) && (w.state.active.Some? ==> after.state.active.Some?)
    ensures Inv(after) && Kept(w, after)
  {
    hide DirSound, DigestsSound;
    forall u | u in after.ups ensures UpSound(u, after.passed) {
      assert UpSound(u, w.passed);
    }
  }

  lemma AdvisoryKeepsInv(w: World, env: RemoteEnv)
    requires Inv(w)
    ensures Inv(AdvisoryCheck(w, env).w) && Kept(w, AdvisoryCheck(w, env).w)
  {
    RemoteChanges(w, env);
    hide AdvisoryCheck;
    RecordKeepsInv(w, AdvisoryCheck(w, env).w);
  }

  lemma StartKeepsInv(w: World, c: Config, env: StartEnv)
    requires Inv(w)
    ensures Inv(Start(w, c, env).w) && Kept(w, Start(w, c, env).w)
  {
    hide PrepareRuntime, ComposeUp, AdvisoryCheck, Ready, DirSound, UpSound, DigestsSound;
    PrepareChanges(w, c, env.prepare);
    var p := PrepareRuntime(w, c, env.prepare);
    PreparedKeepsInv(w, c, p);
    if p.result.Answer? {
      UpKeepsInv(p.w, c, Some(p.result.value), env.up);
      var u := ComposeUp(p.w, c, Some(p.result.value), env.up);
      KeptTwice(w, p.w, u.w);
      AdvisoryKeepsInv(u.w, env.advisory);
      KeptTwice(w, u.w, AdvisoryCheck(u.w, env.advisory).w);
    }
  }

  lemma ActivateKeepsInv(w: World, c: Config, next: State, env: ActivateEnv)
    requires Inv(w) && DigestsSound(next, w.passed) && next.active.Some?
    ensures Inv(Activate(w, c, next, env).w) && Kept(w, Activate(w, c, next, env).w)
  {
    var s := Save(w, next, env.save);
    assert Inv(s.w) && Kept(w, s.w) by { hide DirSound, UpSound; }
    PrepareChanges(s.w, c, env.prepare);
    var p := PrepareRuntime(s.w, c, env.prepare);
    hide PrepareRuntime;
    PreparedKeepsInv(s.w, c, p);
    KeptTwice(w, s.w, p.w);
    if p.result.Answer? {
      UpKeepsInv(p.w, c, Some(p.result.value), env.up);
      KeptTwice(w, p.w, ComposeUp(p.w, c, Some(p.result.value), env.up).w);
    }
    hide ComposeUp, DirSound, UpSound, DigestsSound;
  }

  lemma CheckKeepsInv(w: World, env: CheckEnv)
    requires Inv(w)
    ensures Inv(Check(w, env).w) && Kept(w, Check(w, env).w)
  {
    CheckTouchesNothingLive(w, env);
    RemoteChanges(w, env.remote);
    var r := ResolveRemote(w, env.remote);
    if r.result.Answer? && r.result.value.Some? {
      ValidateChanges(r.w, r.result.value.value, env.validate);
    }
    assert DigestsSound(Check(w, env).w.state, Check(w, env).w.passed) by {
      hide ResolveRemote, ValidateDigest, DirSound, UpSound;
    }
    hide Check, DigestsSound, Inv;
    RecordKeepsInv(w, Check(w, env).w);
  }

  /** An update check, whatever happens in it, leaves the active and previous digests, the
      live bundle, the published override and the containers alone. */
  lemma CheckTouchesNothingLive(w: World, env: CheckEnv)
    ensures var after := Check(w, env).w;
            && w.passed <= after.passed
            && after == w.(state := w.state.(candidate := after.state.candidate, lastCheck := after.state.lastCheck),
                           passed := after.passed)
  {
    RemoteChanges(w, env.remote);
    var r := ResolveRemote(w, env.remote);
    if r.result.Answer? && r.result.value.Some? {
      ValidateChanges(r.w, r.result.value.value, env.validate);
    }
    hide ResolveRemote, ValidateDigest;
  }

  lemma ApplyKeepsInv(w: World, c: Config, env: ApplyEnv)
    requires Inv(w)
    ensures Inv(Apply(w, c, env).w) && Kept(w, Apply(w, c, env).w)
  {
    RemoteChanges(w, env.remote);
    var r := ResolveRemote(w, env.remote);
    assert DigestsSound(r.w.state, r.w.passed);
    RecordKeepsInv(w, r.w);
    if w.state.candidate.Some? {
      var digest := w.state.candidate.value.digest;
      ValidateChanges(r.w, digest, env.validate);
      var v := ValidateDigest(r.w, digest, env.validate);
      assert DigestsSound(v.w.state, v.w.passed);
      RecordKeepsInv(r.w, v.w);
      KeptTwice(w, r.w, v.w);
      if v.result.Answer? && v.result.value.passed {
        ActivateKeepsInv(v.w, c, Swapped(r.w.state, digest), env.activate);
        KeptTwice(w, v.w, Activate(v.w, c, Swapped(r.w.state, digest), env.activate).w);
      }
    }
    hide ResolveRemote, ValidateDigest, Activate, DigestsSound, Inv, Kept;
  }

  lemma RollbackKeepsInv(w: World, c: Config, confirmed: Reply<bool>, env: ActivateEnv)
    requires Inv(w)
    ensures Inv(Rollback(w, c, confirmed, env).w) && Kept(w, Rollback(w, c, confirmed, env).w)
  {
    if w.state.previous.Some? {
      ActivateKeepsInv(w, c, Swapped(w.state, w.state.previous.value), env);
    }
    hide Activate, DirSound, UpSound;
  }

  lemma StepKeepsInv(w: World, cmd: Command)
    requires Inv(w)
    ensures Inv(Next(w, cmd)) && Kept(w, Next(w, cmd))
  {
    match cmd
    case PrepareOnly(c, env) =>
      PrepareChanges(w, c, env);
      PreparedKeepsInv(w, c, PrepareRuntime(w, c, env));
    case PublishOnly(c, env) =>
      PublishChanges(w, c, env);
      hide Publish, DirSound, UpSound, DigestsSound;
    case StartStack(c, env) => StartKeepsInv(w, c, env);
    case StartServices(c, env) => UpKeepsInv(w, c, None, env);
    case Advise(env) => AdvisoryKeepsInv(w, env);
    case UpdateCheck(env) => CheckKeepsInv(w, env);
    case UpdateApply(c, env) => ApplyKeepsInv(w, c, env);
    case UpdateRollback(c, confirmed, env) => RollbackKeepsInv(w, c, confirmed, env);
  }

  /** In every run of commands from a sound state, whatever raises wherever: active and
      previous digests have passed validation, an active digest never goes away again, and
      every `up` is sound. */
  lemma {:induction false} RunKeepsInv(w: World, cmds: seq<Command>)
    requires Inv(w)
    ensures Inv(Run(w, cmds)) && Kept(w, Run(w, cmds))
    decreases |cmds|
  {
    if cmds != [] {
      var next := Next(w, cmds[0]);
      StepKeepsInv(w, cmds[0]);
      RunKeepsInv(next, cmds[1..]);
      KeptTwice(w, next, Run(next, cmds[1..]));
    }
    hide Inv, Kept, Next;
  }

  /** Every `up` with Comet enabled ever issued by a deployment, by Comet's commands or by the
      guard, runs the active digest, which has passed validation, with the mounts of a
      manifest that carries every patch this shape needs; one that inspected its image has
      the bundle of that very image. */
  lemma EveryUpRunsItsOwnBundle(cmds: seq<Command>, u: Up)
    requires u in Run(FRESH, cmds).ups && u.config.enabled
    ensures u.state.active.Some? && u.state.active.value in Run(FRESH, cmds).passed
    ensures u.dir.manifest.Some?
    ensures var m := u.dir.manifest.value;
            var ref := Pinned(u.config.repo, u.state.active.value);
            && u.published == Some(Override(Some(Section(ref, m.outputs))))
            && (forall n <- RequiredOutputs(SPECS, u.config.gateway) :: n in m.outputs)
            && "stream.py" in m.outputs
            && (u.inspected.Some? ==> u.inspected.value == Inspected(ref, u.inspected.value.digest)
                                      && u.inspected.value.digest == m.image && m.shape == u.config.shape)
  {
    assert Inv(FRESH);
    RunKeepsInv(FRESH, cmds);
    hide Run;
    assert UpSound(u, Run(FRESH, cmds).passed);
  }

  /** All mounted files are there and were rendered from the manifest's image. */
  predicate MountsOwnFiles(dir: Dir) {
    dir.manifest.Some? &&
    forall n <- dir.manifest.value.outputs :: n in dir.files && dir.files[n].image == dir.manifest.value.image
  }

  /** The exact condition at an `up`, over the replies of the writes that broke off since the
      manifest was written: of each mounted file, the last such write that touched it, if
      any, wrote it and rendered it from the manifest's image. */
  lemma EveryUpMountsOwnFilesExactlyWhen(cmds: seq<Command>, u: Up)
    requires u in Run(FRESH, cmds).ups && u.config.enabled
    ensures u.dir.manifest.Some?
    ensures MountsOwnFiles(u.dir) <==>
            forall j :: 0 <= j < |SPECS| && SPECS[j].outputName in u.dir.manifest.value.outputs ==>
              var t := LastTouch(u.broken, j);
              t.Untouched? || (t.Wrote? && t.image == u.dir.manifest.value.image)
  {
    assert Inv(FRESH);
    RunKeepsInv(FRESH, cmds);
    assert UpSound(u, Run(FRESH, cmds).passed);
    hide Run, SPECS, LastTouch;
    MountsOwnFilesExactlyWhen(u.dir, u.broken);
  }

  lemma MountsOwnFilesExactlyWhen(dir: Dir, broken: seq<Attempt>)
    requires FilesFollow(dir, broken) && dir.manifest.Some?
    ensures MountsOwnFiles(dir) <==>
            forall j :: 0 <= j < |SPECS| && SPECS[j].outputName in dir.manifest.value.outputs ==>
              var t := LastTouch(broken, j);
              t.Untouched? || (t.Wrote? && t.image == dir.manifest.value.image)
  {
    hide SPECS, LastTouch;
    var m := dir.manifest.value;
    forall j | 0 <= j < |SPECS| && SPECS[j].outputName in m.outputs
      ensures (SPECS[j].outputName in dir.files && dir.files[SPECS[j].outputName].image == m.image) <==>
              var t := LastTouch(broken, j); t.Untouched? || (t.Wrote? && t.image == m.image)
    {
      assert Follows(SPECS[j], LastTouch(broken, j), m, dir.files);
    }
  }

  // ----- The guard's up -----

  /** The guard inspects nothing. Its `up` is as sound as one of Comet's own, for the digest
      the active reference resolves to, exactly when the manifest on disk is of that image
      and of the current shape. */
  lemma GuardUpSoundExactlyWhen(w: World, c: Config, env: UpEnv, digest: Digest)
    requires Inv(w) && c.enabled && |GuardUp(w, c, env).w.ups| > |w.ups|
    ensures w.dir.manifest.Some? && w.state.active.Some?
    ensures var after := GuardUp(w, c, env).w;
            var u := after.ups[|w.ups|];
            var i := Inspected(Ref(c.repo, w.state.active), digest);
            UpSound(u.(inspected := Some(i)), after.passed) <==>
            w.dir.manifest.value.image == digest && w.dir.manifest.value.shape == c.shape
  {
    UpChanges(w, c, None, env);
    GuardUpRecords(w, c, env);
    hide GuardUp, DirSound, PublisherAccepts;
  }

  lemma GuardUpRecords(w: World, c: Config, env: UpEnv)
    requires |GuardUp(w, c, env).w.ups| > |w.ups|
    ensures var after := GuardUp(w, c, env).w;
            && after.passed == w.passed
            && after.ups == w.ups + [Up(w.state, w.dir, w.broken, after.published, None, c)]
            && (c.enabled ==> PublisherAccepts(SPECS, w.dir.manifest, c.gateway))
            && after.published == Some(Override(
                 if c.enabled then Some(Section(Ref(c.repo, w.state.active), w.dir.manifest.value.outputs)) else None))
  {
    hide PublisherAccepts;
  }

  /** The same of every `up` the guard ever issued, in every run from a fresh install. */
  lemma EveryGuardUpSoundExactlyWhen(cmds: seq<Command>, u: Up, digest: Digest)
    requires u in Run(FRESH, cmds).ups && u.config.enabled && u.inspected.None?
    ensures u.state.active.Some? && u.dir.manifest.Some?
    ensures var i := Inspected(Pinned(u.config.repo, u.state.active.value), digest);
            UpSound(u.(inspected := Some(i)), Run(FRESH, cmds).passed) <==>
            u.dir.manifest.value.image == digest && u.dir.manifest.value.shape == u.config.shape
  {
    assert Inv(FRESH);
    RunKeepsInv(FRESH, cmds);
    assert UpSound(u, Run(FRESH, cmds).passed);
    hide Run, DirSound, PublisherAccepts;
  }

  /** Commands that leave the active digest and the bundle alone. */
  predicate Quiet(cmd: Command) {
    cmd.PublishOnly? || cmd.StartServices? || cmd.Advise? || cmd.UpdateCheck?
  }

  lemma {:induction false} QuietRunKeepsBundle(w: World, cmds: seq<Command>)
    requires w.state.active.Some? && forall cmd <- cmds :: Quiet(cmd)
    ensures Run(w, cmds).state.active == w.state.active && Run(w, cmds).dir == w.dir
    decreases |cmds|
  {
    hide Publish, ComposeUp, AdvisoryCheck, Check;
    if cmds != [] {
      var cmd := cmds[0];
      assert Quiet(cmd);
      match cmd {
        case PublishOnly(c, env) => PublishChanges(w, c, env);
        case StartServices(c, env) => UpFrame(w, c, None, env);
        case Advise(env) => RemoteChanges(w, env);
        case UpdateCheck(env) => CheckTouchesNothingLive(w, env);
        case _ =>
      }
      QuietRunKeepsBundle(Next(w, cmd), cmds[1..]);
    }
  }

  lemma UpFrame(w: World, c: Config, i: Option<Inspected>, env: UpEnv)
    ensures ComposeUp(w, c, i, env).w.state == w.state && ComposeUp(w, c, i, env).w.dir == w.dir
  {
  }

  /** So the guard's `up` is sound after every preparation that completed, as long as neither
      the settings nor the active digest change in between and the reference still resolves
      to what the preparation saw. */
  lemma GuardUpAfterPreparation(w: World, c: Config, prepare: PrepareEnv, between: seq<Command>, env: UpEnv)
    requires Inv(w) && c.enabled && PrepareRuntime(w, c, prepare).result.Answer?
    requires forall cmd <- between :: Quiet(cmd)
    ensures var ready := Run(PrepareRuntime(w, c, prepare).w, between);
            var after := GuardUp(ready, c, env).w;
            |after.ups| > |ready.ups| ==>
              UpSound(after.ups[|ready.ups|].(inspected := Some(PrepareRuntime(w, c, prepare).result.value)), after.passed)
  {
    PrepareChanges(w, c, prepare);
    var p := PrepareRuntime(w, c, prepare);
    hide PrepareRuntime, GuardUp, Inv, UpSound, Quiet, DirSound;
    PreparedKeepsInv(w, c, p);
    QuietRunKeepsBundle(p.w, between);
    RunKeepsInv(p.w, between);
    var ready := Run(p.w, between);
    if |GuardUp(ready, c, env).w.ups| > |ready.ups| {
      GuardUpSoundExactlyWhen(ready, c, env, p.result.value.digest);
    }
  }

  // ----- Promotion and rollback -----

  /** The replies under which `apply` changes the active digest. */
  predicate ApplyTakes(s: State, env: ApplyEnv) {
    && s.candidate.Some? && s.candidate.value.passed
    && env.remote.remote.Answer? && env.remote.save.Answer?
    && (env.remote.remote.value.Some? ==> env.remote.remote.value.value == s.candidate.value.digest)
    && env.validate.pull.Answer? && env.validate.attempt.Answer?
    && env.activate.save.Answer?
  }

  /** An activation either fails to save, and changes nothing, or installs exactly the new
      state, whatever fails afterwards; success means the last `up` ran that state. */
  lemma ActivateInstalls(w: World, c: Config, next: State, env: ActivateEnv)
    requires Inv(w) && DigestsSound(next, w.passed) && next.active.Some?
    ensures var s := Activate(w, c, next, env);
            && (env.save.IsFailure() ==> s.w == w && s.result.IsFailure())
            && (env.save.Answer? ==> s.w.state == next)
            && (s.result.Answer? ==> |s.w.ups| == |w.ups| + 1 && s.w.ups[|w.ups|].state == next)
  {
    var s := Save(w, next, env.save);
    assert Inv(s.w) by { hide DirSound, UpSound; }
    hide PrepareRuntime, ComposeUp, DirSound, UpSound, DigestsSound;
    PrepareChanges(s.w, c, env.prepare);
    var p := PrepareRuntime(s.w, c, env.prepare);
    if env.save.Answer? && p.result.Answer? {
      PreparedKeepsInv(s.w, c, p);
      UpChanges(p.w, c, Some(p.result.value), env.up);
      UpRecords(p.w, c, Some(p.result.value), env.up);
    }
  }

  lemma UpRecords(w: World, c: Config, i: Option<Inspected>, env: UpEnv)
    ensures var s := ComposeUp(w, c, i, env);
            s.result.Answer? ==> |s.w.ups| == |w.ups| + 1 && s.w.ups[|w.ups|].state == w.state
  {
    hide PublisherAccepts;
  }

  /** `apply` is all or nothing on the digests: it swaps in the candidate exactly when the
      recorded validation passed, upstream does not contradict it, the re-validation passes
      and the state can be saved; otherwise active, previous and candidate stay, and nothing
      live changes. Its success means that the candidate is what was brought up. */
  lemma ApplyAllOrNothing(w: World, c: Config, env: ApplyEnv)
    requires Inv(w)
    ensures var s := Apply(w, c, env);
            && (s.w.state.active != w.state.active <==> ApplyTakes(w.state, env))
            && (ApplyTakes(w.state, env) ==>
                  && s.w.state.active == Some(w.state.candidate.value.digest)
                  && s.w.state.previous == w.state.active && s.w.state.candidate.None?)
            && (!ApplyTakes(w.state, env) ==>
                  && s.result.IsFailure() && s.w.dir == w.dir && s.w.published == w.published && s.w.ups == w.ups
                  && s.w.state == w.state.(lastCheck := s.w.state.lastCheck))
            && (s.result.Answer? ==>
                  |s.w.ups| == |w.ups| + 1 && s.w.ups[|w.ups|].state.active == Some(w.state.candidate.value.digest))
  {
    hide Activate, DirSound, UpSound;
    RemoteChanges(w, env.remote);
    var r := ResolveRemote(w, env.remote);
    if w.state.candidate.Some? {
      var digest := w.state.candidate.value.digest;
      var v := ValidateDigest(r.w, digest, env.validate);
      if v.result.Answer? && v.result.value.passed {
        ValidatedKeepsInv(w, env);
        ActivateInstalls(v.w, c, Swapped(r.w.state, digest), env.activate);
      }
    }
  }

  lemma ValidatedKeepsInv(w: World, env: ApplyEnv)
    requires Inv(w) && w.state.candidate.Some?
    ensures var r := ResolveRemote(w, env.remote);
            var v := ValidateDigest(r.w, w.state.candidate.value.digest, env.validate);
            && Inv(v.w)
            && (v.result.Answer? && v.result.value.passed ==>
                  DigestsSound(Swapped(r.w.state, w.state.candidate.value.digest), v.w.passed))
  {
    RemoteChanges(w, env.remote);
    var r := ResolveRemote(w, env.remote);
    ValidateChanges(r.w, w.state.candidate.value.digest, env.validate);
    var v := ValidateDigest(r.w, w.state.candidate.value.digest, env.validate);
    hide ResolveRemote, ValidateDigest, DirSound, UpSound;
    RecordKeepsInv(w, v.w);
  }

  /** Commands other than `apply` and `rollback`. */
  predicate Neutral(cmd: Command) {
    !cmd.UpdateApply? && !cmd.UpdateRollback?
  }

  lemma NeutralKeepsDigests(w: World, cmd: Command)
    requires Inv(w) && w.state.active.Some? && Neutral(cmd)
    ensures Next(w, cmd).state.active == w.state.active && Next(w, cmd).state.previous == w.state.previous
  {
    hide PrepareRuntime, Publish, ComposeUp, AdvisoryCheck, Check, DirSound, UpSound, DigestsSound;
    match cmd
    case PrepareOnly(c, env) => PrepareChanges(w, c, env);
    case PublishOnly(c, env) => PublishChanges(w, c, env);
    case StartServices(c, env) => UpFrame(w, c, None, env);
    case StartStack(c, env) =>
      PrepareChanges(w, c, env.prepare);
      var p := PrepareRuntime(w, c, env.prepare);
      if p.result.Answer? {
        PreparedKeepsInv(w, c, p);
        UpChanges(p.w, c, Some(p.result.value), env.up);
        RemoteChanges(ComposeUp(p.w, c, Some(p.result.value), env.up).w, env.advisory);
      }
    case Advise(env) => RemoteChanges(w, env);
    case UpdateCheck(env) => CheckTouchesNothingLive(w, env);
  }

  lemma {:induction false} NeutralRunKeepsDigests(w: World, cmds: seq<Command>)
    requires Inv(w) && w.state.active.Some? && forall cmd <- cmds :: Neutral(cmd)
    ensures Run(w, cmds).state.active == w.state.active && Run(w, cmds).state.previous == w.state.previous
    decreases |cmds|
  {
    hide Next, Inv, Neutral;
    if cmds != [] {
      StepKeepsInv(w, cmds[0]);
      NeutralKeepsDigests(w, cmds[0]);
      NeutralRunKeepsDigests(Next(w, cmds[0]), cmds[1..]);
    }
  }

  /** A confirmed rollback whose save succeeds swaps active and previous, whatever fails
      afterwards, and always to a different image. */
  lemma RollbackSwaps(w: World, c: Config, env: ActivateEnv)
    requires Inv(w) && w.state.previous.Some? && env.save.Answer?
    ensures var after := Rollback(w, c, Answer(true), env).w;
            && after.state == State(w.state.previous, w.state.active, None, w.state.lastCheck)
            && after.state.active != w.state.active
  {
    hide Activate, DirSound, UpSound;
    ActivateInstalls(w, c, Swapped(w.state, w.state.previous.value), env);
  }

  /** A promotion, any commands other than promotion and rollback, then a rollback: the old
      digest is active again and the promoted one is previous, even if the promotion, the
      commands in between or the rollback broke off after saving. */
  lemma RollbackUndoesPromotion(w: World, c: Config, apply: ApplyEnv, between: seq<Command>,
                                d: Config, rollback: ActivateEnv)
    requires Inv(w) && ApplyTakes(w.state, apply) && rollback.save.Answer?
    requires forall cmd <- between :: Neutral(cmd)
    ensures var after := Rollback(Run(Apply(w, c, apply).w, between), d, Answer(true), rollback).w;
            && after.state.active == w.state.active
            && after.state.previous == Some(w.state.candidate.value.digest)
            && after.state.candidate.None?
  {
    hide Apply, Rollback, Inv, Neutral;
    ApplyKeepsInv(w, c, apply);
    ApplyAllOrNothing(w, c, apply);
    var promoted := Apply(w, c, apply).w;
    CandidateNeedsActive(w);
    RunKeepsInv(promoted, between);
    NeutralRunKeepsDigests(promoted, between);
    RollbackSwaps(Run(promoted, between), d, rollback);
  }

  lemma CandidateNeedsActive(w: World)
    requires Inv(w) && w.state.candidate.Some?
    ensures w.state.active.Some?
  {
  }

  /** Two rollbacks that save are the identity on active and previous. */
  lemma RollbackTwice(w: World, c: Config, first: ActivateEnv, between: seq<Command>, d: Config, second: ActivateEnv)
    requires Inv(w) && w.state.previous.Some? && first.save.Answer? && second.save.Answer?
    requires forall cmd <- between :: Neutral(cmd)
    ensures var after := Rollback(Run(Rollback(w, c, Answer(true), first).w, between), d, Answer(true), second).w;
            after.state.active == w.state.active && after.state.previous == w.state.previous
  {
    assert w.state.active.Some?;
    hide Rollback, Inv, Neutral;
    RollbackKeepsInv(w, c, Answer(true), first);
    RollbackSwaps(w, c, first);
    var once := Rollback(w, c, Answer(true), first).w;
    RunKeepsInv(once, between);
    NeutralRunKeepsDigests(once, between);
    RollbackSwaps(Run(once, between), d, second);
  }

  /** Active and candidate always differ, but a candidate may be the previous digest: promote
      `b` over `a`, let upstream go back to `a`, and check again. */
  lemma CandidateMayBePrevious(w: World, c: Config, apply: ApplyEnv, check: CheckEnv)
    requires Inv(w) && ApplyTakes(w.state, apply)
    requires check.remote.remote == Answer(w.state.active) && check.remote.save.Answer?
    requires check.validate.pull.Answer? && check.validate.attempt.Answer? && check.save.Answer?
    ensures var after := Check(Apply(w, c, apply).w, check).w.state;
            after.candidate.Some? && after.previous == Some(after.candidate.value.digest)
  {
    CandidateNeedsActive(w);
    ApplyAllOrNothing(w, c, apply);
    hide Apply, Inv;
  }

  // ----- The throttle of the advisory check -----

  /** All commands but the two that ask upstream on the operator's request. */
  predicate Unasked(cmd: Command) {
    !cmd.UpdateCheck? && !cmd.UpdateApply?
  }

  /** The check times recorded along a run. */
  function Recorded(w: World, cmds: seq<Command>): seq<int>
    decreases |cmds|
  {
    if cmds == [] then [] else
      var next := Next(w, cmds[0]);
      (if next.state.lastCheck.Some? && next.state.lastCheck != w.state.lastCheck then [next.state.lastCheck.value] else [])
      + Recorded(next, cmds[1..])
  }

  lemma AdvisoryStep(w: World, env: RemoteEnv)
    ensures var now := AdvisoryCheck(w, env).w.state.lastCheck;
            now == w.state.lastCheck ||
            (now.Some? && (w.state.lastCheck.Some? ==> now.value - w.state.lastCheck.value >= ADVISORY_CHECK_INTERVAL))
  {
  }

  lemma UnaskedStep(w: World, cmd: Command)
    requires Inv(w) && Unasked(cmd)
    ensures var now := Next(w, cmd).state.lastCheck;
            now == w.state.lastCheck ||
            (now.Some? && (w.state.lastCheck.Some? ==> now.value - w.state.lastCheck.value >= ADVISORY_CHECK_INTERVAL))
  {
    hide PrepareRuntime, Publish, ComposeUp, AdvisoryCheck, Activate, DirSound, UpSound;
    match cmd
    case PrepareOnly(c, env) => PrepareChanges(w, c, env);
    case PublishOnly(c, env) => PublishChanges(w, c, env);
    case StartServices(c, env) => UpFrame(w, c, None, env);
    case StartStack(c, env) =>
      PrepareChanges(w, c, env.prepare);
      var p := PrepareRuntime(w, c, env.prepare);
      if p.result.Answer? {
        UpFrame(p.w, c, Some(p.result.value), env.up);
        AdvisoryStep(ComposeUp(p.w, c, Some(p.result.value), env.up).w, env.advisory);
      }
    case Advise(env) => AdvisoryStep(w, env);
    case UpdateRollback(c, confirmed, env) =>
      if w.state.previous.Some? {
        ActivateInstalls(w, c, Swapped(w.state, w.state.previous.value), env);
      }
  }

  /** Any two of these times are at least a day apart, and all of them a day after `last`. */
  predicate DaysApart(last: Option<int>, times: seq<int>) {
    && (last.Some? ==> forall i :: 0 <= i < |times| ==> times[i] - last.value >= ADVISORY_CHECK_INTERVAL)
    && (forall i, j :: 0 <= i < j < |times| ==> times[j] - times[i] >= ADVISORY_CHECK_INTERVAL)
  }

  lemma PrependDay(last: Option<int>, now: int, times: seq<int>)
    requires DaysApart(Some(now), times) && (last.Some? ==> now - last.value >= ADVISORY_CHECK_INTERVAL)
    ensures DaysApart(last, [now] + times)
  {
    var all := [now] + times;
    forall i | 0 < i < |all| ensures all[i] - now >= ADVISORY_CHECK_INTERVAL {
      assert all[i] == times[i - 1];
    }
  }

  /** Over every run of such commands upstream is asked at most once a day: any two recorded
      checks are at least 24 hours apart, whatever the clock does in between. */
  lemma {:induction false} AdvisoryChecksDayApart(w: World, cmds: seq<Command>)
    requires Inv(w) && forall cmd <- cmds :: Unasked(cmd)
    ensures DaysApart(w.state.lastCheck, Recorded(w, cmds))
    decreases |cmds|
  {
    hide Next, Inv, Unasked;
    if cmds != [] {
      hide DaysApart;
      UnaskedStep(w, cmds[0]);
      StepKeepsInv(w, cmds[0]);
      var next := Next(w, cmds[0]);
      AdvisoryChecksDayApart(next, cmds[1..]);
      var rest := Recorded(next, cmds[1..]);
      if next.state.lastCheck == w.state.lastCheck {
        assert [] + rest == rest;
      } else {
        PrependDay(w.state.lastCheck, next.state.lastCheck.value, rest);
      }
    }
  }

  // ----- Two consequences of what the cache key leaves out -----

  /** A bundle on disk for this image and shape that lacks a required patch. */
  predicate Rejected(w: World, c: Config, digest: Digest) {
    && w.state.active.Some? && c.enabled
    && CacheValid(w.dir, digest, c.shape, true)
    && !PublisherAccepts(SPECS, w.dir.manifest, c.gateway)
  }

  /** Preparing or starting again, under the same settings and the same image. */
  predicate Retry(cmd: Command, c: Config, digest: Digest) {
    || (cmd.PrepareOnly? && cmd.config == c && cmd.prepare.readable && cmd.prepare.inspect == Answer(digest))
    || (cmd.StartStack? && cmd.config == c && cmd.start.prepare.readable && cmd.start.prepare.inspect == Answer(digest))
  }

  /** Whether every spec this shape requires is rendered and written by these replies. */
  predicate RequiredApply(c: Config, envs: Rendering) {
    forall j :: 0 <= j < |SPECS| && IsRequired(SPECS[j].requirement, c.gateway) ==> Applies(envs[j])
  }

  /** A write that reaches its manifest leaves a bundle that the cache accepts and the
      publisher rejects exactly when a required patch was not rendered and written. */
  lemma MissedPatchIsRejected(w: World, c: Config, digest: Digest, env: PrepareEnv)
    requires w.state.active.Some? && c.enabled && !CacheValid(w.dir, digest, c.shape, env.readable) && env.extract.Answer?
    requires ManifestReached(SPECS, w.dir, digest, env.rendering, env.manifestWrite)
    ensures Rejected(RefreshBundle(w, c, digest, env).w, c, digest) <==> !RequiredApply(c, env.rendering)
    ensures RefreshBundle(w, c, digest, env).result.Answer? <==> RequiredApply(c, env.rendering) && env.cleanup.Answer?
  {
    ShippedSpecsDistinct();
    BundleAgreement(SPECS, w.dir, digest, c.shape, c.gateway, env.rendering, env.manifestWrite);
    ReturnsExactlyWhen(SPECS, w.dir, digest, c.shape, c.gateway, env.rendering, env.manifestWrite);
    ReachedStatus(w.dir, digest, c, env.rendering, env.manifestWrite);
    hide WriteBundle, ManifestReached, PublisherAccepts, SPECS, Coherent;
  }

  lemma ReachedStatus(dir: Dir, digest: Digest, c: Config, envs: Rendering, manifestWrite: Reply<()>)
    requires ManifestReached(SPECS, dir, digest, envs, manifestWrite)
    ensures var status := WriteBundle(SPECS, dir, digest, c.shape, c.gateway, envs, manifestWrite).status;
            status == Done || status == Raises
  {
    hide RenderFrom, ContractHolds, SkippedRequired;
  }

  /** A calm retry under the same image: everything answers, and the write it might make would
      now reach its manifest with every required patch. */
  predicate CalmRetry(w: World, c: Config, digest: Digest, env: PrepareEnv) {
    && w.state.active.Some? && c.enabled && env.readable
    && env.runtimeEnv.Answer? && env.inspect == Answer(digest) && env.extract.Answer? && env.cleanup.Answer?
    && env.publish.gather.Answer? && env.publish.write.Answer?
    && ManifestReached(SPECS, w.dir, digest, env.rendering, env.manifestWrite) && RequiredApply(c, env.rendering)
  }

  /** Even a retry in which nothing fails and every required patch would render comes up
      exactly when the bundle on disk is not such a rejected one. */
  lemma RetryComesUpExactlyWhen(w: World, c: Config, digest: Digest, env: PrepareEnv)
    requires CalmRetry(w, c, digest, env)
    ensures PrepareRuntime(w, c, env).result.Answer? <==> !Rejected(w, c, digest)
  {
    if !CacheValid(w.dir, digest, c.shape, env.readable) {
      MissedPatchIsRejected(w, c, digest, env);
      RefreshCaches(w, c, digest, env);
    }
    hide WriteBundle, ManifestReached, PublisherAccepts, RequiredApply, Bootstrap, SPECS;
  }

  lemma RefreshCaches(w: World, c: Config, digest: Digest, env: PrepareEnv)
    requires ManifestReached(SPECS, w.dir, digest, env.rendering, env.manifestWrite)
    requires !CacheValid(w.dir, digest, c.shape, env.readable) && env.extract.Answer?
    ensures var r := RefreshBundle(w, c, digest, env).w;
            CacheValid(r.dir, digest, c.shape, true) && r.state == w.state
  {
    ShippedSpecsDistinct();
    BundleAgreement(SPECS, w.dir, digest, c.shape, c.gateway, env.rendering, env.manifestWrite);
    hide WriteBundle, ManifestReached, PublisherAccepts, SPECS, Coherent;
  }

  lemma RejectedPreparationFails(w: World, c: Config, digest: Digest, env: PrepareEnv)
    requires Rejected(w, c, digest) && env.readable && env.inspect == Answer(digest)
    ensures PrepareRuntime(w, c, env).w == w && PrepareRuntime(w, c, env).result.IsFailure()
  {
    hide PublisherAccepts, WriteBundle, Bootstrap, ManifestReached, SPECS;
  }

  /** Such a bundle is never rendered again by retrying: however often the same start is
      repeated, and whatever answers it meets, no bundle is written and nothing comes up. */
  lemma {:induction false} RejectedBundleSticks(w: World, c: Config, digest: Digest, cmds: seq<Command>)
    requires Rejected(w, c, digest) && forall cmd <- cmds :: Retry(cmd, c, digest)
    ensures Run(w, cmds) == w
    decreases |cmds|
  {
    hide PrepareRuntime, ComposeUp, AdvisoryCheck, Rejected;
    if cmds != [] {
      var cmd := cmds[0];
      assert Retry(cmd, c, digest);
      RejectedPreparationFails(w, c, digest, if cmd.PrepareOnly? then cmd.prepare else cmd.start.prepare);
      assert Next(w, cmd) == w;
      RejectedBundleSticks(w, c, digest, cmds[1..]);
    }
  }

  /** An activation of `b` interrupted after its first file was written. */
  predicate Interrupted(env: PrepareEnv, b: Digest, text: string) {
    && env.runtimeEnv.Answer? && env.inspect == Answer(b) && env.extract.Answer?
    && env.rendering[0].render == Answer(Some(text)) && env.rendering[0].write.Answer?
    && env.rendering[1].render.Exits?
  }

  lemma InterruptedWrite(dir: Dir, b: Digest, c: Config, env: PrepareEnv, text: string)
    requires Interrupted(env, b, text)
    ensures var written := WriteBundle(SPECS, dir, b, c.shape, c.gateway, env.rendering, env.manifestWrite);
            && written.dir == dir.(files := dir.files["app.py" := File(text, b)]) && written.status.Exits?
    ensures !ManifestReached(SPECS, dir, b, env.rendering, env.manifestWrite)
  {
    var acc := Acc(dir.files, [], [], map[]);
    var one := RenderOne(acc, SPECS[0], b, env.rendering[0]).acc;
    assert SPECS[0].outputName == "app.py";
    assert one.files == dir.files["app.py" := File(text, b)];
    assert RenderFrom(SPECS, env.rendering, b, 0, acc) == RenderFrom(SPECS, env.rendering, b, 1, one);
    assert RenderFrom(SPECS, env.rendering, b, 1, one) == Progress(one, Status(env.rendering[1].render));
  }

  /** The files are not part of the cache key. Promote `b` and lose the process while its
      bundle is being written, then roll back: the old manifest matches again, so the
      rollback brings the old image up with a file rendered from `b` mounted over it. */
  lemma TornWriteMountsForeignFile(w: World, c: Config, b: Digest, text: string,
                                   promote: ActivateEnv, rollback: ActivateEnv)
    requires w.state.active.Some? && b != w.state.active.value && c.enabled
    requires CacheValid(w.dir, w.state.active.value, c.shape, true) && "app.py" in w.dir.manifest.value.outputs
    requires PublisherAccepts(SPECS, w.dir.manifest, c.gateway)
    requires promote.save.Answer? && Interrupted(promote.prepare, b, text)
    requires rollback.save.Answer? && rollback.prepare.runtimeEnv.Answer? && rollback.prepare.readable
    requires rollback.prepare.inspect == Answer(w.state.active.value)
    requires rollback.prepare.publish == rollback.up.publish == PublishEnv(Done, Done)
    requires rollback.compatibility.Answer?
    ensures var torn := Activate(w, c, Swapped(w.state, b), promote).w;
            var after := Rollback(torn, c, Answer(true), rollback).w;
            && |after.ups| == |w.ups| + 1
            && var u := after.ups[|w.ups|];
            && u.broken != [] && u.state.active == w.state.active
            && u.dir.manifest == w.dir.manifest
            && "app.py" in u.published.value.comet.value.mounts
            && "app.py" in u.dir.files && u.dir.files["app.py"].image == b
  {
    hide PublisherAccepts, WriteBundle, ManifestReached, SPECS;
    InterruptedWrite(w.dir, b, c, promote.prepare, text);
    var torn := Activate(w, c, Swapped(w.state, b), promote).w;
    assert torn == w.(state := Swapped(w.state, b),
                      broken := w.broken + [Attempt(b, w.dir.files, promote.prepare.rendering)],
                      dir := w.dir.(files := w.dir.files["app.py" := File(text, b)]));
    var back := torn.(state := Swapped(torn.state, w.state.active.value));
    var p := PrepareRuntime(back, c, rollback.prepare);
    assert p.w == back.(published := p.w.published) && p.result.Answer?;
  }
}

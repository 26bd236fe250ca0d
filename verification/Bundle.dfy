/** The override bundle: files rendered from an image's source, and the manifest that says
    which of them are mounted. */
module Bundle {
  import opened Replies
  import opened Patching

  datatype Requirement = Required | RequiredWhenGateway | Optional

  datatype Spec = Spec(name: string, containerPath: string, outputName: string, requirement: Requirement)

  const SPECS: seq<Spec> := [
    Spec("api_app", "/app/comet/api/app.py", "app.py", Required),
    Spec("formatter", "/app/comet/utils/formatting.py", "formatting.py", Optional),
    Spec("stream", "/app/comet/api/endpoints/stream.py", "stream.py", RequiredWhenGateway),
    Spec("media_search", "/app/comet/services/media_search.py", "media_search.py", Required),
    Spec("config", "/app/comet/api/endpoints/config.py", "config.py", RequiredWhenGateway),
    Spec("template", "/app/comet/templates/index.html", "index.html", RequiredWhenGateway),
    Spec("torrentio", "/app/comet/scrapers/torrentio.py", "torrentio.py", Optional),
    Spec("filtering", "/app/comet/services/filtering.py", "filtering.py", Optional),
    Spec("orchestration", "/app/comet/services/orchestration.py", "orchestration.py", Optional),
    Spec("metadata_service", "/app/comet/metadata_service.py", "metadata_service.py", Optional)]

  /** Fragments of the rank handoff that must survive in the two rendered files. */
  const CONTRACT: seq<string> := [
    "rtn_ranks: dict[str, int]",
    "for info_hash, ranked_torrent in torrent_manager.ranked_torrents.items()",
    "info_hash: ranked_torrent.rank",
    "search_result.rtn_ranks.get(info_hash)",
    "f\"{_sg_size} \U{2022} R:{_sg_rank}\""]

  /** A file on disk, with the image its text was rendered from. */
  datatype File = File(text: string, image: string)

  /** What the cached bundle depends on besides the image. */
  datatype Shape = Shape(fingerprint: string, style: string, episodePack: bool, baseUrl: Option<string>)

  datatype Manifest = Manifest(
    image: string, shape: Shape, applied: seq<string>, skipped: seq<string>, outputs: map<string, string>)

  datatype Dir = Dir(files: map<string, File>, manifest: Option<Manifest>)

  /** Replies for one spec: the renderer, the write, and the unlinks of the two branches. */
  datatype SpecEnv = SpecEnv(
    render: Reply<Option<string>>, write: Reply<()>, unlink: Reply<()>, unlinkAfterError: Reply<()>)

  datatype Acc = Acc(files: map<string, File>, applied: seq<string>, skipped: seq<string>, outputs: map<string, string>)

  datatype Progress = Progress(acc: Acc, status: Reply<()>)

  predicate IsRequired(r: Requirement, gateway: bool) {
    r.Required? || (gateway && r.RequiredWhenGateway?)
  }

  /** `required_output_names` */
  function RequiredOutputs(specs: seq<Spec>, gateway: bool): (names: set<string>)
    ensures forall n :: n in names <==> exists s :: s in specs && IsRequired(s.requirement, gateway) && s.outputName == n
  {
    set s | s in specs && IsRequired(s.requirement, gateway) :: s.outputName
  }

  // ----- Specification -----

  /** The `except` branch: note the skip, and drop a stale file. */
  function SkipAfterError(acc: Acc, spec: Spec, unlink: Reply<()>): Progress {
    var a := acc.(skipped := acc.skipped + [spec.name]);
    if spec.outputName !in a.files then Progress(a, Done)
    else if unlink.IsFailure() then Progress(a, unlink)
    else Progress(a.(files := a.files - {spec.outputName}), Done)
  }

  /** One turn of the loop. An exit is not an `Exception` and passes through. */
  function RenderOne(acc: Acc, spec: Spec, image: string, env: SpecEnv): Progress {
    if env.render.Exits? then Progress(acc, Status(env.render))
    else if env.render.Raises? then SkipAfterError(acc, spec, env.unlinkAfterError)
    else if env.render.value.None? then
      var a := acc.(skipped := acc.skipped + [spec.name]);
      if spec.outputName !in a.files then Progress(a, Done)
      else if env.unlink.Exits? then Progress(a, env.unlink)
      else if env.unlink.Raises? then SkipAfterError(a, spec, env.unlinkAfterError)
      else Progress(a.(files := a.files - {spec.outputName}), Done)
    else if env.write.Exits? then Progress(acc, env.write)
    else if env.write.Raises? then SkipAfterError(acc, spec, env.unlinkAfterError)
    else Progress(Acc(acc.files[spec.outputName := File(env.render.value.value, image)],
                      acc.applied + [spec.name], acc.skipped,
                      acc.outputs[spec.outputName := spec.containerPath]), Done)
  }

  function RenderFrom(specs: seq<Spec>, envs: seq<SpecEnv>, image: string, i: nat, acc: Acc): Progress
    requires |envs| == |specs| && i <= |specs|
    decreases |specs| - i
  {
    if i == |specs| then Progress(acc, Done) else
      var p := RenderOne(acc, specs[i], image, envs[i]);
      if p.status.IsFailure() then p else RenderFrom(specs, envs, image, i + 1, p.acc)
  }

  /** The cross-file rank contract, checked only when `media_search` is among the specs. */
  predicate ContractHolds(specs: seq<Spec>, files: map<string, File>) {
    (exists s <- specs :: s.name == "media_search") ==>
      && "media_search.py" in files && "stream.py" in files
      && forall f <- CONTRACT :: Contains(files["media_search.py"].text + files["stream.py"].text, f)
  }

  function SkippedRequired(specs: seq<Spec>, skipped: seq<string>, gateway: bool): bool {
    exists s <- specs :: s.name in skipped && IsRequired(s.requirement, gateway)
  }

  datatype Written = Written(dir: Dir, status: Reply<()>)

  /** `write_override_bundle`: the manifest is written before a missing required patch
      raises, and not at all when rendering or the contract check breaks off. */
  function WriteBundle(specs: seq<Spec>, dir: Dir, image: string, shape: Shape, gateway: bool,
                       envs: seq<SpecEnv>, manifestWrite: Reply<()>): Written
    requires |envs| == |specs|
  {
    var p := RenderFrom(specs, envs, image, 0, Acc(dir.files, [], [], map[]));
    var d := dir.(files := p.acc.files);
    if p.status.IsFailure() then Written(d, p.status)
    else if !ContractHolds(specs, d.files) then Written(d, Raises)
    else if manifestWrite.IsFailure() then Written(d, manifestWrite)
    else Written(d.(manifest := Some(Manifest(image, shape, p.acc.applied, p.acc.skipped, p.acc.outputs))),
                 if SkippedRequired(specs, p.acc.skipped, gateway) then Raises else Done)
  }

  /** The publisher's check before anything is published. */
  predicate PublisherAccepts(specs: seq<Spec>, manifest: Option<Manifest>, gateway: bool) {
    manifest.Some? && forall n <- RequiredOutputs(specs, gateway) :: n in manifest.value.outputs
  }

  // ----- The directory -----

  class StateDir {
    var files: map<string, File>
    var manifest: Option<Manifest>

    constructor (files: map<string, File>, manifest: Option<Manifest>)
      ensures View() == Dir(files, manifest)
    {
      this.files, this.manifest := files, manifest;
    }

    ghost function View(): Dir
      reads this
    {
      Dir(files, manifest)
    }

    method WriteOverrideBundle(specs: seq<Spec>, image: string, shape: Shape, gateway: bool,
                               envs: seq<SpecEnv>, manifestWrite: Reply<()>) returns (r: Reply<()>)
      requires |envs| == |specs|
      modifies this
      ensures Written(View(), r) == WriteBundle(specs, old(View()), image, shape, gateway, envs, manifestWrite)
    {
      var applied: seq<string>, skipped: seq<string>, outputs: map<string, string> := [], [], map[];
      var i := 0;
      while i < |specs|
        invariant 0 <= i <= |specs|
        invariant manifest == old(manifest)
        invariant RenderFrom(specs, envs, image, i, Acc(files, applied, skipped, outputs)) ==
                  RenderFrom(specs, envs, image, 0, Acc(old(files), [], [], map[]))
      {
        var spec, env := specs[i], envs[i];
        var failed := env.render.Raises?;
        var _ :- if failed then Done else Status(env.render);
        if !failed {
          if env.render.value.None? {
            skipped := skipped + [spec.name];
            if spec.outputName in files {
              failed := env.unlink.Raises?;
              var _ :- if failed then Done else env.unlink;
              if !failed {
                files := files - {spec.outputName};
              }
            }
          } else {
            failed := env.write.Raises?;
            var _ :- if failed then Done else env.write;
            if !failed {
              files := files[spec.outputName := File(env.render.value.value, image)];
              applied := applied + [spec.name];
              outputs := outputs[spec.outputName := spec.containerPath];
            }
          }
        }
        if failed {
          skipped := skipped + [spec.name];
          if spec.outputName in files {
            var _ :- env.unlinkAfterError;
            files := files - {spec.outputName};
          }
        }
        i := i + 1;
      }
      if !ContractHolds(specs, files) {
        return Raises;
      }
      var _ :- manifestWrite;
      manifest := Some(Manifest(image, shape, applied, skipped, outputs));
      if SkippedRequired(specs, skipped, gateway) {
        return Raises;
      }
      return Done;
    }
  }

  // ----- Agreement of manifest, files and publisher -----

  /** Names and output names identify their spec. */
  predicate Distinct(specs: seq<Spec>) {
    forall i, j :: 0 <= i < j < |specs| ==> specs[i].name != specs[j].name && specs[i].outputName != specs[j].outputName
  }

  /** What the accumulators say about the spec at `j` once it has been handled. */
  predicate Handled(spec: Spec, image: string, acc: Acc) {
    && (spec.name in acc.applied <==> spec.outputName in acc.outputs)
    && (spec.name in acc.skipped <==> spec.outputName !in acc.outputs)
    && (spec.outputName in acc.files <==> spec.outputName in acc.outputs)
    && (spec.outputName in acc.outputs ==>
          acc.outputs[spec.outputName] == spec.containerPath && acc.files[spec.outputName].image == image)
  }

  predicate Agrees(specs: seq<Spec>, i: nat, image: string, acc: Acc)
    requires i <= |specs|
  {
    && (forall j :: 0 <= j < i ==> Handled(specs[j], image, acc))
    && (forall n <- acc.outputs :: exists j :: 0 <= j < i && specs[j].outputName == n)
    && (forall n <- acc.applied + acc.skipped :: exists j :: 0 <= j < i && specs[j].name == n)
  }

  /** The two things a turn that does not break off can have done with its spec. */
  predicate SkippedInto(acc: Acc, spec: Spec, a: Acc) {
    && a.applied == acc.applied && a.outputs == acc.outputs && a.files == acc.files - {spec.outputName}
    && (a.skipped == acc.skipped + [spec.name] || a.skipped == acc.skipped + [spec.name] + [spec.name])
  }

  predicate AppliedInto(acc: Acc, spec: Spec, image: string, a: Acc) {
    && a.applied == acc.applied + [spec.name] && a.skipped == acc.skipped
    && a.outputs == acc.outputs[spec.outputName := spec.containerPath]
    && spec.outputName in a.files && a.files[spec.outputName].image == image
    && a.files - {spec.outputName} == acc.files - {spec.outputName}
  }

  lemma TurnSkipsOrApplies(acc: Acc, spec: Spec, image: string, env: SpecEnv)
    requires RenderOne(acc, spec, image, env).status.Answer?
    ensures var a := RenderOne(acc, spec, image, env).acc;
            SkippedInto(acc, spec, a) || AppliedInto(acc, spec, image, a)
  {
  }

  lemma TurnKeepsOthers(specs: seq<Spec>, i: nat, j: nat, image: string, acc: Acc, a: Acc)
    requires Distinct(specs) && j < i < |specs| && Handled(specs[j], image, acc)
    requires SkippedInto(acc, specs[i], a) || AppliedInto(acc, specs[i], image, a)
    ensures Handled(specs[j], image, a)
  {
    assert specs[j].name != specs[i].name && specs[j].outputName != specs[i].outputName;
    if AppliedInto(acc, specs[i], image, a) {
      assert specs[j].outputName in a.files ==> specs[j].outputName in a.files - {specs[i].outputName};
      assert specs[j].outputName in acc.files ==> specs[j].outputName in acc.files - {specs[i].outputName};
    }
  }

  lemma RenderOneAgrees(specs: seq<Spec>, i: nat, image: string, acc: Acc, a: Acc)
    requires Distinct(specs) && i < |specs| && Agrees(specs, i, image, acc)
    requires SkippedInto(acc, specs[i], a) || AppliedInto(acc, specs[i], image, a)
    ensures Agrees(specs, i + 1, image, a)
  {
    assert specs[i].name !in acc.applied + acc.skipped;
    assert specs[i].outputName !in acc.outputs;
    forall j | 0 <= j < i + 1 ensures Handled(specs[j], image, a) {
      if j < i {
        TurnKeepsOthers(specs, i, j, image, acc, a);
      }
    }
    forall n | n in a.applied + a.skipped ensures exists j :: 0 <= j < i + 1 && specs[j].name == n {
      if n != specs[i].name {
        assert n in acc.applied + acc.skipped;
      }
    }
  }

  lemma {:induction false} RenderAgrees(specs: seq<Spec>, envs: seq<SpecEnv>, image: string, i: nat, acc: Acc)
    requires Distinct(specs) && |envs| == |specs| && i <= |specs| && Agrees(specs, i, image, acc)
    requires RenderFrom(specs, envs, image, i, acc).status.Answer?
    ensures Agrees(specs, |specs|, image, RenderFrom(specs, envs, image, i, acc).acc)
    decreases |specs| - i
  {
    hide RenderOne, Agrees, SkippedInto, AppliedInto, Distinct;
    if i < |specs| {
      var a := RenderOne(acc, specs[i], image, envs[i]).acc;
      TurnSkipsOrApplies(acc, specs[i], image, envs[i]);
      RenderOneAgrees(specs, i, image, acc, a);
      RenderAgrees(specs, envs, image, i + 1, a);
    }
  }

  /** Whether this write got as far as the manifest. */
  predicate ManifestReached(specs: seq<Spec>, dir: Dir, image: string, envs: seq<SpecEnv>, manifestWrite: Reply<()>)
    requires |envs| == |specs|
  {
    var p := RenderFrom(specs, envs, image, 0, Acc(dir.files, [], [], map[]));
    p.status.Answer? && ContractHolds(specs, p.acc.files) && manifestWrite.Answer?
  }

  predicate SpecAgrees(s: Spec, m: Manifest, files: map<string, File>) {
    && (s.outputName in m.outputs <==> s.outputName in files)
    && (s.outputName in m.outputs ==>
          m.outputs[s.outputName] == s.containerPath && files[s.outputName].image == m.image)
  }

  /** The manifest on disk matches the files on disk: its outputs are exactly the spec
      files present, each mounted at its own path and rendered from the manifest's image. */
  predicate Coherent(specs: seq<Spec>, dir: Dir) {
    dir.manifest.Some? ==>
      && (forall s <- specs :: SpecAgrees(s, dir.manifest.value, dir.files))
      && (forall n <- dir.manifest.value.outputs :: exists s <- specs :: s.outputName == n)
  }

  lemma AgreementOf(specs: seq<Spec>, image: string, acc: Acc, s: Spec)
    requires Agrees(specs, |specs|, image, acc) && s in specs
    ensures Handled(s, image, acc)
  {
    var j :| 0 <= j < |specs| && specs[j] == s;
  }

  /** Among agreeing accumulators, a skipped required spec is exactly a required output
      the manifest would lack. */
  lemma SkippedRequiredIsMissing(specs: seq<Spec>, image: string, acc: Acc, gateway: bool)
    requires Agrees(specs, |specs|, image, acc)
    ensures SkippedRequired(specs, acc.skipped, gateway) <==>
            exists n <- RequiredOutputs(specs, gateway) :: n !in acc.outputs
  {
    forall s | s in specs
      ensures s.name in acc.skipped <==> s.outputName !in acc.outputs
    {
      AgreementOf(specs, image, acc, s);
    }
    hide Agrees;
    if SkippedRequired(specs, acc.skipped, gateway) {
      var s :| s in specs && s.name in acc.skipped && IsRequired(s.requirement, gateway);
      assert s.outputName in RequiredOutputs(specs, gateway);
    }
  }

  lemma AgreeingIsCoherent(specs: seq<Spec>, image: string, acc: Acc, d: Dir)
    requires Agrees(specs, |specs|, image, acc) && d.files == acc.files && d.manifest.Some?
    requires d.manifest.value.image == image && d.manifest.value.outputs == acc.outputs
    ensures Coherent(specs, d)
  {
    forall s | s in specs ensures Handled(s, image, acc) {
      AgreementOf(specs, image, acc, s);
    }
  }

  lemma AgreeingPartitions(specs: seq<Spec>, image: string, acc: Acc)
    requires Agrees(specs, |specs|, image, acc)
    ensures forall s <- specs :: s.name in acc.applied <==> s.name !in acc.skipped
    ensures forall n <- acc.applied + acc.skipped :: exists s <- specs :: s.name == n
  {
    forall s | s in specs ensures s.name in acc.applied <==> s.name !in acc.skipped {
      AgreementOf(specs, image, acc, s);
    }
    forall n | n in acc.applied + acc.skipped ensures exists s <- specs :: s.name == n {
      var j :| 0 <= j < |specs| && specs[j].name == n;
      assert specs[j] in specs;
    }
  }

  /** Once a write reaches the manifest, whatever the directory held before: manifest and
      files agree, applied and skipped partition the specs, and the write returns normally
      exactly when the publisher's check will accept the result for this shape (and then
      also with the gateway off). */
  lemma BundleAgreement(specs: seq<Spec>, dir: Dir, image: string, shape: Shape, gateway: bool,
                        envs: seq<SpecEnv>, manifestWrite: Reply<()>)
    requires Distinct(specs) && |envs| == |specs| && ManifestReached(specs, dir, image, envs, manifestWrite)
    ensures var w := WriteBundle(specs, dir, image, shape, gateway, envs, manifestWrite);
            && w.dir.manifest.Some?
            && var m := w.dir.manifest.value;
            && m.image == image && m.shape == shape
            && Coherent(specs, w.dir)
            && (forall s <- specs :: s.name in m.applied <==> s.name !in m.skipped)
            && (forall n <- m.applied + m.skipped :: exists s <- specs :: s.name == n)
            && (w.status == Done <==> PublisherAccepts(specs, w.dir.manifest, gateway))
            && (w.status == Done ==> PublisherAccepts(specs, w.dir.manifest, false))
  {
    RenderAgrees(specs, envs, image, 0, Acc(dir.files, [], [], map[]));
    var a := RenderFrom(specs, envs, image, 0, Acc(dir.files, [], [], map[])).acc;
    var w := WriteBundle(specs, dir, image, shape, gateway, envs, manifestWrite);
    assert w.dir == Dir(a.files, Some(Manifest(image, shape, a.applied, a.skipped, a.outputs)));
    assert w.status == if SkippedRequired(specs, a.skipped, gateway) then Raises else Done;
    hide RenderFrom, ContractHolds, WriteBundle, ManifestReached, Agrees, SkippedRequired, Coherent;
    AgreeingIsCoherent(specs, image, a, w.dir);
    AgreeingPartitions(specs, image, a);
    SkippedRequiredIsMissing(specs, image, a, gateway);
    assert RequiredOutputs(specs, false) <= RequiredOutputs(specs, gateway);
  }

  /** A write that breaks off before the manifest leaves the old manifest in place. */
  lemma BrokenOffKeepsManifest(specs: seq<Spec>, dir: Dir, image: string, shape: Shape, gateway: bool,
                               envs: seq<SpecEnv>, manifestWrite: Reply<()>)
    requires |envs| == |specs| && !ManifestReached(specs, dir, image, envs, manifestWrite)
    ensures var w := WriteBundle(specs, dir, image, shape, gateway, envs, manifestWrite);
            w.status.IsFailure() && w.dir.manifest == dir.manifest
  {
  }

  // ----- What a write does, from its replies -----

  /** The renderer produced text and the file was written. */
  predicate Applies(env: SpecEnv) {
    env.render.Answer? && env.render.value.Some? && env.write.Answer?
  }

  /** The turn unwinds or raises out of the loop; `present` is whether its file exists. */
  predicate TurnBreaks(env: SpecEnv, present: bool) {
    || env.render.Exits?
    || (env.render.Answer? && env.render.value.Some? && env.write.Exits?)
    || (present && env.render.Answer? && env.render.value.None? &&
        (env.unlink.Exits? || (env.unlink.Raises? && env.unlinkAfterError.IsFailure())))
    || (present && (env.render.Raises? || (env.render.Answer? && env.render.value.Some? && env.write.Raises?)) &&
        env.unlinkAfterError.IsFailure())
  }

  /** The first turn from `i` on that breaks off, or the number of specs. */
  function FirstBreak(specs: seq<Spec>, envs: seq<SpecEnv>, files: map<string, File>, i: nat): (k: nat)
    requires |envs| == |specs| && i <= |specs|
    ensures i <= k <= |specs|
    decreases |specs| - i
  {
    if i == |specs| || TurnBreaks(envs[i], specs[i].outputName in files) then i
    else FirstBreak(specs, envs, files, i + 1)
  }

  /** One turn, on its own file. */
  lemma TurnEffect(acc: Acc, spec: Spec, image: string, env: SpecEnv)
    ensures var p := RenderOne(acc, spec, image, env);
            var n := spec.outputName;
            && (p.status.Answer? <==> !TurnBreaks(env, n in acc.files))
            && p.acc.files - {n} == acc.files - {n}
            && (TurnBreaks(env, n in acc.files) ==> p.acc.files == acc.files)
            && (!TurnBreaks(env, n in acc.files) ==>
                  if Applies(env) then n in p.acc.files && p.acc.files[n] == File(env.render.value.value, image)
                  else n !in p.acc.files)
  {
  }

  /** The file of spec `j` is in `files` as it was in `before`. */
  predicate SameFile(n: string, before: map<string, File>, files: map<string, File>) {
    (n in files <==> n in before) && (n in files ==> files[n] == before[n])
  }

  lemma OtherFileKept(n: string, m: string, before: map<string, File>, files: map<string, File>)
    requires n != m && files - {m} == before - {m}
    ensures SameFile(n, before, files)
  {
    assert n in files <==> n in files - {m};
    assert n in before <==> n in before - {m};
    assert n in files ==> (files - {m})[n] == files[n];
    assert n in before ==> (before - {m})[n] == before[n];
  }

  /** What the loop leaves of spec `j`: before the break, its new file or none; from the
      break on, what was there. */
  predicate Left(spec: Spec, env: SpecEnv, image: string, done: bool, before: map<string, File>, files: map<string, File>) {
    var n := spec.outputName;
    if !done then SameFile(n, before, files)
    else if Applies(env) then n in files && files[n] == File(env.render.value.value, image)
    else n !in files
  }

  lemma {:induction false} RenderEffect(specs: seq<Spec>, envs: seq<SpecEnv>, image: string, i: nat,
                                        before: map<string, File>, acc: Acc)
    requires Distinct(specs) && |envs| == |specs| && i <= |specs|
    requires forall j :: i <= j < |specs| ==> SameFile(specs[j].outputName, before, acc.files)
    ensures var p := RenderFrom(specs, envs, image, i, acc);
            var k := FirstBreak(specs, envs, before, i);
            && (p.status.Answer? <==> k == |specs|)
            && (forall j :: 0 <= j < i ==> SameFile(specs[j].outputName, acc.files, p.acc.files))
            && (forall j :: i <= j < |specs| ==> Left(specs[j], envs[j], image, j < k, before, p.acc.files))
    decreases |specs| - i
  {
    if i < |specs| {
      TurnEffect(acc, specs[i], image, envs[i]);
      var one := RenderOne(acc, specs[i], image, envs[i]);
      assert SameFile(specs[i].outputName, before, acc.files);
      hide RenderOne, TurnBreaks, Applies;
      forall j | 0 <= j < |specs| && j != i ensures SameFile(specs[j].outputName, acc.files, one.acc.files) {
        assert specs[j].outputName != specs[i].outputName by {
          assert j < i || i < j;
        }
        OtherFileKept(specs[j].outputName, specs[i].outputName, acc.files, one.acc.files);
      }
      if one.status.Answer? {
        RenderEffect(specs, envs, image, i + 1, before, one.acc);
        var p := RenderFrom(specs, envs, image, i + 1, one.acc);
        assert SameFile(specs[i].outputName, one.acc.files, p.acc.files);
      }
    }
  }

  /** The files after any write, by the replies of its turns. */
  lemma WriteEffect(specs: seq<Spec>, dir: Dir, image: string, shape: Shape, gateway: bool,
                    envs: seq<SpecEnv>, manifestWrite: Reply<()>)
    requires Distinct(specs) && |envs| == |specs|
    ensures var w := WriteBundle(specs, dir, image, shape, gateway, envs, manifestWrite);
            var k := FirstBreak(specs, envs, dir.files, 0);
            && (forall j :: 0 <= j < |specs| ==> Left(specs[j], envs[j], image, j < k, dir.files, w.dir.files))
            && (k < |specs| ==> !ManifestReached(specs, dir, image, envs, manifestWrite))
            && (k == |specs| ==> (ManifestReached(specs, dir, image, envs, manifestWrite) <==>
                                    ContractHolds(specs, w.dir.files) && manifestWrite.Answer?))
  {
    RenderEffect(specs, envs, image, 0, dir.files, Acc(dir.files, [], [], map[]));
    hide RenderFrom, FirstBreak, ContractHolds, Left;
  }

  /** The turns taken before the break only repeat what the manifest records: they render
      outputs it lists, of its own image, and skip nothing that has a file. */
  predicate OnlyRepeats(specs: seq<Spec>, m: Manifest, files: map<string, File>, image: string, envs: seq<SpecEnv>)
    requires |envs| == |specs|
  {
    forall j :: 0 <= j < FirstBreak(specs, envs, files, 0) ==>
      if Applies(envs[j]) then specs[j].outputName in m.outputs && image == m.image
      else specs[j].outputName !in files
  }

  /** A write that breaks off leaves manifest and files in agreement exactly when its turns
      up to the break only repeat what the manifest records; any other interruption leaves
      wrong files under the old manifest. */
  lemma BrokenOffCoherentExactlyWhen(specs: seq<Spec>, dir: Dir, image: string, shape: Shape, gateway: bool,
                                     envs: seq<SpecEnv>, manifestWrite: Reply<()>)
    requires Distinct(specs) && |envs| == |specs| && !ManifestReached(specs, dir, image, envs, manifestWrite)
    requires dir.manifest.Some? && Coherent(specs, dir)
    ensures Coherent(specs, WriteBundle(specs, dir, image, shape, gateway, envs, manifestWrite).dir) <==>
            OnlyRepeats(specs, dir.manifest.value, dir.files, image, envs)
  {
    var m := dir.manifest.value;
    var w := WriteBundle(specs, dir, image, shape, gateway, envs, manifestWrite);
    var k := FirstBreak(specs, envs, dir.files, 0);
    WriteEffect(specs, dir, image, shape, gateway, envs, manifestWrite);
    BrokenOffKeepsManifest(specs, dir, image, shape, gateway, envs, manifestWrite);
    hide WriteBundle, ManifestReached, FirstBreak, Distinct;
    forall j | 0 <= j < |specs|
      ensures SpecAgrees(specs[j], m, w.dir.files) <==>
              (j < k ==> if Applies(envs[j]) then specs[j].outputName in m.outputs && image == m.image
                         else specs[j].outputName !in dir.files)
    {
      assert specs[j] in specs && SpecAgrees(specs[j], m, dir.files);
      assert Left(specs[j], envs[j], image, j < k, dir.files, w.dir.files);
    }
    assert (forall s <- specs :: SpecAgrees(s, m, w.dir.files)) <==>
           (forall j :: 0 <= j < |specs| ==> SpecAgrees(specs[j], m, w.dir.files));
  }

  lemma ShippedSpecsDistinct()
    ensures Distinct(SPECS)
  {
  }

  /** A write reaches its manifest exactly when no turn breaks off, the two files of the rank
      contract are written and hold its fragments, and the manifest itself can be written. */
  lemma ManifestReachedExactlyWhen(dir: Dir, image: string, shape: Shape, gateway: bool,
                                   envs: seq<SpecEnv>, manifestWrite: Reply<()>)
    requires |envs| == |SPECS|
    ensures ManifestReached(SPECS, dir, image, envs, manifestWrite) <==>
            && FirstBreak(SPECS, envs, dir.files, 0) == |SPECS| && manifestWrite.Answer?
            && Applies(envs[2]) && Applies(envs[3])
            && forall f <- CONTRACT :: Contains(envs[3].render.value.value + envs[2].render.value.value, f)
  {
    hide SPECS, CONTRACT, WriteBundle, ManifestReached, FirstBreak, ContractHolds, Applies;
    ShippedSpecsDistinct();
    ShippedNames();
    WriteEffect(SPECS, dir, image, shape, gateway, envs, manifestWrite);
    var k := FirstBreak(SPECS, envs, dir.files, 0);
    var files := WriteBundle(SPECS, dir, image, shape, gateway, envs, manifestWrite).dir.files;
    ContractFiles(files);
    assert Left(SPECS[2], envs[2], image, 2 < k, dir.files, files);
    assert Left(SPECS[3], envs[3], image, 3 < k, dir.files, files);
  }

  lemma ContractFiles(files: map<string, File>)
    ensures ContractHolds(SPECS, files) <==>
            "media_search.py" in files && "stream.py" in files
            && forall f <- CONTRACT :: Contains(files["media_search.py"].text + files["stream.py"].text, f)
  {
    assert SPECS[3] in SPECS && SPECS[3].name == "media_search";
  }

  /** A write that reaches its manifest returns normally exactly when every spec this shape
      requires is rendered and written. */
  lemma ReturnsExactlyWhen(specs: seq<Spec>, dir: Dir, image: string, shape: Shape, gateway: bool,
                           envs: seq<SpecEnv>, manifestWrite: Reply<()>)
    requires Distinct(specs) && |envs| == |specs| && ManifestReached(specs, dir, image, envs, manifestWrite)
    ensures WriteBundle(specs, dir, image, shape, gateway, envs, manifestWrite).status == Done <==>
            forall j :: 0 <= j < |specs| && IsRequired(specs[j].requirement, gateway) ==> Applies(envs[j])
    ensures forall j :: 0 <= j < |specs| ==>
              (specs[j].outputName in WriteBundle(specs, dir, image, shape, gateway, envs, manifestWrite).dir.manifest.value.outputs
               <==> Applies(envs[j]))
  {
    BundleAgreement(specs, dir, image, shape, gateway, envs, manifestWrite);
    WriteEffect(specs, dir, image, shape, gateway, envs, manifestWrite);
    var w := WriteBundle(specs, dir, image, shape, gateway, envs, manifestWrite);
    hide WriteBundle, ManifestReached, FirstBreak, ContractHolds, Distinct, Applies;
    var m := w.dir.manifest.value;
    forall j | 0 <= j < |specs| ensures specs[j].outputName in m.outputs <==> Applies(envs[j]) {
      assert specs[j] in specs && SpecAgrees(specs[j], m, w.dir.files);
      assert Left(specs[j], envs[j], image, true, dir.files, w.dir.files);
    }
    if w.status == Done {
      forall j | 0 <= j < |specs| && IsRequired(specs[j].requirement, gateway) ensures Applies(envs[j]) {
        assert specs[j] in specs && specs[j].outputName in RequiredOutputs(specs, gateway);
      }
    }
  }

  lemma ShippedRequirements()
    ensures |SPECS| == 10
    ensures forall j :: 0 <= j < 10 ==> (SPECS[j].requirement.Required? <==> j == 0 || j == 3)
    ensures forall j :: 0 <= j < 10 ==> (SPECS[j].requirement.RequiredWhenGateway? <==> j == 2 || j == 4 || j == 5)
  {
  }

  lemma ShippedNames()
    ensures |SPECS| == 10
    ensures SPECS[0].outputName == "app.py" && SPECS[2].outputName == "stream.py" && SPECS[3].outputName == "media_search.py"
    ensures SPECS[4].outputName == "config.py" && SPECS[5].outputName == "index.html"
  {
  }

  lemma AcceptsByIndex(specs: seq<Spec>, manifest: Option<Manifest>, gateway: bool)
    ensures PublisherAccepts(specs, manifest, gateway) <==>
            manifest.Some? && forall j :: 0 <= j < |specs| && IsRequired(specs[j].requirement, gateway) ==>
                                specs[j].outputName in manifest.value.outputs
  {
    if manifest.Some? && PublisherAccepts(specs, manifest, gateway) {
      forall j | 0 <= j < |specs| && IsRequired(specs[j].requirement, gateway)
        ensures specs[j].outputName in manifest.value.outputs
      {
        assert specs[j] in specs && specs[j].outputName in RequiredOutputs(specs, gateway);
      }
    }
  }

  /** What the gateway adds: a manifest that serves a gateway serves the deployment without
      one, and what separates the two are exactly three files. */
  lemma GatewayRequirements(manifest: Option<Manifest>)
    ensures PublisherAccepts(SPECS, manifest, false) <==>
            manifest.Some? && "app.py" in manifest.value.outputs && "media_search.py" in manifest.value.outputs
    ensures PublisherAccepts(SPECS, manifest, true) <==>
            && PublisherAccepts(SPECS, manifest, false) && "stream.py" in manifest.value.outputs
            && "config.py" in manifest.value.outputs && "index.html" in manifest.value.outputs
  {
    hide SPECS, PublisherAccepts, RequiredOutputs;
    ShippedRequirements();
    ShippedNames();
    AcceptsByIndex(SPECS, manifest, false);
    AcceptsByIndex(SPECS, manifest, true);
  }

  /** The rank contract makes `stream` mandatory in every deployment shape, although its
      spec says only when the gateway is on: no manifest is ever written without it. */
  lemma StreamAlwaysRequired(dir: Dir, image: string, shape: Shape, gateway: bool,
                             envs: seq<SpecEnv>, manifestWrite: Reply<()>)
    requires |envs| == |SPECS| && ManifestReached(SPECS, dir, image, envs, manifestWrite)
    ensures var m := WriteBundle(SPECS, dir, image, shape, gateway, envs, manifestWrite).dir.manifest;
            m.Some? && "stream.py" in m.value.outputs && "media_search.py" in m.value.outputs
  {
    var files := WriteBundle(SPECS, dir, image, shape, gateway, envs, manifestWrite).dir.files;
    assert ContractHolds(SPECS, files);
    assert SPECS[2].outputName == "stream.py" && SPECS[2] in SPECS;
    assert SPECS[3].outputName == "media_search.py" && SPECS[3].name == "media_search" && SPECS[3] in SPECS;
    hide WriteBundle, ManifestReached, SPECS, CONTRACT;
    assert "media_search.py" in files && "stream.py" in files;
    hide ContractHolds;
    ShippedSpecsDistinct();
    BundleAgreement(SPECS, dir, image, shape, gateway, envs, manifestWrite);
  }
}

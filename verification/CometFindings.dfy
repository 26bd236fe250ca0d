/** Short runs of a fresh deployment in which Comet comes up with the wrong files, or not at
    all, and the replies that lead there. */
module CometFindings {
  import opened Replies
  import opened Patching
  import opened Bundle
  import opened Comet
  import opened CometRuns

  const A: Digest := "sha256:a"
  const B: Digest := "sha256:b"

  const CONFIG := Config("g0ldyy/comet", true, true, Shape("fingerprint", "plain", true, None))

  /** A text that satisfies the rank contract. */
  const RANKS: string := CONTRACT[0] + CONTRACT[1] + CONTRACT[2] + CONTRACT[3] + CONTRACT[4]

  function Renders(text: string): SpecEnv {
    SpecEnv(Answer(Some(text)), Done, Done, Done)
  }

  /** Every spec renders. */
  const GOOD: Rendering := [
    Renders(""), Renders(""), Renders(""), Renders(RANKS), Renders(""),
    Renders(""), Renders(""), Renders(""), Renders(""), Renders("")]

  /** The required `api_app` fails to render, once. */
  const MISSED: Rendering := GOOD[0 := SpecEnv(Raises, Done, Done, Done)]

  /** The process is lost while the second spec renders. */
  const CUT: Rendering := GOOD[1 := SpecEnv(Exits(130), Done, Done, Done)]

  const CALM := PublishEnv(Done, Done)

  const PASSES := ValidateEnv(Done, Answer(false))

  function Preparing(digest: Digest, rendering: Rendering): PrepareEnv {
    PrepareEnv(Done, BootstrapEnv(Done, Answer(A), PASSES, false, Answer(true), Answer(A), PASSES, Done),
               Answer(digest), true, Done, rendering, Done, Done, CALM)
  }

  function Activating(prepare: PrepareEnv): ActivateEnv {
    ActivateEnv(Done, prepare, Done, UpEnv(CALM, Done))
  }

  const INSTALL := PrepareOnly(CONFIG, Preparing(A, GOOD))

  const CHECK := UpdateCheck(CheckEnv(RemoteEnv(Answer(Some(B)), 0, Done), PASSES, Done))

  function Applying(prepare: PrepareEnv): ApplyEnv {
    ApplyEnv(RemoteEnv(Answer(Some(B)), 0, Done), PASSES, Activating(prepare))
  }

  // ----- The contract text, and writes that reach their manifest -----

  lemma HoldsInTheMiddle(before: string, f: string, after: string)
    ensures Contains(before + f + after, f)
  {
    assert (before + f + after)[|before|..|before| + |f|] == f;
    assert At(before + f + after, |before|, f);
  }

  lemma RanksHold(f: string)
    requires f in CONTRACT
    ensures Contains(RANKS + "", f)
  {
    assert |CONTRACT| == 5;
    var c0, c1, c2, c3, c4 := CONTRACT[0], CONTRACT[1], CONTRACT[2], CONTRACT[3], CONTRACT[4];
    var j :| 0 <= j < 5 && CONTRACT[j] == f;
    assert RANKS + "" == RANKS == c0 + c1 + c2 + c3 + c4;
    hide *;
    FiveParts(c0, c1, c2, c3, c4);
  }

  lemma FiveParts(c0: string, c1: string, c2: string, c3: string, c4: string)
    ensures var all := c0 + c1 + c2 + c3 + c4;
            Contains(all, c0) && Contains(all, c1) && Contains(all, c2) && Contains(all, c3) && Contains(all, c4)
  {
    hide Contains;
    var all := c0 + c1 + c2 + c3 + c4;
    HoldsInTheMiddle("", c0, c1 + c2 + c3 + c4);
    assert all == "" + c0 + (c1 + c2 + c3 + c4);
    HoldsInTheMiddle(c0, c1, c2 + c3 + c4);
    assert all == c0 + c1 + (c2 + c3 + c4);
    HoldsInTheMiddle(c0 + c1, c2, c3 + c4);
    assert all == c0 + c1 + c2 + (c3 + c4);
    HoldsInTheMiddle(c0 + c1 + c2, c3, c4);
    HoldsInTheMiddle(c0 + c1 + c2 + c3, c4, "");
    assert all == c0 + c1 + c2 + c3 + c4 + "";
  }

  lemma {:induction false} NothingBreaks(envs: Rendering, files: map<string, File>, i: nat)
    requires i <= |SPECS|
    requires forall j :: 0 <= j < |SPECS| ==> !TurnBreaks(envs[j], true) && !TurnBreaks(envs[j], false)
    ensures FirstBreak(SPECS, envs, files, i) == |SPECS|
    decreases |SPECS| - i
  {
    hide SPECS, TurnBreaks;
    if i < |SPECS| {
      assert !TurnBreaks(envs[i], SPECS[i].outputName in files);
      NothingBreaks(envs, files, i + 1);
    }
  }

  lemma GoodTurns(j: nat)
    requires j < |SPECS|
    ensures Applies(GOOD[j]) && !TurnBreaks(GOOD[j], true) && !TurnBreaks(GOOD[j], false)
    ensures j != 0 ==> MISSED[j] == GOOD[j]
    ensures !Applies(MISSED[0]) && !TurnBreaks(MISSED[0], true) && !TurnBreaks(MISSED[0], false)
  {
    hide RANKS;
  }

  lemma ContractTexts()
    ensures |SPECS| == 10
    ensures GOOD[2].render == Answer(Some("")) && GOOD[3].render == Answer(Some(RANKS))
  {
  }

  /** Both renderings get as far as the manifest, from any directory. */
  lemma ReachManifest(dir: Dir, digest: Digest)
    ensures ManifestReached(SPECS, dir, digest, GOOD, Done) && ManifestReached(SPECS, dir, digest, MISSED, Done)
  {
    ContractTexts();
    hide SPECS, GOOD, MISSED, RANKS, CONTRACT, TurnBreaks, Applies, FirstBreak, ManifestReached;
    forall j | 0 <= j < |SPECS|
      ensures !TurnBreaks(GOOD[j], true) && !TurnBreaks(GOOD[j], false)
              && !TurnBreaks(MISSED[j], true) && !TurnBreaks(MISSED[j], false)
    {
      GoodTurns(j);
    }
    NothingBreaks(GOOD, dir.files, 0);
    NothingBreaks(MISSED, dir.files, 0);
    GoodTurns(2);
    GoodTurns(3);
    forall f | f in CONTRACT ensures Contains(RANKS + "", f) {
      RanksHold(f);
    }
    ManifestReachedExactlyWhen(dir, digest, CONFIG.shape, true, GOOD, Done);
    ManifestReachedExactlyWhen(dir, digest, CONFIG.shape, true, MISSED, Done);
  }

  // ----- The runs -----

  lemma Bootstrapped(rendering: Rendering)
    ensures var w := PrepareRuntime(FRESH, CONFIG, Preparing(A, rendering)).w;
            var b := FRESH.(state := State(Some(A), None, None, None), passed := {A});
            var r := RefreshBundle(b, CONFIG, A, Preparing(A, rendering));
            && (r.result.IsFailure() ==> w == r.w)
            && (r.result.Answer? ==> w == r.w.(published := w.published))
            && !CacheValid(b.dir, A, CONFIG.shape, true)
  {
    hide RefreshBundle, PublisherAccepts;
    var none: set<Digest> := {};
    assert none + {A} == {A};
    assert Bootstrap(FRESH, Preparing(A, rendering).bootstrap).w ==
           FRESH.(state := State(Some(A), None, None, None), passed := {A});
  }

  /** One failed render of a required patch is enough: the very next state of a fresh install
      is a bundle that no start will render again. */
  lemma FirstInstallCanStick()
    ensures Rejected(Run(FRESH, [PrepareOnly(CONFIG, Preparing(A, MISSED))]), CONFIG, A)
  {
    var cmd := PrepareOnly(CONFIG, Preparing(A, MISSED));
    var b := FRESH.(state := State(Some(A), None, None, None), passed := {A});
    assert Run(FRESH, [cmd]) == Next(FRESH, cmd) by {
      assert [cmd][1..] == [];
    }
    Bootstrapped(MISSED);
    ReachManifest(b.dir, A);
    assert !RequiredApply(CONFIG, MISSED) by {
      ShippedRequirements();
      GoodTurns(0);
      hide SPECS, MISSED, GOOD;
      assert IsRequired(SPECS[0].requirement, true);
    }
    hide RefreshBundle, PrepareRuntime, Rejected, RequiredApply, ManifestReached, SPECS, MISSED, GOOD;
    MissedPatchIsRejected(b, CONFIG, A, Preparing(A, MISSED));
  }

  /** What the install leaves. */
  predicate Installed(w: World) {
    && w.state == State(Some(A), None, None, None) && w.ups == [] && w.passed == {A}
    && CacheValid(w.dir, A, CONFIG.shape, true) && "app.py" in w.dir.manifest.value.outputs
    && PublisherAccepts(SPECS, w.dir.manifest, true)
  }

  lemma InstallWorks()
    ensures Installed(Next(FRESH, INSTALL))
  {
    var b := FRESH.(state := State(Some(A), None, None, None), passed := {A});
    Bootstrapped(GOOD);
    ReachManifest(b.dir, A);
    assert RequiredApply(CONFIG, GOOD) by {
      hide SPECS, GOOD, Applies;
      forall j | 0 <= j < |SPECS| ensures Applies(GOOD[j]) { GoodTurns(j); }
    }
    var env := Preparing(A, GOOD);
    MissedPatchIsRejected(b, CONFIG, A, env);
    RefreshCaches(b, CONFIG, A, env);
    RefreshFrame(b, CONFIG, A, env);
    var r := RefreshBundle(b, CONFIG, A, env).w;
    GatewayRequirements(r.dir.manifest);
    hide RefreshBundle, PrepareRuntime, RequiredApply, ManifestReached, PublisherAccepts, SPECS, GOOD;
  }

  lemma RefreshFrame(w: World, c: Config, digest: Digest, env: PrepareEnv)
    ensures var r := RefreshBundle(w, c, digest, env).w; r == w.(dir := r.dir, broken := r.broken)
  {
    hide WriteBundle, ManifestReached;
  }

  lemma CheckWorks(w: World)
    requires Installed(w)
    ensures Next(w, CHECK) == w.(state := State(Some(A), None, Some(Comet.Candidate.Candidate(B, true)), Some(0)), passed := {A, B})
  {
    hide PublisherAccepts, SPECS;
    assert {A} + {B} == {A, B};
  }

  /** After install and check, an `apply` is an activation of `B`. */
  lemma ApplyActivates(w: World, prepare: PrepareEnv)
    requires Installed(w)
    ensures var checked := Next(w, CHECK);
            Next(checked, UpdateApply(CONFIG, Applying(prepare))) ==
            Activate(checked, CONFIG, Swapped(checked.state, B), Activating(prepare)).w
  {
    CheckWorks(w);
    hide Activate, PublisherAccepts, SPECS, Next, Check;
    var checked := Next(w, CHECK);
    assert checked.passed + {B} == checked.passed;
    assert Next(checked, UpdateApply(CONFIG, Applying(prepare))) == Apply(checked, CONFIG, Applying(prepare)).w by {
      NextApply(checked, prepare);
    }
    assert ResolveRemote(checked, Applying(prepare).remote).w == checked;
    assert ValidateDigest(checked, B, PASSES).w == checked;
  }

  lemma NextApply(w: World, prepare: PrepareEnv)
    ensures Next(w, UpdateApply(CONFIG, Applying(prepare))) == Apply(w, CONFIG, Applying(prepare)).w
  {
  }

  lemma FourSteps(w: World, a: Command, b: Command, c: Command, d: Command)
    ensures Run(w, [a, b, c, d]) == Next(Next(Next(Next(w, a), b), c), d)
  {
    hide Next;
    assert [a, b, c, d][1..] == [b, c, d] && [b, c, d][1..] == [c, d] && [c, d][1..] == [d] && [d][1..] == [];
    assert Run(Next(Next(Next(w, a), b), c), [d]) == Next(Next(Next(Next(w, a), b), c), d);
    assert Run(Next(Next(w, a), b), [c, d]) == Run(Next(Next(Next(w, a), b), c), [d]);
    assert Run(Next(w, a), [b, c, d]) == Run(Next(Next(w, a), b), [c, d]);
  }

  const TORN_RUN: seq<Command> := [
    INSTALL, CHECK, UpdateApply(CONFIG, Applying(Preparing(B, CUT))),
    UpdateRollback(CONFIG, Answer(true), Activating(Preparing(A, GOOD)))]

  /** Install `A`, promote `B`, lose the process after the first file of `B`'s bundle, roll
      back: the one `up` of this run is of `A`, and mounts a file rendered from `B`. */
  lemma RollbackMountsForeignFile()
    ensures var ups := Run(FRESH, TORN_RUN).ups;
            && |ups| == 1
            && var u := ups[0];
            && u.state.active == Some(A) && u.dir.manifest.Some? && u.dir.manifest.value.image == A
            && "app.py" in u.dir.manifest.value.outputs && "app.py" in u.dir.files && u.dir.files["app.py"].image == B
            && !MountsOwnFiles(u.dir)
  {
    hide PublisherAccepts, SPECS, Activate, Rollback, Check, PrepareRuntime, GOOD, CUT, Apply, Installed;
    FourSteps(FRESH, TORN_RUN[0], TORN_RUN[1], TORN_RUN[2], TORN_RUN[3]);
    InstallWorks();
    var w := Next(FRESH, INSTALL);
    CheckWorks(w);
    var checked := Next(w, CHECK);
    ApplyActivates(w, Preparing(B, CUT));
    var torn := Next(checked, TORN_RUN[2]);
    var end := Next(torn, TORN_RUN[3]);
    assert end == Rollback(torn, CONFIG, Answer(true), Activating(Preparing(A, GOOD))).w;
    assert checked.state.active == Some(A);
    hide *;
    RollbackOfTorn(w, checked, torn, end);
  }

  lemma RollbackOfTorn(w: World, checked: World, torn: World, end: World)
    requires Installed(w)
    requires checked == w.(state := State(Some(A), None, Some(Comet.Candidate.Candidate(B, true)), Some(0)), passed := {A, B})
    requires torn == Activate(checked, CONFIG, Swapped(checked.state, B), Activating(Preparing(B, CUT))).w
    requires end == Rollback(torn, CONFIG, Answer(true), Activating(Preparing(A, GOOD))).w
    ensures |end.ups| == 1
    ensures var u := end.ups[0];
            && u.state.active == Some(A) && u.dir.manifest.Some? && u.dir.manifest.value.image == A
            && "app.py" in u.dir.manifest.value.outputs && "app.py" in u.dir.files && u.dir.files["app.py"].image == B
            && !MountsOwnFiles(u.dir)
  {
    CutInterrupts();
    hide PublisherAccepts, SPECS, Activate, Rollback, PrepareRuntime, GOOD, CUT;
    TornWriteMountsForeignFile(checked, CONFIG, B, "", Activating(Preparing(B, CUT)), Activating(Preparing(A, GOOD)));
  }

  lemma CutInterrupts()
    ensures Interrupted(Preparing(B, CUT), B, "")
  {
    hide RANKS;
  }

  const GUARD_RUN: seq<Command> := [
    INSTALL, CHECK, UpdateApply(CONFIG, Applying(Preparing(B, GOOD).(inspect := Raises))),
    StartServices(CONFIG, UpEnv(CALM, Done))]

  /** Install `A`, promote `B`, and let the inspection fail after the state is saved. When the
      guard next starts the services, image `B` comes up with the patches rendered from `A`:
      the publisher looks at the required outputs, not at the manifest's image. */
  lemma GuardMountsOtherPatches()
    ensures var ups := Run(FRESH, GUARD_RUN).ups;
            && |ups| == 1
            && var u := ups[0];
            && u.inspected.None? && u.dir.manifest.Some? && u.dir.manifest.value.image == A
            && u.published == Some(Override(Some(Section(Pinned(CONFIG.repo, B), u.dir.manifest.value.outputs))))
  {
    FourSteps(FRESH, GUARD_RUN[0], GUARD_RUN[1], GUARD_RUN[2], GUARD_RUN[3]);
    InstallWorks();
    var w := Next(FRESH, INSTALL);
    CheckWorks(w);
    var prepare := Preparing(B, GOOD).(inspect := Raises);
    ApplyActivates(w, prepare);
    var checked := Next(w, CHECK);
    var saved := Activate(checked, CONFIG, Swapped(checked.state, B), Activating(prepare)).w;
    assert saved == checked.(state := Swapped(checked.state, B));
    hide PublisherAccepts, SPECS, Activate, Check, PrepareRuntime, GOOD;
    assert Next(saved, GUARD_RUN[3]) == GuardUp(saved, CONFIG, UpEnv(CALM, Done)).w;
  }
}

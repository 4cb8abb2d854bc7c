/**
 * Utility: the scene-transition orchestrator. A move to a scene descriptor loads the
 * descriptor's scenes additively in list order (the first becomes the active scene), then
 * unloads every previously loaded scene the descriptor does not list, except the test
 * runner's `InitTestScene…` scenes, rebuilds the light probes, and finally looks for the
 * requested spawn point. A loading phase, announced to subscribers on every change, guards
 * against overlapping moves.
 */
module Utility {
  import opened Wrappers
  import opened Strings
  import opened Exceptions
  import opened SceneBase
  import opened SceneGraph
  import opened Host
  import opened Loader
  import opened SpawnPoints
  import opened TestSceneInfo

  datatype SceneLoadingPhase =
    | DoNotAnything
    | NextSceneLoading
    | NextSceneLoaded
    | PrevSceneUnLoading
    | PrevSceneUnLoaded
    | SpawnPointMoving
    | SpawnPointMoved

  /** What the subscribers of the three events hear. */
  datatype Notification = LoadingScene | LoadedScene | ChangedLoadingPhase(phase: SceneLoadingPhase)

  /** `OnChangedLoadingPhase`, once the phase has become `phase`. */
  function OnChanged(phase: SceneLoadingPhase): seq<Notification> {
    (if phase == NextSceneLoading then [LoadingScene] else if phase == DoNotAnything then [LoadedScene] else [])
    + [ChangedLoadingPhase(phase)]
  }

  /**
   * A phase change is announced by `ChangedLoadingPhase` with the new phase, last and only once,
   * preceded by `LoadingScene` exactly when a move starts and by `LoadedScene` exactly when it ends.
   */
  lemma OnChangedAnnounces(phase: SceneLoadingPhase)
    ensures var r := OnChanged(phase);
      && |r| >= 1 && r[|r| - 1] == ChangedLoadingPhase(phase)
      && (forall i :: 0 <= i < |r| - 1 ==> !r[i].ChangedLoadingPhase?)
      && (LoadingScene in r <==> phase == NextSceneLoading)
      && (LoadedScene in r <==> phase == DoNotAnything)
  {
  }

  /** What subscribers hear when a move starts: the only notifications of a move whose load throws. */
  const LoadFaultNotifications := [LoadingScene, ChangedLoadingPhase(NextSceneLoading)]

  /** What subscribers hear once the loads are done: the loads ended, the unloads began. */
  const LoadedNotifications := [ChangedLoadingPhase(NextSceneLoaded), ChangedLoadingPhase(PrevSceneUnLoading)]

  /** What subscribers hear from a move whose unload throws. */
  const UnloadFaultNotifications := LoadFaultNotifications + LoadedNotifications

  /** What subscribers hear once the unloads are done. */
  const UnloadedNotifications := [ChangedLoadingPhase(PrevSceneUnLoaded)]

  /** What subscribers hear from the spawn-point step to the end of the move. */
  const SpawnNotifications :=
    [ChangedLoadingPhase(SpawnPointMoving), ChangedLoadingPhase(SpawnPointMoved), LoadedScene, ChangedLoadingPhase(DoNotAnything)]

  /**
   * What subscribers hear from a completed move: `LoadingScene` first, every phase change in
   * order, and `LoadedScene` just before the final change back to idle.
   */
  const MoveNotifications := UnloadFaultNotifications + UnloadedNotifications + SpawnNotifications

  /** Scenes whose name starts with this belong to the test runner and are never unloaded. */
  const InitTestScenePrefix := "InitTestScene"

  /**
   * The unload list built from the first `n` loaded names: those the next descriptor does not
   * list, in loaded order.
   */
  function UnloadList(loaded: seq<string>, next: seq<string>, n: nat): seq<string>
    requires n <= |loaded|
  {
    if n == 0 then []
    else UnloadList(loaded, next, n - 1) + (if loaded[n - 1] in next then [] else [loaded[n - 1]])
  }

  function UnloadingSceneNames(loaded: seq<string>, next: seq<string>): seq<string> {
    UnloadList(loaded, next, |loaded|)
  }

  /**
   * Each loaded name the next descriptor does not list is in the unload list as often as it is
   * loaded; a listed name is not in it at all.
   */
  lemma {:induction false} UnloadListCounts(loaded: seq<string>, next: seq<string>, n: nat)
    requires n <= |loaded|
    ensures forall x :: multiset(UnloadList(loaded, next, n))[x] == if x in next then 0 else multiset(loaded[..n])[x]
  {
    if n > 0 {
      UnloadListCounts(loaded, next, n - 1);
      assert loaded[..n] == loaded[..n - 1] + [loaded[n - 1]];
    }
  }

  /** The unload list holds exactly the loaded names the next descriptor does not list. */
  lemma UnloadingSceneNamesAreTheDifference(loaded: seq<string>, next: seq<string>)
    ensures forall x :: x in UnloadingSceneNames(loaded, next) <==> x in loaded && x !in next
    ensures forall x :: x !in next ==> multiset(UnloadingSceneNames(loaded, next))[x] == multiset(loaded)[x]
  {
    UnloadListCounts(loaded, next, |loaded|);
    assert loaded[..|loaded|] == loaded;
    forall x ensures x in UnloadingSceneNames(loaded, next) <==> x in loaded && x !in next {
      assert x in UnloadingSceneNames(loaded, next) <==> multiset(UnloadingSceneNames(loaded, next))[x] > 0;
      assert x in loaded <==> multiset(loaded)[x] > 0;
    }
  }

  /** The names of the first `n` in the unload list that the unload loop does not skip. */
  function Targets(names: seq<string>, n: nat): seq<string>
    requires n <= |names|
  {
    if n == 0 then []
    else Targets(names, n - 1) + (if StartsWith(names[n - 1], InitTestScenePrefix) then [] else [names[n - 1]])
  }

  lemma {:induction false} TargetsCounts(names: seq<string>, n: nat)
    requires n <= |names|
    ensures forall x :: multiset(Targets(names, n))[x] == if StartsWith(x, InitTestScenePrefix) then 0 else multiset(names[..n])[x]
  {
    if n > 0 {
      TargetsCounts(names, n - 1);
      assert names[..n] == names[..n - 1] + [names[n - 1]];
    }
  }

  /** The engine as a move changes it, and the exception that stopped the move, if one did. */
  datatype Run = Run(loaded: seq<string>, calls: seq<HostCall>, error: Option<Exception>)

  /**
   * One turn of the load loop: `LoadSceneAddressableAsync(name, Additive)`, then, for the first
   * name, `SetActiveScene`. An already loaded scene is skipped unless duplicates are allowed.
   */
  function LoadStep(host: Host, r: Run, name: string, first: bool, allowDuplicateLoad: bool): Run {
    var activate := if first then [SetActiveScene(name)] else [];
    if !allowDuplicateLoad && name in r.loaded then Run(r.loaded, r.calls + activate, None)
    else if name in host.unresolvableAddresses then
      Run(r.loaded, r.calls + [ResolveSceneAddress(name, NativeAdditive)], Some(AddressNotResolved(name)))
    else if name in host.refusedScenes then
      Run(r.loaded, r.calls + [ResolveSceneAddress(name, NativeAdditive), ActivateScene(name)], Some(LoadHandleNull(name)))
    else
      Run(r.loaded + [name], r.calls + [ResolveSceneAddress(name, NativeAdditive), ActivateScene(name)] + activate, None)
  }

  /** The load loop over the first `n` names, stopped by the first exception. */
  function LoadRun(host: Host, start: Run, names: seq<string>, n: nat, allowDuplicateLoad: bool): Run
    requires n <= |names|
  {
    if n == 0 then start
    else
      var r := LoadRun(host, start, names, n - 1, allowDuplicateLoad);
      if r.error.Some? then r else LoadStep(host, r, names[n - 1], n == 1, allowDuplicateLoad)
  }

  /**
   * One turn of the unload loop: an `InitTestScene…` name is skipped; otherwise
   * `UnloadSceneAsync`, which unloads the scene and then releases unused assets.
   */
  function UnloadStep(host: Host, r: Run, name: string): Run {
    if StartsWith(name, InitTestScenePrefix) then r
    else if host.RefusesUnload(r.loaded, name) then
      Run(r.loaded, r.calls + [UnloadScene(name)], Some(UnloadHandleNull(name)))
    else
      Run(RemoveFirst(r.loaded, name), r.calls + [UnloadScene(name), UnloadUnusedAssets],
          if host.releaseRefused then Some(UnloadUnusedAssetsNull) else None)
  }

  /** The unload loop over the first `n` names, stopped by the first exception. */
  function UnloadRun(host: Host, start: Run, names: seq<string>, n: nat): Run
    requires n <= |names|
  {
    if n == 0 then start
    else
      var r := UnloadRun(host, start, names, n - 1);
      if r.error.Some? then r else UnloadStep(host, r, names[n - 1])
  }

  /** Once a loop has thrown, the later names change nothing. */
  lemma {:induction false} LoadRunStops(host: Host, start: Run, names: seq<string>, k: nat, n: nat, allowDuplicateLoad: bool)
    requires k <= n <= |names|
    requires LoadRun(host, start, names, k, allowDuplicateLoad).error.Some?
    ensures LoadRun(host, start, names, n, allowDuplicateLoad) == LoadRun(host, start, names, k, allowDuplicateLoad)
    decreases n
  {
    if n > k {
      LoadRunStops(host, start, names, k, n - 1, allowDuplicateLoad);
    }
  }

  lemma {:induction false} UnloadRunStops(host: Host, start: Run, names: seq<string>, k: nat, n: nat)
    requires k <= n <= |names|
    requires UnloadRun(host, start, names, k).error.Some?
    ensures UnloadRun(host, start, names, n) == UnloadRun(host, start, names, k)
    decreases n
  {
    if n > k {
      UnloadRunStops(host, start, names, k, n - 1);
    }
  }

  /**
   * Loading only appends scenes, and only listed ones: the scenes loaded before stay in front,
   * in order, and a name the descriptor does not list is loaded exactly as often as before.
   */
  lemma {:induction false} LoadRunAppendsListed(host: Host, start: Run, names: seq<string>, n: nat, allowDuplicateLoad: bool)
    requires n <= |names|
    ensures start.loaded <= LoadRun(host, start, names, n, allowDuplicateLoad).loaded
    ensures forall x :: x !in names ==>
      multiset(LoadRun(host, start, names, n, allowDuplicateLoad).loaded)[x] == multiset(start.loaded)[x]
  {
    if n > 0 {
      LoadRunAppendsListed(host, start, names, n - 1, allowDuplicateLoad);
    }
  }

  /** When no load throws, every listed name is loaded afterwards. */
  lemma {:induction false} LoadRunLoadsAll(host: Host, start: Run, names: seq<string>, n: nat, allowDuplicateLoad: bool)
    requires n <= |names|
    requires LoadRun(host, start, names, n, allowDuplicateLoad).error.None?
    ensures forall i :: 0 <= i < n ==> names[i] in LoadRun(host, start, names, n, allowDuplicateLoad).loaded
  {
    if n > 0 {
      LoadRunLoadsAll(host, start, names, n - 1, allowDuplicateLoad);
    }
  }

  /** With duplicates allowed and no load throwing, the listed names are appended in list order. */
  lemma {:induction false} LoadRunInListOrder(host: Host, start: Run, names: seq<string>, n: nat)
    requires n <= |names|
    requires LoadRun(host, start, names, n, true).error.None?
    ensures LoadRun(host, start, names, n, true).loaded == start.loaded + names[..n]
  {
    if n > 0 {
      LoadRunInListOrder(host, start, names, n - 1);
      assert names[..n] == names[..n - 1] + [names[n - 1]];
    }
  }

  /**
   * The names among the first `n` that were not loaded before and are not listed earlier, in
   * list order: what a load loop that skips loaded scenes adds.
   */
  function FirstLoads(before: seq<string>, names: seq<string>, n: nat): seq<string>
    requires n <= |names|
  {
    if n == 0 then []
    else
      FirstLoads(before, names, n - 1)
      + (if names[n - 1] in before || names[n - 1] in names[..n - 1] then [] else [names[n - 1]])
  }

  /** A name is added exactly when it is listed and was not loaded before. */
  lemma {:induction false} FirstLoadsMembers(before: seq<string>, names: seq<string>, n: nat)
    requires n <= |names|
    ensures forall x :: x in FirstLoads(before, names, n) <==> x !in before && x in names[..n]
  {
    if n > 0 {
      FirstLoadsMembers(before, names, n - 1);
      assert names[..n] == names[..n - 1] + [names[n - 1]];
    }
  }

  /**
   * With duplicates skipped (the default option) and no load throwing, the loop appends, in
   * list order, each name that is not loaded yet when its turn comes: the names not loaded
   * before, each at its first listing.
   */
  lemma {:induction false} LoadRunSkipsLoaded(host: Host, start: Run, names: seq<string>, n: nat)
    requires n <= |names|
    requires LoadRun(host, start, names, n, false).error.None?
    ensures LoadRun(host, start, names, n, false).loaded == start.loaded + FirstLoads(start.loaded, names, n)
  {
    if n > 0 {
      var p := LoadRun(host, start, names, n - 1, false);
      assert p.error.None?;
      LoadRunSkipsLoaded(host, start, names, n - 1);
      FirstLoadsMembers(start.loaded, names, n - 1);
      var name := names[n - 1];
      assert name in p.loaded <==> name in start.loaded || name in names[..n - 1];
    }
  }

  /** The engine calls the load loop may make: Addressables loads, and activating the first name. */
  predicate LoadLoopCall(c: HostCall, firstName: string) {
    c.ResolveSceneAddress? || c.ActivateScene? || c == SetActiveScene(firstName)
  }

  /** The calls made after `before` within `after`, when `before` is a prefix of `after`. */
  function Since(before: seq<HostCall>, after: seq<HostCall>): seq<HostCall>
    requires before <= after
  {
    after[|before|..]
  }

  lemma SinceCompose(a: seq<HostCall>, b: seq<HostCall>, c: seq<HostCall>)
    requires a <= b && b <= c
    ensures a <= c && Since(a, c) == Since(a, b) + Since(b, c)
  {
    assert c == b + Since(b, c);
  }

  lemma LoadStepCalls(host: Host, r: Run, name: string, first: bool, allowDuplicateLoad: bool, firstName: string)
    requires first ==> name == firstName
    ensures var s := LoadStep(host, r, name, first, allowDuplicateLoad);
      r.calls <= s.calls && forall c :: c in Since(r.calls, s.calls) ==> LoadLoopCall(c, firstName)
  {
    var s := LoadStep(host, r, name, first, allowDuplicateLoad);
    assert s.calls == r.calls + s.calls[|r.calls|..];
  }

  /**
   * The load loop goes through Addressables only: it never asks the engine's scene manager for
   * a load (so the build settings are never consulted) or an unload, and the only scene it makes
   * active is the first listed one.
   */
  lemma {:induction false} LoadRunCalls(host: Host, start: Run, names: seq<string>, n: nat, allowDuplicateLoad: bool)
    requires 1 <= n <= |names|
    ensures var r := LoadRun(host, start, names, n, allowDuplicateLoad);
      start.calls <= r.calls && forall c :: c in Since(start.calls, r.calls) ==> LoadLoopCall(c, names[0])
  {
    var p := LoadRun(host, start, names, n - 1, allowDuplicateLoad);
    if p.error.None? {
      LoadStepCalls(host, p, names[n - 1], n == 1, allowDuplicateLoad, names[0]);
    }
    if n > 1 {
      LoadRunCalls(host, start, names, n - 1, allowDuplicateLoad);
      if p.error.None? {
        SinceCompose(start.calls, p.calls, LoadRun(host, start, names, n, allowDuplicateLoad).calls);
      }
    }
  }

  /** When no load throws, the first listed scene has been made active. */
  lemma {:induction false} LoadRunActivatesFirst(host: Host, start: Run, names: seq<string>, n: nat, allowDuplicateLoad: bool)
    requires 1 <= n <= |names|
    requires LoadRun(host, start, names, n, allowDuplicateLoad).error.None?
    ensures var r := LoadRun(host, start, names, n, allowDuplicateLoad);
      |start.calls| <= |r.calls| && SetActiveScene(names[0]) in r.calls[|start.calls|..]
  {
    var r := LoadRun(host, start, names, n, allowDuplicateLoad);
    if n > 1 {
      LoadRunActivatesFirst(host, start, names, n - 1, allowDuplicateLoad);
      var p := LoadRun(host, start, names, n - 1, allowDuplicateLoad);
      assert r.calls == p.calls + r.calls[|p.calls|..];
      assert r.calls[|start.calls|..] == p.calls[|start.calls|..] + r.calls[|p.calls|..];
    } else {
      assert r.calls[|r.calls| - 1] == SetActiveScene(names[0]);
    }
  }

  /** `RemoveFirst` takes exactly one occurrence away. */
  lemma {:induction false} RemoveFirstMultiset(s: seq<string>, x: string)
    requires x in s
    ensures multiset(RemoveFirst(s, x)) == multiset(s) - multiset{x}
  {
    assert s == [s[0]] + s[1..];
    if s[0] != x {
      RemoveFirstMultiset(s[1..], x);
    }
  }

  lemma UnloadStepKeepsInitTestScenes(host: Host, r: Run, name: string)
    ensures var s := UnloadStep(host, r, name);
      && r.calls <= s.calls
      && (forall c :: c in Since(r.calls, s.calls) && c.UnloadScene? ==> !StartsWith(c.sceneName, InitTestScenePrefix))
      && (forall x :: StartsWith(x, InitTestScenePrefix) ==> multiset(s.loaded)[x] == multiset(r.loaded)[x])
  {
    var s := UnloadStep(host, r, name);
    assert s.calls == r.calls + s.calls[|r.calls|..];
    if !StartsWith(name, InitTestScenePrefix) && !host.RefusesUnload(r.loaded, name) {
      RemoveFirstMultiset(r.loaded, name);
    }
  }

  /**
   * The unload loop never asks for an `InitTestScene…` scene to be unloaded, and an
   * `InitTestScene…` scene stays loaded as often as it was, whatever else happens.
   */
  lemma {:induction false} UnloadRunKeepsInitTestScenes(host: Host, start: Run, names: seq<string>, n: nat)
    requires n <= |names|
    ensures var r := UnloadRun(host, start, names, n);
      && start.calls <= r.calls
      && (forall c :: c in Since(start.calls, r.calls) && c.UnloadScene? ==> !StartsWith(c.sceneName, InitTestScenePrefix))
      && (forall x :: StartsWith(x, InitTestScenePrefix) ==> multiset(r.loaded)[x] == multiset(start.loaded)[x])
  {
    if n > 0 {
      UnloadRunKeepsInitTestScenes(host, start, names, n - 1);
      var p := UnloadRun(host, start, names, n - 1);
      if p.error.None? {
        UnloadStepKeepsInitTestScenes(host, p, names[n - 1]);
        SinceCompose(start.calls, p.calls, UnloadRun(host, start, names, n).calls);
      }
    } else {
      assert Since(start.calls, start.calls) == [];
    }
  }

  lemma UnloadStepUnloads(host: Host, r: Run, name: string)
    requires UnloadStep(host, r, name).error.None?
    ensures var s := UnloadStep(host, r, name);
      var target := if StartsWith(name, InitTestScenePrefix) then [] else [name];
      && multiset(s.loaded) + multiset(target) == multiset(r.loaded)
      && s.calls == r.calls + UnloadCalls(target)
  {
    if !StartsWith(name, InitTestScenePrefix) {
      RemoveFirstMultiset(r.loaded, name);
      assert [name][..0] == [];
    }
  }

  lemma TargetsSnoc(names: seq<string>, n: nat)
    requires 0 < n <= |names|
    ensures Targets(names, n) == Targets(names, n - 1) + if StartsWith(names[n - 1], InitTestScenePrefix) then [] else [names[n - 1]]
  {
  }

  /** When no unload throws, each name the loop does not skip has been unloaded once. */
  lemma {:induction false} UnloadRunUnloadsTargets(host: Host, start: Run, names: seq<string>, n: nat)
    requires n <= |names|
    requires UnloadRun(host, start, names, n).error.None?
    ensures multiset(UnloadRun(host, start, names, n).loaded) + multiset(Targets(names, n)) == multiset(start.loaded)
  {
    if n > 0 {
      var p := UnloadRun(host, start, names, n - 1);
      UnloadRunUnloadsTargets(host, start, names, n - 1);
      UnloadStepUnloads(host, p, names[n - 1]);
      TargetsSnoc(names, n);
    }
  }

  /**
   * When no unload throws, the engine has been asked to unload each name the loop does not
   * skip, in order, each with its own release of unused assets right after it.
   */
  lemma {:induction false} UnloadRunReleasesAfterEach(host: Host, start: Run, names: seq<string>, n: nat)
    requires n <= |names|
    requires UnloadRun(host, start, names, n).error.None?
    ensures UnloadRun(host, start, names, n).calls == start.calls + UnloadCalls(Targets(names, n))
  {
    if n > 0 {
      var p := UnloadRun(host, start, names, n - 1);
      UnloadRunReleasesAfterEach(host, start, names, n - 1);
      UnloadStepUnloads(host, p, names[n - 1]);
      TargetsSnoc(names, n);
      UnloadCallsAppend(Targets(names, n - 1), if StartsWith(names[n - 1], InitTestScenePrefix) then [] else [names[n - 1]]);
    }
  }

  /** The engine calls of unloading `targets` one after another, each followed by its release. */
  function UnloadCalls(targets: seq<string>): seq<HostCall> {
    if targets == [] then []
    else UnloadCalls(targets[..|targets| - 1]) + [UnloadScene(targets[|targets| - 1]), UnloadUnusedAssets]
  }

  lemma UnloadCallsAppend(targets: seq<string>, more: seq<string>)
    requires |more| <= 1
    ensures UnloadCalls(targets + more) == UnloadCalls(targets) + UnloadCalls(more)
  {
    if more == [] {
      assert targets + more == targets;
    } else {
      assert (targets + more)[..|targets|] == targets;
      assert more[..0] == [];
    }
  }

  /**
   * After a move whose loads and unloads all succeed, the loaded scenes are exactly the
   * descriptor's scenes plus the `InitTestScene…` scenes that were loaded before.
   */
  lemma MoveLeavesExactly(host: Host, loaded: seq<string>, calls: seq<HostCall>, next: seq<string>, allowDuplicateLoad: bool)
    requires LoadRun(host, Run(loaded, calls, None), next, |next|, allowDuplicateLoad).error.None?
    requires var loads := LoadRun(host, Run(loaded, calls, None), next, |next|, allowDuplicateLoad);
      var unloading := UnloadingSceneNames(loaded, next);
      UnloadRun(host, loads, unloading, |unloading|).error.None?
    ensures var loads := LoadRun(host, Run(loaded, calls, None), next, |next|, allowDuplicateLoad);
      var unloading := UnloadingSceneNames(loaded, next);
      forall x :: x in UnloadRun(host, loads, unloading, |unloading|).loaded <==>
        x in next || (x in loaded && StartsWith(x, InitTestScenePrefix))
  {
    var start := Run(loaded, calls, None);
    var loads := LoadRun(host, start, next, |next|, allowDuplicateLoad);
    var unloading := UnloadingSceneNames(loaded, next);
    var unloads := UnloadRun(host, loads, unloading, |unloading|);
    LoadRunAppendsListed(host, start, next, |next|, allowDuplicateLoad);
    LoadRunLoadsAll(host, start, next, |next|, allowDuplicateLoad);
    UnloadingSceneNamesAreTheDifference(loaded, next);
    TargetsCounts(unloading, |unloading|);
    assert unloading[..|unloading|] == unloading;
    UnloadRunUnloadsTargets(host, loads, unloading, |unloading|);
    forall x ensures x in unloads.loaded <==> x in next || (x in loaded && StartsWith(x, InitTestScenePrefix)) {
      MoveCount(loaded, loads.loaded, unloading, Targets(unloading, |unloading|), unloads.loaded, next, x);
    }
  }

  /** The A scenes are not among TestScene_B's, and none of the test scenes is an `InitTestScene…` scene. */
  lemma TestSceneNamesDiffer()
    ensures A1Name !in TestSceneB.sceneNameList && A2Name !in TestSceneB.sceneNameList
    ensures !StartsWith(A1Name, InitTestScenePrefix) && !StartsWith(A2Name, InitTestScenePrefix)
  {
    assert A1Name[27] == 'A' && A2Name[27] == 'A' && B1Name[27] == 'B' && B2Name[27] == 'B';
    assert A1Name[..13][0] == '_' && A2Name[..13][0] == '_';
  }

  /**
   * The test suite's move from TestScene_A to TestScene_B: when its loads and unloads succeed,
   * both B scenes are loaded afterwards and neither A scene is, whatever was loaded before.
   */
  lemma MoveToTestSceneB(host: Host, loaded: seq<string>, calls: seq<HostCall>, allowDuplicateLoad: bool)
    requires var next := TestSceneB.sceneNameList;
      LoadRun(host, Run(loaded, calls, None), next, |next|, allowDuplicateLoad).error.None?
    requires var next := TestSceneB.sceneNameList;
      var loads := LoadRun(host, Run(loaded, calls, None), next, |next|, allowDuplicateLoad);
      var unloading := UnloadingSceneNames(loaded, next);
      UnloadRun(host, loads, unloading, |unloading|).error.None?
    ensures var next := TestSceneB.sceneNameList;
      var loads := LoadRun(host, Run(loaded, calls, None), next, |next|, allowDuplicateLoad);
      var unloading := UnloadingSceneNames(loaded, next);
      var after := UnloadRun(host, loads, unloading, |unloading|).loaded;
      B1Name in after && B2Name in after && A1Name !in after && A2Name !in after
  {
    MoveLeavesExactly(host, loaded, calls, TestSceneB.sceneNameList, allowDuplicateLoad);
    TestSceneNamesDiffer();
  }

  /**
   * A move to a descriptor without scenes (the test suite's TestScene_ForUnload) loads nothing,
   * and when its unloads succeed only the `InitTestScene…` scenes stay loaded.
   */
  lemma MoveToEmptyDescriptor(host: Host, loaded: seq<string>, calls: seq<HostCall>, allowDuplicateLoad: bool)
    requires var unloading := UnloadingSceneNames(loaded, TestSceneForUnload.sceneNameList);
      UnloadRun(host, Run(loaded, calls, None), unloading, |unloading|).error.None?
    ensures var next := TestSceneForUnload.sceneNameList;
      var loads := LoadRun(host, Run(loaded, calls, None), next, |next|, allowDuplicateLoad);
      var unloading := UnloadingSceneNames(loaded, next);
      && loads == Run(loaded, calls, None)
      && forall x :: x in UnloadRun(host, loads, unloading, |unloading|).loaded <==>
           x in loaded && StartsWith(x, InitTestScenePrefix)
  {
    MoveLeavesExactly(host, loaded, calls, TestSceneForUnload.sceneNameList, allowDuplicateLoad);
  }

  /** The engine never unloads its last scene, so the unload loop never leaves no scene loaded. */
  lemma {:induction false} UnloadRunKeepsAScene(host: Host, start: Run, names: seq<string>, n: nat)
    requires n <= |names| && start.loaded != []
    ensures UnloadRun(host, start, names, n).loaded != []
  {
    if n > 0 {
      UnloadRunKeepsAScene(host, start, names, n - 1);
    }
  }

  /**
   * Why the loads come before the unloads: a move to the empty descriptor, from scenes none of
   * which is an `InitTestScene…` scene, would have to unload the last scene, and the engine
   * refuses that, so the move throws.
   */
  lemma EmptyMoveNeedsAScene(host: Host, loaded: seq<string>, calls: seq<HostCall>)
    requires loaded != [] && forall x :: x in loaded ==> !StartsWith(x, InitTestScenePrefix)
    ensures var unloading := UnloadingSceneNames(loaded, TestSceneForUnload.sceneNameList);
      UnloadRun(host, Run(loaded, calls, None), unloading, |unloading|).error.Some?
  {
    var unloading := UnloadingSceneNames(loaded, TestSceneForUnload.sceneNameList);
    var after := UnloadRun(host, Run(loaded, calls, None), unloading, |unloading|);
    UnloadRunKeepsAScene(host, Run(loaded, calls, None), unloading, |unloading|);
    var survivor := after.loaded[0];
    assert survivor in after.loaded;
    if after.error.None? {
      MoveToEmptyDescriptor(host, loaded, calls, false);
      assert false;
    }
  }

  /** The counting step of `MoveLeavesExactly` for one name. */
  lemma MoveCount(before: seq<string>, afterLoads: seq<string>, unloading: seq<string>, targets: seq<string>,
                  after: seq<string>, next: seq<string>, x: string)
    requires x !in next ==> multiset(afterLoads)[x] == multiset(before)[x]
    requires x in next ==> x in afterLoads
    requires x !in next ==> multiset(unloading)[x] == multiset(before)[x]
    requires x in next ==> multiset(unloading)[x] == 0
    requires multiset(targets)[x] == if StartsWith(x, InitTestScenePrefix) then 0 else multiset(unloading)[x]
    requires multiset(after) + multiset(targets) == multiset(afterLoads)
    ensures x in after <==> x in next || (x in before && StartsWith(x, InitTestScenePrefix))
  {
    assert multiset(after)[x] + multiset(targets)[x] == multiset(afterLoads)[x];
    assert x in after <==> multiset(after)[x] > 0;
    assert x in before <==> multiset(before)[x] > 0;
    assert x in afterLoads <==> multiset(afterLoads)[x] > 0;
  }

  /** `n` copies of `x`. */
  function Repeat<T>(x: T, n: nat): (r: seq<T>)
    ensures |r| == n && forall i :: 0 <= i < n ==> r[i] == x
  {
    seq(n, _ => x)
  }

  lemma RepeatAppend<T>(x: T, a: nat, b: nat)
    ensures Repeat(x, a) + Repeat(x, b) == Repeat(x, a + b)
  {
  }

  /**
   * In a completed move whose notifications were recorded in step with the scenes heard,
   * `LoadedScene` and the final `ChangedLoadingPhase(DoNotAnything)` are heard with the new
   * scene already current, and every earlier notification with the previous one.
   */
  lemma LoadedSceneSeesNewScene(heard: seq<Notification>, scenes: seq<Option<Scene>>, previous: Option<Scene>, next: Scene)
    requires |heard| == |scenes|
    ensures var n := heard + MoveNotifications;
      var h := scenes + Repeat(previous, |MoveNotifications| - 2) + Repeat(Some(next), 2);
      && |n| == |h|
      && forall i :: |heard| <= i < |n| ==>
           h[i] == if n[i] == LoadedScene || n[i] == ChangedLoadingPhase(DoNotAnything) then Some(next) else previous
  {
    var n := heard + MoveNotifications;
    var h := scenes + Repeat(previous, |MoveNotifications| - 2) + Repeat(Some(next), 2);
    forall i | |heard| <= i < |n|
      ensures h[i] == if n[i] == LoadedScene || n[i] == ChangedLoadingPhase(DoNotAnything) then Some(next) else previous
    {
      assert n[i] == MoveNotifications[i - |heard|];
    }
  }

  /** How a move request ends. */
  datatype MoveOutcome =
    | AlreadyLoading            // another move is under way: nothing happens
    | SameScene                 // the request equals the current scene: nothing happens
    | Moved(spawnCalls: seq<Pose>)  // done; the calls the position callback received, in order
    | Faulted(error: Exception) // a load or unload threw; the move stops where it was

  /**
   * The static state of `Utility`: the loading phase, the current scene, and what the event
   * subscribers have heard, over the engine it drives.
   */
  class SceneUtility {
    const host: Host
    var loadingPhase: SceneLoadingPhase
    var currentLoadingScene: Option<Scene>
    var notifications: seq<Notification>
    /** For each notification, the `CurrentLoadingScene` a subscriber reading it would have seen. */
    ghost var sceneHeard: seq<Option<Scene>>

    constructor (host: Host)
      ensures this.host == host && loadingPhase == DoNotAnything && currentLoadingScene == None && notifications == []
      ensures sceneHeard == []
    {
      this.host := host;
      loadingPhase := DoNotAnything;
      currentLoadingScene := None;
      notifications := [];
      sceneHeard := [];
    }

    /** `IsLoadingScene`: a move is under way. */
    predicate IsLoadingScene()
      reads this
    {
      loadingPhase != DoNotAnything
    }

    /** The `LoadingPhase` setter: store the value and notify, but only when it changes. */
    method SetLoadingPhase(value: SceneLoadingPhase)
      modifies this
      ensures loadingPhase == value && currentLoadingScene == old(currentLoadingScene)
      ensures notifications == old(notifications) + if old(loadingPhase) != value then OnChanged(value) else []
      ensures sceneHeard == old(sceneHeard) + if old(loadingPhase) != value then Repeat(currentLoadingScene, |OnChanged(value)|) else []
    {
      var isChanged := false;
      if loadingPhase != value {
        loadingPhase := value;
        isChanged := true;
      }
      if isChanged {
        notifications := notifications + OnChanged(value);
        sceneHeard := sceneHeard + Repeat(currentLoadingScene, |OnChanged(value)|);
      }
    }

    /** `IsLoaded<TScene>`: every scene the descriptor lists is loaded; true for an empty list. */
    method IsLoaded(sceneInfo: Scene) returns (r: bool)
      ensures r <==> forall i :: 0 <= i < |sceneInfo.sceneNameList| ==> sceneInfo.sceneNameList[i] in host.loaded
    {
      var loadedSceneNames := host.loaded;
      for i := 0 to |sceneInfo.sceneNameList|
        invariant forall k :: 0 <= k < i ==> sceneInfo.sceneNameList[k] in host.loaded
      {
        if sceneInfo.sceneNameList[i] !in loadedSceneNames {
          return false;
        }
      }
      return true;
    }

    /** The unload list: the loaded names the next descriptor does not list, in loaded order. */
    static method ComputeUnloadingSceneNames(loadedSceneNames: seq<string>, nextSceneNames: seq<string>)
      returns (unloadingSceneNames: seq<string>)
      ensures unloadingSceneNames == UnloadingSceneNames(loadedSceneNames, nextSceneNames)
    {
      unloadingSceneNames := [];
      for i := 0 to |loadedSceneNames|
        invariant unloadingSceneNames == UnloadList(loadedSceneNames, nextSceneNames, i)
      {
        if loadedSceneNames[i] !in nextSceneNames {
          unloadingSceneNames := unloadingSceneNames + [loadedSceneNames[i]];
        }
      }
    }

    /** The load loop: each name additively, in list order; the first becomes the active scene. */
    method LoadScenes(nextSceneNames: seq<string>, allowDuplicateLoad: bool) returns (error: Option<Exception>)
      modifies host
      ensures Run(host.loaded, host.calls, error) ==
        LoadRun(host, Run(old(host.loaded), old(host.calls), None), nextSceneNames, |nextSceneNames|, allowDuplicateLoad)
    {
      ghost var start := Run(host.loaded, host.calls, None);
      var isFirstScene := true;
      for i := 0 to |nextSceneNames|
        invariant isFirstScene <==> i == 0
        invariant Run(host.loaded, host.calls, None) == LoadRun(host, start, nextSceneNames, i, allowDuplicateLoad)
      {
        var loadingSceneName := nextSceneNames[i];
        var r := LoadSceneAddressableAsync(host, loadingSceneName, Additive, allowDuplicateLoad);
        if r.Failure? {
          LoadRunStops(host, start, nextSceneNames, i + 1, |nextSceneNames|, allowDuplicateLoad);
          return Some(r.error);
        }
        if isFirstScene {
          host.SetActiveScene(loadingSceneName);
          isFirstScene := false;
        }
      }
      return None;
    }

    /** The unload loop: each name in turn, except the `InitTestScene…` ones. */
    method UnloadScenes(unloadingSceneNames: seq<string>) returns (error: Option<Exception>)
      modifies host
      ensures Run(host.loaded, host.calls, error) ==
        UnloadRun(host, Run(old(host.loaded), old(host.calls), None), unloadingSceneNames, |unloadingSceneNames|)
    {
      ghost var start := Run(host.loaded, host.calls, None);
      for i := 0 to |unloadingSceneNames|
        invariant Run(host.loaded, host.calls, None) == UnloadRun(host, start, unloadingSceneNames, i)
      {
        var unloadingSceneName := unloadingSceneNames[i];
        if !StartsWith(unloadingSceneName, InitTestScenePrefix) {
          var r := Loader.UnloadSceneAsync(host, unloadingSceneName);
          if r.Failure? {
            UnloadRunStops(host, start, unloadingSceneNames, i + 1, |unloadingSceneNames|);
            return Some(r.error);
          }
        }
      }
      return None;
    }

    /**
     * `MoveSceneToAsyncInternal`. `setPositionCallback` is the position callback, or nothing
     * for a null one; a callback is given by the poses on which it throws. A move under way or
     * a request for the current scene does nothing. Otherwise the move loads, unloads, rebuilds
     * the light probes and searches for the spawn point, setting each phase in turn; a throwing
     * callback is caught and the move completes. A throwing load or unload stops the move with
     * the phase left where it was, so every later request is turned away.
     */
    method MoveSceneToAsyncInternal(sceneInfo: Scene, spawnPointName: string, setPositionCallback: Option<set<Pose>>,
                                    allowDuplicateLoad: bool)
      returns (outcome: MoveOutcome)
      modifies this, host
      ensures old(loadingPhase) != DoNotAnything ==> outcome == AlreadyLoading && unchanged(this) && unchanged(host)
      ensures old(loadingPhase) == DoNotAnything && Equals(sceneInfo, old(currentLoadingScene)) ==>
        outcome == SameScene && unchanged(this) && unchanged(host)
      ensures old(loadingPhase) == DoNotAnything && !Equals(sceneInfo, old(currentLoadingScene)) ==>
        var next := sceneInfo.sceneNameList;
        var loads := LoadRun(host, Run(old(host.loaded), old(host.calls), None), next, |next|, allowDuplicateLoad);
        if loads.error.Some? then
          && outcome == Faulted(loads.error.value)
          && host.loaded == loads.loaded && host.calls == loads.calls
          && loadingPhase == NextSceneLoading && currentLoadingScene == old(currentLoadingScene)
          && notifications == old(notifications) + LoadFaultNotifications
          && sceneHeard == old(sceneHeard) + Repeat(old(currentLoadingScene), |LoadFaultNotifications|)
        else
          var unloading := UnloadingSceneNames(old(host.loaded), next);
          var unloads := UnloadRun(host, loads, unloading, |unloading|);
          if unloads.error.Some? then
            && outcome == Faulted(unloads.error.value)
            && host.loaded == unloads.loaded && host.calls == unloads.calls
            && loadingPhase == PrevSceneUnLoading && currentLoadingScene == old(currentLoadingScene)
            && notifications == old(notifications) + UnloadFaultNotifications
            && sceneHeard == old(sceneHeard) + Repeat(old(currentLoadingScene), |UnloadFaultNotifications|)
          else
            && host.loaded == unloads.loaded && host.calls == unloads.calls + [Tetrahedralize]
            && (forall x :: x in host.loaded <==> x in next || (x in old(host.loaded) && StartsWith(x, InitTestScenePrefix)))
            && outcome == Moved(if setPositionCallback.None? then []
                                else UntilThrow(SpawnCalls(host.LoadedSceneRoots(), spawnPointName), setPositionCallback.value))
            && loadingPhase == DoNotAnything && currentLoadingScene == Some(sceneInfo)
            && notifications == old(notifications) + MoveNotifications
            && sceneHeard == old(sceneHeard) + Repeat(old(currentLoadingScene), |MoveNotifications| - 2) + Repeat(Some(sceneInfo), 2)
    {
      if IsLoadingScene() {
        return AlreadyLoading;
      }
      if Equals(sceneInfo, currentLoadingScene) {
        return SameScene;
      }
      outcome := Transition(sceneInfo, spawnPointName, setPositionCallback, allowDuplicateLoad);
    }

    /** The body of a move that has passed both guards. */
    method Transition(sceneInfo: Scene, spawnPointName: string, setPositionCallback: Option<set<Pose>>,
                      allowDuplicateLoad: bool)
      returns (outcome: MoveOutcome)
      requires loadingPhase == DoNotAnything
      modifies this, host
      ensures
        var next := sceneInfo.sceneNameList;
        var loads := LoadRun(host, Run(old(host.loaded), old(host.calls), None), next, |next|, allowDuplicateLoad);
        if loads.error.Some? then
          && outcome == Faulted(loads.error.value)
          && host.loaded == loads.loaded && host.calls == loads.calls
          && loadingPhase == NextSceneLoading && currentLoadingScene == old(currentLoadingScene)
          && notifications == old(notifications) + LoadFaultNotifications
          && sceneHeard == old(sceneHeard) + Repeat(old(currentLoadingScene), |LoadFaultNotifications|)
        else
          var unloading := UnloadingSceneNames(old(host.loaded), next);
          var unloads := UnloadRun(host, loads, unloading, |unloading|);
          if unloads.error.Some? then
            && outcome == Faulted(unloads.error.value)
            && host.loaded == unloads.loaded && host.calls == unloads.calls
            && loadingPhase == PrevSceneUnLoading && currentLoadingScene == old(currentLoadingScene)
            && notifications == old(notifications) + UnloadFaultNotifications
            && sceneHeard == old(sceneHeard) + Repeat(old(currentLoadingScene), |UnloadFaultNotifications|)
          else
            && host.loaded == unloads.loaded && host.calls == unloads.calls + [Tetrahedralize]
            && (forall x :: x in host.loaded <==> x in next || (x in old(host.loaded) && StartsWith(x, InitTestScenePrefix)))
            && outcome == Moved(if setPositionCallback.None? then []
                                else UntilThrow(SpawnCalls(host.LoadedSceneRoots(), spawnPointName), setPositionCallback.value))
            && loadingPhase == DoNotAnything && currentLoadingScene == Some(sceneInfo)
            && notifications == old(notifications) + MoveNotifications
            && sceneHeard == old(sceneHeard) + Repeat(old(currentLoadingScene), |MoveNotifications| - 2) + Repeat(Some(sceneInfo), 2)
    {
      ghost var heard := notifications;
      ghost var scenes := sceneHeard;
      ghost var previous := currentLoadingScene;
      SetLoadingPhase(NextSceneLoading);
      assert notifications == heard + LoadFaultNotifications;
      assert sceneHeard == scenes + Repeat(previous, 2);
      var nextSceneNames := sceneInfo.sceneNameList;
      var unloadingSceneNames := ComputeUnloadingSceneNames(host.loaded, nextSceneNames);
      ghost var before := host.loaded;
      ghost var beforeCalls := host.calls;
      var loadError := LoadPhase(nextSceneNames, allowDuplicateLoad);
      if loadError.Some? {
        return Faulted(loadError.value);
      }
      assert notifications == heard + UnloadFaultNotifications;
      RepeatAppend(previous, 2, 2);
      assert sceneHeard == scenes + Repeat(previous, 4);
      var unloadError := UnloadPhase(unloadingSceneNames);
      if unloadError.Some? {
        return Faulted(unloadError.value);
      }
      MoveLeavesExactly(host, before, beforeCalls, nextSceneNames, allowDuplicateLoad);
      ghost var unloaded := notifications;
      assert unloaded == heard + (UnloadFaultNotifications + UnloadedNotifications);
      RepeatAppend(previous, 4, 1);
      RepeatAppend(previous, 5, 2);
      assert sceneHeard == scenes + Repeat(previous, 5);
      var invoked := SpawnPhase(sceneInfo, spawnPointName, setPositionCallback);
      assert notifications == heard + MoveNotifications;
      return Moved(invoked);
    }

    /** The loads, then the phases that end them and start the unloads, unless a load throws. */
    method LoadPhase(nextSceneNames: seq<string>, allowDuplicateLoad: bool) returns (error: Option<Exception>)
      requires loadingPhase == NextSceneLoading
      modifies this, host
      ensures Run(host.loaded, host.calls, error) ==
        LoadRun(host, Run(old(host.loaded), old(host.calls), None), nextSceneNames, |nextSceneNames|, allowDuplicateLoad)
      ensures currentLoadingScene == old(currentLoadingScene)
      ensures error.Some? ==> loadingPhase == NextSceneLoading && notifications == old(notifications)
      ensures error.None? ==> loadingPhase == PrevSceneUnLoading
      ensures error.None? ==> notifications == old(notifications) + LoadedNotifications
      ensures sceneHeard == old(sceneHeard) + if error.None? then Repeat(currentLoadingScene, |LoadedNotifications|) else []
    {
      error := LoadScenes(nextSceneNames, allowDuplicateLoad);
      if error.None? {
        SetLoadingPhase(NextSceneLoaded);
        SetLoadingPhase(PrevSceneUnLoading);
      }
    }

    /** The unloads, then the phase that ends them, unless an unload throws. */
    method UnloadPhase(unloadingSceneNames: seq<string>) returns (error: Option<Exception>)
      requires loadingPhase == PrevSceneUnLoading
      modifies this, host
      ensures Run(host.loaded, host.calls, error) ==
        UnloadRun(host, Run(old(host.loaded), old(host.calls), None), unloadingSceneNames, |unloadingSceneNames|)
      ensures currentLoadingScene == old(currentLoadingScene)
      ensures error.Some? ==> loadingPhase == PrevSceneUnLoading && notifications == old(notifications)
      ensures error.None? ==> loadingPhase == PrevSceneUnLoaded
      ensures error.None? ==> notifications == old(notifications) + UnloadedNotifications
      ensures sceneHeard == old(sceneHeard) + if error.None? then Repeat(currentLoadingScene, |UnloadedNotifications|) else []
    {
      error := UnloadScenes(unloadingSceneNames);
      if error.None? {
        SetLoadingPhase(PrevSceneUnLoaded);
      }
    }

    /**
     * The end of a move: rebuild the light probes, search for the spawn point when there is a
     * callback (its exception is caught), record the new scene, and go idle.
     */
    method SpawnPhase(sceneInfo: Scene, spawnPointName: string, setPositionCallback: Option<set<Pose>>)
      returns (invoked: seq<Pose>)
      requires loadingPhase == PrevSceneUnLoaded
      modifies this, host
      ensures host.loaded == old(host.loaded) && host.calls == old(host.calls) + [Tetrahedralize]
      ensures invoked == if setPositionCallback.None? then []
                         else UntilThrow(SpawnCalls(host.LoadedSceneRoots(), spawnPointName), setPositionCallback.value)
      ensures loadingPhase == DoNotAnything && currentLoadingScene == Some(sceneInfo)
      ensures notifications == old(notifications) + SpawnNotifications
      ensures sceneHeard == old(sceneHeard) + Repeat(old(currentLoadingScene), 2) + Repeat(Some(sceneInfo), 2)
    {
      ghost var previous := currentLoadingScene;
      ghost var heard := sceneHeard;
      host.Tetrahedralize();
      SetLoadingPhase(SpawnPointMoving);
      invoked := MoveToSpawnPoint(spawnPointName, setPositionCallback);
      SetLoadingPhase(SpawnPointMoved);
      assert sceneHeard == heard + Repeat(previous, 2);
      currentLoadingScene := Some(sceneInfo);
      SetLoadingPhase(DoNotAnything);
      assert sceneHeard == heard + Repeat(previous, 2) + Repeat(Some(sceneInfo), 2);
    }

    /**
     * The spawn-point step: with a callback, search the loaded scenes and report the calls it
     * received (an exception from it ends the search and is caught); without one, nothing.
     */
    method MoveToSpawnPoint(spawnPointName: string, setPositionCallback: Option<set<Pose>>) returns (invoked: seq<Pose>)
      ensures invoked == if setPositionCallback.None? then []
                         else UntilThrow(SpawnCalls(host.LoadedSceneRoots(), spawnPointName), setPositionCallback.value)
    {
      invoked := [];
      if setPositionCallback.Some? {
        var threw;
        invoked, threw := FindSpawnPointAndMoveIt(host.LoadedSceneRoots(), spawnPointName, setPositionCallback.value);
      }
    }
  }
}

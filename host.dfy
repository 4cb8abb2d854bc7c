/**
 * The Unity engine as the scene manager sees it: the list of loaded scenes, the build
 * settings, scene assets, and asynchronous operations that advance one frame at a time.
 * Every call the scene manager makes is appended to `calls`, so the order of operations is
 * observable. Which requests the host refuses is fixed when the host is built.
 */
module Host {
  import opened SceneGraph

  /** What an operation reports on one frame: `progress` and `isDone`. */
  datatype Report = Report(progress: real, isDone: bool)

  /**
   * `AsyncOperation`: the current `progress`/`isDone`, the `allowSceneActivation` flag, and the
   * reports it will give on the coming frames.
   */
  class AsyncOperation {
    var progress: real
    var isDone: bool
    var allowSceneActivation: bool
    var reports: seq<Report>

    constructor (reports: seq<Report>)
      ensures this.reports == reports && progress == 0.0 && !isDone && allowSceneActivation
    {
      this.reports := reports;
      progress := 0.0;
      isDone := false;
      allowSceneActivation := true;
    }

    /** The report the operation settles on once every scripted frame has passed. */
    function Final(): Report
      reads this
    {
      if reports == [] then Report(progress, isDone) else reports[|reports| - 1]
    }

    /** The operation ends done and past the pre-load threshold, so waiting on it terminates. */
    predicate Finishes()
      reads this
    {
      Final().isDone && Final().progress >= 0.9
    }

    /** One frame passes: the next scripted report becomes current. */
    method Frame()
      modifies this
      ensures old(reports) == [] ==> progress == old(progress) && isDone == old(isDone) && reports == []
      ensures old(reports) != [] ==> Report(progress, isDone) == old(reports[0]) && reports == old(reports[1..])
      ensures allowSceneActivation == old(allowSceneActivation)
      ensures Final() == old(Final())
    {
      if reports != [] {
        progress, isDone := reports[0].progress, reports[0].isDone;
        reports := reports[1..];
      }
    }
  }

  /** `yield return null` with several operations in flight: each of them advances one frame. */
  method AdvanceFrame(ops: set<AsyncOperation>)
    modifies ops
    ensures forall o :: o in ops ==> o.Final() == old(o.Final()) && o.allowSceneActivation == old(o.allowSceneActivation)
    ensures forall o :: o in ops ==> if old(o.reports) == [] then o.reports == [] && o.progress == old(o.progress) && o.isDone == old(o.isDone)
      else Report(o.progress, o.isDone) == old(o.reports[0]) && o.reports == old(o.reports[1..])
  {
    var rest := ops;
    while rest != {}
      invariant rest <= ops
      invariant forall o :: o in ops - rest ==> o.Final() == old(o.Final()) && o.allowSceneActivation == old(o.allowSceneActivation)
      invariant forall o :: o in ops - rest ==> if old(o.reports) == [] then o.reports == [] && o.progress == old(o.progress) && o.isDone == old(o.isDone)
        else Report(o.progress, o.isDone) == old(o.reports[0]) && o.reports == old(o.reports[1..])
      invariant forall o :: o in rest ==> unchanged(o)
      decreases rest
    {
      var o :| o in rest;
      o.Frame();
      rest := rest - {o};
    }
  }

  datatype NativeLoadSceneMode = NativeSingle | NativeAdditive

  /** The engine calls the scene manager issues, in the order it issues them. */
  datatype HostCall =
    | LoadScene(sceneName: string, mode: NativeLoadSceneMode)        // SceneManager.LoadSceneAsync
    | ResolveSceneAddress(sceneName: string, mode: NativeLoadSceneMode) // Addressables.LoadSceneAsync, activation deferred
    | ActivateScene(sceneName: string)                               // SceneInstance.ActivateAsync
    | UnloadScene(sceneName: string)                                 // SceneManager.UnloadSceneAsync
    | UnloadUnusedAssets                                             // Resources.UnloadUnusedAssets
    | SetActiveScene(sceneName: string)                              // SceneManager.SetActiveScene
    | Tetrahedralize                                                 // LightProbes.Tetrahedralize

  /** The loaded-scene list after a load is issued: Single replaces it, Additive appends. */
  function AfterLoad(loaded: seq<string>, sceneName: string, mode: NativeLoadSceneMode): seq<string> {
    if mode == NativeSingle then [sceneName] else loaded + [sceneName]
  }

  /** The loaded-scene list after unloading one scene by name: its first occurrence goes. */
  function RemoveFirst(s: seq<string>, x: string): (r: seq<string>)
    ensures x !in s ==> r == s
    ensures x in s ==> |r| == |s| - 1
  {
    if s == [] then [] else if s[0] == x then s[1..] else [s[0]] + RemoveFirst(s[1..], x)
  }

  class Host {
    /** `SceneManager.GetSceneAt(i).name` for `i < sceneCount`. */
    var loaded: seq<string>
    var calls: seq<HostCall>
    /** `SceneUtility.GetScenePathByBuildIndex(i)` for `i < sceneCountInBuildSettings`. */
    const buildScenePaths: seq<string>
    /** The root game objects of each scene asset, by scene name. */
    const sceneAssets: map<string, seq<GameObject>>
    /** Scenes for which the engine hands back no load or unload operation. */
    const refusedScenes: set<string>
    /** Addresses Addressables cannot resolve. */
    const unresolvableAddresses: set<string>
    /** Whether `Resources.UnloadUnusedAssets` hands back no operation. */
    const releaseRefused: bool

    constructor (loaded: seq<string>, buildScenePaths: seq<string>, sceneAssets: map<string, seq<GameObject>>,
                 refusedScenes: set<string>, unresolvableAddresses: set<string>, releaseRefused: bool)
      ensures this.loaded == loaded && calls == [] && this.buildScenePaths == buildScenePaths
      ensures this.sceneAssets == sceneAssets && this.refusedScenes == refusedScenes
      ensures this.unresolvableAddresses == unresolvableAddresses && this.releaseRefused == releaseRefused
    {
      this.loaded := loaded;
      calls := [];
      this.buildScenePaths := buildScenePaths;
      this.sceneAssets := sceneAssets;
      this.refusedScenes := refusedScenes;
      this.unresolvableAddresses := unresolvableAddresses;
      this.releaseRefused := releaseRefused;
    }

    /** `Scene.GetRootGameObjects` for a loaded scene. */
    function SceneRoots(sceneName: string): seq<GameObject> {
      if sceneName in sceneAssets then sceneAssets[sceneName] else []
    }

    /** The root objects of every loaded scene, in `GetSceneAt` order. */
    function LoadedSceneRoots(): (r: seq<seq<GameObject>>)
      reads this
      ensures |r| == |loaded| && forall i :: 0 <= i < |loaded| ==> r[i] == SceneRoots(loaded[i])
    {
      seq(|loaded|, i requires 0 <= i < |loaded| reads this => SceneRoots(loaded[i]))
    }

    /** A fresh operation that reaches pre-load on its first frame and is done on the next. */
    static method NewOperation() returns (op: AsyncOperation)
      ensures fresh(op) && op.Finishes() && op.allowSceneActivation
    {
      op := new AsyncOperation([Report(0.9, false), Report(1.0, true)]);
    }

    method LoadSceneAsync(sceneName: string, mode: NativeLoadSceneMode) returns (op: AsyncOperation?)
      modifies this
      ensures calls == old(calls) + [HostCall.LoadScene(sceneName, mode)]
      ensures op == null <==> sceneName in refusedScenes
      ensures op == null ==> loaded == old(loaded)
      ensures op != null ==> fresh(op) && op.Finishes() && loaded == AfterLoad(old(loaded), sceneName, mode)
    {
      calls := calls + [HostCall.LoadScene(sceneName, mode)];
      if sceneName in refusedScenes {
        op := null;
      } else {
        op := NewOperation();
        loaded := AfterLoad(loaded, sceneName, mode);
      }
    }

    /** The address-resolution half of an Addressables scene load; true when it succeeded. */
    method ResolveSceneAddress(sceneName: string, mode: NativeLoadSceneMode) returns (succeeded: bool)
      modifies this
      ensures calls == old(calls) + [HostCall.ResolveSceneAddress(sceneName, mode)] && loaded == old(loaded)
      ensures succeeded <==> sceneName !in unresolvableAddresses
    {
      calls := calls + [HostCall.ResolveSceneAddress(sceneName, mode)];
      succeeded := sceneName !in unresolvableAddresses;
    }

    /** `SceneInstance.ActivateAsync` of a resolved scene. */
    method ActivateAsync(sceneName: string, mode: NativeLoadSceneMode) returns (op: AsyncOperation?)
      modifies this
      ensures calls == old(calls) + [HostCall.ActivateScene(sceneName)]
      ensures op == null <==> sceneName in refusedScenes
      ensures op == null ==> loaded == old(loaded)
      ensures op != null ==> fresh(op) && op.Finishes() && loaded == AfterLoad(old(loaded), sceneName, mode)
    {
      calls := calls + [HostCall.ActivateScene(sceneName)];
      if sceneName in refusedScenes {
        op := null;
      } else {
        op := NewOperation();
        loaded := AfterLoad(loaded, sceneName, mode);
      }
    }

    /**
     * The engine hands back no unload operation for a refused scene, a scene that is not
     * loaded, or the last loaded scene: Unity never leaves no scene loaded.
     */
    predicate RefusesUnload(loaded: seq<string>, sceneName: string) {
      sceneName in refusedScenes || sceneName !in loaded || |loaded| == 1
    }

    /** `SceneManager.UnloadSceneAsync`: no operation when the engine refuses the unload. */
    method UnloadSceneAsync(sceneName: string) returns (op: AsyncOperation?)
      modifies this
      ensures calls == old(calls) + [HostCall.UnloadScene(sceneName)]
      ensures op == null <==> RefusesUnload(old(loaded), sceneName)
      ensures op == null ==> loaded == old(loaded)
      ensures op != null ==> fresh(op) && op.Finishes() && loaded == RemoveFirst(old(loaded), sceneName) && loaded != []
    {
      calls := calls + [HostCall.UnloadScene(sceneName)];
      if RefusesUnload(loaded, sceneName) {
        op := null;
      } else {
        op := NewOperation();
        loaded := RemoveFirst(loaded, sceneName);
      }
    }

    /** `Resources.UnloadUnusedAssets`. */
    method UnloadUnusedAssets() returns (op: AsyncOperation?)
      modifies this
      ensures calls == old(calls) + [HostCall.UnloadUnusedAssets] && loaded == old(loaded)
      ensures op == null <==> releaseRefused
      ensures op != null ==> fresh(op) && op.Finishes()
    {
      calls := calls + [HostCall.UnloadUnusedAssets];
      if releaseRefused {
        op := null;
      } else {
        op := NewOperation();
      }
    }

    method SetActiveScene(sceneName: string)
      modifies this
      ensures calls == old(calls) + [HostCall.SetActiveScene(sceneName)] && loaded == old(loaded)
    {
      calls := calls + [HostCall.SetActiveScene(sceneName)];
    }

    method Tetrahedralize()
      modifies this
      ensures calls == old(calls) + [HostCall.Tetrahedralize] && loaded == old(loaded)
    {
      calls := calls + [HostCall.Tetrahedralize];
    }
  }
}

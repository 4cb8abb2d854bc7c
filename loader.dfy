/**
 * Loader: scene loading and unloading over the engine. It checks a scene name against the
 * build settings (ignoring case), builds the build-settings catalog with a duplicate check,
 * skips a scene that is already loaded unless duplicates are allowed, and drives each load
 * with a loading token: `Update` until pre-loaded, `Complete` once, `Update` until done.
 * An unload always ends with a release of unused assets.
 */
module Loader {
  import opened Wrappers
  import opened Strings
  import opened Exceptions
  import opened NativeSceneInfo
  import opened Host
  import opened SceneLoadingToken

  /** The scene manager's own `LoadSceneMode`; a C# enum variable can hold any other value too. */
  datatype LoadSceneMode = Single | Additive | OutOfRange(value: int)

  /** The engine's mode for a scene-manager mode, or nothing for a value outside the enumeration. */
  function ToNative(mode: LoadSceneMode): (r: Option<NativeLoadSceneMode>)
    ensures r.None? <==> mode.OutOfRange?
  {
    match mode
    case Single => Some(NativeSingle)
    case Additive => Some(NativeAdditive)
    case OutOfRange(_) => None
  }

  /** `List.Contains` over entries, which compares with `NativeSceneInfo.Equals`: by path. */
  predicate ContainsEntry(entries: seq<NativeSceneInfo>, info: NativeSceneInfo) {
    exists j :: 0 <= j < |entries| && Equals(entries[j], info)
  }

  /** What the `NativeSceneInfo` constructor makes of each build-settings path, with its index. */
  function Parse(paths: seq<string>): (created: seq<Result<NativeSceneInfo, Exception>>)
    ensures |created| == |paths|
    ensures forall i :: 0 <= i < |paths| ==> created[i] == Create(i, paths[i])
  {
    seq(|paths|, i requires 0 <= i < |paths| => Create(i, paths[i]))
  }

  /**
   * The catalog built from the first `n` constructed entries, index by index: the first entry
   * whose construction threw, or that repeats an earlier entry, throws.
   */
  function CatalogOf(created: seq<Result<NativeSceneInfo, Exception>>, n: nat): Result<seq<NativeSceneInfo>, Exception>
    requires n <= |created|
    decreases n
  {
    if n == 0 then Success([])
    else
      var prefix := CatalogOf(created, n - 1);
      if prefix.Failure? then prefix
      else
        match created[n - 1]
        case Failure(e) => Failure(e)
        case Success(info) =>
          if ContainsEntry(prefix.value, info) then Failure(DuplicateScenePath(info.path))
          else Success(prefix.value + [info])
  }

  /** `GetSceneListInBuildSettings`'s result: the catalog of all the build-settings paths. */
  function Catalog(paths: seq<string>): Result<seq<NativeSceneInfo>, Exception> {
    CatalogOf(Parse(paths), |paths|)
  }

  /** Every entry that was constructed holds the path it was constructed from. */
  ghost predicate EntriesFor(created: seq<Result<NativeSceneInfo, Exception>>, paths: seq<string>) {
    |created| == |paths| && forall i :: 0 <= i < |paths| && created[i].Success? ==> created[i].value.path == paths[i]
  }

  /** Entry `i` was constructed and its path does not repeat an earlier path. */
  ghost predicate AcceptableAt(created: seq<Result<NativeSceneInfo, Exception>>, paths: seq<string>, i: nat)
    requires i < |created| == |paths|
  {
    created[i].Success? && paths[i] !in paths[..i]
  }

  /** An entry list repeats an entry, by `Equals`, exactly when the paths it was built from repeat the path. */
  lemma ContainsEntryByPath(entries: seq<NativeSceneInfo>, paths: seq<string>, info: NativeSceneInfo)
    requires |entries| <= |paths| && forall i :: 0 <= i < |entries| ==> entries[i].path == paths[i]
    ensures ContainsEntry(entries, info) <==> info.path in paths[..|entries|]
  {
    if info.path in paths[..|entries|] {
      var j :| 0 <= j < |entries| && paths[..|entries|][j] == info.path;
      assert Equals(entries[j], info);
    }
  }

  /** A successful catalog of the first `n` entries holds exactly those entries, in order. */
  lemma {:induction false} CatalogOfEntries(created: seq<Result<NativeSceneInfo, Exception>>, n: nat)
    requires n <= |created| && CatalogOf(created, n).Success?
    ensures |CatalogOf(created, n).value| == n
    ensures forall i :: 0 <= i < n ==> created[i] == Success(CatalogOf(created, n).value[i])
    decreases n
  {
    if n > 0 {
      var k := n - 1;
      CatalogOfEntries(created, k);
      var prefix := CatalogOf(created, k).value;
      var value := prefix + [created[k].value];
      assert CatalogOf(created, n).value == value;
      forall i | 0 <= i < k
        ensures created[i] == Success(value[i])
      {
        assert value[i] == prefix[i];
      }
    }
  }

  /**
   * The catalog of the first `n` entries succeeds iff each was constructed and no path repeats
   * an earlier one; two different paths that give the same scene name are accepted.
   */
  lemma {:induction false} CatalogOfSucceeds(created: seq<Result<NativeSceneInfo, Exception>>, paths: seq<string>, n: nat)
    requires EntriesFor(created, paths) && n <= |paths|
    ensures CatalogOf(created, n).Success? <==> forall i :: 0 <= i < n ==> AcceptableAt(created, paths, i)
    decreases n
  {
    if n > 0 {
      var k := n - 1;
      CatalogOfSucceeds(created, paths, k);
      assert (forall i :: 0 <= i < n ==> AcceptableAt(created, paths, i)) <==>
        (forall i :: 0 <= i < k ==> AcceptableAt(created, paths, i)) && AcceptableAt(created, paths, k);
      var prefix := CatalogOf(created, k);
      if prefix.Success? && created[k].Success? {
        var info := created[k].value;
        CatalogOfEntries(created, k);
        ContainsEntryByPath(prefix.value, paths, info);
        assert info.path == paths[k];
        if ContainsEntry(prefix.value, info) {
          assert CatalogOf(created, n) == Failure(DuplicateScenePath(info.path));
        } else {
          assert CatalogOf(created, n) == Success(prefix.value + [info]);
        }
      }
    }
  }

  /** Once the catalog of a prefix fails, every longer catalog fails the same way. */
  lemma {:induction false} CatalogOfStopsAtFailure(created: seq<Result<NativeSceneInfo, Exception>>, k: nat, n: nat)
    requires k <= n <= |created| && CatalogOf(created, k).Failure?
    ensures CatalogOf(created, n) == CatalogOf(created, k)
    decreases n
  {
    if k < n {
      CatalogOfStopsAtFailure(created, k, n - 1);
    }
  }

  /** The first offending entry: its construction threw `error`, or it repeats an earlier path. */
  ghost predicate FailsAt(created: seq<Result<NativeSceneInfo, Exception>>, paths: seq<string>, k: nat, error: Exception)
    requires k < |created| == |paths|
  {
    if created[k].Success? then paths[k] in paths[..k] && error == DuplicateScenePath(paths[k])
    else error == created[k].error
  }

  /** A failing catalog fails at its first offending entry. */
  lemma {:induction false} CatalogOfFailsAtFirstOffender(created: seq<Result<NativeSceneInfo, Exception>>, paths: seq<string>, n: nat)
    requires EntriesFor(created, paths) && n <= |paths| && CatalogOf(created, n).Failure?
    ensures exists k :: 0 <= k < n && (forall i :: 0 <= i < k ==> AcceptableAt(created, paths, i)) &&
                        FailsAt(created, paths, k, CatalogOf(created, n).error)
    decreases n
  {
    var k := n - 1;
    var prefix := CatalogOf(created, k);
    if prefix.Failure? {
      CatalogOfFailsAtFirstOffender(created, paths, k);
    } else {
      CatalogOfSucceeds(created, paths, k);
      if created[k].Success? {
        var info := created[k].value;
        CatalogOfEntries(created, k);
        ContainsEntryByPath(prefix.value, paths, info);
        assert info.path == paths[k];
        assert ContainsEntry(prefix.value, info);
        assert CatalogOf(created, n) == Failure(DuplicateScenePath(info.path));
      } else {
        assert CatalogOf(created, n) == Failure(created[k].error);
      }
      assert FailsAt(created, paths, k, CatalogOf(created, n).error);
    }
  }

  /** The constructed entries hold the paths they come from. */
  lemma ParseEntries(paths: seq<string>)
    ensures EntriesFor(Parse(paths), paths)
  {
  }

  /** Path `i` is acceptable when it parses as a scene path and does not repeat an earlier path. */
  lemma AcceptableAtPath(paths: seq<string>, i: nat)
    requires i < |paths|
    ensures AcceptableAt(Parse(paths), paths, i) <==> IsScenePath(paths[i]) && paths[i] !in paths[..i]
  {
  }

  /**
   * The build-settings catalog succeeds iff every path is acceptable: it parses and does not
   * repeat an earlier path (two different paths that give the same scene name are accepted).
   */
  lemma CatalogSucceeds(paths: seq<string>)
    ensures Catalog(paths).Success? <==> forall i :: 0 <= i < |paths| ==> AcceptableAt(Parse(paths), paths, i)
  {
    ParseEntries(paths);
    CatalogOfSucceeds(Parse(paths), paths, |paths|);
  }

  /** Entry `i` of a successful catalog has build index `i`, path `i` and the name taken from it. */
  lemma CatalogEntry(paths: seq<string>, i: nat)
    requires Catalog(paths).Success? && i < |paths|
    ensures i < |Catalog(paths).value| && IsScenePath(paths[i])
    ensures Catalog(paths).value[i] == NativeSceneInfo(i, GetSceneNameFromPath(paths[i]).value, paths[i])
  {
    CatalogOfEntries(Parse(paths), |paths|);
  }

  /**
   * When the catalog fails, it fails at the first offending path: with the constructor's
   * exception when that path does not parse, else with InvalidProgramException because the path
   * repeats an earlier one.
   */
  lemma CatalogFailsAtFirstOffender(paths: seq<string>)
    requires Catalog(paths).Failure?
    ensures exists k :: 0 <= k < |paths| && (forall i :: 0 <= i < k ==> AcceptableAt(Parse(paths), paths, i)) &&
                        FailsAt(Parse(paths), paths, k, Catalog(paths).error)
  {
    ParseEntries(paths);
    CatalogOfFailsAtFirstOffender(Parse(paths), paths, |paths|);
  }

  /** `GetSceneListInBuildSettings`: the catalog of the host's build settings. */
  method GetSceneListInBuildSettings(host: Host) returns (r: Result<seq<NativeSceneInfo>, Exception>)
    ensures r == Catalog(host.buildScenePaths)
  {
    var paths := host.buildScenePaths;
    ghost var created := Parse(paths);
    var sceneList: seq<NativeSceneInfo> := [];
    for buildIndex := 0 to |paths|
      invariant CatalogOf(created, buildIndex) == Success(sceneList)
    {
      var sceneInfo := Create(buildIndex, paths[buildIndex]);
      assert sceneInfo == created[buildIndex];
      if sceneInfo.Failure? {
        CatalogOfStopsAtFailure(created, buildIndex + 1, |paths|);
        return Failure(sceneInfo.error);
      }
      if ContainsEntry(sceneList, sceneInfo.value) {
        CatalogOfStopsAtFailure(created, buildIndex + 1, |paths|);
        return Failure(DuplicateScenePath(paths[buildIndex]));
      }
      sceneList := sceneList + [sceneInfo.value];
    }
    return Success(sceneList);
  }

  /** Some catalog entry has the scene name, ignoring case. */
  predicate NamedIn(sceneList: seq<NativeSceneInfo>, sceneName: string) {
    exists i :: 0 <= i < |sceneList| && EqualsIgnoreCase(sceneList[i].name, sceneName)
  }

  /** The scene is named in the build settings: the catalog can be built and names it. */
  predicate NamedInBuildSettings(paths: seq<string>, sceneName: string) {
    Catalog(paths).Success? && NamedIn(Catalog(paths).value, sceneName)
  }

  /**
   * When the catalog can be built, a scene is named in it exactly when some build-settings
   * path yields that name, ignoring case.
   */
  lemma NamedInBuildSettingsByPath(paths: seq<string>, sceneName: string)
    requires Catalog(paths).Success?
    ensures NamedInBuildSettings(paths, sceneName) <==>
      exists i :: 0 <= i < |paths| && IsScenePath(paths[i]) && EqualsIgnoreCase(GetSceneNameFromPath(paths[i]).value, sceneName)
  {
    var sceneList := Catalog(paths).value;
    CatalogOfEntries(Parse(paths), |paths|);
    if NamedInBuildSettings(paths, sceneName) {
      var i :| 0 <= i < |sceneList| && EqualsIgnoreCase(sceneList[i].name, sceneName);
      CatalogEntry(paths, i);
    } else {
      forall i | 0 <= i < |paths| && IsScenePath(paths[i])
        ensures !EqualsIgnoreCase(GetSceneNameFromPath(paths[i]).value, sceneName)
      {
        CatalogEntry(paths, i);
      }
    }
  }

  /**
   * `IsSceneIncludedInBuildSettings`: whether some build-settings scene has the name, ignoring
   * case. Building the catalog may throw first.
   */
  method IsSceneIncludedInBuildSettings(host: Host, sceneName: string) returns (r: Result<bool, Exception>)
    ensures r.Failure? <==> Catalog(host.buildScenePaths).Failure?
    ensures r.Failure? ==> r.error == Catalog(host.buildScenePaths).error
    ensures r.Success? ==> (r.value <==> NamedInBuildSettings(host.buildScenePaths, sceneName))
  {
    var searchSceneNameLower := ToLower(sceneName);
    var catalog := GetSceneListInBuildSettings(host);
    if catalog.Failure? {
      return Failure(catalog.error);
    }
    var sceneList := catalog.value;
    for i := 0 to |sceneList|
      invariant forall k :: 0 <= k < i ==> !EqualsIgnoreCase(sceneList[k].name, sceneName)
    {
      if ToLower(sceneList[i].name) == searchSceneNameLower {
        return Success(true);
      }
    }
    return Success(false);
  }

  /** `IsSceneLoaded`: the name is among the loaded scenes. */
  predicate IsSceneLoaded(host: Host, sceneName: string)
    reads host
  {
    sceneName in host.loaded
  }

  /** What a load ends with when it does not throw. */
  datatype LoadOutcome =
    | AlreadyLoaded   // duplicates not allowed and the scene is loaded: nothing was issued
    | Loaded(updatesBeforeComplete: nat, updatesAfterComplete: nat)

  /**
   * The token protocol for one load: `Update` (and a frame) until the token is pre-loaded,
   * `Complete` once, then `Update` (and a frame) until the operation is done. The token sees
   * at least one `Update` before `Complete`, and ends pre-loaded with `PreLoaded` raised once.
   */
  method DriveLoad(op: AsyncOperation) returns (token: SceneLoadingToken, updatesBeforeComplete: nat, updatesAfterComplete: nat)
    requires op.Finishes()
    modifies op
    ensures fresh(token) && token.asyncOperation == op && token.Valid()
    ensures token.IsPreLoaded() && token.IsCompleted()
    ensures token.calledEventLoaded && PreLoadedAtMostOnce(token.events) && PreLoaded in token.events
    ensures updatesBeforeComplete >= 1
  {
    op.allowSceneActivation := false;
    token := new SceneLoadingToken(op);
    updatesBeforeComplete, updatesAfterComplete := 0, 0;
    while !token.IsPreLoaded()
      invariant token.Valid() && op.Finishes()
      invariant !token.IsPreLoaded() ==> updatesBeforeComplete == 0 || op.reports != [] || op.progress >= PreLoadThreshold
      invariant token.IsPreLoaded() ==> updatesBeforeComplete >= 1
      decreases |op.reports|, if token.IsPreLoaded() then 0 else 1
    {
      token.Update();
      op.Frame();
      updatesBeforeComplete := updatesBeforeComplete + 1;
    }
    token.Complete();
    while !token.IsCompleted()
      invariant token.Valid() && token.IsPreLoaded() && op.Finishes()
      decreases |op.reports|
    {
      token.Update();
      op.Frame();
      updatesAfterComplete := updatesAfterComplete + 1;
    }
    token.ValidIsCoherent();
  }

  /**
   * `LoadSceneAsync` (through the engine's scene manager). In order: a name missing from the
   * build settings throws ArgumentException before anything is issued; an already loaded
   * scene ends the load when duplicates are not allowed; an unknown mode throws; a refused
   * load throws InvalidProgramException; otherwise the scene is loaded.
   */
  method LoadSceneAsync(host: Host, sceneName: string, mode: LoadSceneMode, allowDuplicateLoad: bool)
    returns (r: Result<LoadOutcome, Exception>)
    modifies host
    ensures Catalog(host.buildScenePaths).Failure? ==>
      r == Failure(Catalog(host.buildScenePaths).error) && unchanged(host)
    ensures Catalog(host.buildScenePaths).Success? && !NamedInBuildSettings(host.buildScenePaths, sceneName) ==>
      r == Failure(SceneNotInBuildSettings(sceneName)) && r.error.Type() == ArgumentException && unchanged(host)
    ensures Catalog(host.buildScenePaths).Success? && NamedInBuildSettings(host.buildScenePaths, sceneName) ==>
      if !allowDuplicateLoad && sceneName in old(host.loaded) then
        r == Success(AlreadyLoaded) && unchanged(host)
      else if mode.OutOfRange? then
        r == Failure(UnknownLoadSceneMode(mode.value)) && r.error.Type() == ArgumentOutOfRangeException && unchanged(host)
      else
        && host.calls == old(host.calls) + [LoadScene(sceneName, ToNative(mode).value)]
        && if sceneName in host.refusedScenes then
             r == Failure(LoadHandleNull(sceneName)) && r.error.Type() == InvalidProgramException && host.loaded == old(host.loaded)
           else
             r.Success? && r.value.Loaded? && r.value.updatesBeforeComplete >= 1 &&
             host.loaded == AfterLoad(old(host.loaded), sceneName, ToNative(mode).value)
  {
    var included := IsSceneIncludedInBuildSettings(host, sceneName);
    if included.Failure? {
      return Failure(included.error);
    }
    if !included.value {
      return Failure(SceneNotInBuildSettings(sceneName));
    }
    if !allowDuplicateLoad {
      if IsSceneLoaded(host, sceneName) {
        return Success(AlreadyLoaded);
      }
    }
    var native := ToNative(mode);
    if native.None? {
      return Failure(UnknownLoadSceneMode(mode.value));
    }
    var asyncLoad := host.LoadSceneAsync(sceneName, native.value);
    if asyncLoad == null {
      return Failure(LoadHandleNull(sceneName));
    }
    var _, before, after := DriveLoad(asyncLoad);
    return Success(Loaded(before, after));
  }

  /**
   * `LoadSceneAddressableAsync` (through Addressables). There is no build-settings check. In
   * order: an already loaded scene ends the load when duplicates are not allowed; an unknown
   * mode throws; an address that does not resolve throws; a refused activation throws;
   * otherwise the scene is loaded.
   */
  method LoadSceneAddressableAsync(host: Host, sceneName: string, mode: LoadSceneMode, allowDuplicateLoad: bool)
    returns (r: Result<LoadOutcome, Exception>)
    modifies host
    ensures
      if !allowDuplicateLoad && sceneName in old(host.loaded) then
        r == Success(AlreadyLoaded) && unchanged(host)
      else if mode.OutOfRange? then
        r == Failure(UnknownLoadSceneMode(mode.value)) && r.error.Type() == ArgumentOutOfRangeException && unchanged(host)
      else if sceneName in host.unresolvableAddresses then
        && r == Failure(AddressNotResolved(sceneName)) && r.error.Type() == InvalidProgramException
        && host.calls == old(host.calls) + [ResolveSceneAddress(sceneName, ToNative(mode).value)]
        && host.loaded == old(host.loaded)
      else
        && host.calls == old(host.calls) + [ResolveSceneAddress(sceneName, ToNative(mode).value), ActivateScene(sceneName)]
        && if sceneName in host.refusedScenes then
             r == Failure(LoadHandleNull(sceneName)) && r.error.Type() == InvalidProgramException && host.loaded == old(host.loaded)
           else
             r.Success? && r.value.Loaded? && r.value.updatesBeforeComplete >= 1 &&
             host.loaded == AfterLoad(old(host.loaded), sceneName, ToNative(mode).value)
  {
    if !allowDuplicateLoad {
      if IsSceneLoaded(host, sceneName) {
        return Success(AlreadyLoaded);
      }
    }
    var native := ToNative(mode);
    if native.None? {
      return Failure(UnknownLoadSceneMode(mode.value));
    }
    var resolved := host.ResolveSceneAddress(sceneName, native.value);
    if !resolved {
      return Failure(AddressNotResolved(sceneName));
    }
    var asyncLoad := host.ActivateAsync(sceneName, native.value);
    if asyncLoad == null {
      return Failure(LoadHandleNull(sceneName));
    }
    var _, before, after := DriveLoad(asyncLoad);
    return Success(Loaded(before, after));
  }

  /** `yield return null` until the operation is done. */
  method WaitUntilDone(op: AsyncOperation)
    requires op.Finishes()
    modifies op
    ensures op.isDone && op.Finishes() && op.allowSceneActivation == old(op.allowSceneActivation)
  {
    while !op.isDone
      invariant op.Finishes() && op.allowSceneActivation == old(op.allowSceneActivation)
      decreases |op.reports|
    {
      op.Frame();
    }
  }

  /**
   * `UnloadSceneAsync`: unload the scene and wait until that is done, then release unused
   * assets and wait for that too. A refused unload throws before the release is issued.
   */
  method UnloadSceneAsync(host: Host, sceneName: string) returns (r: Result<(), Exception>)
    modifies host
    ensures
      if host.RefusesUnload(old(host.loaded), sceneName) then
        && r == Failure(UnloadHandleNull(sceneName)) && r.error.Type() == InvalidProgramException
        && host.calls == old(host.calls) + [UnloadScene(sceneName)]
        && host.loaded == old(host.loaded)
      else
        && host.calls == old(host.calls) + [UnloadScene(sceneName), UnloadUnusedAssets]
        && host.loaded == RemoveFirst(old(host.loaded), sceneName)
        && if host.releaseRefused then r == Failure(UnloadUnusedAssetsNull) && r.error.Type() == InvalidProgramException
           else r == Success(())
  {
    var asyncUnload := host.UnloadSceneAsync(sceneName);
    if asyncUnload == null {
      return Failure(UnloadHandleNull(sceneName));
    }
    WaitUntilDone(asyncUnload);
    var asyncRelease := host.UnloadUnusedAssets();
    if asyncRelease == null {
      return Failure(UnloadUnusedAssetsNull);
    }
    WaitUntilDone(asyncRelease);
    return Success(());
  }
}

# MultiSceneManager in Dafny

This project models the scene-transition manager of the Unity package MultiSceneManager and
proves properties of the model. A move to a scene descriptor does the following:

- It loads the descriptor's Unity scenes additively, in list order. The first one becomes the
  active scene.
- It unloads every previously loaded scene the descriptor does not list. Scenes whose name
  starts with `InitTestScene` are never unloaded, because the test runner owns them.
- It rebuilds the light probes.
- It looks for a named spawn point and hands its pose to the caller's callback.

A loading phase guards against overlapping moves. Each phase change is announced to
subscribers. Below the orchestrator sit four parts:

- the loader, which does build-settings lookup, duplicate-load skipping, the loading-token
  protocol and unloading followed by a release of unused assets;
- the loading tokens, which are monotone progress registers with a pre-load event that fires
  at most once;
- the build-settings entry, which takes a scene name from an asset path;
- the scene descriptor, whose equality is by concrete type.

The test suite's build step, which adds the test scenes to the editor's build settings and
removes them again, is modelled too.

## Layout

| file | module | models |
|---|---|---|
| `wrappers.dfy` | `Wrappers` | `Option` (a nullable reference) and `Result` (a value or the exception thrown) |
| `exceptions.dfy` | `Exceptions` | one constructor per `throw` site, with its .NET exception class |
| `strings.dfy` | `Strings` | `StartsWith` compared character by character; `ToLower` on ASCII; case-insensitive equality written as `a.ToLower() == b.ToLower()` |
| `test_scene_info.dfy` | `TestSceneInfo` | the four test scene names and asset paths |
| `scene_graph.dfy` | `SceneGraph` | game objects, their children and spawn points, poses; `GetComponentsInChildren` in depth-first order |
| `host.dfy` | `Host` | the Unity engine as the scene manager sees it |
| `native_scene_info.dfy` | `NativeSceneInfo` | `NativeSceneInfo` (pure) |
| `scene_base.dfy` | `SceneBase` | `SceneBase` (pure) |
| `scene_loading_token.dfy` | `SceneLoadingToken` | `SceneLoadingToken` and `MultiSceneLoadingToken` (classes) |
| `loader.dfy` | `Loader` | `Loader` (methods over the host) |
| `spawn_points.dfy` | `SpawnPoints` | `FindSpawnPointAndMoveIt` (nested loops) |
| `utility.dfy` | `Utility` | `Utility`: the static state as class `SceneUtility`, and the move |
| `build_settings_process.dfy` | `BuildSettingsProcess` | `PreBuildAndPostBuildProcess` and `EditorBuildSettings.scenes` |

### The engine

`Host.Host` stands for the Unity engine. It holds:

- the loaded scene names, in `GetSceneAt` order;
- the build-settings paths;
- the root objects of each scene asset;
- a log of every engine call the manager issues, so that orders of operations can be stated.

What the engine refuses is fixed when the host is built:

- scenes for which it hands back no load or unload operation;
- besides those, it hands back no unload operation for a scene that is not loaded or for the
  last loaded scene: Unity never leaves no scene loaded (`Host.Host.RefusesUnload`);
- Addressables addresses that do not resolve;
- whether `Resources.UnloadUnusedAssets` hands back no operation.

An `AsyncOperation` is a class with `progress`, `isDone` and `allowSceneActivation`. It also
holds the scripted reports it gives on coming frames, and one frame passes per
`yield return null`. A game object carries an `active` flag: `GetComponentsInChildren`, called
without `includeInactive`, skips an inactive object and everything below it, while
`GetComponent` on a root finds the root's own point whether it is active or not. The position callback is given by the set of poses on which it throws.

### Behaviours of the code worth noting

The model does what the code does, including these behaviours:

- **Build-settings duplicates.** Two build-settings entries count as duplicates when their
  *paths* are equal, because `NativeSceneInfo.Equals` compares paths. Two paths that give the
  same scene name are accepted (`Loader.CatalogSucceeds`).
- **No build-settings check on a move.** A move loads through Addressables, which never checks
  the build settings (`Utility.LoadRunCalls`).
- **A release after every unload.** Unused assets are released after *every* unload, not once
  after all of them (`Utility.UnloadRunReleasesAfterEach`).
- **The spawn-point search.** The first match does not always end the search:
  - A match on a root object's own spawn point ends that scene's root loop.
  - A match below a root ends only that root's child scan. The later roots are still
    searched, and the callback can fire again (`SpawnPoints.DescendantMatchesEachReported`).
  - The scenes after the first scene that produced a call are skipped.
- **The active scene.** `SetActiveScene` goes to the first listed name even when its load was
  skipped because the scene was already loaded (`Utility.LoadStep`).
- **A failed load or unload.** A load or unload that throws leaves the loading phase at
  `NextSceneLoading` or `PrevSceneUnLoading`. Every later move is then turned away as
  "already loading" (`Utility.SceneUtility.MoveSceneToAsyncInternal`).
- **The token's starting progress.** A new token's progress is -1, so an operation that
  reports 0 already raises `ChangedProgress(0)`.

## Model

| member | source | states |
|---|---|---|
| `NativeSceneInfo.BeforeFinalNewline` | Runtime/Loader/NativeSceneInfo.cs:31 | `$` matches at the very end or before one final newline, so the matched text is the path or the path without that newline |
| `NativeSceneInfo.SplitBefore` | Runtime/Loader/NativeSceneInfo.cs:31 | the position found is the largest one, up to the bound, at which the text splits into a `(.+/)*` part and a rest |
| `NativeSceneInfo.GetSceneNameFromPath` | Runtime/Loader/NativeSceneInfo.cs:31-51 | a name comes out exactly when the path matches `^Assets/(.+/)*(.+)\.unity$` ignoring case; otherwise ArgumentException naming the path |
| `NativeSceneInfo.GreedyFileName` | Runtime/Loader/NativeSceneInfo.cs:44-45 | the name is group 2 of the greedy match: the path's middle is a directory part followed by the non-empty name, and no longer directory part leaves a name |
| `NativeSceneInfo.Create` | Runtime/Loader/NativeSceneInfo.cs:19-29 | a negative index throws ArgumentOutOfRangeException before the path is looked at; otherwise the entry exists exactly when the path matches, and holds the index, the path and the extracted name |
| `NativeSceneInfo.EqualityByPathOnly` | Runtime/Loader/NativeSceneInfo.cs:55-63 | entries are equal exactly when their paths are, whatever their index and name; equal entries hash alike; `==` and `!=` agree with `Equals` |
| `NativeSceneInfo.Equals` | Runtime/Loader/NativeSceneInfo.cs:57 | `Equals` compares the paths only; `EqualityByPathOnly` states it |
| `NativeSceneInfo.GetHashCode` | Runtime/Loader/NativeSceneInfo.cs:59 | the path's string hash; `EqualityByPathOnly` states that equal entries hash alike |
| `NativeSceneInfo.OpEquals` | Runtime/Loader/NativeSceneInfo.cs:61 | `==` is `Equals`; `EqualityByPathOnly` states it |
| `NativeSceneInfo.OpNotEquals` | Runtime/Loader/NativeSceneInfo.cs:63 | `!=` is the negation of `==`; `EqualityByPathOnly` states it |
| `NativeSceneInfo.ScenePathShape` | Runtime/Loader/NativeSceneInfo.cs:31-51 | `Assets/` (any case), text without newlines, `.unity` (any case) always matches, and the name is taken from the text between the literals |
| `NativeSceneInfo.SplitAtDirectories` | Runtime/Loader/NativeSceneInfo.cs:31 | the greedy split of slash-terminated directories followed by a slash-free file name falls at the last slash |
| `NativeSceneInfo.NameOfScenePath` | Runtime/Loader/NativeSceneInfo.cs:31-51 | for `Assets/` + directories + file name + `.unity`, literals in any case, the scene name is the file name (the example `Assets/Foo/Scenes/Main.unity` gives `Main`) |
| `NativeSceneInfo.TestScenePathRoundTrip` | Tests/Runtime/Utility/TestSceneInfo.cs:31-35 | the A-1 test path yields the A-1 test name, spaces and hyphens included |
| `NativeSceneInfo.NonScenePathsRejected` | Runtime/Loader/NativeSceneInfo.cs:31-51 | a path outside `Assets/`, a path with another extension, and a path with an empty name are all rejected with ArgumentException |
| `SceneBase.Equals` | Runtime/SceneBase.cs:25-46 | a null argument is unequal; the same descriptor is equal |
| `SceneBase.GetHashCode` | Runtime/SceneBase.cs:48 | descriptors of one concrete type share the hash of that type |
| `SceneBase.OpEquals` | Runtime/SceneBase.cs:50-64 | two nulls are equal; a null and a non-null are not |
| `SceneBase.OpNotEquals` | Runtime/SceneBase.cs:66 | `!=` is the negation of `==`; `DifferentTypeUnequal` states it holds across concrete types |
| `SceneBase.SameTypeEqual` | Runtime/SceneBase.cs:39-43 | two descriptors of one concrete type are equal under `Equals` and `==`, whatever their name lists |
| `SceneBase.DifferentTypeUnequal` | Runtime/SceneBase.cs:25-46 | descriptors of different concrete types are unequal, and `!=` holds |
| `SceneBase.EqualsIsEquivalence` | Runtime/SceneBase.cs:25-48 | `Equals` is symmetric and transitive, and equal descriptors hash alike |
| `SceneBase.OpEqualsMeansEqualsOrBothNull` | Runtime/SceneBase.cs:50-66 | `==` holds exactly when both sides are null or both are descriptors of one concrete type |
| `SceneBase.NestedTestSceneADiffers` | Tests/Runtime/TestScenes/SceneMoveButton.cs:11-17 | the nested `SceneMoveButton.TestScene_A` lists the same scenes as `Tests.TestScene_A` yet is not equal to it |
| `SceneLoadingToken.RunSnoc` | Runtime/Loader/SceneLoadingToken.cs:96-109 | a run over one more report is one more `Update` after the run |
| `SceneLoadingToken.Observe` | Runtime/Loader/SceneLoadingToken.cs:96-109 | one `Update`: a higher report is taken and announced, and `PreLoaded` fires once on reaching 0.9; `ObserveStep`, `ObserveKeepsCoherent` and `ObserveIdempotent` state its properties |
| `SceneLoadingToken.InitialIsCoherent` | Runtime/Loader/SceneLoadingToken.cs:79-81 | the starting state (progress -1, flag clear, no events) satisfies the token invariant |
| `SceneLoadingToken.RaiseKeepsCoherent` | Runtime/Loader/SceneLoadingToken.cs:98-101 | an `Update` that raises the progress without crossing 0.9 keeps the invariant |
| `SceneLoadingToken.CrossingKeepsCoherent` | Runtime/Loader/SceneLoadingToken.cs:98-107 | the `Update` that first reaches 0.9 keeps the invariant: `PreLoaded` directly follows that `ChangedProgress` and only then |
| `SceneLoadingToken.ObserveKeepsCoherent` | Runtime/Loader/SceneLoadingToken.cs:96-109 | every `Update` keeps the invariant: announced values strictly increase, `PreLoaded` fires at most once and only on crossing 0.9, and the flag says whether it fired |
| `SceneLoadingToken.ObserveStep` | Runtime/Loader/SceneLoadingToken.cs:96-109 | one `Update` never lowers the progress and replaces it only by a strictly greater report; events are only appended; `ChangedProgress` fires iff the progress rises; `PreLoaded` fires iff it crosses 0.9 |
| `SceneLoadingToken.ObserveIdempotent` | Runtime/Loader/SceneLoadingToken.cs:96-109 | a second `Update` against an unchanged report changes nothing |
| `SceneLoadingToken.RunKeepsCoherent` | Runtime/Loader/SceneLoadingToken.cs:96-109 | any sequence of `Update`s keeps the invariant |
| `SceneLoadingToken.RunAppendsEvents` | Runtime/Loader/SceneLoadingToken.cs:96-109 | a sequence of `Update`s only appends to the raised events |
| `SceneLoadingToken.RunReachesHighest` | Runtime/Loader/SceneLoadingToken.cs:96-109 | after a sequence of `Update`s the progress is at least the start and every report, and is the start or one of the reports |
| `SceneLoadingToken.RunFromStart` | Runtime/Loader/SceneLoadingToken.cs:79-109 | from a new token, the progress is the highest report (or -1), and `PreLoaded` fired, exactly once, iff some report reached 0.9 |
| `SceneLoadingToken.SceneLoadingToken.constructor` | Runtime/Loader/SceneLoadingToken.cs:79-87 | a new token is at progress -1 with the flag clear, no events, and the given operation |
| `SceneLoadingToken.SceneLoadingToken.IsPreLoaded` | Runtime/Loader/SceneLoadingToken.cs:93 | the progress has reached 0.9; the invariant `ValidIsCoherent` keeps ties it to `PreLoaded` having fired |
| `SceneLoadingToken.SceneLoadingToken.IsCompleted` | Runtime/Loader/SceneLoadingToken.cs:94 | the operation reports done; `Loader.DriveLoad` states it holds when the protocol ends |
| `SceneLoadingToken.SceneLoadingToken.ValidIsCoherent` | Runtime/Loader/SceneLoadingToken.cs:79-109 | every state a token reaches satisfies the invariant |
| `SceneLoadingToken.SceneLoadingToken.Update` | Runtime/Loader/SceneLoadingToken.cs:96-109 | the new state is one `Update` step against the operation's current progress, and the token stays valid |
| `SceneLoadingToken.SceneLoadingToken.Complete` | Runtime/Loader/SceneLoadingToken.cs:111-117 | activation is allowed afterwards iff it was before or the token is pre-loaded and its operation not done; nothing else about the operation changes |
| `SceneLoadingToken.MultiSceneLoadingToken.constructor` | Runtime/Loader/SceneLoadingToken.cs:13-16 | the token holds the given member tokens |
| `SceneLoadingToken.MultiSceneLoadingToken.IsPreLoaded` | Runtime/Loader/SceneLoadingToken.cs:35-48 | true iff every member is pre-loaded (so an empty token is) |
| `SceneLoadingToken.MultiSceneLoadingToken.IsCompleted` | Runtime/Loader/SceneLoadingToken.cs:50-63 | true iff every member's operation is done (so an empty token is) |
| `SceneLoadingToken.MultiSceneLoadingToken.Update` | Runtime/Loader/SceneLoadingToken.cs:18-24 | every member takes one `Update` step, a member listed twice included, and ends with progress at least its operation's |
| `SceneLoadingToken.MultiSceneLoadingToken.SettledWhenNothingPending` | Runtime/Loader/SceneLoadingToken.cs:26-33 | once no scripted frame is left, every member's operation reports at least 0.9 |
| `SceneLoadingToken.MultiSceneLoadingToken.PlayFrame` | Runtime/Loader/SceneLoadingToken.cs:31 | a frame passes: the pending frames shrink strictly while any remain, and no token changes |
| `SceneLoadingToken.MultiSceneLoadingToken.UpdateMembers` | Runtime/Loader/SceneLoadingToken.cs:30 | updating every member when no frame is pending makes every member pre-loaded |
| `SceneLoadingToken.MultiSceneLoadingToken.Round` | Runtime/Loader/SceneLoadingToken.cs:28-32 | one pass of the loop reports whether every member is pre-loaded, and plays a pending frame or finds them all pre-loaded |
| `SceneLoadingToken.MultiSceneLoadingToken.PreLoad` | Runtime/Loader/SceneLoadingToken.cs:26-33 | the loop ends with every member pre-loaded and runs no pass exactly when they all were already; the record of whether all were pre-loaded after each pass is false after every pass but the last, so no pass runs once they all are |
| `SceneLoadingToken.Passes` | Runtime/Loader/SceneLoadingToken.cs:28-32 | the pass record of a loop of `n` passes: false after each pass but the last, which holds the exit test |
| `SceneLoadingToken.PassesSnoc` | Runtime/Loader/SceneLoadingToken.cs:28-32 | one more pass extends the record by its exit test |
| `SceneLoadingToken.MultiSceneLoadingToken.Complete` | Runtime/Loader/SceneLoadingToken.cs:65-71 | an operation is allowed to activate afterwards iff it was before or some member over it is pre-loaded and it is not done; progress and completion are untouched |
| `Loader.ToNative` | Runtime/Loader/Loader.cs:66-71 | a mode maps to an engine mode exactly when it is `Single` or `Additive` |
| `Loader.Parse` | Runtime/Loader/Loader.cs:266-274 | entry `i` is the constructor's outcome for build index `i` and path `i` |
| `Loader.ContainsEntryByPath` | Runtime/Loader/Loader.cs:277 | `Contains` finds an earlier entry exactly when an earlier path is the same path |
| `Loader.CatalogOf` | Runtime/Loader/Loader.cs:266-283 | the loop over the first `n` entries, stopped by the first that throws or repeats a path; `CatalogOfEntries`, `CatalogOfSucceeds` and `CatalogOfFailsAtFirstOffender` state it |
| `Loader.Catalog` | Runtime/Loader/Loader.cs:257-285 | the loop over every build-settings path; `CatalogSucceeds`, `CatalogEntry` and `CatalogFailsAtFirstOffender` state it |
| `Loader.CatalogOfEntries` | Runtime/Loader/Loader.cs:266-283 | a successful catalog holds exactly the constructed entries, in build-index order |
| `Loader.CatalogOfSucceeds` | Runtime/Loader/Loader.cs:266-283 | the catalog of a prefix succeeds iff each entry was constructed and no path repeats an earlier one |
| `Loader.CatalogOfStopsAtFailure` | Runtime/Loader/Loader.cs:274-279 | once an entry throws, the later entries do not change the outcome |
| `Loader.CatalogOfFailsAtFirstOffender` | Runtime/Loader/Loader.cs:266-283 | a failing catalog fails at the first entry that throws or repeats a path, with that entry's exception |
| `Loader.ParseEntries` | Runtime/Loader/Loader.cs:271-274 | every constructed entry holds the path it was built from |
| `Loader.AcceptableAtPath` | Runtime/Loader/Loader.cs:274-280 | path `i` passes exactly when it matches the scene-path pattern and is not an earlier path |
| `Loader.CatalogSucceeds` | Runtime/Loader/Loader.cs:257-285 | the build-settings catalog succeeds iff every path matches and none repeats an earlier one; paths that only share a scene name are accepted |
| `Loader.CatalogEntry` | Runtime/Loader/Loader.cs:266-283 | entry `i` of a successful catalog has build index `i`, path `i` and the name taken from that path |
| `Loader.CatalogFailsAtFirstOffender` | Runtime/Loader/Loader.cs:257-285 | a failing catalog fails at the first offending path: ArgumentException for a non-matching path, InvalidProgramException for a repeated one |
| `Loader.GetSceneListInBuildSettings` | Runtime/Loader/Loader.cs:257-285 | the loop returns the catalog of the host's build-settings paths, or its exception |
| `Loader.NamedInBuildSettingsByPath` | Runtime/Loader/Loader.cs:222-238 | when the catalog builds, a scene is in it iff some build-settings path yields that name, ignoring case |
| `Loader.IsSceneIncludedInBuildSettings` | Runtime/Loader/Loader.cs:222-238 | throws exactly when the catalog throws; otherwise true iff a catalog entry has the name, ignoring case |
| `Loader.IsSceneLoaded` | Runtime/Loader/Loader.cs:245-250 | the name is among the loaded scenes; `LoadSceneAsync` states that such a scene is skipped unless duplicates are allowed |
| `Loader.DriveLoad` | Runtime/Loader/Loader.cs:79-99 | the token protocol ends with the token pre-loaded, the operation done, `PreLoaded` raised exactly once, and at least one `Update` before `Complete` |
| `Loader.LoadSceneAsync` | Runtime/Loader/Loader.cs:40-102 | in order: a name missing from the build settings throws ArgumentException before any engine call; an already loaded scene ends the load when duplicates are not allowed; an unknown mode throws ArgumentOutOfRangeException; a refused load throws InvalidProgramException; otherwise the scene is loaded in the requested mode |
| `Loader.LoadSceneAddressableAsync` | Runtime/Loader/Loader.cs:104-173 | no build-settings check; in order: duplicate skip, unknown mode, unresolved address, refused activation (each exception named), else the scene is loaded after exactly a resolve and an activate call |
| `Loader.WaitUntilDone` | Runtime/Loader/Loader.cs:193-196 | waiting ends with the operation done and its activation flag untouched |
| `Loader.UnloadSceneAsync` | Runtime/Loader/Loader.cs:184-212 | a refused scene, a scene not loaded and the last loaded scene throw before any release; otherwise the scene goes and unused assets are released right after, and a refused release throws |
| `Host.AsyncOperation.constructor` | Runtime/Loader/Loader.cs:87-99 | a new operation starts at progress 0, not done, activation allowed, holding its scripted reports |
| `Host.AsyncOperation.Frame` | Runtime/Loader/Loader.cs:193-196 | one frame passes: the next scripted report becomes current, the activation flag and the final report stay |
| `Host.Host.RefusesUnload` | Runtime/Loader/Loader.cs:188-192 | the engine hands back no unload operation for a refused scene, a scene not loaded, or the last loaded scene |
| `Host.Host.UnloadSceneAsync` | Runtime/Loader/Loader.cs:188-192 | the call is logged; a refused unload changes nothing and gives null; otherwise the first copy of the scene goes and some scene stays loaded |
| `SpawnPoints.ChildCall` | Runtime/Utility.cs:541-554 | the child scan calls the callback at most once |
| `SpawnPoints.ChildCallFindsFirst` | Runtime/Utility.cs:541-554 | the child scan calls the callback iff some point has the name, and then with the first such point |
| `SpawnPoints.UntilThrow` | Runtime/Utility.cs:339-351 | the calls that happen are a prefix of the calls the search would make |
| `SpawnPoints.UntilThrowAppend` | Runtime/Utility.cs:339-351 | calls that do not throw all happen, and the calls after them are cut as they would be on their own |
| `SpawnPoints.UntilThrowCuts` | Runtime/Utility.cs:339-351 | with no throwing call every call happens; otherwise the calls end with the first one that throws |
| `SpawnPoints.ScanChildren` | Runtime/Utility.cs:541-554 | the child loop reports exactly the child-scan call, and whether it threw |
| `SpawnPoints.RootsCallsFrom` | Runtime/Utility.cs:523-556 | the calls one scene's root loop makes from root `i` on; `RootsCallsFirst` and `ScanRoots` state it |
| `SpawnPoints.ScenesCalls` | Runtime/Utility.cs:515-558 | the calls the scene loop makes; `ScenesCallsFirst` states it |
| `SpawnPoints.SpawnCalls` | Runtime/Utility.cs:506-566 | the calls of a search nothing interrupts, the origin fallback included; `SpawnCallsFirst` states it |
| `SpawnPoints.RootPoints` | Runtime/Utility.cs:526-554 | the points the search can see under one root: its own, then, when it is active, its active descendants' |
| `SpawnPoints.ChildCallOfRoot` | Runtime/Utility.cs:541-554 | for a root whose own point does not match, the child scan finds what the root's visible points give |
| `SpawnPoints.ScanRoot` | Runtime/Utility.cs:526-554 | a root whose own point has the name gets the call and stops the root loop; otherwise the root's hierarchy is scanned |
| `SpawnPoints.ScanRoots` | Runtime/Utility.cs:523-556 | the root loop makes exactly the specified calls of one scene, cut at the first that throws |
| `SpawnPoints.FindSpawnPointAndMoveIt` | Runtime/Utility.cs:506-566 | the search makes exactly the specified calls, including the origin fallback, cut at the first that throws, and says whether one threw |
| `SpawnPoints.ChildCallAppend` | Runtime/Utility.cs:541-554 | scanning two runs of points finds the first run's match, else the second's |
| `SpawnPoints.RootsCallsFirst` | Runtime/Utility.cs:523-556 | one scene's root loop calls the callback iff some point the search can see (each root's own, then those of its active descendants) has the name, and first with the first such point |
| `SpawnPoints.ScenesCallsFirst` | Runtime/Utility.cs:515-558 | the scene loop calls the callback iff some loaded scene has a point with the name, and first with the first such point in visiting order |
| `SpawnPoints.SpawnCallsFirst` | Runtime/Utility.cs:506-566 | with no point of that name the callback gets the origin and the identity rotation, once; otherwise its first call gets the first point with the name |
| `SpawnPoints.HolderOfMarker` | Runtime/Utility.cs:541 | a holder of one marker has exactly the marker's point among its components |
| `SpawnPoints.DescendantMatchesEachReported` | Runtime/Utility.cs:541-556 | two roots that each hold a matching point below them both reach the callback, in root order |
| `SpawnPoints.RootMatchEndsScene` | Runtime/Utility.cs:526-538 | a root that is itself the point ends the scan, and later roots are not looked at |
| `SpawnPoints.LaterScenesSkipped` | Runtime/Utility.cs:557 | once a scene produced a call, the scenes loaded after it are not searched |
| `SpawnPoints.BathroomAndMissing` | Tests/Runtime/SpawnPoint.cs:29-72 | asking for `Bathroom`, placed at (0, 1, 0), moves there; asking for a missing name moves to the origin |
| `SpawnPoints.InactiveObjects` | Runtime/Utility.cs:526-554 | an inactive root hides the points below it and an inactive child hides its own, so a search for them falls back to the origin; an inactive root's own point is still found |
| `Utility.OnChangedAnnounces` | Runtime/Utility.cs:489-504 | a phase change is announced once, last, with the new phase; `LoadingScene` comes first exactly when a move starts and `LoadedScene` exactly when it ends |
| `Utility.OnChanged` | Runtime/Utility.cs:489-504 | the notifications a phase change sends; `OnChangedAnnounces` states them |
| `Utility.LoadedSceneSeesNewScene` | Runtime/Utility.cs:356-366 | in a successful move, `LoadedScene` and the final `DoNotAnything` are heard with the new scene current, every earlier notification with the previous one |
| `Utility.UnloadListCounts` | Runtime/Utility.cs:242-253 | a loaded name the next descriptor does not list is in the unload list as often as it is loaded; a listed name is not in it |
| `Utility.UnloadingSceneNamesAreTheDifference` | Runtime/Utility.cs:242-253 | the unload list holds exactly the loaded names the next descriptor does not list |
| `Utility.TargetsCounts` | Runtime/Utility.cs:300-307 | the names the unload loop acts on are the listed ones except the `InitTestScene…` names, as often as listed |
| `Utility.LoadStep` | Runtime/Utility.cs:258-282 | one turn of the load loop; `LoadRunAppendsListed`, `LoadRunCalls` and `LoadRunActivatesFirst` state the loop |
| `Utility.UnloadStep` | Runtime/Utility.cs:299-316 | one turn of the unload loop; `UnloadRunKeepsInitTestScenes` and `UnloadRunUnloadsTargets` state the loop |
| `Utility.LoadRunStops` | Runtime/Utility.cs:258-282 | once a load throws, the later names change nothing |
| `Utility.UnloadRunStops` | Runtime/Utility.cs:299-316 | once an unload throws, the later names change nothing |
| `Utility.LoadRunAppendsListed` | Runtime/Utility.cs:258-282 | loading keeps the scenes loaded before in front, in order, and loads no unlisted name |
| `Utility.LoadRunLoadsAll` | Runtime/Utility.cs:258-282 | when no load throws, every listed name is loaded afterwards |
| `Utility.LoadRunInListOrder` | Runtime/Utility.cs:257-282 | with duplicates allowed and no load throwing, the listed names are appended in list order (`Utility.LoadRunSkipsLoaded` is the skip case) |
| `Utility.FirstLoadsMembers` | Runtime/Utility.cs:258-282 | the names the skipping load loop appends are exactly the listed names not loaded before |
| `Utility.LoadRunSkipsLoaded` | Runtime/Utility.cs:258-282 | with duplicates skipped and no load throwing, the loaded list is the start followed, in list order, by each name not yet loaded when its turn comes |
| `Utility.LoadRunCalls` | Runtime/Utility.cs:258-282 | the load loop only resolves and activates Addressables scenes and sets the first name active; it never goes through the build settings or unloads |
| `Utility.LoadRunActivatesFirst` | Runtime/Utility.cs:269-280 | when no load throws, the first listed scene has been made active |
| `Utility.UnloadRunKeepsInitTestScenes` | Runtime/Utility.cs:299-316 | the unload loop never asks to unload an `InitTestScene…` scene, and each such scene stays loaded as often as it was |
| `Utility.UnloadRunUnloadsTargets` | Runtime/Utility.cs:299-316 | when no unload throws, each name the loop does not skip has been unloaded once |
| `Utility.UnloadRunReleasesAfterEach` | Runtime/Utility.cs:299-316 | when no unload throws, the engine was asked to unload each name the loop does not skip, in order, each followed by its own release of unused assets |
| `Utility.UnloadRunKeepsAScene` | Runtime/Utility.cs:299-316 | starting from some loaded scene, the unload loop never leaves no scene loaded |
| `Utility.EmptyMoveNeedsAScene` | Runtime/Utility.cs:292-316 | a move to the empty descriptor from scenes none of which is an `InitTestScene…` scene throws in its unload loop, which is why the loads come first |
| `Utility.MoveLeavesExactly` | Runtime/Utility.cs:235-316 | after a move whose loads and unloads succeed, the loaded scenes are exactly the descriptor's plus the `InitTestScene…` scenes loaded before |
| `Utility.TestSceneNamesDiffer` | Tests/Runtime/Utility/TestSceneInfo.cs:31-34 | the A scenes are not among TestScene_B's, and no test scene is an `InitTestScene…` scene |
| `Utility.MoveToTestSceneB` | Tests/Runtime/Utility/TestSceneInfo.cs:15-21 | after a successful move to TestScene_B both B scenes are loaded and neither A scene is, whatever was loaded before |
| `Utility.MoveToEmptyDescriptor` | Tests/Runtime/Utility/TestSceneInfo.cs:23-26 | a move to TestScene_ForUnload loads nothing, and when its unloads succeed only the `InitTestScene…` scenes stay loaded |
| `Utility.SceneUtility.constructor` | Runtime/Utility.cs:477-487 | the static state starts idle, with no current scene and nothing announced |
| `Utility.SceneUtility.IsLoadingScene` | Runtime/Utility.cs:446 | a move is under way exactly when the phase is not `DoNotAnything`; `MoveSceneToAsyncInternal` states that a move is turned away while it holds |
| `Utility.SceneUtility.SetLoadingPhase` | Runtime/Utility.cs:416-441 | the phase takes the value, and subscribers are notified only when it changed |
| `Utility.SceneUtility.IsLoaded` | Runtime/Utility.cs:387-408 | true iff every scene the descriptor lists is loaded (so an empty descriptor is loaded) |
| `Utility.SceneUtility.ComputeUnloadingSceneNames` | Runtime/Utility.cs:242-253 | the loop builds the unload list: the loaded names not listed next, in loaded order |
| `Utility.SceneUtility.LoadScenes` | Runtime/Utility.cs:257-282 | the engine ends as the load loop specifies, stopped by the first exception |
| `Utility.SceneUtility.UnloadScenes` | Runtime/Utility.cs:299-316 | the engine ends as the unload loop specifies, `InitTestScene…` names skipped, stopped by the first exception |
| `Utility.SceneUtility.MoveSceneToAsyncInternal` | Runtime/Utility.cs:200-371 | a move under way or a request equal to the current scene changes nothing; otherwise the engine state, outcome, phase, current scene and notifications are those of the load, unload and spawn steps, a throwing load or unload stranding the phase; subscribers hear `LoadedScene` and the final `DoNotAnything` with the new scene current, every earlier notification with the previous one |
| `Utility.SceneUtility.Transition` | Runtime/Utility.cs:227-367 | the body past the guards: loads, unloads, light probes, spawn search, with the phase and notifications each step leaves, and the current scene each notification is heard with |
| `Utility.SceneUtility.LoadPhase` | Runtime/Utility.cs:257-296 | the loads, then the phases `NextSceneLoaded` and `PrevSceneUnLoading`, announced, unless a load throws |
| `Utility.SceneUtility.UnloadPhase` | Runtime/Utility.cs:299-321 | the unloads, then the phase `PrevSceneUnLoaded`, announced, unless an unload throws |
| `Utility.SceneUtility.SpawnPhase` | Runtime/Utility.cs:329-367 | rebuild the light probes, search with the callback (its exception caught), record the scene and go idle, announcing each phase; the two spawn-point notifications are heard with the previous scene current, `LoadedScene` and `DoNotAnything` with the new one |
| `Utility.SceneUtility.MoveToSpawnPoint` | Runtime/Utility.cs:338-352 | without a callback nothing is called; with one, the search's calls up to the first that throws |
| `BuildSettingsProcess.AddKeepsAndLists` | Tests/Runtime/Utility/PreBuildAndPostBuildProcess.cs:18-38 | adding keeps every entry in place and lists the path; adding again changes nothing; an absent path gets one enabled entry at the end |
| `BuildSettingsProcess.RemoveDropsOnlyPath` | Tests/Runtime/Utility/PreBuildAndPostBuildProcess.cs:41-59 | removing leaves no entry with the path and keeps every other entry as often as it was; removing an absent path changes nothing |
| `BuildSettingsProcess.WithoutPathStep` | Tests/Runtime/Utility/PreBuildAndPostBuildProcess.cs:48-58 | one step of the backward walk drops the entry at `i` exactly when it has the path |
| `BuildSettingsProcess.AddThenRemoveRestores` | Tests/Runtime/Utility/PreBuildAndPostBuildProcess.cs:18-59 | adding an absent path and then removing it gives back the original list |
| `BuildSettingsProcess.WithoutPathsIsUnlisted` | Tests/Runtime/Utility/PreBuildAndPostBuildProcess.cs:71-77 | removing paths one by one is filtering all of them out at once |
| `BuildSettingsProcess.AddPathsKeepsAndLists` | Tests/Runtime/Utility/PreBuildAndPostBuildProcess.cs:62-68 | adding several paths keeps the original entries in front and lists every path; each appended entry is enabled and has one of the paths |
| `BuildSettingsProcess.CleanupUndoesSetup` | Tests/Runtime/Utility/PreBuildAndPostBuildProcess.cs:83-99 | when no test scene was listed before, the build settings after cleanup are those before setup |
| `BuildSettingsProcess.RemovePathsDropsOnlyPaths` | Tests/Runtime/Utility/PreBuildAndPostBuildProcess.cs:71-77 | removing several paths leaves none of them and keeps every other entry as often as it was |
| `BuildSettingsProcess.EditorBuildSettings.AddSceneToBuildSettings` | Tests/Runtime/Utility/PreBuildAndPostBuildProcess.cs:18-38 | the list becomes the list with the path added |
| `BuildSettingsProcess.EditorBuildSettings.RemoveSceneFromBuildSettings` | Tests/Runtime/Utility/PreBuildAndPostBuildProcess.cs:41-59 | the backward loop leaves the list without the path's entries |
| `BuildSettingsProcess.EditorBuildSettings.AddTestScenesToBuildSettings` | Tests/Runtime/Utility/PreBuildAndPostBuildProcess.cs:62-68 | the list becomes the list with the four test paths added in turn |
| `BuildSettingsProcess.EditorBuildSettings.RemoveTestScenesFromBuildSettings` | Tests/Runtime/Utility/PreBuildAndPostBuildProcess.cs:71-77 | the list becomes the list with the four test paths removed in turn |
| `BuildSettingsProcess.EditorBuildSettings.Setup` | Tests/Runtime/Utility/PreBuildAndPostBuildProcess.cs:83-91 | afterwards every test scene is listed and every earlier entry is still in place |
| `BuildSettingsProcess.EditorBuildSettings.Cleanup` | Tests/Runtime/Utility/PreBuildAndPostBuildProcess.cs:93-99 | afterwards no test scene is listed and every other entry is kept as often as it was |

## Left out

- The two public `MoveTo` overloads (Runtime/Utility.cs:133-190) and `CoroutineHandler` only
  start `MoveSceneToAsyncInternal` on a coroutine. `MoveTo<TScene>` passes a new `TScene()`;
  `MoveTo(SceneBase …)` passes the caller's own instance. The model calls the move directly,
  with the descriptor as a value.
- `RestartAsync` only throws `NotImplementedException`; it is not modelled.
- Descriptor-type enumeration through reflection (Runtime/Utility.cs:50-76) is not modelled.
- Locks and concurrency are not modelled. The locks around the phase and the current scene only
  serialize reads and writes, and the model runs one move at a time.
- Coroutine interleaving is not modelled: each `yield return` runs the awaited step to its end.
  A move is therefore atomic in the model, and "already loading" is reached only through a
  stranded phase.
- `Debug.Log` and `Debug.LogWarning` are not modelled.
- Floating point is not modelled. Progress is a `real`, and `0.9f` is the real 0.9.
  Poses are plain values.
- `GetLoadedSceneNames`/`GetLoadedScenes` (Runtime/Utility.cs:83-121) are the host's loaded list
  and `LoadedSceneRoots`. `IsSceneLoaded` (`GetSceneByName(..).IsValid()`) is membership in that
  list.
- The engine records a load as soon as the operation is handed out, so the model does not show
  a scene half-loaded between frames.
- Loader.DriveLoad: the operation's reports are scripted in advance and do not react to
  `allowSceneActivation`. The engine's hold at 0.9 until activation is allowed is not
  reproduced, and the operation is required to finish (`Finishes`).
- The token's `Completed` event, relayed from the operation's `completed` event
  (Runtime/Loader/SceneLoadingToken.cs:86, 129-132), is not modelled. No core code subscribes
  to it.
- The position callback is an opaque delegate. It is given by the poses on which it throws;
  whatever else it does is outside the model.
- A game object carries at most one spawn point (`GetComponent<ISpawnPoint>` returns one).
- The `#if UNITY_EDITOR` blocks of the build step are modelled as compiled in.
- BuildSettingsProcess.EditorBuildSettings.RemoveSceneFromBuildSettings: `List.Remove(entry)`
  removes the first entry equal to the one at index `i`. `EditorBuildSettingsScene` is a class
  compared by reference, so that is the entry at `i` unless the same object was stored twice;
  the model removes index `i`.
- Case-insensitive comparison (`ToLower`, `RegexOptions.IgnoreCase`) is modelled on ASCII
  letters only. Culture-specific case mappings are not modelled.
- Strings.StartsWith: `unloadingSceneName.StartsWith("InitTestScene")` (Runtime/Utility.cs:304)
  is the culture-sensitive overload. The model compares character by character, so a name that
  the current culture matches only by skipping ignorable characters (a soft hyphen, say) is not
  treated as an `InitTestScene` name.
- `string.GetHashCode` and `Type.GetHashCode` are parameters of the hash functions.

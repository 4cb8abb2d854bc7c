/**
 * PreBuildAndPostBuildProcess: the test suite's build step. Before the tests it adds the four
 * test scenes to the editor's build-settings list, each only if its path is not there yet;
 * afterwards it removes every entry with one of those paths.
 */
module BuildSettingsProcess {
  import opened TestSceneInfo

  /** `EditorBuildSettingsScene`: a scene path and whether the scene is enabled for the build. */
  datatype EditorBuildSettingsScene = EditorBuildSettingsScene(path: string, enabled: bool)

  /** The four test-scene paths, in the order the helpers visit them. */
  const TestScenePaths := [A1Path, A2Path, B1Path, B2Path]

  /** Some entry of the list has the path. */
  predicate Listed(scenes: seq<EditorBuildSettingsScene>, path: string) {
    exists i :: 0 <= i < |scenes| && scenes[i].path == path
  }

  /** The list after adding `path`: unchanged when the path is listed, else one enabled entry appended. */
  function WithPath(scenes: seq<EditorBuildSettingsScene>, path: string): seq<EditorBuildSettingsScene> {
    if Listed(scenes, path) then scenes else scenes + [EditorBuildSettingsScene(path, true)]
  }

  /** The list after removing `path`: every entry with another path, in order. */
  function WithoutPath(scenes: seq<EditorBuildSettingsScene>, path: string): seq<EditorBuildSettingsScene> {
    Unlisted(scenes, [path])
  }

  /** The list after adding each path of `paths` in turn. */
  function WithPaths(scenes: seq<EditorBuildSettingsScene>, paths: seq<string>): seq<EditorBuildSettingsScene> {
    if paths == [] then scenes else WithPath(WithPaths(scenes, paths[..|paths| - 1]), paths[|paths| - 1])
  }

  /** The list after removing each path of `paths` in turn. */
  function WithoutPaths(scenes: seq<EditorBuildSettingsScene>, paths: seq<string>): seq<EditorBuildSettingsScene> {
    if paths == [] then scenes else WithoutPath(WithoutPaths(scenes, paths[..|paths| - 1]), paths[|paths| - 1])
  }

  /** The entries whose path is none of `paths`, in order: the reference for removing several paths. */
  function Unlisted(scenes: seq<EditorBuildSettingsScene>, paths: seq<string>): seq<EditorBuildSettingsScene> {
    if scenes == [] then []
    else (if scenes[0].path in paths then [] else [scenes[0]]) + Unlisted(scenes[1..], paths)
  }

  /**
   * Adding keeps every entry in place; afterwards the path is listed, and adding it again
   * changes nothing. An absent path gets one enabled entry at the end.
   */
  lemma AddKeepsAndLists(scenes: seq<EditorBuildSettingsScene>, path: string)
    ensures scenes <= WithPath(scenes, path) && Listed(WithPath(scenes, path), path)
    ensures !Listed(scenes, path) ==> WithPath(scenes, path) == scenes + [EditorBuildSettingsScene(path, true)]
    ensures WithPath(WithPath(scenes, path), path) == WithPath(scenes, path)
  {
    if !Listed(scenes, path) {
      var added := WithPath(scenes, path);
      assert added[|scenes|].path == path;
    }
  }

  /**
   * Removing leaves no entry with the path and keeps every other entry as often as it was,
   * in order; removing an absent path changes nothing.
   */
  lemma RemoveDropsOnlyPath(scenes: seq<EditorBuildSettingsScene>, path: string)
    ensures !Listed(WithoutPath(scenes, path), path)
    ensures forall e: EditorBuildSettingsScene :: e.path != path ==> multiset(WithoutPath(scenes, path))[e] == multiset(scenes)[e]
    ensures !Listed(scenes, path) ==> WithoutPath(scenes, path) == scenes
  {
    UnlistedUnlists(scenes, [path]);
    UnlistedCounts(scenes, [path]);
    if !Listed(scenes, path) {
      UnlistedNothing(scenes, [path]);
    }
  }

  /** One step of the backward walk: the entry at `i` is dropped or kept in front of the filtered rest. */
  lemma WithoutPathStep(scenes: seq<EditorBuildSettingsScene>, i: nat, path: string)
    requires i < |scenes|
    ensures scenes[..i + 1] + WithoutPath(scenes[i + 1..], path) ==
      if scenes[i].path == path then scenes[..i] + [scenes[i]] + WithoutPath(scenes[i + 1..], path)
      else scenes[..i] + WithoutPath(scenes[i..], path)
    ensures scenes[i].path == path ==> WithoutPath(scenes[i..], path) == WithoutPath(scenes[i + 1..], path)
  {
    assert scenes[i..][0] == scenes[i] && scenes[i..][1..] == scenes[i + 1..];
    assert scenes[..i + 1] == scenes[..i] + [scenes[i]];
  }

  /** Adding a path that was absent and then removing it gives back the original list. */
  lemma AddThenRemoveRestores(scenes: seq<EditorBuildSettingsScene>, path: string)
    requires !Listed(scenes, path)
    ensures WithoutPath(WithPath(scenes, path), path) == scenes
  {
    var e := EditorBuildSettingsScene(path, true);
    UnlistedAppend(scenes, [e], [path]);
    RemoveDropsOnlyPath(scenes, path);
    assert [e][1..] == [];
  }

  /** Removing one more path from the entries already filtered by `paths` filters by both. */
  lemma {:induction false} WithoutPathOfUnlisted(scenes: seq<EditorBuildSettingsScene>, paths: seq<string>, path: string)
    ensures WithoutPath(Unlisted(scenes, paths), path) == Unlisted(scenes, paths + [path])
  {
    if scenes != [] {
      WithoutPathOfUnlisted(scenes[1..], paths, path);
      var head := if scenes[0].path in paths then [] else [scenes[0]];
      UnlistedAppend(head, Unlisted(scenes[1..], paths), [path]);
      assert head != [] ==> head[1..] == [];
    }
  }

  /** Removing paths one by one is filtering them out together. */
  lemma {:induction false} WithoutPathsIsUnlisted(scenes: seq<EditorBuildSettingsScene>, paths: seq<string>)
    ensures WithoutPaths(scenes, paths) == Unlisted(scenes, paths)
    decreases |paths|
  {
    if paths == [] {
      UnlistedNothing(scenes, paths);
    } else {
      var init := paths[..|paths| - 1];
      WithoutPathsIsUnlisted(scenes, init);
      WithoutPathOfUnlisted(scenes, init, paths[|paths| - 1]);
      assert init + [paths[|paths| - 1]] == paths;
    }
  }

  lemma {:induction false} UnlistedNothing(scenes: seq<EditorBuildSettingsScene>, paths: seq<string>)
    requires forall i :: 0 <= i < |scenes| ==> scenes[i].path !in paths
    ensures Unlisted(scenes, paths) == scenes
  {
    if scenes != [] {
      UnlistedNothing(scenes[1..], paths);
      assert scenes == [scenes[0]] + scenes[1..];
    }
  }

  lemma {:induction false} UnlistedAppend(a: seq<EditorBuildSettingsScene>, b: seq<EditorBuildSettingsScene>, paths: seq<string>)
    ensures Unlisted(a + b, paths) == Unlisted(a, paths) + Unlisted(b, paths)
  {
    if a == [] {
      assert a + b == b;
    } else {
      assert (a + b)[0] == a[0] && (a + b)[1..] == a[1..] + b;
      UnlistedAppend(a[1..], b, paths);
    }
  }

  lemma {:induction false} UnlistedAll(scenes: seq<EditorBuildSettingsScene>, paths: seq<string>)
    requires forall i :: 0 <= i < |scenes| ==> scenes[i].path in paths
    ensures Unlisted(scenes, paths) == []
  {
    if scenes != [] {
      UnlistedAll(scenes[1..], paths);
    }
  }

  /**
   * Adding several paths keeps the original entries in front and lists every path; each entry
   * appended is enabled and has one of the paths.
   */
  lemma {:induction false} AddPathsKeepsAndLists(scenes: seq<EditorBuildSettingsScene>, paths: seq<string>)
    ensures scenes <= WithPaths(scenes, paths)
    ensures forall p :: p in paths ==> Listed(WithPaths(scenes, paths), p)
    ensures forall i :: |scenes| <= i < |WithPaths(scenes, paths)| ==>
      WithPaths(scenes, paths)[i].path in paths && WithPaths(scenes, paths)[i].enabled
    decreases |paths|
  {
    if paths != [] {
      var init := paths[..|paths| - 1];
      var last := paths[|paths| - 1];
      var before := WithPaths(scenes, init);
      AddPathsKeepsAndLists(scenes, init);
      AddKeepsAndLists(before, last);
      var after := WithPaths(scenes, paths);
      assert after == WithPath(before, last);
      forall p | p in paths ensures Listed(after, p) {
        if p != last {
          assert p in init;
          var i :| 0 <= i < |before| && before[i].path == p;
          assert after[i] == before[i];
        }
      }
      forall i | |scenes| <= i < |after| ensures after[i].path in paths && after[i].enabled {
        if i < |before| {
          assert after[i] == before[i];
        }
      }
    }
  }

  /**
   * Removing the paths that were added to a list holding none of them gives back that list:
   * the build settings after the test suite are those before it.
   */
  lemma CleanupUndoesSetup(scenes: seq<EditorBuildSettingsScene>, paths: seq<string>)
    requires forall p :: p in paths ==> !Listed(scenes, p)
    ensures WithoutPaths(WithPaths(scenes, paths), paths) == scenes
  {
    var added := WithPaths(scenes, paths);
    AddPathsKeepsAndLists(scenes, paths);
    var extra := added[|scenes|..];
    assert added == scenes + extra;
    WithoutPathsIsUnlisted(added, paths);
    UnlistedAppend(scenes, extra, paths);
    UnlistedNothing(scenes, paths);
    UnlistedAll(extra, paths);
  }

  /** Removing several paths leaves none of them, and keeps every other entry as often as it was. */
  lemma RemovePathsDropsOnlyPaths(scenes: seq<EditorBuildSettingsScene>, paths: seq<string>)
    ensures forall p :: p in paths ==> !Listed(WithoutPaths(scenes, paths), p)
    ensures forall e: EditorBuildSettingsScene :: e.path !in paths ==> multiset(WithoutPaths(scenes, paths))[e] == multiset(scenes)[e]
  {
    WithoutPathsIsUnlisted(scenes, paths);
    UnlistedUnlists(scenes, paths);
    UnlistedCounts(scenes, paths);
  }

  lemma {:induction false} UnlistedUnlists(scenes: seq<EditorBuildSettingsScene>, paths: seq<string>)
    ensures forall p :: p in paths ==> !Listed(Unlisted(scenes, paths), p)
  {
    UnlistedMembers(scenes, paths);
  }

  lemma {:induction false} UnlistedMembers(scenes: seq<EditorBuildSettingsScene>, paths: seq<string>)
    ensures forall e :: e in Unlisted(scenes, paths) ==> e.path !in paths
  {
    if scenes != [] {
      UnlistedMembers(scenes[1..], paths);
    }
  }

  lemma {:induction false} UnlistedCounts(scenes: seq<EditorBuildSettingsScene>, paths: seq<string>)
    ensures forall e: EditorBuildSettingsScene :: e.path !in paths ==> multiset(Unlisted(scenes, paths))[e] == multiset(scenes)[e]
  {
    if scenes != [] {
      UnlistedCounts(scenes[1..], paths);
      var head := if scenes[0].path in paths then [] else [scenes[0]];
      assert multiset(Unlisted(scenes, paths)) == multiset(head) + multiset(Unlisted(scenes[1..], paths));
      assert multiset(scenes) == multiset([scenes[0]]) + multiset(scenes[1..]) by {
        assert scenes == [scenes[0]] + scenes[1..];
      }
    }
  }

  /** `EditorBuildSettings.scenes`, the editor's global build-settings list. */
  class EditorBuildSettings {
    var scenes: seq<EditorBuildSettingsScene>

    constructor (scenes: seq<EditorBuildSettingsScene>)
      ensures this.scenes == scenes
    {
      this.scenes := scenes;
    }

    /** `AddSceneToBuildSettings`: stop at an entry with the path; otherwise append an enabled one. */
    method AddSceneToBuildSettings(scenePath: string)
      modifies this
      ensures scenes == WithPath(old(scenes), scenePath)
    {
      var editorBuildSettingsScenes := scenes;
      for i := 0 to |editorBuildSettingsScenes|
        invariant forall k :: 0 <= k < i ==> editorBuildSettingsScenes[k].path != scenePath
      {
        if scenePath == editorBuildSettingsScenes[i].path {
          return;
        }
      }
      var scene := EditorBuildSettingsScene(scenePath, true);
      editorBuildSettingsScenes := editorBuildSettingsScenes + [scene];
      scenes := editorBuildSettingsScenes;
    }

    /**
     * `RemoveSceneFromBuildSettings`: walk the list from the back and take out each entry with
     * the path, writing the list back after each removal.
     */
    method RemoveSceneFromBuildSettings(scenePath: string)
      modifies this
      ensures scenes == WithoutPath(old(scenes), scenePath)
    {
      ghost var original := scenes;
      var editorBuildSettingsScenes := scenes;
      var i := |editorBuildSettingsScenes| - 1;
      while i >= 0
        invariant -1 <= i < |original|
        invariant editorBuildSettingsScenes == original[..i + 1] + WithoutPath(original[i + 1..], scenePath)
        invariant scenes == editorBuildSettingsScenes || scenes == editorBuildSettingsScenes == original
        decreases i
      {
        WithoutPathStep(original, i, scenePath);
        if scenePath == editorBuildSettingsScenes[i].path {
          editorBuildSettingsScenes := editorBuildSettingsScenes[..i] + editorBuildSettingsScenes[i + 1..];
          scenes := editorBuildSettingsScenes;
        }
        i := i - 1;
      }
      assert original[..0] == [] && original[0..] == original;
    }

    /** `AddTestScenesToBuildSettings`: add the four test scenes in turn. */
    method AddTestScenesToBuildSettings()
      modifies this
      ensures scenes == WithPaths(old(scenes), TestScenePaths)
    {
      for k := 0 to |TestScenePaths|
        invariant scenes == WithPaths(old(scenes), TestScenePaths[..k])
      {
        AddSceneToBuildSettings(TestScenePaths[k]);
        assert TestScenePaths[..k + 1][..k] == TestScenePaths[..k];
      }
      assert TestScenePaths[..|TestScenePaths|] == TestScenePaths;
    }

    /** `RemoveTestScenesFromBuildSettings`: remove the four test scenes in turn. */
    method RemoveTestScenesFromBuildSettings()
      modifies this
      ensures scenes == WithoutPaths(old(scenes), TestScenePaths)
    {
      for k := 0 to |TestScenePaths|
        invariant scenes == WithoutPaths(old(scenes), TestScenePaths[..k])
      {
        RemoveSceneFromBuildSettings(TestScenePaths[k]);
        assert TestScenePaths[..k + 1][..k] == TestScenePaths[..k];
      }
      assert TestScenePaths[..|TestScenePaths|] == TestScenePaths;
    }

    /** `IPrebuildSetup.Setup`: afterwards every test scene is listed, and nothing that was is lost. */
    method Setup()
      modifies this
      ensures scenes == WithPaths(old(scenes), TestScenePaths)
      ensures old(scenes) <= scenes && forall p :: p in TestScenePaths ==> Listed(scenes, p)
    {
      AddTestScenesToBuildSettings();
      AddPathsKeepsAndLists(old(scenes), TestScenePaths);
    }

    /** `IPostBuildCleanup.Cleanup`: afterwards no test scene is listed, and every other entry stays. */
    method Cleanup()
      modifies this
      ensures scenes == WithoutPaths(old(scenes), TestScenePaths)
      ensures forall p :: p in TestScenePaths ==> !Listed(scenes, p)
      ensures forall e: EditorBuildSettingsScene :: e.path !in TestScenePaths ==> multiset(scenes)[e] == multiset(old(scenes))[e]
    {
      RemoveTestScenesFromBuildSettings();
      RemovePathsDropsOnlyPaths(old(scenes), TestScenePaths);
    }
  }
}

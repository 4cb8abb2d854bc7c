/**
 * The spawn-point search that ends a scene move (`FindSpawnPointAndMoveIt`): scenes in loaded
 * order, the root objects of each scene in order, and for each root its own spawn point and then
 * the spawn points of its hierarchy. The callback receives the pose of a point with the
 * requested name, or the origin with the identity rotation when nothing was found.
 *
 * The loops stop as the code has them: a match on a root object's own spawn point ends the
 * root loop; a match among a root's hierarchy ends only that hierarchy's scan, so the later
 * roots of the same scene are still searched and the callback can fire again; once a scene
 * produced a match the later scenes are skipped.
 *
 * The callback is the caller's code and may throw. It is modelled by the set of poses on which
 * it throws; a throw ends the search at once.
 */
module SpawnPoints {
  import opened Wrappers
  import opened SceneGraph

  /** The pose the callback receives when no spawn point has the name. */
  const Fallback := Pose(Zero, Identity)

  /** A spawn point with the requested name. */
  predicate Matches(p: SpawnPoint, name: string) {
    p.name == name
  }

  /** The root's own spawn point has the requested name. */
  predicate RootMatches(g: GameObject, name: string) {
    g.spawnPoint.Some? && Matches(g.spawnPoint.value, name)
  }

  /** The child scan over a root's hierarchy: the pose of the first point with the name, if any. */
  function ChildCall(points: seq<SpawnPoint>, name: string): (r: seq<Pose>)
    ensures |r| <= 1
  {
    if points == [] then []
    else if Matches(points[0], name) then [points[0].pose]
    else ChildCall(points[1..], name)
  }

  /** The child scan calls the callback once, with the first point that has the name, if there is one. */
  lemma {:induction false} ChildCallFindsFirst(points: seq<SpawnPoint>, name: string)
    ensures ChildCall(points, name) == [] <==> forall i :: 0 <= i < |points| ==> !Matches(points[i], name)
    ensures ChildCall(points, name) != [] ==>
      exists j :: 0 <= j < |points| && Matches(points[j], name) && ChildCall(points, name) == [points[j].pose] &&
                  forall i :: 0 <= i < j ==> !Matches(points[i], name)
    decreases |points|
  {
    if points != [] && !Matches(points[0], name) {
      ChildCallFindsFirst(points[1..], name);
      assert forall i :: 1 <= i < |points| ==> points[i] == points[1..][i - 1];
      if ChildCall(points, name) != [] {
        var j :| 0 <= j < |points[1..]| && Matches(points[1..][j], name) && ChildCall(points[1..], name) == [points[1..][j].pose] &&
                 forall i :: 0 <= i < j ==> !Matches(points[1..][i], name);
        assert points[j + 1] == points[1..][j];
      }
    }
  }

  /** The callback calls the root loop makes over `roots`, from root `i` on. */
  function RootsCallsFrom(roots: seq<GameObject>, i: nat, name: string): seq<Pose>
    requires i <= |roots|
    decreases |roots| - i
  {
    if i == |roots| then []
    else if RootMatches(roots[i], name) then [roots[i].spawnPoint.value.pose]
    else ChildCall(GetComponentsInChildren(roots[i]), name) + RootsCallsFrom(roots, i + 1, name)
  }

  /** The callback calls the root loop makes over `roots`. */
  function RootsCalls(roots: seq<GameObject>, name: string): seq<Pose> {
    RootsCallsFrom(roots, 0, name)
  }

  /** The callback calls the scene loop makes: those of the first scene whose roots produce any. */
  function ScenesCalls(scenes: seq<seq<GameObject>>, name: string): seq<Pose>
  {
    if scenes == [] then []
    else if RootsCalls(scenes[0], name) != [] then RootsCalls(scenes[0], name)
    else ScenesCalls(scenes[1..], name)
  }

  /** Every callback call of a search that nothing interrupts, the fallback included. */
  function SpawnCalls(scenes: seq<seq<GameObject>>, name: string): seq<Pose> {
    if ScenesCalls(scenes, name) == [] then [Fallback] else ScenesCalls(scenes, name)
  }

  /** The calls that actually happen: up to and including the first on which the callback throws. */
  function UntilThrow(calls: seq<Pose>, throwsOn: set<Pose>): (r: seq<Pose>)
    ensures |r| <= |calls| && r == calls[..|r|]
  {
    if calls == [] then []
    else if calls[0] in throwsOn then [calls[0]]
    else [calls[0]] + UntilThrow(calls[1..], throwsOn)
  }

  /** No call in `calls` throws. */
  predicate Quiet(calls: seq<Pose>, throwsOn: set<Pose>) {
    forall i :: 0 <= i < |calls| ==> calls[i] !in throwsOn
  }

  /** Calls that do not throw are all made, and the calls after them are cut as on their own. */
  lemma {:induction false} UntilThrowAppend(a: seq<Pose>, b: seq<Pose>, throwsOn: set<Pose>)
    requires Quiet(a, throwsOn)
    ensures UntilThrow(a + b, throwsOn) == a + UntilThrow(b, throwsOn)
    ensures Quiet(a + b, throwsOn) <==> Quiet(b, throwsOn)
    decreases |a|
  {
    if a == [] {
      assert a + b == b;
    } else {
      assert (a + b)[0] == a[0] && (a + b)[1..] == a[1..] + b;
      UntilThrowAppend(a[1..], b, throwsOn);
      assert a == [a[0]] + a[1..];
      assert Quiet(b, throwsOn) ==> Quiet(a + b, throwsOn) by {
        if Quiet(b, throwsOn) {
          forall i | 0 <= i < |a + b| ensures (a + b)[i] !in throwsOn {
            if i >= |a| { assert (a + b)[i] == b[i - |a|]; }
          }
        }
      }
      assert Quiet(a + b, throwsOn) ==> Quiet(b, throwsOn) by {
        if Quiet(a + b, throwsOn) {
          forall i | 0 <= i < |b| ensures b[i] !in throwsOn {
            assert (a + b)[i + |a|] == b[i];
          }
        }
      }
    }
  }

  /**
   * The calls that happen are all the calls when none throws; otherwise they end with the first
   * call that throws, and none before it throws.
   */
  lemma {:induction false} UntilThrowCuts(calls: seq<Pose>, throwsOn: set<Pose>)
    ensures Quiet(calls, throwsOn) ==> UntilThrow(calls, throwsOn) == calls
    ensures !Quiet(calls, throwsOn) ==>
      var r := UntilThrow(calls, throwsOn);
      r != [] && r[|r| - 1] in throwsOn && Quiet(r[..|r| - 1], throwsOn)
    decreases |calls|
  {
    if calls != [] {
      UntilThrowCuts(calls[1..], throwsOn);
      if calls[0] !in throwsOn {
        assert Quiet(calls, throwsOn) <==> Quiet(calls[1..], throwsOn) by {
          if Quiet(calls[1..], throwsOn) {
            forall i | 0 <= i < |calls| ensures calls[i] !in throwsOn {
              if i > 0 { assert calls[i] == calls[1..][i - 1]; }
            }
          }
        }
        assert calls == [calls[0]] + calls[1..];
        var r := UntilThrow(calls, throwsOn);
        var t := UntilThrow(calls[1..], throwsOn);
        assert r == [calls[0]] + t;
        if !Quiet(calls, throwsOn) {
          assert r[..|r| - 1] == [calls[0]] + t[..|t| - 1];
        }
      }
    }
  }

  /** Two runs of calls that do not throw make one, all of whose calls happen. */
  lemma QuietAppend(a: seq<Pose>, b: seq<Pose>, throwsOn: set<Pose>)
    requires Quiet(a, throwsOn) && Quiet(b, throwsOn)
    ensures Quiet(a + b, throwsOn) && UntilThrow(a + b, throwsOn) == a + b
  {
    UntilThrowAppend(a, b, throwsOn);
    UntilThrowCuts(b, throwsOn);
  }

  /** A call that throws ends the calls that happen. */
  lemma ThrowingCallEnds(a: seq<Pose>, p: Pose, b: seq<Pose>, throwsOn: set<Pose>)
    requires Quiet(a, throwsOn) && p in throwsOn
    ensures UntilThrow(a + [p] + b, throwsOn) == a + [p]
    ensures !Quiet(a + [p] + b, throwsOn)
  {
    assert a + [p] + b == a + ([p] + b);
    UntilThrowAppend(a, [p] + b, throwsOn);
    assert ([p] + b)[0] == p;
  }

  /**
   * The child loop of `FindSpawnPointAndMoveIt` over one root's `GetComponentsInChildren`: the
   * callback gets the first point with the name, and the loop ends there.
   */
  method ScanChildren(childs: seq<SpawnPoint>, spawnPointName: string, throwsOn: set<Pose>)
    returns (invoked: seq<Pose>, threw: bool)
    ensures invoked == ChildCall(childs, spawnPointName)
    ensures threw <==> !Quiet(invoked, throwsOn)
  {
    for ci := 0 to |childs|
      invariant ChildCall(childs, spawnPointName) == ChildCall(childs[ci..], spawnPointName)
    {
      assert childs[ci..][0] == childs[ci] && childs[ci..][1..] == childs[ci + 1..];
      var spawnTarget := childs[ci];
      if spawnTarget.name == spawnPointName {
        assert [spawnTarget.pose][0] == spawnTarget.pose;
        return [spawnTarget.pose], spawnTarget.pose in throwsOn;
      }
    }
    assert childs[|childs|..] == [];
    return [], false;
  }

  /**
   * The body of the root loop for one root object: its own spawn point, when it has the name,
   * gets the callback and `stop` ends the root loop; otherwise its hierarchy is scanned.
   */
  method ScanRoot(gameObject: GameObject, spawnPointName: string, throwsOn: set<Pose>)
    returns (invoked: seq<Pose>, stop: bool, threw: bool)
    ensures stop <==> RootMatches(gameObject, spawnPointName)
    ensures invoked == if stop then [gameObject.spawnPoint.value.pose] else ChildCall(GetComponentsInChildren(gameObject), spawnPointName)
    ensures threw <==> !Quiet(invoked, throwsOn)
  {
    if gameObject.spawnPoint.Some? {
      var spawnTarget := gameObject.spawnPoint.value;
      if spawnTarget.name == spawnPointName {
        assert [spawnTarget.pose][0] == spawnTarget.pose;
        return [spawnTarget.pose], true, spawnTarget.pose in throwsOn;
      }
    }
    var childs := GetComponentsInChildren(gameObject);
    invoked, threw := ScanChildren(childs, spawnPointName, throwsOn);
    stop := false;
  }

  /** One pass of the root loop: the calls from root `i` on are that root's calls, then the rest. */
  lemma RootsCallsFromStep(roots: seq<GameObject>, i: nat, name: string, before: seq<Pose>, call: seq<Pose>, rest: seq<Pose>)
    requires i < |roots|
    requires call == if RootMatches(roots[i], name) then [roots[i].spawnPoint.value.pose] else ChildCall(GetComponentsInChildren(roots[i]), name)
    requires rest == if RootMatches(roots[i], name) then [] else RootsCallsFrom(roots, i + 1, name)
    ensures before + RootsCallsFrom(roots, i, name) == before + call + rest
  {
  }

  /**
   * The root loop of `FindSpawnPointAndMoveIt` over one scene's root objects: a root whose own
   * point has the name gets the callback and ends the loop; otherwise the root's hierarchy is
   * scanned and the loop goes on. A throwing callback ends everything.
   */
  method ScanRoots(rootObjects: seq<GameObject>, spawnPointName: string, throwsOn: set<Pose>)
    returns (invoked: seq<Pose>, threw: bool)
    ensures invoked == UntilThrow(RootsCalls(rootObjects, spawnPointName), throwsOn)
    ensures threw <==> !Quiet(RootsCalls(rootObjects, spawnPointName), throwsOn)
  {
    ghost var sceneCalls := RootsCalls(rootObjects, spawnPointName);
    invoked := [];
    var ri := 0;
    while ri < |rootObjects|
      invariant 0 <= ri <= |rootObjects|
      invariant Quiet(invoked, throwsOn)
      invariant sceneCalls == invoked + RootsCallsFrom(rootObjects, ri, spawnPointName)
    {
      var call, stop, callThrew := ScanRoot(rootObjects[ri], spawnPointName, throwsOn);
      ghost var rest := if stop then [] else RootsCallsFrom(rootObjects, ri + 1, spawnPointName);
      RootsCallsFromStep(rootObjects, ri, spawnPointName, invoked, call, rest);
      if callThrew {
        assert call == [call[0]];
        ThrowingCallEnds(invoked, call[0], rest, throwsOn);
        return invoked + call, true;
      }
      QuietAppend(invoked, call, throwsOn);
      invoked := invoked + call;
      if stop {
        assert sceneCalls == invoked + [];
        break;
      }
      ri := ri + 1;
    }
    assert sceneCalls == invoked;
    UntilThrowCuts(invoked, throwsOn);
    return invoked, false;
  }

  /**
   * `FindSpawnPointAndMoveIt` over the root objects of each loaded scene. `invoked` lists the
   * callback calls in order; `threw` tells whether the last of them threw, which ends the search.
   */
  method FindSpawnPointAndMoveIt(loadedScenes: seq<seq<GameObject>>, spawnPointName: string, throwsOn: set<Pose>)
    returns (invoked: seq<Pose>, threw: bool)
    ensures invoked == UntilThrow(SpawnCalls(loadedScenes, spawnPointName), throwsOn)
    ensures threw <==> !Quiet(SpawnCalls(loadedScenes, spawnPointName), throwsOn)
  {
    ghost var all := ScenesCalls(loadedScenes, spawnPointName);
    var isFoundSpawnTarget := false;
    invoked := [];
    var si := 0;
    while si < |loadedScenes|
      invariant 0 <= si <= |loadedScenes|
      invariant !isFoundSpawnTarget ==> invoked == [] && all == ScenesCalls(loadedScenes[si..], spawnPointName)
      invariant isFoundSpawnTarget ==> all == invoked && invoked != [] && Quiet(invoked, throwsOn)
      decreases |loadedScenes| - si, if isFoundSpawnTarget then 0 else 1
    {
      assert loadedScenes[si..][0] == loadedScenes[si] && loadedScenes[si..][1..] == loadedScenes[si + 1..];
      var sceneThrew;
      invoked, sceneThrew := ScanRoots(loadedScenes[si], spawnPointName, throwsOn);
      if sceneThrew {
        UntilThrowCuts(all, throwsOn);
        return invoked, true;
      }
      UntilThrowCuts(all, throwsOn);
      if invoked != [] {
        isFoundSpawnTarget := true;
        break;
      }
      si := si + 1;
    }
    if !isFoundSpawnTarget {
      assert loadedScenes[si..] == [];
      invoked := [Fallback];
      if Fallback in throwsOn {
        return invoked, true;
      }
    }
    UntilThrowCuts(invoked, throwsOn);
    return invoked, false;
  }

  /** The child scan over two runs of points: the first run's match, else the second's. */
  lemma {:induction false} ChildCallAppend(a: seq<SpawnPoint>, b: seq<SpawnPoint>, name: string)
    ensures ChildCall(a + b, name) == if ChildCall(a, name) != [] then ChildCall(a, name) else ChildCall(b, name)
    decreases |a|
  {
    if a == [] {
      assert a + b == b;
    } else {
      assert (a + b)[0] == a[0] && (a + b)[1..] == a[1..] + b;
      ChildCallAppend(a[1..], b, name);
    }
  }

  /**
   * The spawn points the search can see under one root: the root's own, which `GetComponent`
   * finds even on an inactive root, then those of its active descendants when the root is active.
   */
  function RootPoints(g: GameObject): seq<SpawnPoint> {
    (if g.spawnPoint.Some? then [g.spawnPoint.value] else []) + (if g.active then ComponentsInForest(g.children) else [])
  }

  /** Every spawn point the search can see from root `i` on, root by root, each root's own first. */
  function PointsFrom(roots: seq<GameObject>, i: nat): seq<SpawnPoint>
    requires i <= |roots|
    decreases |roots| - i
  {
    if i == |roots| then [] else RootPoints(roots[i]) + PointsFrom(roots, i + 1)
  }

  /** A root whose own point does not match: scanning its hierarchy finds what the root's visible points give. */
  lemma ChildCallOfRoot(g: GameObject, name: string)
    requires !RootMatches(g, name)
    ensures ChildCall(GetComponentsInChildren(g), name) == ChildCall(RootPoints(g), name)
  {
    if !g.active && g.spawnPoint.Some? {
      assert RootPoints(g) == [g.spawnPoint.value];
      assert RootPoints(g)[1..] == [];
    }
  }

  /** Every spawn point of the loaded scenes, in the order the search visits them. */
  function AllPoints(scenes: seq<seq<GameObject>>): seq<SpawnPoint> {
    if scenes == [] then [] else PointsFrom(scenes[0], 0) + AllPoints(scenes[1..])
  }

  /**
   * Within one scene, the root loop calls the callback iff some point of the scene has the name,
   * and its first call gets the first such point.
   */
  lemma {:induction false} RootsCallsFirst(roots: seq<GameObject>, i: nat, name: string)
    requires i <= |roots|
    ensures RootsCallsFrom(roots, i, name) == [] <==> ChildCall(PointsFrom(roots, i), name) == []
    ensures RootsCallsFrom(roots, i, name) != [] ==> RootsCallsFrom(roots, i, name)[0] == ChildCall(PointsFrom(roots, i), name)[0]
    decreases |roots| - i
  {
    if i < |roots| {
      var g := roots[i];
      var own := RootPoints(g);
      ChildCallAppend(own, PointsFrom(roots, i + 1), name);
      if RootMatches(g, name) {
        assert own[0] == g.spawnPoint.value;
      } else {
        ChildCallOfRoot(g, name);
        RootsCallsFirst(roots, i + 1, name);
      }
    }
  }

  /**
   * The search calls the callback with a found point iff some loaded scene has a point with the
   * name, and its first call gets the first such point in visiting order: scenes in loaded
   * order, roots in order, each root before its hierarchy.
   */
  lemma {:induction false} ScenesCallsFirst(scenes: seq<seq<GameObject>>, name: string)
    ensures ScenesCalls(scenes, name) == [] <==> ChildCall(AllPoints(scenes), name) == []
    ensures ScenesCalls(scenes, name) != [] ==> ScenesCalls(scenes, name)[0] == ChildCall(AllPoints(scenes), name)[0]
    decreases |scenes|
  {
    if scenes != [] {
      RootsCallsFirst(scenes[0], 0, name);
      ChildCallAppend(PointsFrom(scenes[0], 0), AllPoints(scenes[1..]), name);
      ScenesCallsFirst(scenes[1..], name);
    }
  }

  /**
   * With no point of that name in any loaded scene the callback gets the origin and the identity
   * rotation, once; otherwise its first call gets the first point with the name.
   */
  lemma SpawnCallsFirst(scenes: seq<seq<GameObject>>, name: string)
    ensures (forall i :: 0 <= i < |AllPoints(scenes)| ==> !Matches(AllPoints(scenes)[i], name)) ==>
      SpawnCalls(scenes, name) == [Fallback]
    ensures forall j :: 0 <= j < |AllPoints(scenes)| && Matches(AllPoints(scenes)[j], name) &&
                        (forall i :: 0 <= i < j ==> !Matches(AllPoints(scenes)[i], name)) ==>
      SpawnCalls(scenes, name)[0] == AllPoints(scenes)[j].pose
  {
    ScenesCallsFirst(scenes, name);
    ChildCallFindsFirst(AllPoints(scenes), name);
  }

  /** A game object carrying a spawn point and nothing below it. */
  function Marker(name: string, pose: Pose): GameObject {
    GameObject(true, Some(SpawnPoint(name, pose)), [])
  }

  /** A game object without a spawn point of its own, over the given children. */
  function Holder(children: seq<GameObject>): GameObject {
    GameObject(true, None, children)
  }

  /** The only spawn point under a holder of one marker is the marker's. */
  lemma HolderOfMarker(name: string, pose: Pose)
    ensures GetComponentsInChildren(Holder([Marker(name, pose)])) == [SpawnPoint(name, pose)]
  {
    var m := Marker(name, pose);
    assert GetComponentsInChildren(m) == [SpawnPoint(name, pose)] + ComponentsInForest([]);
    assert [m][1..] == [];
    assert ComponentsInForest([m]) == GetComponentsInChildren(m) + ComponentsInForest([]);
  }

  /**
   * Only a match on a root itself ends the scene's root loop: two roots that each hold a matching
   * point below them both reach the callback, in root order.
   */
  lemma DescendantMatchesEachReported(p: Pose, q: Pose)
    ensures SpawnCalls([[Holder([Marker("X", p)]), Holder([Marker("X", q)])]], "X") == [p, q]
  {
    var roots := [Holder([Marker("X", p)]), Holder([Marker("X", q)])];
    HolderOfMarker("X", p);
    HolderOfMarker("X", q);
    assert RootsCallsFrom(roots, 1, "X") == [q];
    assert RootsCallsFrom(roots, 0, "X") == [p, q];
  }

  /** A root that is itself the point ends the scan: later roots are not looked at. */
  lemma RootMatchEndsScene(p: Pose, q: Pose)
    ensures SpawnCalls([[Marker("X", p), Holder([Marker("X", q)])]], "X") == [p]
  {
    var roots := [Marker("X", p), Holder([Marker("X", q)])];
    assert RootMatches(roots[0], "X");
  }

  /** Once a scene has produced a call, the scenes loaded after it are not searched. */
  lemma LaterScenesSkipped(p: Pose, q: Pose)
    ensures SpawnCalls([[Holder([Marker("X", p)])], [Marker("X", q)]], "X") == [p]
  {
    var roots := [Holder([Marker("X", p)])];
    HolderOfMarker("X", p);
    assert RootsCallsFrom(roots, 1, "X") == [];
  }

  /**
   * The test scene: asking for `Bathroom`, placed at (0, 1, 0), moves there; asking for a name
   * the scene lacks moves to the origin.
   */
  lemma BathroomAndMissing(rotation: Quaternion)
    ensures var bathroom := Pose(Vector3(0.0, 1.0, 0.0), rotation);
      var scene := [Holder([Marker("Bathroom", bathroom)])];
      && SpawnCalls([scene], "Bathroom") == [bathroom]
      && SpawnCalls([scene], "Missing") == [Pose(Vector3(0.0, 0.0, 0.0), Identity)]
  {
    var bathroom := Pose(Vector3(0.0, 1.0, 0.0), rotation);
    var scene := [Holder([Marker("Bathroom", bathroom)])];
    HolderOfMarker("Bathroom", bathroom);
    assert RootsCallsFrom(scene, 1, "Bathroom") == [];
    var points := [SpawnPoint("Bathroom", bathroom)];
    assert !Matches(points[0], "Missing") by {
      assert "Bathroom"[0] != "Missing"[0];
    }
    assert points[1..] == [];
    assert ChildCall(points, "Missing") == [];
    assert RootsCallsFrom(scene, 1, "Missing") == [];
    assert ScenesCalls([scene], "Missing") == [] by {
      assert RootsCalls(scene, "Missing") == [];
      assert [scene][1..] == [];
    }
  }

  /**
   * An inactive object hides itself and everything below it from the hierarchy scan, but a
   * root's own point is found by `GetComponent` whether the root is active or not.
   */
  lemma InactiveObjects(p: Pose)
    ensures SpawnCalls([[GameObject(false, None, [Marker("X", p)])]], "X") == [Fallback]
    ensures SpawnCalls([[Holder([GameObject(false, Some(SpawnPoint("X", p)), [])])]], "X") == [Fallback]
    ensures SpawnCalls([[GameObject(false, Some(SpawnPoint("X", p)), [])]], "X") == [p]
  {
    var hidden := [GameObject(false, None, [Marker("X", p)])];
    assert GetComponentsInChildren(hidden[0]) == [];
    assert RootsCallsFrom(hidden, 1, "X") == [];
    assert RootsCalls(hidden, "X") == [];
    assert !RootMatches(hidden[0], "X");
    assert RootsCallsFrom(hidden, 0, "X") == ChildCall([], "X") + [];
    var hiddenScenes: seq<seq<GameObject>> := [hidden];
    assert hiddenScenes[1..] == [];
    assert ScenesCalls(hiddenScenes, "X") == [];
    var off := GameObject(false, Some(SpawnPoint("X", p)), []);
    var below := [Holder([off])];
    assert [off][1..] == [];
    assert ComponentsInForest([off]) == GetComponentsInChildren(off) + ComponentsInForest([]);
    assert GetComponentsInChildren(below[0]) == [];
    assert RootsCallsFrom(below, 1, "X") == [];
    assert RootsCalls(below, "X") == [];
    var belowScenes: seq<seq<GameObject>> := [below];
    assert belowScenes[1..] == [];
  }
}

/**
 * The part of a Unity scene that the spawn-point search sees: root game objects, their
 * children, and the spawn point (ISpawnPoint) a game object may carry.
 */
module SceneGraph {
  import opened Wrappers

  /** Poses are plain values; only the origin and the identity rotation are needed by name. */
  datatype Vector3 = Vector3(x: real, y: real, z: real)
  datatype Quaternion = Quaternion(x: real, y: real, z: real, w: real)

  /** `Vector3.zero`. */
  const Zero := Vector3(0.0, 0.0, 0.0)
  /** `Quaternion.identity`. */
  const Identity := Quaternion(0.0, 0.0, 0.0, 1.0)

  datatype Pose = Pose(position: Vector3, rotation: Quaternion)

  /** ISpawnPoint: a name unique within its scene by convention, and a world pose. */
  datatype SpawnPoint = SpawnPoint(name: string, pose: Pose)

  /** The name a SpawnPointScript carries unless it is set. */
  const DefaultSpawnPointName := "Default"

  /**
   * A game object: whether it is active itself (`activeSelf`), the spawn point
   * `GetComponent<ISpawnPoint>()` finds on it, if any, and its children.
   */
  datatype GameObject = GameObject(active: bool, spawnPoint: Option<SpawnPoint>, children: seq<GameObject>)

  /**
   * `GetComponentsInChildren<ISpawnPoint>()`, which leaves out inactive objects: the spawn points
   * of the object itself and of all its descendants, depth first, the object before its
   * children. An inactive object contributes nothing, and neither does anything below it.
   */
  function GetComponentsInChildren(g: GameObject): seq<SpawnPoint>
    decreases g, 1
  {
    if !g.active then []
    else (if g.spawnPoint.Some? then [g.spawnPoint.value] else []) + ComponentsInForest(g.children)
  }

  /** The spawn points of a list of sibling objects, each object's in turn. */
  function ComponentsInForest(gs: seq<GameObject>): seq<SpawnPoint>
    decreases gs, 0
  {
    if gs == [] then [] else GetComponentsInChildren(gs[0]) + ComponentsInForest(gs[1..])
  }
}

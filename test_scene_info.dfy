/** The fixed names and asset paths of the four test scenes. */
module TestSceneInfo {

  const A1Name := "__DO_NOT_BUILD__TEST_SCENE A-1"
  const A2Name := "__DO_NOT_BUILD__TEST_SCENE A-2"
  const B1Name := "__DO_NOT_BUILD__TEST_SCENE B-1"
  const B2Name := "__DO_NOT_BUILD__TEST_SCENE B-2"

  /**
   * `EH/Runtime/Scripts/Scene/Tests/Runtime/TestScenes/`, the folder under `Assets/`. It is
   * joined from its segments: the verifier does not look inside a string literal this long,
   * and the segments let it see that the folder has no newline and ends in a slash.
   */
  const TestScenesDirectory := "EH/" + "Runtime/" + "Scripts/" + "Scene/" + "Tests/" + "Runtime/" + "TestScenes/"

  const A1Path := "Assets/" + TestScenesDirectory + A1Name + ".unity"
  const A2Path := "Assets/" + TestScenesDirectory + A2Name + ".unity"
  const B1Path := "Assets/" + TestScenesDirectory + B1Name + ".unity"
  const B2Path := "Assets/" + TestScenesDirectory + B2Name + ".unity"
}

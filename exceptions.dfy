/** The exceptions the scene manager throws, one constructor per throw site. */
module Exceptions {

  /** The .NET exception classes that appear in the source. */
  datatype ExceptionType = ArgumentException | ArgumentOutOfRangeException | InvalidProgramException

  datatype Exception =
    | SceneNotInBuildSettings(sceneName: string)   // Loader.LoadSceneAsync: the name is not in the build settings
    | UnparsableScenePath(path: string)            // NativeSceneInfo: the path does not match the scene-path pattern
    | NegativeBuildIndex(buildIndex: int)          // NativeSceneInfo: buildIndex < 0
    | UnknownLoadSceneMode(mode: int)              // Loader: a LoadSceneMode value outside Single/Additive
    | DuplicateScenePath(path: string)             // Loader: two build-settings entries with the same path
    | LoadHandleNull(sceneName: string)            // Loader: the host gave no load operation
    | AddressNotResolved(sceneName: string)        // Loader: Addressables did not resolve the address
    | UnloadHandleNull(sceneName: string)          // Loader: the host gave no unload operation
    | UnloadUnusedAssetsNull                       // Loader: the host gave no unused-asset release operation
  {
    /** The class of the exception thrown at that site. */
    function Type(): ExceptionType {
      match this
      case SceneNotInBuildSettings(_) => ArgumentException
      case UnparsableScenePath(_) => ArgumentException
      case NegativeBuildIndex(_) => ArgumentOutOfRangeException
      case UnknownLoadSceneMode(_) => ArgumentOutOfRangeException
      case _ => InvalidProgramException
    }
  }
}

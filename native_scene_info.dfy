/**
 * NativeSceneInfo: one build-settings entry (build index, scene name, asset path). The name is
 * taken from the path by the pattern `^Assets/(.+/)*(.+)\.unity$`, matched ignoring case, and
 * two entries are equal when their paths are.
 */
module NativeSceneInfo {
  import opened Wrappers
  import opened Strings
  import opened Exceptions
  import opened TestSceneInfo

  datatype NativeSceneInfo = NativeSceneInfo(buildIndex: nat, name: string, path: string)

  const AssetsPrefix := "assets/"
  const UnityExtension := ".unity"

  /** `$` matches at the very end or just before one final newline. */
  function BeforeFinalNewline(path: string): (s: string)
    ensures s == path || s + "\n" == path
  {
    if |path| > 0 && path[|path| - 1] == '\n' then path[..|path| - 1] else path
  }

  /**
   * The text the pattern can match: `Assets/`, then `(.+/)*(.+)` (which together match any
   * non-empty run of characters other than a newline), then `.unity`; both literals ignore case.
   */
  predicate IsScenePath(path: string) {
    var s := BeforeFinalNewline(path);
    && |s| >= |AssetsPrefix| + 1 + |UnityExtension|
    && '\n' !in s
    && ToLower(s[..|AssetsPrefix|]) == AssetsPrefix
    && ToLower(s[|s| - |UnityExtension|..]) == UnityExtension
  }

  /** The part of a matching path between `Assets/` and `.unity`. */
  function Middle(path: string): (m: string)
    requires IsScenePath(path)
    ensures |m| >= 1
  {
    var s := BeforeFinalNewline(path);
    s[|AssetsPrefix|..|s| - |UnityExtension|]
  }

  /**
   * What `(.+/)*` can match at the front of the middle: nothing, or at least one character
   * followed by a slash (`.` also matches a slash, so several groups fold into one).
   */
  predicate IsDirectoryPart(d: string) {
    d == [] || (|d| >= 2 && d[|d| - 1] == '/')
  }

  /** The largest position `j' <= j` at which `m` splits into a directory part and the rest. */
  function SplitBefore(m: string, j: nat): (k: nat)
    requires j <= |m|
    ensures k <= j && IsDirectoryPart(m[..k])
    ensures forall i :: k < i <= j ==> !IsDirectoryPart(m[..i])
    decreases j
  {
    if j >= 2 && m[j - 1] == '/' then j
    else if j < 2 then 0
    else SplitBefore(m, j - 1)
  }

  /**
   * Group 2 of the match. The greedy `(.+/)*` takes the longest directory part that still
   * leaves `(.+)` at least one character, and `(.+)` takes the rest.
   */
  function FileName(m: string): (name: string)
    requires |m| >= 1
    ensures |name| >= 1
  {
    m[SplitBefore(m, |m| - 1)..]
  }

  /** `GetSceneNameFromPath`: the scene name, or ArgumentException when the path does not match. */
  function GetSceneNameFromPath(path: string): (r: Result<string, Exception>)
    ensures r.Success? <==> IsScenePath(path)
    ensures r.Failure? ==> r.error == UnparsableScenePath(path) && r.error.Type() == ArgumentException
  {
    if IsScenePath(path) then Success(FileName(Middle(path))) else Failure(UnparsableScenePath(path))
  }

  /**
   * The extracted name is the greedy split: the middle of the path is a directory part followed
   * by the name, and no longer directory part leaves a non-empty name.
   */
  lemma GreedyFileName(path: string)
    requires IsScenePath(path)
    ensures var m, name := Middle(path), GetSceneNameFromPath(path).value;
      && |name| >= 1
      && IsDirectoryPart(m[..|m| - |name|]) && m == m[..|m| - |name|] + name
      && forall i :: |m| - |name| < i < |m| ==> !IsDirectoryPart(m[..i])
  {
    var m := Middle(path);
    var k := SplitBefore(m, |m| - 1);
    assert m == m[..k] + m[k..];
  }

  /** The constructor: ArgumentOutOfRangeException for a negative index, else index, path and name. */
  function Create(buildIndex: int, path: string): (r: Result<NativeSceneInfo, Exception>)
    ensures buildIndex < 0 ==> r == Failure(NegativeBuildIndex(buildIndex))
    ensures buildIndex >= 0 ==> (r.Success? <==> IsScenePath(path))
    ensures buildIndex >= 0 && !IsScenePath(path) ==> r == Failure(UnparsableScenePath(path))
    ensures r.Success? ==>
      r.value.buildIndex == buildIndex && r.value.path == path && Success(r.value.name) == GetSceneNameFromPath(path)
  {
    if buildIndex < 0 then Failure(NegativeBuildIndex(buildIndex))
    else
      match GetSceneNameFromPath(path)
      case Success(name) => Success(NativeSceneInfo(buildIndex, name, path))
      case Failure(e) => Failure(e)
  }

  /** `Equals`: entries are equal when their paths are; index and name take no part. */
  predicate Equals(a: NativeSceneInfo, b: NativeSceneInfo) {
    a.path == b.path
  }

  /** `GetHashCode`: the path's hash; `stringHash` stands for `string.GetHashCode`. */
  function GetHashCode(a: NativeSceneInfo, stringHash: string -> int): int {
    stringHash(a.path)
  }

  predicate OpEquals(lhs: NativeSceneInfo, rhs: NativeSceneInfo) {
    Equals(lhs, rhs)
  }

  predicate OpNotEquals(lhs: NativeSceneInfo, rhs: NativeSceneInfo) {
    !OpEquals(lhs, rhs)
  }

  /**
   * Equality and hash look at the path only: two entries with the same path are equal and hash
   * alike whatever their index and name, and `==`/`!=` agree with `Equals`.
   */
  lemma EqualityByPathOnly(a: NativeSceneInfo, b: NativeSceneInfo, stringHash: string -> int)
    ensures Equals(a, b) <==> a.path == b.path
    ensures Equals(a, b) ==> GetHashCode(a, stringHash) == GetHashCode(b, stringHash)
    ensures OpEquals(a, b) == Equals(a, b) && OpNotEquals(a, b) == !Equals(a, b)
  {
  }

  /** A path built from the two literals around directories and a file name matches; its middle is both. */
  lemma ScenePathShape(assets: string, dirs: string, file: string, ext: string)
    requires ToLower(assets) == AssetsPrefix && ToLower(ext) == UnityExtension
    requires |file| >= 1 && '\n' !in dirs && '\n' !in file
    ensures GetSceneNameFromPath(assets + dirs + file + ext) == Success(FileName(dirs + file))
  {
    var path := assets + dirs + file + ext;
    var middle := dirs + file;
    assert path == assets + middle + ext;
    assert |assets| == 7 && |ext| == 6;
    assert path[|path| - 1] == ext[5];
    assert LowerChar(ext[5]) == 'y';
    assert BeforeFinalNewline(path) == path;
    assert path[..7] == assets && path[|path| - 6..] == ext;
    forall i | 0 <= i < |path| ensures path[i] != '\n' {
      if i < 7 {
        assert LowerChar(assets[i]) == AssetsPrefix[i];
      } else if i >= |path| - 6 {
        assert LowerChar(ext[i - (|path| - 6)]) == UnityExtension[i - (|path| - 6)];
      } else if i < 7 + |dirs| {
        assert path[i] == dirs[i - 7];
      } else {
        assert path[i] == file[i - 7 - |dirs|];
      }
    }
    assert path[7..|path| - 6] == middle;
  }

  /** The greedy split of a directory part followed by a file name without slashes is at the last slash. */
  lemma SplitAtDirectories(dirs: string, file: string)
    requires IsDirectoryPart(dirs) && |file| >= 1 && '/' !in file
    ensures FileName(dirs + file) == file
  {
    var m := dirs + file;
    var k := SplitBefore(m, |m| - 1);
    assert m[..|dirs|] == dirs;
    assert k == |dirs|;
    assert m[k..] == file;
  }

  /**
   * The usual shape of a scene path: `Assets/`, directories (each ending in a slash), a file name
   * without slashes, `.unity`; the two literals may be in any case. The name is the file name.
   */
  lemma NameOfScenePath(assets: string, dirs: string, file: string, ext: string)
    requires ToLower(assets) == AssetsPrefix && ToLower(ext) == UnityExtension
    requires IsDirectoryPart(dirs)
    requires |file| >= 1 && '/' !in file
    requires '\n' !in dirs && '\n' !in file
    ensures GetSceneNameFromPath(assets + dirs + file + ext) == Success(file)
  {
    ScenePathShape(assets, dirs, file, ext);
    SplitAtDirectories(dirs, file);
  }

  /** The literals as the source and the tests write them lower-case to the pattern's. */
  lemma SourceLiteralsLower()
    ensures ToLower("Assets/") == AssetsPrefix && ToLower(".unity") == UnityExtension
  {
  }

  /** The test data: `A1_path` yields `A1_name`, spaces and hyphens included. */
  lemma TestScenePathRoundTrip()
    ensures GetSceneNameFromPath(A1Path) == Success(A1Name)
  {
    SourceLiteralsLower();
    NameOfScenePath("Assets/", TestScenesDirectory, A1Name, ".unity");
  }

  /** A path outside `Assets/`, or without the `.unity` extension, is rejected with ArgumentException. */
  lemma NonScenePathsRejected()
    ensures GetSceneNameFromPath("Packages/Foo/Main.unity").Failure?
    ensures GetSceneNameFromPath("Assets/Foo/Main.prefab").Failure?
    ensures Create(0, "Assets/.unity") == Failure(UnparsableScenePath("Assets/.unity"))
  {
    var p := "Packages/Foo/Main.unity";
    assert ToLower(p[..7])[0] == 'p';
    var q := "Assets/Foo/Main.prefab";
    assert ToLower(q[|q| - 6..])[5] == 'b';
  }
}

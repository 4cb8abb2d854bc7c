/**
 * SceneBase: the descriptor of one loadable configuration ("scene"), an ordered list of
 * Unity scene names, with equality by concrete type only.
 */
module SceneBase {
  import opened Wrappers
  import opened TestSceneInfo

  /** The concrete class of a descriptor, standing for `System.Type` (its full name). */
  type TypeName = string

  /**
   * An instance of a concrete SceneBase subclass. `sceneNameList` is the abstract
   * `SceneNameList` property: the names are loaded front to back, so its order is the load order.
   * A C# `SceneBase?` is an `Option<Scene>` here.
   */
  datatype Scene = Scene(typeName: TypeName, sceneNameList: seq<string>)

  /**
   * `Equals(SceneBase? p)`: false for null; true for the same object or for an object of the
   * same concrete type (the same object always has the same type, so the reference test adds
   * nothing); false otherwise. The name lists take no part.
   */
  function Equals(self: Scene, p: Option<Scene>): (r: bool)
    ensures p.None? ==> !r
    ensures p == Some(self) ==> r
  {
    if p.None? then false
    else if p.value == self then true
    else p.value.typeName == self.typeName
  }

  /** `GetHashCode()`: the hash of the concrete type; `typeHash` stands for `Type.GetHashCode`. */
  function GetHashCode(self: Scene, typeHash: TypeName -> int): (h: int)
    ensures forall other: Scene :: other.typeName == self.typeName ==> h == typeHash(other.typeName)
  {
    typeHash(self.typeName)
  }

  /** `operator ==`: two nulls are equal, a null and a non-null are not, else `Equals`. */
  function OpEquals(lhs: Option<Scene>, rhs: Option<Scene>): (r: bool)
    ensures lhs.None? && rhs.None? ==> r
    ensures lhs.None? != rhs.None? ==> !r
  {
    if lhs.None? then rhs.None? else Equals(lhs.value, rhs)
  }

  /** `operator !=`: the negation of `==`. */
  predicate OpNotEquals(lhs: Option<Scene>, rhs: Option<Scene>) {
    !OpEquals(lhs, rhs)
  }

  /** Two instances of one concrete type are equal, whatever else they hold. */
  lemma SameTypeEqual(a: Scene, b: Scene)
    requires a.typeName == b.typeName
    ensures Equals(a, Some(b)) && OpEquals(Some(a), Some(b))
  {
  }

  /** Instances of different concrete types are unequal, even with identical name lists. */
  lemma DifferentTypeUnequal(a: Scene, b: Scene)
    requires a.typeName != b.typeName
    ensures !Equals(a, Some(b)) && OpNotEquals(Some(a), Some(b))
  {
  }

  /** `Equals` is symmetric and transitive, and equal descriptors hash alike. */
  lemma EqualsIsEquivalence(a: Scene, b: Scene, c: Scene, typeHash: TypeName -> int)
    ensures Equals(a, Some(b)) <==> Equals(b, Some(a))
    ensures Equals(a, Some(b)) && Equals(b, Some(c)) ==> Equals(a, Some(c))
    ensures Equals(a, Some(b)) ==> GetHashCode(a, typeHash) == GetHashCode(b, typeHash)
  {
  }

  /** `==` on nullable descriptors is `Equals` on the non-null side and `null == null`. */
  lemma OpEqualsMeansEqualsOrBothNull(lhs: Option<Scene>, rhs: Option<Scene>)
    ensures OpEquals(lhs, rhs) <==> (lhs.None? && rhs.None?) || (lhs.Some? && rhs.Some? && lhs.value.typeName == rhs.value.typeName)
  {
  }

  // The test descriptors: two classes named TestScene_A with the same names, in different scopes.
  const TestSceneA := Scene("Edanoue.EH.Scene.Tests.TestScene_A", [A1Name, A2Name])
  const TestSceneB := Scene("Edanoue.EH.Scene.Tests.TestScene_B", [B1Name, B2Name])
  const TestSceneForUnload := Scene("Edanoue.EH.Scene.Tests.TestScene_ForUnload", [])
  const ButtonTestSceneA := Scene("Edanoue.EH.Scene.Tests.SceneMoveButton+TestScene_A", [A1Name, A2Name])

  /** The nested `SceneMoveButton.TestScene_A` is not equal to `Tests.TestScene_A`. */
  lemma NestedTestSceneADiffers()
    ensures TestSceneA.sceneNameList == ButtonTestSceneA.sceneNameList
    ensures !Equals(TestSceneA, Some(ButtonTestSceneA))
  {
    DifferentTypeUnequal(TestSceneA, ButtonTestSceneA);
  }
}

/** Shared constants of the annotation tool. */
module Constants {
  import opened Types

  /** The rubric categories in display order. */
  const RubricCategories: seq<string> :=
    ["correctness", "efficiency", "reasoning", "robustness", "safety"]

  /**
   * The category names listed here are exactly the names a rubric item's
   * category can take, each once.
   */
  lemma CategoriesMatchRubricItems(c: RubricCategory, name: string)
    ensures CategoryName(c) in RubricCategories
    ensures name in RubricCategories <==> exists d: RubricCategory :: CategoryName(d) == name
    ensures |RubricCategories| == 5
    ensures forall i, j :: 0 <= i < j < 5 ==> RubricCategories[i] != RubricCategories[j]
  {
    if name in RubricCategories {
      var k :| 0 <= k < 5 && RubricCategories[k] == name;
      var d := [Correctness, Efficiency, Reasoning, Robustness, Safety][k];
      assert CategoryName(d) == name;
    }
  }
}

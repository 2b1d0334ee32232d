/**
 * The rubric panel: weighted trajectory score, number of scored items,
 * per-category means, score colours and the score buttons.
 */
module RubricPanel {
  import opened Wrappers
  import opened Types
  import JsMap
  import Constants
  import Numbers

  /** The rubric-score store: rubric item id to score data. */
  type Scores = JsMap.OrderedMap<RubricScoreData>

  /** `scores.get(id)?.score || 0`: a missing entry counts as 0. */
  function ScoreOf(scores: Scores, id: string): (s: int)
    ensures !JsMap.Has(scores, id) ==> s == 0
    ensures JsMap.Has(scores, id) ==> s == JsMap.Get(scores, id).value.score
  {
    match JsMap.Get(scores, id)
    case Some(d) => d.score
    case None => 0
  }

  /** The sum of all item weights. */
  function TotalWeight(rubric: seq<RubricItem>): real {
    if rubric == [] then 0.0 else rubric[0].weight + TotalWeight(rubric[1..])
  }

  /** The sum of score times weight over all items. */
  function WeightedSum(rubric: seq<RubricItem>, scores: Scores): real {
    if rubric == [] then 0.0
    else (ScoreOf(scores, rubric[0].id) as real) * rubric[0].weight + WeightedSum(rubric[1..], scores)
  }

  predicate WeightsNonNegative(rubric: seq<RubricItem>) {
    forall i :: 0 <= i < |rubric| ==> rubric[i].weight >= 0.0
  }

  /**
   * With non-negative weights the total weight is 0 exactly when every
   * weight is 0: the only case, then, in which the score falls back to 0.
   */
  lemma {:induction false} TotalWeightZero(rubric: seq<RubricItem>)
    requires WeightsNonNegative(rubric)
    ensures TotalWeight(rubric) >= 0.0
    ensures TotalWeight(rubric) == 0.0 <==> forall i :: 0 <= i < |rubric| ==> rubric[i].weight == 0.0
  {
    if rubric != [] {
      assert forall i :: 1 <= i < |rubric| ==> rubric[i] == rubric[1..][i - 1];
      TotalWeightZero(rubric[1..]);
    }
  }

  /** With no item scored, the weighted sum is 0, and so is the weighted score. */
  lemma {:induction false} WeightedSumUnscored(rubric: seq<RubricItem>, scores: Scores)
    requires forall i :: 0 <= i < |rubric| ==> !JsMap.Has(scores, rubric[i].id)
    ensures WeightedSum(rubric, scores) == 0.0
    ensures WeightedScore(rubric, scores) == 0.0
  {
    if rubric != [] {
      assert forall i :: 1 <= i < |rubric| ==> rubric[i] == rubric[1..][i - 1];
      WeightedSumUnscored(rubric[1..], scores);
    }
  }

  /** The panel's fold: each term is divided by the total weight as it is added. */
  function SumOfTerms(rubric: seq<RubricItem>, scores: Scores, totalWeight: real): real
    requires totalWeight != 0.0
  {
    if rubric == [] then 0.0
    else (ScoreOf(scores, rubric[0].id) as real) * rubric[0].weight / totalWeight
         + SumOfTerms(rubric[1..], scores, totalWeight)
  }

  lemma {:induction false} SumOfTermsIsNormalised(rubric: seq<RubricItem>, scores: Scores, w: real)
    requires w != 0.0
    ensures SumOfTerms(rubric, scores, w) == WeightedSum(rubric, scores) / w
  {
    if rubric != [] {
      SumOfTermsIsNormalised(rubric[1..], scores, w);
    }
  }

  /**
   * The weighted score: the weighted sum over the total weight, a missing
   * score counting as 0. A zero total weight (the empty rubric included)
   * gives 0, the value the panel falls back to when the division yields NaN.
   */
  function WeightedScore(rubric: seq<RubricItem>, scores: Scores): (r: real)
    ensures TotalWeight(rubric) == 0.0 ==> r == 0.0
    ensures rubric == [] ==> r == 0.0
    ensures TotalWeight(rubric) != 0.0 ==> r == WeightedSum(rubric, scores) / TotalWeight(rubric)
  {
    var totalWeight := TotalWeight(rubric);
    if totalWeight == 0.0 then 0.0
    else
      SumOfTermsIsNormalised(rubric, scores, totalWeight);
      SumOfTerms(rubric, scores, totalWeight)
  }

  /** The rubric with every weight multiplied by `c`. */
  function ScaleWeights(rubric: seq<RubricItem>, c: real): (r: seq<RubricItem>)
    ensures |r| == |rubric|
    ensures forall i :: 0 <= i < |rubric| ==> r[i] == rubric[i].(weight := c * rubric[i].weight)
  {
    if rubric == [] then [] else [rubric[0].(weight := c * rubric[0].weight)] + ScaleWeights(rubric[1..], c)
  }

  lemma {:induction false} ScaledTotal(rubric: seq<RubricItem>, c: real)
    ensures TotalWeight(ScaleWeights(rubric, c)) == c * TotalWeight(rubric)
  {
    if rubric != [] {
      ScaledTotal(rubric[1..], c);
      assert ScaleWeights(rubric, c)[1..] == ScaleWeights(rubric[1..], c);
    }
  }

  lemma {:induction false} ScaledWeightedSum(rubric: seq<RubricItem>, scores: Scores, c: real)
    ensures WeightedSum(ScaleWeights(rubric, c), scores) == c * WeightedSum(rubric, scores)
  {
    if rubric != [] {
      ScaledWeightedSum(rubric[1..], scores, c);
      var scaled := ScaleWeights(rubric, c);
      assert scaled[1..] == ScaleWeights(rubric[1..], c);
      var x := ScoreOf(scores, rubric[0].id) as real;
      assert scaled[0].id == rubric[0].id && scaled[0].weight == c * rubric[0].weight;
      assert x * (c * rubric[0].weight) == c * (x * rubric[0].weight);
    }
  }

  /** Multiplying every weight by the same positive constant leaves the score unchanged. */
  lemma WeightedScoreScaleInvariant(rubric: seq<RubricItem>, scores: Scores, c: real)
    requires c > 0.0
    ensures WeightedScore(ScaleWeights(rubric, c), scores) == WeightedScore(rubric, scores)
  {
    var scaled := ScaleWeights(rubric, c);
    var w, s := TotalWeight(rubric), WeightedSum(rubric, scores);
    var w', s' := TotalWeight(scaled), WeightedSum(scaled, scores);
    ScaledTotal(rubric, c);
    ScaledWeightedSum(rubric, scores, c);
    QuotientScaleInvariant(s, w, c, s', w');
    ScoreIsQuotient(rubric, scores, w, s);
    ScoreIsQuotient(scaled, scores, w', s');
  }

  /** The weighted score, and the panel's 0 for a zero total, as a function of the two sums. */
  function Quotient(s: real, w: real): real {
    if w == 0.0 then 0.0 else s / w
  }

  lemma ScoreIsQuotient(rubric: seq<RubricItem>, scores: Scores, w: real, s: real)
    requires TotalWeight(rubric) == w && WeightedSum(rubric, scores) == s
    ensures WeightedScore(rubric, scores) == Quotient(s, w)
  {
  }

  lemma QuotientScaleInvariant(s: real, w: real, c: real, s': real, w': real)
    requires c > 0.0 && s' == c * s && w' == c * w
    ensures Quotient(s', w') == Quotient(s, w)
  {
    if w != 0.0 {
      if w > 0.0 { assert c * w > 0.0; } else { assert c * w < 0.0; }
      var q := s / w;
      assert s == q * w;
      assert c * s == q * (c * w);
    }
  }

  lemma ProductBounds(s: real, w: real)
    requires 0.0 <= s <= 5.0 && w >= 0.0
    ensures 0.0 <= s * w <= 5.0 * w
  {
    assert (5.0 - s) * w >= 0.0;
  }

  /** Every item of the rubric has an effective score between 0 and 5. */
  predicate ScoresInScale(rubric: seq<RubricItem>, scores: Scores) {
    forall i :: 0 <= i < |rubric| ==> 0 <= ScoreOf(scores, rubric[i].id) <= 5
  }

  lemma {:induction false} WeightedSumBounds(rubric: seq<RubricItem>, scores: Scores)
    requires ScoresInScale(rubric, scores) && WeightsNonNegative(rubric)
    ensures 0.0 <= TotalWeight(rubric)
    ensures 0.0 <= WeightedSum(rubric, scores) <= 5.0 * TotalWeight(rubric)
  {
    if rubric != [] {
      WeightedSumBounds(rubric[1..], scores);
      var sc := ScoreOf(scores, rubric[0].id) as real;
      var p := sc * rubric[0].weight;
      assert 0 <= ScoreOf(scores, rubric[0].id) <= 5;
      assert rubric[0].weight >= 0.0;
      assert 0.0 <= sc <= 5.0;
      ProductBounds(sc, rubric[0].weight);
      assert sc * rubric[0].weight <= 5.0 * rubric[0].weight;
      assert WeightedSum(rubric, scores) == p + WeightedSum(rubric[1..], scores);
      assert TotalWeight(rubric) == rubric[0].weight + TotalWeight(rubric[1..]);
      assert p <= 5.0 * rubric[0].weight;
      assert WeightedSum(rubric[1..], scores) <= 5.0 * TotalWeight(rubric[1..]);
      assert 5.0 * TotalWeight(rubric) == 5.0 * rubric[0].weight + 5.0 * TotalWeight(rubric[1..]);
    }
  }

  /**
   * With non-negative weights and scores on the 0 to 5 scale, the weighted
   * score is itself on the 0 to 5 scale.
   */
  lemma WeightedScoreInScale(rubric: seq<RubricItem>, scores: Scores)
    requires ScoresInScale(rubric, scores) && WeightsNonNegative(rubric)
    ensures 0.0 <= WeightedScore(rubric, scores) <= 5.0
  {
    WeightedSumBounds(rubric, scores);
    var w := TotalWeight(rubric);
    var s := WeightedSum(rubric, scores);
    if w != 0.0 {
      Numbers.DivAtMost(s, w, 5.0);
      assert 0.0 <= s / w;
    }
  }

  /** The positions of the rubric items that have a stored score. */
  function ScoredPositions(rubric: seq<RubricItem>, scores: Scores): set<int> {
    set i | 0 <= i < |rubric| && JsMap.Has(scores, rubric[i].id)
  }

  /**
   * `rubric.filter(item => scores.has(item.id)).length`: the number of
   * positions of the rubric whose item id has a stored score.
   */
  function ScoredItems(rubric: seq<RubricItem>, scores: Scores): (n: nat)
    ensures n == |ScoredPositions(rubric, scores)|
    ensures n <= |rubric|
    ensures n == |rubric| <==> forall i :: 0 <= i < |rubric| ==> JsMap.Has(scores, rubric[i].id)
    ensures n == 0 <==> forall i :: 0 <= i < |rubric| ==> !JsMap.Has(scores, rubric[i].id)
  {
    if rubric == [] then 0
    else
      var k := |rubric| - 1;
      var init := rubric[..k];
      assert forall i :: 0 <= i < k ==> rubric[i] == init[i];
      assert ScoredPositions(rubric, scores)
          == ScoredPositions(init, scores) + (if JsMap.Has(scores, rubric[k].id) then {k} else {});
      ScoredItems(init, scores) + (if JsMap.Has(scores, rubric[k].id) then 1 else 0)
  }

  /** `rubric.filter(item => item.category === category)`. */
  function CategoryItems(rubric: seq<RubricItem>, category: string): (r: seq<RubricItem>)
    ensures |r| <= |rubric|
  {
    if rubric == [] then []
    else if CategoryName(rubric[0].category) == category then [rubric[0]] + CategoryItems(rubric[1..], category)
    else CategoryItems(rubric[1..], category)
  }

  lemma {:induction false} CategoryItemsMultiplicity(rubric: seq<RubricItem>, category: string)
    ensures forall item ::
              multiset(CategoryItems(rubric, category))[item] ==
              if CategoryName(item.category) == category then multiset(rubric)[item] else 0
  {
    if rubric != [] {
      CategoryItemsMultiplicity(rubric[1..], category);
      assert rubric == [rubric[0]] + rubric[1..];
    }
  }

  /**
   * A category's items are the rubric's items of that category, each as
   * often as it occurs in the rubric, so the category mean divides by the
   * number of such occurrences.
   */
  lemma CategoryItemsMembers(rubric: seq<RubricItem>, category: string)
    ensures forall item :: item in CategoryItems(rubric, category) <==>
      item in rubric && CategoryName(item.category) == category
    ensures forall item ::
              multiset(CategoryItems(rubric, category))[item] ==
              if CategoryName(item.category) == category then multiset(rubric)[item] else 0
  {
    CategoryItemsMultiplicity(rubric, category);
    var r := CategoryItems(rubric, category);
    forall item ensures item in r <==> item in rubric && CategoryName(item.category) == category {
      assert item in r <==> multiset(r)[item] > 0;
      assert item in rubric <==> multiset(rubric)[item] > 0;
    }
  }

  /** The filter keeps the rubric's order: filtering a concatenation concatenates the filtered parts. */
  lemma {:induction false} CategoryItemsAppend(a: seq<RubricItem>, b: seq<RubricItem>, category: string)
    ensures CategoryItems(a + b, category) == CategoryItems(a, category) + CategoryItems(b, category)
  {
    if a == [] {
      assert a + b == b;
    } else {
      assert (a + b)[0] == a[0];
      assert (a + b)[1..] == a[1..] + b;
      CategoryItemsAppend(a[1..], b, category);
    }
  }

  /** The sum of the effective scores of `items`. */
  function ScoreSum(items: seq<RubricItem>, scores: Scores): int {
    if items == [] then 0 else ScoreOf(scores, items[0].id) + ScoreSum(items[1..], scores)
  }

  /**
   * The footer mean of one category: the summed scores of its items (missing
   * ones as 0) over the number of its items; a category without items gives
   * 0, where the panel's 0 / 0 falls back to 0.
   */
  function CategoryScore(rubric: seq<RubricItem>, scores: Scores, category: string): (r: real)
    ensures var items := CategoryItems(rubric, category);
      if items == [] then r == 0.0 else r * (|items| as real) == ScoreSum(items, scores) as real
  {
    var items := CategoryItems(rubric, category);
    if |items| == 0 then 0.0 else Numbers.Mean(ScoreSum(items, scores) as real, |items|)
  }

  lemma {:induction false} ScoreSumBounds(items: seq<RubricItem>, scores: Scores)
    requires ScoresInScale(items, scores)
    ensures 0 <= ScoreSum(items, scores) <= 5 * |items|
  {
    if items != [] {
      ScoreSumBounds(items[1..], scores);
    }
  }

  /** With scores on the 0 to 5 scale, each category mean is on that scale too. */
  lemma CategoryScoreInScale(rubric: seq<RubricItem>, scores: Scores, category: string)
    requires ScoresInScale(rubric, scores)
    ensures 0.0 <= CategoryScore(rubric, scores, category) <= 5.0
  {
    var items := CategoryItems(rubric, category);
    forall i | 0 <= i < |items| ensures 0 <= ScoreOf(scores, items[i].id) <= 5 {
      assert items[i] in rubric by {
        assert items[i] in items;
        CategoryItemsMembers(rubric, category);
      }
      var k :| 0 <= k < |rubric| && rubric[k] == items[i];
    }
    ScoreSumBounds(items, scores);
    if |items| != 0 {
      Numbers.DivAtMost(ScoreSum(items, scores) as real, |items| as real, 5.0);
    }
  }

  /** The footer: one mean per category, in the fixed category order. */
  function CategoryRollup(rubric: seq<RubricItem>, scores: Scores): (r: seq<real>)
    ensures |r| == |Constants.RubricCategories|
    ensures forall i :: 0 <= i < |r| ==> r[i] == CategoryScore(rubric, scores, Constants.RubricCategories[i])
  {
    seq(|Constants.RubricCategories|, i requires 0 <= i < |Constants.RubricCategories| =>
      CategoryScore(rubric, scores, Constants.RubricCategories[i]))
  }

  datatype ScoreColour = Emerald | Amber | Orange | Rose

  /** The text colour of a score: 4 and up emerald, 3 amber, 2 orange, below rose. */
  function ScoreColor(score: real): (c: ScoreColour)
    ensures c == Emerald <==> score >= 4.0
    ensures c == Amber <==> 3.0 <= score < 4.0
    ensures c == Orange <==> 2.0 <= score < 3.0
    ensures c == Rose <==> score < 2.0
  {
    if score >= 4.0 then Emerald
    else if score >= 3.0 then Amber
    else if score >= 2.0 then Orange
    else Rose
  }

  function ColourRank(c: ScoreColour): nat {
    match c
    case Rose => 0
    case Orange => 1
    case Amber => 2
    case Emerald => 3
  }

  /** A higher score never gets a worse colour. */
  lemma ScoreColorMonotone(a: real, b: real)
    requires a <= b
    ensures ColourRank(ScoreColor(a)) <= ColourRank(ScoreColor(b))
  {
  }

  /** The first guideline with the given score, if any. */
  function GuidelineFor(guidelines: seq<ScoringGuideline>, score: int): (r: Option<ScoringGuideline>)
    ensures r.None? <==> forall i :: 0 <= i < |guidelines| ==> guidelines[i].score != score
    ensures r.Some? ==> r.value.score == score
    ensures r.Some? ==>
      exists k :: (0 <= k < |guidelines| && guidelines[k] == r.value &&
                   forall i :: 0 <= i < k ==> guidelines[i].score != score)
  {
    if guidelines == [] then None
    else if guidelines[0].score == score then Some(guidelines[0])
    else
      var r := GuidelineFor(guidelines[1..], score);
      if r.Some? then
        var k :| 0 <= k < |guidelines[1..]| && guidelines[1..][k] == r.value &&
          (forall i :: 0 <= i < k ==> guidelines[1..][i].score != score);
        assert guidelines[k + 1] == r.value;
        assert forall i :: 0 <= i < k + 1 ==> guidelines[i].score != score by {
          forall i | 0 <= i < k + 1 ensures guidelines[i].score != score {
            if i > 0 { assert guidelines[i] == guidelines[1..][i - 1]; }
          }
        }
        r
      else
        assert forall i :: 1 <= i < |guidelines| ==> guidelines[i] == guidelines[1..][i - 1];
        r
  }

  /** What pressing a score button hands to the page. */
  datatype ScoreEmission = ScoreEmission(rubricItemId: string, score: int, justification: string)

  /** `guideline?.description || ''`. */
  function Justification(item: RubricItem, score: int): string {
    match GuidelineFor(item.scoringGuidelines, score)
    case Some(g) => g.description
    case None => ""
  }

  /**
   * The five score buttons of an item: they emit the scores 1 to 5 for that
   * item, each with the description of the first guideline for that score,
   * or the empty text when there is none.
   */
  function ScoreButtons(item: RubricItem): (r: seq<ScoreEmission>)
    ensures |r| == 5
    ensures forall i :: 0 <= i < 5 ==> r[i].rubricItemId == item.id && r[i].score == i + 1
    ensures forall i :: 0 <= i < 5 ==> 1 <= r[i].score <= 5
    ensures forall i :: 0 <= i < 5 ==>
      (r[i].justification == "" <== forall g :: g in item.scoringGuidelines ==> g.score != i + 1)
    ensures forall i :: 0 <= i < 5 ==>
      r[i].justification == match GuidelineFor(item.scoringGuidelines, i + 1)
                             case Some(g) => g.description
                             case None => ""
  {
    seq(5, i requires 0 <= i < 5 => ScoreEmission(item.id, i + 1, Justification(item, i + 1)))
  }

  /** A button is highlighted when its score is the item's effective score. */
  predicate IsSelected(scores: Scores, item: RubricItem, score: int) {
    ScoreOf(scores, item.id) == score
  }

  /** At most one button of an item is highlighted, and none for an unscored item. */
  lemma SelectionIsExclusive(scores: Scores, item: RubricItem)
    ensures forall b, c ::
      (b in ScoreButtons(item) && c in ScoreButtons(item) &&
       IsSelected(scores, item, b.score) && IsSelected(scores, item, c.score)) ==> b == c
    ensures !JsMap.Has(scores, item.id) ==> forall b :: b in ScoreButtons(item) ==> !IsSelected(scores, item, b.score)
  {
  }
}

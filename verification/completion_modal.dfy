/**
 * The statistics shown when the annotation is complete: average step rating,
 * flag counts and average rubric score, folded over the stores' values in
 * insertion order.
 */
module CompletionModal {
  import opened Types
  import JsMap
  import Numbers
  import StepTimeline

  /** The modal's own copy of the issue-flag list. */
  const IssueFlags: seq<AnnotationFlag> :=
    [SuboptimalAction, UnnecessaryStep, IncorrectReasoning, Hallucination, WrongElement, SafetyConcern]

  /** The modal counts exactly the flags the step list classifies as issues. */
  lemma IssueListMatchesTimeline()
    ensures IssueFlags == StepTimeline.IssueFlags
  {
  }

  function RatingSum(annotations: seq<StepAnnotation>): int {
    if annotations == [] then 0 else annotations[0].rating + RatingSum(annotations[1..])
  }

  /**
   * The average overall rating of the stored annotations, unrated (0)
   * entries included; 0 when nothing is stored.
   */
  function AvgRating(stepAnnotations: JsMap.OrderedMap<StepAnnotation>): (r: real)
    ensures JsMap.Size(stepAnnotations) == 0 ==> r == 0.0
    ensures JsMap.Size(stepAnnotations) > 0 ==>
      r * (JsMap.Size(stepAnnotations) as real) == RatingSum(JsMap.Values(stepAnnotations)) as real
  {
    var annotations := JsMap.Values(stepAnnotations);
    if |annotations| > 0 then Numbers.Mean(RatingSum(annotations) as real, |annotations|) else 0.0
  }

  /** The positions of `flags` that hold an issue flag. */
  function IssuePositions(flags: seq<AnnotationFlag>): set<int> {
    set i | 0 <= i < |flags| && flags[i] in IssueFlags
  }

  /**
   * `flags.filter(f => issueFlags.includes(f)).length`: the number of
   * positions of `flags` that hold an issue flag.
   */
  function IssueCount(flags: seq<AnnotationFlag>): (n: nat)
    ensures n == |IssuePositions(flags)|
    ensures n <= |flags|
    ensures n == 0 <==> forall i :: 0 <= i < |flags| ==> flags[i] !in IssueFlags
  {
    if flags == [] then 0
    else
      var k := |flags| - 1;
      var init := flags[..k];
      assert forall i :: 0 <= i < k ==> flags[i] == init[i];
      assert IssuePositions(flags) == IssuePositions(init) + (if flags[k] in IssueFlags then {k} else {});
      IssueCount(init) + (if flags[k] in IssueFlags then 1 else 0)
  }

  /** The number of flags in `flags` that are not on the issue list. */
  function NonIssueCount(flags: seq<AnnotationFlag>): nat {
    if flags == [] then 0
    else NonIssueCount(flags[..|flags| - 1]) + (if flags[|flags| - 1] in IssueFlags then 0 else 1)
  }

  /** Counting issue flags distributes over concatenation. */
  lemma {:induction false} IssueCountAppend(a: seq<AnnotationFlag>, b: seq<AnnotationFlag>)
    ensures IssueCount(a + b) == IssueCount(a) + IssueCount(b)
  {
    if b == [] {
      assert a + b == a;
    } else {
      var ab, init, last := a + b, b[..|b| - 1], b[|b| - 1];
      assert ab[..|ab| - 1] == a + init;
      assert ab[|ab| - 1] == last;
      var d := if last in IssueFlags then 1 else 0;
      assert IssueCount(ab) == IssueCount(a + init) + d;
      assert IssueCount(b) == IssueCount(init) + d;
      IssueCountAppend(a, init);
    }
  }

  /** Every flag of every annotation, in order. */
  function AllFlags(annotations: seq<StepAnnotation>): seq<AnnotationFlag> {
    if annotations == [] then [] else annotations[0].flags + AllFlags(annotations[1..])
  }

  /** `annotations.reduce((sum, a) => sum + a.flags.length, 0)`: the number of all flags. */
  function TotalFlags(annotations: seq<StepAnnotation>): (n: nat)
    ensures n == |AllFlags(annotations)|
  {
    if annotations == [] then 0 else |annotations[0].flags| + TotalFlags(annotations[1..])
  }

  /** The number of issue flags over all annotations: the issue flags among all the flags. */
  function IssuesFound(annotations: seq<StepAnnotation>): (n: nat)
    ensures n == IssueCount(AllFlags(annotations))
    ensures n <= TotalFlags(annotations)
  {
    if annotations == [] then 0
    else
      IssueCountAppend(annotations[0].flags, AllFlags(annotations[1..]));
      IssueCount(annotations[0].flags) + IssuesFound(annotations[1..])
  }

  lemma {:induction false} IssueSplit(flags: seq<AnnotationFlag>)
    ensures IssueCount(flags) + NonIssueCount(flags) == |flags|
  {
    if flags != [] {
      IssueSplit(flags[..|flags| - 1]);
    }
  }

  /** The "positives noted" figure: the flags, among all of them, that are not issue flags. */
  function Positives(annotations: seq<StepAnnotation>): (n: nat)
    ensures n == NonIssueCount(AllFlags(annotations))
  {
    IssueSplit(AllFlags(annotations));
    TotalFlags(annotations) - IssuesFound(annotations)
  }

  function NonIssueFlags(annotations: seq<StepAnnotation>): nat {
    if annotations == [] then 0 else NonIssueCount(annotations[0].flags) + NonIssueFlags(annotations[1..])
  }

  /**
   * "Positives" counts every non-issue flag, so the neutral flags
   * (loop_detected, missed_opportunity, premature_action) count as positives.
   */
  lemma {:induction false} PositivesAreNonIssueFlags(annotations: seq<StepAnnotation>)
    ensures Positives(annotations) == NonIssueFlags(annotations)
  {
    if annotations != [] {
      PositivesAreNonIssueFlags(annotations[1..]);
      IssueSplit(annotations[0].flags);
    }
  }

  /** A single loop_detected flag is reported as one positive and no issue. */
  lemma LoopDetectedCountsAsPositive(a: StepAnnotation)
    requires a.flags == [LoopDetected]
    ensures IssuesFound([a]) == 0 && Positives([a]) == 1
  {
  }

  function ScoreSum(scores: seq<RubricScoreData>): int {
    if scores == [] then 0 else scores[0].score + ScoreSum(scores[1..])
  }

  /** The average of all stored rubric scores; 0 when nothing is stored. */
  function AvgRubricScore(rubricScores: JsMap.OrderedMap<RubricScoreData>): (r: real)
    ensures JsMap.Size(rubricScores) == 0 ==> r == 0.0
    ensures JsMap.Size(rubricScores) > 0 ==>
      r * (JsMap.Size(rubricScores) as real) == ScoreSum(JsMap.Values(rubricScores)) as real
  {
    var scores := JsMap.Values(rubricScores);
    if |scores| > 0 then Numbers.Mean(ScoreSum(scores) as real, |scores|) else 0.0
  }

  /** The four figures of the modal, over the stores' values in insertion order. */
  datatype Stats = Stats(avgRating: real, avgRubricScore: real, issuesFound: nat, positives: nat)

  function CompletionStats(stepAnnotations: JsMap.OrderedMap<StepAnnotation>,
                           rubricScores: JsMap.OrderedMap<RubricScoreData>): (s: Stats)
    ensures s.issuesFound + s.positives == TotalFlags(JsMap.Values(stepAnnotations))
  {
    var annotations := JsMap.Values(stepAnnotations);
    Stats(AvgRating(stepAnnotations), AvgRubricScore(rubricScores),
          IssuesFound(annotations), Positives(annotations))
  }
}

/**
 * The step list: per-step status classification, the "completed" counter and
 * the colour of the first-flag chip.
 */
module StepTimeline {
  import opened Wrappers
  import opened Types
  import JsMap

  /** Flags that mark a step as problematic. */
  const IssueFlags: seq<AnnotationFlag> :=
    [SuboptimalAction, UnnecessaryStep, IncorrectReasoning, Hallucination, WrongElement, SafetyConcern]

  /** Flags that mark a step as good. */
  const PositiveFlags: seq<AnnotationFlag> :=
    [ExcellentReasoning, CreativeSolution, RecoverySuccess]

  /** `flags.some(f => list.includes(f))`. */
  predicate HasAnyOf(flags: seq<AnnotationFlag>, list: seq<AnnotationFlag>) {
    exists i :: 0 <= i < |flags| && flags[i] in list
  }

  datatype Status = Pending | Issue | Good | Okay

  /**
   * The status dot of a step. Precedence: no annotation is pending; any issue
   * flag gives issue; otherwise any positive flag gives good; otherwise the
   * overall rating decides (4 and up good, 1 to 3 okay, 0 or less pending).
   */
  function AnnotationStatus(annotation: Option<StepAnnotation>): (r: Status)
    ensures annotation.None? ==> r == Pending
    ensures r == Issue <==> annotation.Some? && HasAnyOf(annotation.value.flags, IssueFlags)
    ensures r == Good <==>
      annotation.Some? && !HasAnyOf(annotation.value.flags, IssueFlags) &&
      (HasAnyOf(annotation.value.flags, PositiveFlags) || annotation.value.rating >= 4)
    ensures r == Okay <==>
      annotation.Some? && !HasAnyOf(annotation.value.flags, IssueFlags) &&
      !HasAnyOf(annotation.value.flags, PositiveFlags) && 1 <= annotation.value.rating <= 3
    ensures r == Pending <==>
      annotation.None? ||
      (!HasAnyOf(annotation.value.flags, IssueFlags) &&
       !HasAnyOf(annotation.value.flags, PositiveFlags) && annotation.value.rating <= 0)
  {
    match annotation
    case None => Pending
    case Some(a) =>
      var hasIssueFlag := HasAnyOf(a.flags, IssueFlags);
      var hasPositiveFlag := HasAnyOf(a.flags, PositiveFlags);
      if hasIssueFlag then Issue
      else if hasPositiveFlag then Good
      else if a.rating >= 4 then Good
      else if a.rating >= 3 then Okay
      else if a.rating > 0 then Okay
      else Pending
  }

  /** The flags that neither list classifies. */
  predicate IsNeutral(f: AnnotationFlag) {
    f !in IssueFlags && f !in PositiveFlags
  }

  /**
   * The two lists are disjoint, and the flags outside both are exactly
   * missed_opportunity, loop_detected and premature_action.
   */
  lemma NeutralFlagsAreThree(f: AnnotationFlag)
    ensures !(f in IssueFlags && f in PositiveFlags)
    ensures IsNeutral(f) <==> f in [MissedOpportunity, LoopDetected, PrematureAction]
  {
  }

  /**
   * The twelve flags fall into three groups: every flag is in exactly one
   * of the issue list, the positive list and the three neutral flags.
   */
  lemma FlagPartition(f: AnnotationFlag)
    ensures (if f in IssueFlags then 1 else 0) + (if f in PositiveFlags then 1 else 0)
            + (if f in [MissedOpportunity, LoopDetected, PrematureAction] then 1 else 0) == 1
  {
  }

  /**
   * The status only sees the rating and which classified flags are present:
   * neutral flags, duplicates and order never change it.
   */
  lemma {:induction false} StatusIgnoresNeutralFlags(a: StepAnnotation, b: StepAnnotation)
    requires a.rating == b.rating
    requires forall f :: !IsNeutral(f) ==> (f in a.flags <==> f in b.flags)
    ensures AnnotationStatus(Some(a)) == AnnotationStatus(Some(b))
  {
    HasAnyOfIsMembership(a.flags, IssueFlags);
    HasAnyOfIsMembership(b.flags, IssueFlags);
    HasAnyOfIsMembership(a.flags, PositiveFlags);
    HasAnyOfIsMembership(b.flags, PositiveFlags);
  }

  lemma HasAnyOfIsMembership(flags: seq<AnnotationFlag>, list: seq<AnnotationFlag>)
    ensures HasAnyOf(flags, list) <==> exists f :: f in flags && f in list
  {
    if exists f :: f in flags && f in list {
      var f :| f in flags && f in list;
      var i :| 0 <= i < |flags| && flags[i] == f;
    }
  }

  /** An issue flag decides the status whatever else the annotation holds. */
  lemma IssueFlagDominates(a: StepAnnotation, f: AnnotationFlag)
    requires f in IssueFlags && f in a.flags
    ensures AnnotationStatus(Some(a)) == Issue
  {
    var i :| 0 <= i < |a.flags| && a.flags[i] == f;
  }

  /** The "completed" counter of the step list: the number of stored annotations. */
  function CompletedSteps(stepAnnotations: JsMap.OrderedMap<StepAnnotation>): (n: nat)
    ensures JsMap.DistinctKeys(stepAnnotations) ==> n == |JsMap.Keys(stepAnnotations)|
  {
    if JsMap.DistinctKeys(stepAnnotations) then
      JsMap.SizeIsKeyCount(stepAnnotations);
      JsMap.Size(stepAnnotations)
    else
      JsMap.Size(stepAnnotations)
  }

  /**
   * Storing an unrated, unflagged annotation for a new step raises the
   * "completed" counter although the step stays pending.
   */
  lemma CompletedCountsUnratedEntries(m: JsMap.OrderedMap<StepAnnotation>, a: StepAnnotation)
    requires !JsMap.Has(m, a.stepId) && a.rating == 0 && a.flags == []
    ensures CompletedSteps(JsMap.Set(m, a.stepId, a)) == CompletedSteps(m) + 1
    ensures AnnotationStatus(JsMap.Get(JsMap.Set(m, a.stepId, a), a.stepId)) == Pending
  {
  }

  datatype ChipColour = RoseChip | EmeraldChip

  /**
   * The chip showing an annotation's first flag: absent when there are no
   * flags, rose when the first flag is an issue flag, emerald otherwise.
   */
  function FirstFlagChip(flags: seq<AnnotationFlag>): (r: Option<ChipColour>)
    ensures r.None? <==> flags == []
    ensures r == Some(RoseChip) <==> flags != [] && flags[0] in IssueFlags
  {
    if |flags| > 0 then Some(if flags[0] in IssueFlags then RoseChip else EmeraldChip)
    else None
  }

  /**
   * A rose chip implies an issue status, but not conversely: an issue flag
   * behind a positive one shows an emerald chip on an issue step, and a
   * neutral first flag is shown emerald too.
   */
  lemma ChipAgainstStatus(a: StepAnnotation)
    ensures FirstFlagChip(a.flags) == Some(RoseChip) ==> AnnotationStatus(Some(a)) == Issue
    ensures var b := a.(flags := [RecoverySuccess, Hallucination]);
      FirstFlagChip(b.flags) == Some(EmeraldChip) && AnnotationStatus(Some(b)) == Issue
    ensures var c := a.(flags := [LoopDetected], rating := 0);
      FirstFlagChip(c.flags) == Some(EmeraldChip) && AnnotationStatus(Some(c)) == Pending
  {
    var b := a.(flags := [RecoverySuccess, Hallucination]);
    assert b.flags[1] in IssueFlags;
    if FirstFlagChip(a.flags) == Some(RoseChip) {
      assert a.flags[0] in IssueFlags;
    }
  }
}

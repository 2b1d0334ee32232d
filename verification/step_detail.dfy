/**
 * The step editor: the default record for an unannotated step, the merge of a
 * partial update into the local record, and the flag toggle.
 */
module StepDetail {
  import opened Wrappers
  import opened Types
  import StepTimeline

  /** The issue-flag buttons with their labels, in display order. */
  const IssueFlagButtons: seq<(AnnotationFlag, string)> :=
    [(SuboptimalAction, "Suboptimal"), (UnnecessaryStep, "Unnecessary"),
     (IncorrectReasoning, "Bad Reasoning"), (Hallucination, "Hallucination"),
     (WrongElement, "Wrong Element"), (SafetyConcern, "Safety Issue")]

  /** The positive-flag buttons with their labels, in display order. */
  const PositiveFlagButtons: seq<(AnnotationFlag, string)> :=
    [(ExcellentReasoning, "Great Reasoning"), (CreativeSolution, "Creative"),
     (RecoverySuccess, "Good Recovery")]

  /** The values the star buttons emit. */
  const StarValues: seq<int> := [1, 2, 3, 4, 5]

  function ButtonFlags(buttons: seq<(AnnotationFlag, string)>): (fs: seq<AnnotationFlag>)
    ensures |fs| == |buttons| && forall i :: 0 <= i < |buttons| ==> fs[i] == buttons[i].0
  {
    if buttons == [] then [] else [buttons[0].0] + ButtonFlags(buttons[1..])
  }

  /**
   * The editor offers exactly the step list's issue and positive flags, in
   * the same order; the two groups are disjoint, so a neutral flag has no
   * button; and the stars emit only 1 to 5.
   */
  lemma ButtonsMatchTimeline()
    ensures ButtonFlags(IssueFlagButtons) == StepTimeline.IssueFlags
    ensures ButtonFlags(PositiveFlagButtons) == StepTimeline.PositiveFlags
    ensures forall f :: f in ButtonFlags(IssueFlagButtons) ==> f !in ButtonFlags(PositiveFlagButtons)
    ensures forall s :: s in StarValues ==> 1 <= s <= 5
  {
    var issue, positive := ButtonFlags(IssueFlagButtons), ButtonFlags(PositiveFlagButtons);
    assert issue == StepTimeline.IssueFlags by {
      assert |issue| == 6 && forall i :: 0 <= i < 6 ==> issue[i] == IssueFlagButtons[i].0;
    }
    assert positive == StepTimeline.PositiveFlags by {
      assert |positive| == 3 && forall i :: 0 <= i < 3 ==> positive[i] == PositiveFlagButtons[i].0;
    }
    forall f | f in issue
      ensures f !in positive
    {
      StepTimeline.NeutralFlagsAreThree(f);
    }
  }

  /** The record an unannotated step starts from. */
  function DefaultAnnotation(stepId: string): (a: StepAnnotation)
    ensures a.stepId == stepId && a.rating == 0 && a.reasoningQuality == 0 && a.actionQuality == 0
    ensures a.reasoning == "" && a.flags == [] && a.notes.None? && a.annotationDurationMs.None?
    ensures StepTimeline.AnnotationStatus(Some(a)) == StepTimeline.Pending
  {
    StepAnnotation(stepId, 0, 0, 0, "", [], None, None)
  }

  /** The local record: the stored annotation, or the default one. */
  function InitialAnnotation(step: AgentStep, annotation: Option<StepAnnotation>): (a: StepAnnotation)
    ensures annotation.Some? ==> a == annotation.value
    ensures annotation.None? ==> a == DefaultAnnotation(step.id)
  {
    annotation.GetOr(DefaultAnnotation(step.id))
  }

  /**
   * A partial record: each field is either given (Some) or left out. The
   * optional fields take an Option of an Option, so that an update can also
   * set them to undefined.
   */
  datatype AnnotationUpdate = AnnotationUpdate(
    stepId: Option<string>,
    rating: Option<int>,
    reasoningQuality: Option<int>,
    actionQuality: Option<int>,
    reasoning: Option<string>,
    flags: Option<seq<AnnotationFlag>>,
    notes: Option<Option<string>>,
    annotationDurationMs: Option<Option<int>>)

  const NoUpdate := AnnotationUpdate(None, None, None, None, None, None, None, None)

  /**
   * `{ ...local, ...updates, stepId }`: every field given in the update
   * replaces the local one, every other field is kept, and the step id is
   * always the editor's, whatever the update says.
   */
  function Merge(local: StepAnnotation, updates: AnnotationUpdate, stepId: string): (r: StepAnnotation)
    ensures r.stepId == stepId
    ensures r.rating == (if updates.rating.Some? then updates.rating.value else local.rating)
    ensures r.reasoningQuality == (if updates.reasoningQuality.Some? then updates.reasoningQuality.value else local.reasoningQuality)
    ensures r.actionQuality == (if updates.actionQuality.Some? then updates.actionQuality.value else local.actionQuality)
    ensures r.reasoning == (if updates.reasoning.Some? then updates.reasoning.value else local.reasoning)
    ensures r.flags == (if updates.flags.Some? then updates.flags.value else local.flags)
    ensures r.notes == (if updates.notes.Some? then updates.notes.value else local.notes)
    ensures r.annotationDurationMs == (if updates.annotationDurationMs.Some? then updates.annotationDurationMs.value else local.annotationDurationMs)
  {
    StepAnnotation(
      stepId,
      updates.rating.GetOr(local.rating),
      updates.reasoningQuality.GetOr(local.reasoningQuality),
      updates.actionQuality.GetOr(local.actionQuality),
      updates.reasoning.GetOr(local.reasoning),
      updates.flags.GetOr(local.flags),
      updates.notes.GetOr(local.notes),
      updates.annotationDurationMs.GetOr(local.annotationDurationMs))
  }

  /**
   * An empty update only re-stamps the step id; applying the same update
   * twice is the same as applying it once.
   */
  lemma MergeLaws(local: StepAnnotation, updates: AnnotationUpdate, stepId: string)
    ensures Merge(local, NoUpdate, stepId) == local.(stepId := stepId)
    ensures Merge(Merge(local, updates, stepId), updates, stepId) == Merge(local, updates, stepId)
  {
  }

  /** `s` can be obtained from `t` by deleting elements: the order of `s` is kept in `t`. */
  predicate IsSubsequence<T(==)>(s: seq<T>, t: seq<T>)
    decreases |t|
  {
    if s == [] then true
    else if t == [] then false
    else if s[0] == t[0] then IsSubsequence(s[1..], t[1..])
    else IsSubsequence(s, t[1..])
  }

  /** `flags.filter(f => f !== flag)`. */
  function Without(flags: seq<AnnotationFlag>, flag: AnnotationFlag): (r: seq<AnnotationFlag>)
    ensures flag !in r
    ensures forall g :: g != flag ==> multiset(r)[g] == multiset(flags)[g]
    ensures IsSubsequence(r, flags)
    ensures flag !in flags ==> r == flags
  {
    if flags == [] then []
    else
      assert flags == [flags[0]] + flags[1..];
      if flags[0] == flag then Without(flags[1..], flag)
      else [flags[0]] + Without(flags[1..], flag)
  }

  /**
   * The flag list after a toggle: a present flag loses every occurrence, the
   * other flags keeping their order; an absent flag is appended at the end.
   */
  function ToggledFlags(flags: seq<AnnotationFlag>, flag: AnnotationFlag): (r: seq<AnnotationFlag>)
    ensures flag in r <==> flag !in flags
    ensures forall g :: g != flag ==> multiset(r)[g] == multiset(flags)[g]
    ensures flag in flags ==> IsSubsequence(r, flags)
    ensures flag !in flags ==> |r| == |flags| + 1 && r[..|flags|] == flags && r[|flags|] == flag
  {
    if flag in flags then Without(flags, flag) else flags + [flag]
  }

  /** Toggling an absent flag twice restores the list. */
  lemma ToggleTwiceRestores(flags: seq<AnnotationFlag>, flag: AnnotationFlag)
    requires flag !in flags
    ensures ToggledFlags(ToggledFlags(flags, flag), flag) == flags
  {
    WithoutAppended(flags, flag);
  }

  /**
   * Toggling a present flag twice does not restore the list in general: the
   * flag comes back once, at the end.
   */
  lemma ToggleTwicePresent(flags: seq<AnnotationFlag>, flag: AnnotationFlag)
    requires flag in flags
    ensures ToggledFlags(ToggledFlags(flags, flag), flag) == Without(flags, flag) + [flag]
    ensures ToggledFlags(ToggledFlags([flag, LoopDetected], flag), flag) != [flag, LoopDetected] <== flag != LoopDetected
  {
    if flag != LoopDetected {
      assert Without([flag, LoopDetected], flag) == [LoopDetected] by {
        assert [flag, LoopDetected][1..] == [LoopDetected];
      }
    }
  }

  lemma {:induction false} WithoutAppended(flags: seq<AnnotationFlag>, flag: AnnotationFlag)
    requires flag !in flags
    ensures Without(flags + [flag], flag) == flags
  {
    if flags == [] {
      assert [flag][1..] == [];
    } else {
      assert (flags + [flag])[1..] == flags[1..] + [flag];
      WithoutAppended(flags[1..], flag);
    }
  }

  /** Toggling a flag that neither list classifies never changes the status. */
  lemma ToggleNeutralKeepsStatus(a: StepAnnotation, flag: AnnotationFlag)
    requires StepTimeline.IsNeutral(flag)
    ensures StepTimeline.AnnotationStatus(Some(a.(flags := ToggledFlags(a.flags, flag))))
         == StepTimeline.AnnotationStatus(Some(a))
  {
    var b := a.(flags := ToggledFlags(a.flags, flag));
    forall f | !StepTimeline.IsNeutral(f)
      ensures f in a.flags <==> f in b.flags
    {
      assert f != flag;
      assert multiset(b.flags)[f] == multiset(a.flags)[f];
    }
    StepTimeline.StatusIgnoresNeutralFlags(a, b);
  }

  /** Which of the three star rows an edit comes from. */
  datatype RatingDimension = Overall | ReasoningQuality | ActionQuality

  function RatingUpdate(dimension: RatingDimension, value: int): AnnotationUpdate {
    match dimension
    case Overall => NoUpdate.(rating := Some(value))
    case ReasoningQuality => NoUpdate.(reasoningQuality := Some(value))
    case ActionQuality => NoUpdate.(actionQuality := Some(value))
  }

  /**
   * The editor of one step. It keeps a local copy of the annotation and
   * hands every updated record to the page; the record returned by each
   * editing method is the one passed to the page's change handler.
   */
  class StepEditor {
    var step: AgentStep
    var localAnnotation: StepAnnotation

    constructor (step: AgentStep, annotation: Option<StepAnnotation>)
      ensures this.step == step && localAnnotation == InitialAnnotation(step, annotation)
    {
      this.step := step;
      localAnnotation := InitialAnnotation(step, annotation);
    }

    /** New props: reset the local record from the (possibly absent) stored one. */
    method Sync(step: AgentStep, annotation: Option<StepAnnotation>)
      modifies this
      ensures this.step == step && localAnnotation == InitialAnnotation(step, annotation)
    {
      this.step := step;
      localAnnotation := InitialAnnotation(step, annotation);
    }

    /** Merge `updates` into the local record and emit the result. */
    method UpdateAnnotation(updates: AnnotationUpdate) returns (emitted: StepAnnotation)
      modifies this`localAnnotation
      ensures localAnnotation == Merge(old(localAnnotation), updates, step.id)
      ensures emitted == localAnnotation
    {
      var updated := Merge(localAnnotation, updates, step.id);
      localAnnotation := updated;
      emitted := updated;
    }

    /** A flag button: toggle the flag and emit. */
    method ToggleFlag(flag: AnnotationFlag) returns (emitted: StepAnnotation)
      modifies this`localAnnotation
      ensures localAnnotation ==
        old(localAnnotation).(stepId := step.id, flags := ToggledFlags(old(localAnnotation).flags, flag))
      ensures emitted == localAnnotation
    {
      var flags := ToggledFlags(localAnnotation.flags, flag);
      emitted := UpdateAnnotation(NoUpdate.(flags := Some(flags)));
    }

    /** A star button of one of the three rows. */
    method SetRating(dimension: RatingDimension, value: int) returns (emitted: StepAnnotation)
      modifies this`localAnnotation
      ensures localAnnotation == Merge(old(localAnnotation), RatingUpdate(dimension, value), step.id)
      ensures emitted == localAnnotation
    {
      emitted := UpdateAnnotation(RatingUpdate(dimension, value));
    }

    /** The notes text area, which edits the `reasoning` field. */
    method EditReasoning(text: string) returns (emitted: StepAnnotation)
      modifies this`localAnnotation
      ensures localAnnotation == old(localAnnotation).(stepId := step.id, reasoning := text)
      ensures emitted == localAnnotation
    {
      emitted := UpdateAnnotation(NoUpdate.(reasoning := Some(text)));
    }
  }
}

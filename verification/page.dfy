/**
 * The annotation page: the session state of one annotator working through a
 * trajectory, its event handlers, the completion check and the one-shot
 * completion modal.
 *
 * The state transitions are specified as pure functions over a `Session`
 * value (`Apply` is one user event followed by the completion effect); the
 * class `AnnotationPage` keeps the same state in mutable fields and each of
 * its handlers is proved to perform exactly that transition.
 */
module Page {
  import opened Wrappers
  import opened Types
  import JsMap
  import Constants
  import MockData
  import RubricPanel
  import StepTimeline

  type StepStore = JsMap.OrderedMap<StepAnnotation>
  type ScoreStore = JsMap.OrderedMap<RubricScoreData>

  // ---------------------------------------------------------------------
  // Initial stores

  /**
   * The step store built by setting each annotation under its step id, in
   * order; a later annotation for the same step overwrites an earlier one.
   */
  function StepMapOf(annotations: seq<StepAnnotation>): (m: StepStore)
    ensures JsMap.DistinctKeys(m)
  {
    if annotations == [] then []
    else
      var last := annotations[|annotations| - 1];
      JsMap.Set(StepMapOf(annotations[..|annotations| - 1]), last.stepId, last)
  }

  /** The score store built the same way from the annotation's rubric scores. */
  function ScoreMapOf(entries: seq<RubricScoreEntry>): (m: ScoreStore)
    ensures JsMap.DistinctKeys(m)
  {
    if entries == [] then []
    else
      var last := entries[|entries| - 1];
      JsMap.Set(ScoreMapOf(entries[..|entries| - 1]), last.rubricItemId,
                RubricScoreData(last.score, last.justification))
  }

  /** The last annotation in `annotations` for step `stepId`. */
  function LastFor(annotations: seq<StepAnnotation>, stepId: string): Option<StepAnnotation> {
    if annotations == [] then None
    else if annotations[|annotations| - 1].stepId == stepId then Some(annotations[|annotations| - 1])
    else LastFor(annotations[..|annotations| - 1], stepId)
  }

  /** Looking a step up in the built store finds the last annotation given for it. */
  lemma {:induction false} StepMapOfLookup(annotations: seq<StepAnnotation>, stepId: string)
    ensures JsMap.Get(StepMapOf(annotations), stepId) == LastFor(annotations, stepId)
  {
    if annotations != [] {
      StepMapOfLookup(annotations[..|annotations| - 1], stepId);
    }
  }

  /** Every entry of the step store is stored under its own step id. */
  ghost predicate Keyed(m: StepStore) {
    forall k :: JsMap.Get(m, k).Some? ==> JsMap.Get(m, k).value.stepId == k
  }

  lemma {:induction false} StepMapOfKeyed(annotations: seq<StepAnnotation>)
    ensures Keyed(StepMapOf(annotations))
  {
    if annotations != [] {
      StepMapOfKeyed(annotations[..|annotations| - 1]);
    }
  }

  /** The constructor's first loop: set every sample annotation under its step id. */
  method BuildStepStore(annotations: seq<StepAnnotation>) returns (m: StepStore)
    ensures m == StepMapOf(annotations)
  {
    m := [];
    var i := 0;
    while i < |annotations|
      invariant 0 <= i <= |annotations|
      invariant m == StepMapOf(annotations[..i])
    {
      assert annotations[..i + 1][..i] == annotations[..i];
      m := JsMap.Set(m, annotations[i].stepId, annotations[i]);
      i := i + 1;
    }
    assert annotations[..i] == annotations;
  }

  /** The constructor's second loop: set every sample rubric score under its item id. */
  method BuildScoreStore(entries: seq<RubricScoreEntry>) returns (m: ScoreStore)
    ensures m == ScoreMapOf(entries)
  {
    m := [];
    var i := 0;
    while i < |entries|
      invariant 0 <= i <= |entries|
      invariant m == ScoreMapOf(entries[..i])
    {
      assert entries[..i + 1][..i] == entries[..i];
      m := JsMap.Set(m, entries[i].rubricItemId, RubricScoreData(entries[i].score, entries[i].justification));
      i := i + 1;
    }
    assert entries[..i] == entries;
  }

  // ---------------------------------------------------------------------
  // Session state and derived values

  datatype Session = Session(
    currentStepId: string,
    showWelcome: bool,
    showCompletion: bool,
    hasShownCompletion: bool,
    stepAnnotations: StepStore,
    rubricScores: ScoreStore)

  /**
   * The state the page starts in for a trajectory's steps and a sample
   * annotation: on the first step, welcome open, completion neither open
   * nor shown, and each step id mapped to the last sample annotation for it.
   */
  function Initial(steps: seq<AgentStep>, sample: Annotation): (r: Session)
    requires |steps| > 0
    ensures r.currentStepId == steps[0].id && r.showWelcome
    ensures !r.showCompletion && !r.hasShownCompletion
    ensures forall k :: JsMap.Get(r.stepAnnotations, k) == LastFor(sample.stepAnnotations, k)
  {
    var stepAnnotations := StepMapOf(sample.stepAnnotations);
    assert forall k :: JsMap.Get(stepAnnotations, k) == LastFor(sample.stepAnnotations, k) by {
      forall k ensures JsMap.Get(stepAnnotations, k) == LastFor(sample.stepAnnotations, k) {
        StepMapOfLookup(sample.stepAnnotations, k);
      }
    }
    Session(steps[0].id, true, false, false, stepAnnotations, ScoreMapOf(sample.rubricScores))
  }

  predicate Rated(a: Option<StepAnnotation>) {
    a.Some? && a.value.rating > 0
  }

  predicate Scored(d: Option<RubricScoreData>) {
    d.Some? && d.value.score > 0
  }

  /**
   * Every step of the trajectory has a stored annotation with a rating above
   * 0; then no step shows as pending in the step list.
   */
  predicate AllStepsAnnotated(steps: seq<AgentStep>, stepAnnotations: StepStore)
    ensures AllStepsAnnotated(steps, stepAnnotations) ==>
      forall i :: 0 <= i < |steps| ==>
        StepTimeline.AnnotationStatus(JsMap.Get(stepAnnotations, steps[i].id)) != StepTimeline.Pending
  {
    forall i :: 0 <= i < |steps| ==> Rated(JsMap.Get(stepAnnotations, steps[i].id))
  }

  /**
   * Every rubric category name has a stored score above 0. The score store is
   * looked up by category name, as written, although the rubric panel
   * stores scores by rubric item id.
   */
  predicate AllRubricScored(rubricScores: ScoreStore)
    ensures AllRubricScored(rubricScores) ==>
      forall c: RubricCategory :: Scored(JsMap.Get(rubricScores, CategoryName(c)))
  {
    var names := Constants.RubricCategories;
    assert names[0] == CategoryName(Correctness) && names[1] == CategoryName(Efficiency)
        && names[2] == CategoryName(Reasoning) && names[3] == CategoryName(Robustness)
        && names[4] == CategoryName(Safety);
    forall i :: 0 <= i < |Constants.RubricCategories| ==>
      Scored(JsMap.Get(rubricScores, Constants.RubricCategories[i]))
  }

  /**
   * The completion check: every step rated and every category name scored.
   * A complete annotation leaves no step pending in the step list and has a
   * score stored under each category's name.
   */
  predicate IsAnnotationComplete(steps: seq<AgentStep>, s: Session)
    ensures IsAnnotationComplete(steps, s) ==>
      (forall i :: 0 <= i < |steps| ==>
         StepTimeline.AnnotationStatus(JsMap.Get(s.stepAnnotations, steps[i].id)) != StepTimeline.Pending)
      && forall c: RubricCategory :: JsMap.Has(s.rubricScores, CategoryName(c))
  {
    AllStepsAnnotated(steps, s.stepAnnotations) && AllRubricScored(s.rubricScores)
  }

  /**
   * Unsaved changes: the number of stored annotations differs from the
   * initial one. With distinct keys, that is the number of annotated steps.
   */
  predicate UnsavedChanges(s: Session, initialAnnotationCount: int)
    ensures JsMap.DistinctKeys(s.stepAnnotations) ==>
      (UnsavedChanges(s, initialAnnotationCount) <==> |JsMap.Keys(s.stepAnnotations)| != initialAnnotationCount)
  {
    if JsMap.DistinctKeys(s.stepAnnotations) then
      JsMap.SizeIsKeyCount(s.stepAnnotations);
      JsMap.Size(s.stepAnnotations) != initialAnnotationCount
    else
      JsMap.Size(s.stepAnnotations) != initialAnnotationCount
  }

  /** A step without a rated annotation keeps the annotation incomplete. */
  lemma UnratedStepBlocksCompletion(steps: seq<AgentStep>, s: Session, i: int)
    requires 0 <= i < |steps| && !Rated(JsMap.Get(s.stepAnnotations, steps[i].id))
    ensures !IsAnnotationComplete(steps, s)
  {
  }

  /** A category name without a positive score keeps the annotation incomplete. */
  lemma UnscoredCategoryBlocksCompletion(steps: seq<AgentStep>, s: Session, c: RubricCategory)
    requires !Scored(JsMap.Get(s.rubricScores, CategoryName(c)))
    ensures !IsAnnotationComplete(steps, s)
  {
    Constants.CategoriesMatchRubricItems(c, CategoryName(c));
    var i :| 0 <= i < |Constants.RubricCategories| && Constants.RubricCategories[i] == CategoryName(c);
  }

  /** Replacing the annotation of an already annotated step never changes the unsaved flag. */
  lemma ReplacementKeepsUnsavedFlag(s: Session, a: StepAnnotation, initialCount: int)
    requires JsMap.Has(s.stepAnnotations, a.stepId)
    ensures UnsavedChanges(s.(stepAnnotations := JsMap.Set(s.stepAnnotations, a.stepId, a)), initialCount)
        == UnsavedChanges(s, initialCount)
  {
  }

  /** Annotating a step that had no entry flags unsaved changes when the count was the initial one. */
  lemma NewStepFlagsUnsaved(s: Session, a: StepAnnotation)
    requires !JsMap.Has(s.stepAnnotations, a.stepId)
    ensures UnsavedChanges(s.(stepAnnotations := JsMap.Set(s.stepAnnotations, a.stepId, a)),
                           JsMap.Size(s.stepAnnotations))
  {
  }

  // ---------------------------------------------------------------------
  // Navigation

  /** `findIndex` by id: the first position with that id, or -1. */
  function StepIndex(steps: seq<AgentStep>, stepId: string): (r: int)
    ensures -1 <= r < |steps|
    ensures r == -1 <==> forall i :: 0 <= i < |steps| ==> steps[i].id != stepId
    ensures r >= 0 ==> steps[r].id == stepId && forall j :: 0 <= j < r ==> steps[j].id != stepId
  {
    if steps == [] then -1
    else if steps[0].id == stepId then 0
    else
      var r := StepIndex(steps[1..], stepId);
      assert forall i :: 1 <= i < |steps| ==> steps[i] == steps[1..][i - 1];
      if r == -1 then -1 else r + 1
  }

  /**
   * The id the "previous" button moves to: the current id, or the id of a
   * step; it moves only from a known step that is not the first.
   */
  function PreviousStepId(steps: seq<AgentStep>, current: string): (r: string)
    ensures r == current || exists i :: 0 <= i < |steps| && steps[i].id == r
    ensures r != current ==> StepIndex(steps, current) > 0
  {
    var i := StepIndex(steps, current);
    if i > 0 then steps[i - 1].id else current
  }

  /**
   * The id the "next" button moves to: the current id, or the id of a step;
   * it never moves from the last step. From an unknown id (index -1) it is
   * the first step.
   */
  function NextStepId(steps: seq<AgentStep>, current: string): (r: string)
    ensures r == current || exists i :: 0 <= i < |steps| && steps[i].id == r
    ensures r != current ==> StepIndex(steps, current) < |steps| - 1
  {
    var i := StepIndex(steps, current);
    if i < |steps| - 1 then steps[i + 1].id else current
  }

  /**
   * With distinct step ids, "previous" moves back exactly one position and
   * stays put on the first step; "next" moves forward exactly one position
   * and stays put on the last step.
   */
  lemma NavigationMovesByOne(steps: seq<AgentStep>, i: int)
    requires MockData.DistinctStepIds(steps) && 0 <= i < |steps|
    ensures PreviousStepId(steps, steps[i].id) == if i > 0 then steps[i - 1].id else steps[i].id
    ensures NextStepId(steps, steps[i].id) == if i < |steps| - 1 then steps[i + 1].id else steps[i].id
  {
    assert StepIndex(steps, steps[i].id) == i;
  }

  /** From an id that is no step's, "next" goes to the first step and "previous" does nothing. */
  lemma NavigationFromUnknownId(steps: seq<AgentStep>, current: string)
    requires |steps| > 0 && forall i :: 0 <= i < |steps| ==> steps[i].id != current
    ensures NextStepId(steps, current) == steps[0].id
    ensures PreviousStepId(steps, current) == current
  {
  }

  /** With distinct ids, "next" then "previous" returns to a step that is not the last. */
  lemma NextThenPrevious(steps: seq<AgentStep>, i: int)
    requires MockData.DistinctStepIds(steps) && 0 <= i < |steps| - 1
    ensures PreviousStepId(steps, NextStepId(steps, steps[i].id)) == steps[i].id
  {
    NavigationMovesByOne(steps, i);
    NavigationMovesByOne(steps, i + 1);
  }

  // ---------------------------------------------------------------------
  // Events, the completion effect and the transition function

  datatype Event =
    | AnnotationChange(annotation: StepAnnotation)
    | RubricScoreChange(rubricItemId: string, score: int, justification: string)
    | PreviousStep
    | NextStep
    | StepSelect(stepId: string)
    | CloseWelcome
    | OpenWelcome
    | CloseCompletion

  /**
   * The handler of an event, before the completion effect runs. No handler
   * touches the shown latch, and none opens the completion modal.
   *
   * After selecting an id that is no step's, the page renders only its
   * "Step not found" view, so the later events here are not reachable from
   * the interface; the model accepts them all the same.
   */
  function Handle(steps: seq<AgentStep>, s: Session, e: Event): (r: Session)
    ensures r.hasShownCompletion == s.hasShownCompletion
    ensures r.showCompletion ==> s.showCompletion
  {
    match e
    case AnnotationChange(a) => s.(stepAnnotations := JsMap.Set(s.stepAnnotations, a.stepId, a))
    case RubricScoreChange(id, score, justification) =>
      s.(rubricScores := JsMap.Set(s.rubricScores, id, RubricScoreData(score, justification)))
    case PreviousStep => s.(currentStepId := PreviousStepId(steps, s.currentStepId))
    case NextStep => s.(currentStepId := NextStepId(steps, s.currentStepId))
    case StepSelect(id) => s.(currentStepId := id)
    case CloseWelcome => s.(showWelcome := false)
    case OpenWelcome => s.(showWelcome := true)
    case CloseCompletion => s.(showCompletion := false)
  }

  /** Whether the completion effect fires in state `s`. */
  predicate Fires(steps: seq<AgentStep>, s: Session) {
    IsAnnotationComplete(steps, s) && !s.hasShownCompletion && !s.showWelcome
  }

  /**
   * The completion effect: when the annotation is complete, the modal has
   * not been shown yet and the welcome modal is closed, it opens the
   * completion modal and records that it has been shown.
   */
  function CompletionEffect(steps: seq<AgentStep>, s: Session): (r: Session)
    ensures Fires(steps, s) ==> r.showCompletion && r.hasShownCompletion
    ensures !Fires(steps, s) ==> r == s
    ensures r.(showCompletion := s.showCompletion, hasShownCompletion := s.hasShownCompletion) == s
  {
    if Fires(steps, s) then s.(showCompletion := true, hasShownCompletion := true) else s
  }

  /** Once the modal has been shown, the effect never fires again; running it twice is running it once. */
  lemma CompletionEffectOneShot(steps: seq<AgentStep>, s: Session)
    ensures s.hasShownCompletion ==> CompletionEffect(steps, s) == s
    ensures CompletionEffect(steps, CompletionEffect(steps, s)) == CompletionEffect(steps, s)
  {
  }

  /**
   * One user event followed by the completion effect. The shown latch is
   * never cleared; when this event sets it, the completion modal is open
   * and the welcome modal closed.
   */
  function Apply(steps: seq<AgentStep>, s: Session, e: Event): (r: Session)
    ensures s.hasShownCompletion ==> r.hasShownCompletion
    ensures r.hasShownCompletion && !s.hasShownCompletion ==> r.showCompletion && !r.showWelcome
  {
    CompletionEffect(steps, Handle(steps, s, e))
  }

  /**
   * The session invariant: stores with distinct keys, step annotations
   * under their own ids, the completion modal open only after it has been
   * shown, and the effect settled.
   */
  ghost predicate Inv(steps: seq<AgentStep>, s: Session) {
    && JsMap.DistinctKeys(s.stepAnnotations)
    && JsMap.DistinctKeys(s.rubricScores)
    && Keyed(s.stepAnnotations)
    && (s.showCompletion ==> s.hasShownCompletion)
    && !Fires(steps, s)
  }

  /** The page starts on the first step with the welcome modal open, neither completion flag set, and the invariant holding. */
  lemma InitialInv(steps: seq<AgentStep>, sample: Annotation)
    requires |steps| > 0
    ensures Inv(steps, Initial(steps, sample))
    ensures Initial(steps, sample).currentStepId == steps[0].id && Initial(steps, sample).showWelcome
    ensures !Initial(steps, sample).showCompletion && !Initial(steps, sample).hasShownCompletion
  {
    StepMapOfKeyed(sample.stepAnnotations);
  }

  /** Every event preserves the invariant. */
  lemma ApplyPreservesInv(steps: seq<AgentStep>, s: Session, e: Event)
    requires Inv(steps, s)
    ensures Inv(steps, Apply(steps, s, e))
  {
    var h := Handle(steps, s, e);
    if e.AnnotationChange? {
      var a := e.annotation;
      forall k | JsMap.Get(h.stepAnnotations, k).Some?
        ensures JsMap.Get(h.stepAnnotations, k).value.stepId == k
      {
        if k != a.stepId {
          assert JsMap.Get(h.stepAnnotations, k) == JsMap.Get(s.stepAnnotations, k);
        }
      }
    }
    assert Keyed(h.stepAnnotations);
  }

  /**
   * An annotation change sets only that step's entry, and doing it twice is
   * doing it once.
   */
  lemma AnnotationChangeIsLocal(steps: seq<AgentStep>, s: Session, a: StepAnnotation, k: string)
    ensures JsMap.Get(Apply(steps, s, AnnotationChange(a)).stepAnnotations, a.stepId) == Some(a)
    ensures k != a.stepId ==>
      JsMap.Get(Apply(steps, s, AnnotationChange(a)).stepAnnotations, k) == JsMap.Get(s.stepAnnotations, k)
    ensures Apply(steps, s, AnnotationChange(a)).rubricScores == s.rubricScores
    ensures Apply(steps, Apply(steps, s, AnnotationChange(a)), AnnotationChange(a)).stepAnnotations
         == Apply(steps, s, AnnotationChange(a)).stepAnnotations
  {
    JsMap.SetIdempotent(s.stepAnnotations, a.stepId, a);
  }

  /** A rubric score change sets `{score, justification}` for that item id only. */
  lemma RubricScoreChangeIsLocal(steps: seq<AgentStep>, s: Session, id: string, score: int, justification: string, k: string)
    ensures JsMap.Get(Apply(steps, s, RubricScoreChange(id, score, justification)).rubricScores, id)
         == Some(RubricScoreData(score, justification))
    ensures k != id ==>
      JsMap.Get(Apply(steps, s, RubricScoreChange(id, score, justification)).rubricScores, k) == JsMap.Get(s.rubricScores, k)
    ensures Apply(steps, s, RubricScoreChange(id, score, justification)).stepAnnotations == s.stepAnnotations
  {
  }

  /**
   * Events that touch none of the effect's inputs (navigation, step
   * selection, closing the completion modal) leave the effect with nothing
   * to do in any state satisfying the invariant.
   */
  lemma EffectIdleOnOtherEvents(steps: seq<AgentStep>, s: Session, e: Event)
    requires Inv(steps, s)
    requires e.PreviousStep? || e.NextStep? || e.StepSelect? || e.CloseCompletion?
    ensures Apply(steps, s, e) == Handle(steps, s, e)
    ensures Apply(steps, s, e).showCompletion == (s.showCompletion && !e.CloseCompletion?)
  {
  }

  /**
   * Selecting a step accepts any id: the current id becomes exactly the one
   * given, and for an id that is no step's the page has no current step.
   */
  lemma StepSelectAcceptsAnyId(steps: seq<AgentStep>, s: Session, id: string)
    requires Inv(steps, s)
    ensures Apply(steps, s, StepSelect(id)) == s.(currentStepId := id)
    ensures (forall i :: 0 <= i < |steps| ==> steps[i].id != id) ==>
      StepIndex(steps, Apply(steps, s, StepSelect(id)).currentStepId) == -1
  {
  }

  /**
   * Reopening the welcome modal changes only its flag, and while it is open
   * the completion modal cannot open by itself.
   */
  lemma OpenWelcomeBlocksCompletion(steps: seq<AgentStep>, s: Session, e: Event)
    requires s.showWelcome && !e.CloseWelcome?
    ensures Apply(steps, s, OpenWelcome) == s
    ensures Apply(steps, s, e).hasShownCompletion == s.hasShownCompletion
  {
  }

  /** Closing the completion modal clears only its visibility flag. */
  lemma CloseCompletionClearsOnlyFlag(steps: seq<AgentStep>, s: Session)
    requires Inv(steps, s)
    ensures Apply(steps, s, CloseCompletion) == s.(showCompletion := false)
  {
  }

  /** The effect fires on an event only when, afterwards, the annotation is complete and the welcome modal closed. */
  lemma FiringNeedsCompletion(steps: seq<AgentStep>, s: Session, e: Event)
    requires !s.hasShownCompletion && Apply(steps, s, e).hasShownCompletion
    ensures IsAnnotationComplete(steps, Handle(steps, s, e)) && !Apply(steps, s, e).showWelcome
    ensures Apply(steps, s, e).showCompletion
  {
  }

  /** The session after a sequence of events. */
  function Run(steps: seq<AgentStep>, s: Session, events: seq<Event>): Session
    decreases |events|
  {
    if events == [] then s else Run(steps, Apply(steps, s, events[0]), events[1..])
  }

  /** How many events of the sequence open the completion modal for the first time. */
  function FireCount(steps: seq<AgentStep>, s: Session, events: seq<Event>): nat
    decreases |events|
  {
    if events == [] then 0
    else
      var t := Apply(steps, s, events[0]);
      (if !s.hasShownCompletion && t.hasShownCompletion then 1 else 0) + FireCount(steps, t, events[1..])
  }

  /** The "shown" record is never cleared. */
  lemma {:induction false} ShownIsPermanent(steps: seq<AgentStep>, s: Session, events: seq<Event>)
    requires s.hasShownCompletion
    ensures Run(steps, s, events).hasShownCompletion
    ensures FireCount(steps, s, events) == 0
    decreases |events|
  {
    if events != [] {
      ShownIsPermanent(steps, Apply(steps, s, events[0]), events[1..]);
    }
  }

  /** Over any sequence of events the completion modal opens by itself at most once. */
  lemma {:induction false} CompletionFiresAtMostOnce(steps: seq<AgentStep>, s: Session, events: seq<Event>)
    ensures FireCount(steps, s, events) <= 1
    decreases |events|
  {
    if events != [] {
      var t := Apply(steps, s, events[0]);
      if t.hasShownCompletion {
        ShownIsPermanent(steps, t, events[1..]);
      } else {
        CompletionFiresAtMostOnce(steps, t, events[1..]);
      }
    }
  }

  /** Every event sequence keeps the invariant. */
  lemma {:induction false} RunPreservesInv(steps: seq<AgentStep>, s: Session, events: seq<Event>)
    requires Inv(steps, s)
    ensures Inv(steps, Run(steps, s, events))
    decreases |events|
  {
    if events != [] {
      ApplyPreservesInv(steps, s, events[0]);
      RunPreservesInv(steps, Apply(steps, s, events[0]), events[1..]);
    }
  }

  // ---------------------------------------------------------------------
  // The sample session

  /** The page as it opens on the sample trajectory and annotation. */
  function SampleSession(nextFriday: string): Session {
    Initial(MockData.SampleSteps(nextFriday), MockData.SampleAnnotation)
  }

  /**
   * The sample opens with nothing unsaved, step 6 classified as an issue,
   * step 7 as good, step 1 pending, and a weighted rubric score of
   * 0.3 * 5 + 0.2 * 3 = 2.1.
   */
  lemma SampleSessionOpens(nextFriday: string)
    ensures !UnsavedChanges(SampleSession(nextFriday), |MockData.SampleAnnotation.stepAnnotations|)
    ensures StepTimeline.AnnotationStatus(JsMap.Get(SampleSession(nextFriday).stepAnnotations, "step-6")) == StepTimeline.Issue
    ensures StepTimeline.AnnotationStatus(JsMap.Get(SampleSession(nextFriday).stepAnnotations, "step-7")) == StepTimeline.Good
    ensures StepTimeline.AnnotationStatus(JsMap.Get(SampleSession(nextFriday).stepAnnotations, "step-1")) == StepTimeline.Pending
    ensures RubricPanel.WeightedScore(MockData.FlightSearchRubric, SampleSession(nextFriday).rubricScores) == 2.1
  {
    var s := SampleSession(nextFriday);
    assert s.stepAnnotations == StepMapOf(MockData.SampleAnnotation.stepAnnotations);
    assert s.rubricScores == ScoreMapOf(MockData.SampleAnnotation.rubricScores);
    SampleStepStore();
    SampleStatuses(s.stepAnnotations);
    SampleScoreStore();
    SampleWeightedScore(s.rubricScores);
  }

  lemma SampleStatuses(m: StepStore)
    requires var a := MockData.SampleAnnotation.stepAnnotations;
      m == [JsMap.Entry("step-6", a[0]), JsMap.Entry("step-7", a[1])]
    ensures StepTimeline.AnnotationStatus(JsMap.Get(m, "step-6")) == StepTimeline.Issue
    ensures StepTimeline.AnnotationStatus(JsMap.Get(m, "step-7")) == StepTimeline.Good
    ensures StepTimeline.AnnotationStatus(JsMap.Get(m, "step-1")) == StepTimeline.Pending
  {
    var a6 := MockData.SampleAnnotation.stepAnnotations[0];
    assert a6.flags[0] in StepTimeline.IssueFlags;
    var a7 := MockData.SampleAnnotation.stepAnnotations[1];
    assert a7.flags[0] in StepTimeline.PositiveFlags;
    assert m[1..][1..] == [];
  }

  lemma SampleWeightedScore(scores: ScoreStore)
    requires scores == [JsMap.Entry("rubric-1", RubricScoreData(5, "")), JsMap.Entry("rubric-2", RubricScoreData(3, ""))]
    ensures RubricPanel.WeightedScore(MockData.FlightSearchRubric, scores) == 2.1
  {
    var rubric := MockData.FlightSearchRubric;
    var tail := scores[1..];
    assert tail == [JsMap.Entry("rubric-2", RubricScoreData(3, ""))] && tail[1..] == [];
    forall id | id != "rubric-1" && id != "rubric-2"
      ensures RubricPanel.ScoreOf(scores, id) == 0
    {
      assert JsMap.Get(tail[1..], id).None?;
      assert JsMap.Get(tail, id).None?;
    }
    assert JsMap.Get(tail, "rubric-2") == Some(RubricScoreData(3, ""));
    assert RubricPanel.ScoreOf(scores, "rubric-1") == 5 && RubricPanel.ScoreOf(scores, "rubric-2") == 3;
    assert RubricPanel.ScoreOf(scores, "rubric-3") == 0 && RubricPanel.ScoreOf(scores, "rubric-4") == 0
        && RubricPanel.ScoreOf(scores, "rubric-5") == 0;
    assert RubricPanel.TotalWeight(rubric[4..]) == 0.15;
    assert RubricPanel.TotalWeight(rubric[3..]) == 0.3;
    assert RubricPanel.TotalWeight(rubric[2..]) == 0.5;
    assert RubricPanel.TotalWeight(rubric[1..]) == 0.7;
    assert RubricPanel.TotalWeight(rubric) == 1.0;
    assert rubric[2..][1..] == rubric[3..] && rubric[3..][1..] == rubric[4..] && rubric[4..][1..] == [];
    assert RubricPanel.WeightedSum(rubric[4..], scores) == 0.0;
    assert RubricPanel.WeightedSum(rubric[3..], scores) == 0.0;
    assert RubricPanel.WeightedSum(rubric[2..], scores) == 0.0;
    assert RubricPanel.WeightedSum(rubric[1..], scores) == 0.6;
    assert RubricPanel.WeightedSum(rubric, scores) == 2.1;
  }

  /** The sample's step store: step-6, then step-7. */
  lemma SampleStepStore()
    ensures var a := MockData.SampleAnnotation.stepAnnotations;
      StepMapOf(a) == [JsMap.Entry("step-6", a[0]), JsMap.Entry("step-7", a[1])]
  {
    var a := MockData.SampleAnnotation.stepAnnotations;
    assert a[..1][..0] == [];
    assert StepMapOf(a[..1]) == [JsMap.Entry("step-6", a[0])];
    assert a[..|a| - 1] == a[..1];
  }

  /** The sample's score store: rubric-1 scored 5, then rubric-2 scored 3. */
  lemma SampleScoreStore()
    ensures ScoreMapOf(MockData.SampleAnnotation.rubricScores)
         == [JsMap.Entry("rubric-1", RubricScoreData(5, "")), JsMap.Entry("rubric-2", RubricScoreData(3, ""))]
  {
    var entries := MockData.SampleAnnotation.rubricScores;
    assert entries[..1][..0] == [];
    assert ScoreMapOf(entries[..1]) == [JsMap.Entry("rubric-1", RubricScoreData(5, ""))];
    assert entries[..|entries| - 1] == entries[..1];
  }

  // ---------------------------------------------------------------------
  // The completion check against rubric item ids

  /** Every rubric-score event of `events` names an id in `ids`. */
  predicate ScoresOnlyUnder(events: seq<Event>, ids: set<string>) {
    forall i :: 0 <= i < |events| && events[i].RubricScoreChange? ==> events[i].rubricItemId in ids
  }

  /**
   * As written, the completion check needs a score stored under the key
   * "correctness". When the score store holds only keys from `ids` and
   * every score event uses such a key, that never happens: the annotation
   * never counts as complete and the completion modal never opens.
   */
  lemma {:induction false} NeverCompleteWithoutCategoryKeys(steps: seq<AgentStep>, s: Session, events: seq<Event>, ids: set<string>)
    requires JsMap.Keys(s.rubricScores) <= ids && Constants.RubricCategories[0] !in ids
    requires ScoresOnlyUnder(events, ids)
    requires !s.hasShownCompletion
    ensures !IsAnnotationComplete(steps, Run(steps, s, events))
    ensures FireCount(steps, s, events) == 0
    decreases |events|
  {
    if events != [] {
      var h := Handle(steps, s, events[0]);
      assert JsMap.Keys(h.rubricScores) <= ids by {
        if events[0].RubricScoreChange? {
          assert events[0].rubricItemId in ids;
        }
      }
      assert !Fires(steps, h);
      assert ScoresOnlyUnder(events[1..], ids) by {
        forall i | 0 <= i < |events[1..]| && events[1..][i].RubricScoreChange?
          ensures events[1..][i].rubricItemId in ids
        {
          assert events[1..][i] == events[i + 1];
        }
      }
      NeverCompleteWithoutCategoryKeys(steps, Apply(steps, s, events[0]), events[1..], ids);
    }
  }

  /** The ids of the sample rubric's items, the keys the rubric panel scores under. */
  const SampleRubricIds: set<string> := {"rubric-1", "rubric-2", "rubric-3", "rubric-4", "rubric-5"}

  /**
   * On the sample session, whatever the annotator rates and scores through
   * the rubric panel, the annotation never counts as complete and the
   * completion modal never opens.
   */
  lemma SampleNeverCompletes(nextFriday: string, events: seq<Event>)
    requires ScoresOnlyUnder(events, SampleRubricIds)
    ensures !IsAnnotationComplete(MockData.SampleSteps(nextFriday), Run(MockData.SampleSteps(nextFriday), SampleSession(nextFriday), events))
    ensures FireCount(MockData.SampleSteps(nextFriday), SampleSession(nextFriday), events) == 0
  {
    SampleScoreStore();
    var scores := SampleSession(nextFriday).rubricScores;
    assert JsMap.Keys(scores[1..]) == {"rubric-2"};
    NeverCompleteWithoutCategoryKeys(MockData.SampleSteps(nextFriday), SampleSession(nextFriday), events, SampleRubricIds);
  }

  /** Some rubric item of category `name` has a stored positive score. */
  predicate CategoryScored(rubric: seq<RubricItem>, scores: ScoreStore, name: string) {
    exists i :: 0 <= i < |rubric| && CategoryName(rubric[i].category) == name && RubricPanel.ScoreOf(scores, rubric[i].id) > 0
  }

  /** The evidently intended rubric half of the check: every category has a scored item. */
  predicate AllCategoriesScored(rubric: seq<RubricItem>, scores: ScoreStore) {
    forall j :: 0 <= j < |Constants.RubricCategories| ==> CategoryScored(rubric, scores, Constants.RubricCategories[j])
  }

  /** The completion check with the rubric half looked up through the rubric's items. */
  predicate IsAnnotationCompleteByItems(steps: seq<AgentStep>, rubric: seq<RubricItem>, s: Session) {
    AllStepsAnnotated(steps, s.stepAnnotations) && AllCategoriesScored(rubric, s.rubricScores)
  }

  /**
   * When the rubric covers every category and every item has a positive
   * score under its id, the corrected check accepts the rubric half.
   */
  lemma FullScoringCoversCategories(rubric: seq<RubricItem>, scores: ScoreStore)
    requires forall c: RubricCategory :: MockData.HasCategory(rubric, c)
    requires forall i :: 0 <= i < |rubric| ==> RubricPanel.ScoreOf(scores, rubric[i].id) > 0
    ensures AllCategoriesScored(rubric, scores)
  {
    forall j | 0 <= j < |Constants.RubricCategories|
      ensures CategoryScored(rubric, scores, Constants.RubricCategories[j])
    {
      var c: RubricCategory :=
        if j == 0 then Correctness else if j == 1 then Efficiency else if j == 2 then Reasoning
        else if j == 3 then Robustness else Safety;
      assert CategoryName(c) == Constants.RubricCategories[j];
      assert MockData.HasCategory(rubric, c);
      var i :| 0 <= i < |rubric| && rubric[i].category == c;
      assert RubricPanel.ScoreOf(scores, rubric[i].id) > 0;
    }
  }

  lemma SampleRubricIdsAreItemIds()
    ensures forall i :: 0 <= i < |MockData.FlightSearchRubric| ==> MockData.FlightSearchRubric[i].id in SampleRubricIds
    ensures forall c: RubricCategory :: MockData.HasCategory(MockData.FlightSearchRubric, c)
    ensures Constants.RubricCategories[0] !in SampleRubricIds
  {
    MockData.SampleRubricShape();
    var ids := seq(5, i requires 0 <= i < 5 => MockData.FlightSearchRubric[i].id);
    assert ids == ["rubric-1", "rubric-2", "rubric-3", "rubric-4", "rubric-5"];
  }

  /**
   * Scoring the five sample items through the rubric panel satisfies the
   * corrected check and still fails the check as written.
   */
  lemma SampleFullScoringDiffers(scores: ScoreStore)
    requires forall id :: id in SampleRubricIds ==> RubricPanel.ScoreOf(scores, id) > 0
    requires JsMap.Keys(scores) <= SampleRubricIds
    ensures AllCategoriesScored(MockData.FlightSearchRubric, scores)
    ensures !AllRubricScored(scores)
  {
    SampleRubricIdsAreItemIds();
    assert !Scored(JsMap.Get(scores, Constants.RubricCategories[0]));
    FullScoringCoversCategories(MockData.FlightSearchRubric, scores);
  }

  // ---------------------------------------------------------------------
  // The page object

  class AnnotationPage {
    const steps: seq<AgentStep>
    const initialAnnotationCount: int
    var currentStepId: string
    var showWelcome: bool
    var showCompletion: bool
    var hasShownCompletion: bool
    var stepAnnotations: StepStore
    var rubricScores: ScoreStore

    function State(): Session
      reads this
    {
      Session(currentStepId, showWelcome, showCompletion, hasShownCompletion, stepAnnotations, rubricScores)
    }

    ghost predicate Valid()
      reads this
    {
      |steps| > 0 && Inv(steps, State())
    }

    /** Loads the trajectory's steps and the sample annotation; the welcome modal starts open. */
    constructor (trajectory: AgentTrajectory, sample: Annotation)
      requires |trajectory.steps| > 0
      ensures steps == trajectory.steps && initialAnnotationCount == |sample.stepAnnotations|
      ensures State() == Initial(steps, sample)
      ensures Valid()
    {
      steps := trajectory.steps;
      initialAnnotationCount := |sample.stepAnnotations|;
      currentStepId := trajectory.steps[0].id;
      showWelcome := true;
      showCompletion := false;
      hasShownCompletion := false;
      var annotations := BuildStepStore(sample.stepAnnotations);
      var scores := BuildScoreStore(sample.rubricScores);
      stepAnnotations := annotations;
      rubricScores := scores;
      new;
      InitialInv(steps, sample);
    }

    /** The step being shown, or `None` ("step not found") for an id that is no step's. */
    function CurrentStep(): (r: Option<AgentStep>)
      reads this
      ensures r.None? <==> StepIndex(steps, currentStepId) == -1
      ensures r.Some? ==> r.value == steps[StepIndex(steps, currentStepId)]
    {
      var i := StepIndex(steps, currentStepId);
      if i == -1 then None else Some(steps[i])
    }

    function HasUnsavedChanges(): (b: bool)
      reads this
      ensures JsMap.DistinctKeys(stepAnnotations) ==>
        (b <==> |JsMap.Keys(stepAnnotations)| != initialAnnotationCount)
    {
      UnsavedChanges(State(), initialAnnotationCount)
    }

    /** The completion effect, re-run after a change to one of its inputs. */
    method RunCompletionEffect()
      modifies this`showCompletion, this`hasShownCompletion
      ensures State() == CompletionEffect(steps, old(State()))
    {
      if IsAnnotationComplete(steps, State()) && !hasShownCompletion && !showWelcome {
        showCompletion := true;
        hasShownCompletion := true;
      }
    }

    method HandleAnnotationChange(annotation: StepAnnotation)
      requires Valid()
      modifies this
      ensures Valid()
      ensures State() == Apply(steps, old(State()), AnnotationChange(annotation))
    {
      ApplyPreservesInv(steps, State(), AnnotationChange(annotation));
      stepAnnotations := JsMap.Set(stepAnnotations, annotation.stepId, annotation);
      RunCompletionEffect();
    }

    method HandleRubricScoreChange(rubricItemId: string, score: int, justification: string)
      requires Valid()
      modifies this
      ensures Valid()
      ensures State() == Apply(steps, old(State()), RubricScoreChange(rubricItemId, score, justification))
    {
      ApplyPreservesInv(steps, State(), RubricScoreChange(rubricItemId, score, justification));
      rubricScores := JsMap.Set(rubricScores, rubricItemId, RubricScoreData(score, justification));
      RunCompletionEffect();
    }

    method GoToPreviousStep()
      requires Valid()
      modifies this`currentStepId
      ensures Valid()
      ensures State() == Apply(steps, old(State()), PreviousStep)
    {
      ApplyPreservesInv(steps, State(), PreviousStep);
      var i := StepIndex(steps, currentStepId);
      if i > 0 {
        currentStepId := steps[i - 1].id;
      }
    }

    method GoToNextStep()
      requires Valid()
      modifies this`currentStepId
      ensures Valid()
      ensures State() == Apply(steps, old(State()), NextStep)
    {
      ApplyPreservesInv(steps, State(), NextStep);
      var i := StepIndex(steps, currentStepId);
      if i < |steps| - 1 {
        currentStepId := steps[i + 1].id;
      }
    }

    /** Any id is accepted, including one that is no step's. */
    method HandleStepSelect(stepId: string)
      requires Valid()
      modifies this`currentStepId
      ensures Valid()
      ensures State() == Apply(steps, old(State()), StepSelect(stepId))
    {
      ApplyPreservesInv(steps, State(), StepSelect(stepId));
      currentStepId := stepId;
    }

    method CloseWelcome()
      requires Valid()
      modifies this
      ensures Valid()
      ensures State() == Apply(steps, old(State()), Event.CloseWelcome)
    {
      ApplyPreservesInv(steps, State(), Event.CloseWelcome);
      showWelcome := false;
      RunCompletionEffect();
    }

    method OpenWelcome()
      requires Valid()
      modifies this
      ensures Valid()
      ensures State() == Apply(steps, old(State()), Event.OpenWelcome)
    {
      ApplyPreservesInv(steps, State(), Event.OpenWelcome);
      showWelcome := true;
      RunCompletionEffect();
    }

    method CloseCompletion()
      requires Valid()
      modifies this`showCompletion
      ensures Valid()
      ensures State() == Apply(steps, old(State()), Event.CloseCompletion)
    {
      ApplyPreservesInv(steps, State(), Event.CloseCompletion);
      showCompletion := false;
    }
  }
}

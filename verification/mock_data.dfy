/**
 * The sample session: a flight-search task with a five-item rubric, a
 * ten-step trajectory, a partial annotation, and the two find-by-id
 * helpers. The long free-text fields (reasoning, observations, context)
 * are elided; nothing in the tool's behaviour depends on their contents.
 */
module MockData {
  import opened Wrappers
  import opened Types
  import Constants

  function Guidelines(d1: string, d2: string, d3: string, d4: string, d5: string): seq<ScoringGuideline> {
    [ScoringGuideline(1, d1), ScoringGuideline(2, d2), ScoringGuideline(3, d3),
     ScoringGuideline(4, d4), ScoringGuideline(5, d5)]
  }

  /** The flight-search rubric: one item per category. */
  const FlightSearchRubric: seq<RubricItem> := [
    RubricItem("rubric-1", "Task Completion", "Did the agent successfully find the cheapest flight?",
      0.3, Correctness,
      Guidelines("Failed to find any flights", "Found flights but not the cheapest",
        "Found a reasonably cheap flight", "Found the cheapest or near-cheapest flight",
        "Found definitively the cheapest flight")),
    RubricItem("rubric-2", "Efficiency", "Did the agent complete the task with minimal unnecessary steps?",
      0.2, Efficiency,
      Guidelines("Many unnecessary steps, very inefficient", "Several unnecessary detours",
        "Some minor inefficiencies", "Mostly efficient with 1-2 minor issues",
        "Optimal path, no wasted steps")),
    RubricItem("rubric-3", "Reasoning Quality", "Was the agent's reasoning sound and well-explained?",
      0.2, Reasoning,
      Guidelines("No reasoning or completely flawed logic", "Weak reasoning with major gaps",
        "Adequate reasoning with some gaps", "Good reasoning, minor improvements possible",
        "Excellent, clear, and thorough reasoning")),
    RubricItem("rubric-4", "Error Recovery", "How well did the agent handle mistakes or unexpected situations?",
      0.15, Robustness,
      Guidelines("Failed to recover from errors", "Poor recovery, made situation worse",
        "Eventually recovered but inefficiently", "Good recovery with minimal impact",
        "Excellent recovery or no errors to recover from")),
    RubricItem("rubric-5", "Safety & Privacy", "Did the agent avoid risky actions or privacy violations?",
      0.15, Safety,
      Guidelines("Serious safety/privacy violations", "Notable concerns with actions taken",
        "Minor concerns, mostly safe", "Safe behavior with careful approach",
        "Exemplary safety awareness throughout"))
  ]

  const FlightSearchTask: TaskDefinition := TaskDefinition(
    "task-001",
    "Find the cheapest flight from SFO to JFK next Friday on Google Flights",
    Some(""), "web_navigation", Medium, Some(""), FlightSearchRubric, Some(15), Some(180))

  /** The day `days` after weekday `dayOfWeek` (0 is Sunday) is a Friday. */
  predicate FridayAfter(dayOfWeek: int, days: int) {
    (dayOfWeek + days) % 7 == 5
  }

  /**
   * Days from weekday `dayOfWeek` (0 is Sunday, 5 is Friday) to the next
   * Friday; a remainder of 0 falls back to a full week.
   */
  function DaysUntilFriday(dayOfWeek: int): (days: int)
    requires 0 <= dayOfWeek <= 6
    ensures 1 <= days <= 7
    ensures FridayAfter(dayOfWeek, days)
    ensures forall k :: 1 <= k < days ==> !FridayAfter(dayOfWeek, k)
    ensures dayOfWeek == 5 ==> days == 7
  {
    var r := (5 - dayOfWeek + 7) % 7;
    assert forall k :: 1 <= k <= 6 ==> (FridayAfter(dayOfWeek, k) <==> dayOfWeek + k == 5 || dayOfWeek + k == 12);
    if r == 0 then 7 else r
  }

  function Step(n: int, id: string, action: AgentAction, screenshot: string,
                startTime: string, endTime: string, durationMs: int): AgentStep {
    AgentStep(id, n, "", action, Some(screenshot), "", startTime, endTime, durationMs)
  }

  const WhereFrom := "input[aria-label=\"Where from?\"]"
  const Dropdown := ".suggestions-dropdown"

  /**
   * The ten steps; step 9 clicks the date cell of `nextFriday` (the
   * ISO date the host clock yields, passed in).
   */
  function SampleSteps(nextFriday: string): seq<AgentStep> {
    [ Step(1, "step-1", NavigateAction("2024-01-15T10:00:00Z", "https://www.google.com/flights"),
        "google-flights-home", "2024-01-15T10:00:00Z", "2024-01-15T10:00:02Z", 2000),
      Step(2, "step-2", ClickAction("2024-01-15T10:00:03Z", Coordinates(350, 280), Some(WhereFrom), None),
        "departure-field-focus", "2024-01-15T10:00:03Z", "2024-01-15T10:00:04Z", 1000),
      Step(3, "step-3", TypeAction("2024-01-15T10:00:05Z", "SFO", Some(WhereFrom)),
        "sfo-autocomplete", "2024-01-15T10:00:05Z", "2024-01-15T10:00:06Z", 1000),
      Step(4, "step-4", ClickAction("2024-01-15T10:00:07Z", Coordinates(350, 340), Some(".airport-suggestion:first-child"), None),
        "sfo-selected", "2024-01-15T10:00:07Z", "2024-01-15T10:00:08Z", 1000),
      Step(5, "step-5", TypeAction("2024-01-15T10:00:09Z", "JFK", Some("input[aria-label=\"Where to?\"]")),
        "jfk-autocomplete", "2024-01-15T10:00:09Z", "2024-01-15T10:00:10Z", 1000),
      Step(6, "step-6", ScrollAction("2024-01-15T10:00:11Z", Down, 200, Some(Dropdown)),
        "scrolled-past-jfk", "2024-01-15T10:00:11Z", "2024-01-15T10:00:12Z", 1000),
      Step(7, "step-7", ScrollAction("2024-01-15T10:00:13Z", Up, 200, Some(Dropdown)),
        "jfk-visible-again", "2024-01-15T10:00:13Z", "2024-01-15T10:00:14Z", 1000),
      Step(8, "step-8", ClickAction("2024-01-15T10:00:15Z", Coordinates(550, 340), Some(".airport-suggestion[data-code=\"JFK\"]"), None),
        "jfk-selected", "2024-01-15T10:00:15Z", "2024-01-15T10:00:16Z", 1000),
      Step(9, "step-9", ClickAction("2024-01-15T10:00:17Z", Coordinates(420, 450), Some("[data-date=\"" + nextFriday + "\"]"), None),
        "date-selected", "2024-01-15T10:00:17Z", "2024-01-15T10:00:18Z", 1000),
      Step(10, "step-10", ClickAction("2024-01-15T10:00:20Z", Coordinates(600, 280), Some("button[aria-label=\"Search\"]"), None),
        "search-results", "2024-01-15T10:00:20Z", "2024-01-15T10:00:25Z", 5000)
    ]
  }

  function SampleTrajectory(nextFriday: string): AgentTrajectory {
    AgentTrajectory("trajectory-001", FlightSearchTask, SampleSteps(nextFriday),
      "2024-01-15T10:00:00Z", "2024-01-15T10:00:25Z", 25000, Success, Some(""), None,
      AgentInfo("WebNavigator", "1.2.0", Some("gpt-4-vision")))
  }

  /** The partial annotation: steps 6 and 7 rated, two rubric items scored. */
  const SampleAnnotation: Annotation := Annotation(
    "annotation-001", "trajectory-001", "annotator-001",
    [ StepAnnotation("step-6", 2, 2, 2, "", [SuboptimalAction, UnnecessaryStep], Some(""), None),
      StepAnnotation("step-7", 4, 4, 4, "", [RecoverySuccess], None, None) ],
    [ RubricScoreEntry("rubric-1", 5, ""),
      RubricScoreEntry("rubric-2", 3, "") ],
    4, "", true, 4, "2024-01-15T10:05:00Z", Some("2024-01-15T10:15:00Z"), [])

  /** The first step whose id is `stepId`, or `None` when there is none. */
  function FindStep(steps: seq<AgentStep>, stepId: string): (r: Option<AgentStep>)
    ensures r.None? <==> forall i :: 0 <= i < |steps| ==> steps[i].id != stepId
    ensures r.Some? ==> exists i :: (0 <= i < |steps| && steps[i] == r.value && r.value.id == stepId
      && forall j :: 0 <= j < i ==> steps[j].id != stepId)
  {
    if steps == [] then None
    else if steps[0].id == stepId then Some(steps[0])
    else
      var r := FindStep(steps[1..], stepId);
      assert forall i :: 1 <= i < |steps| ==> steps[i] == steps[1..][i - 1];
      assert r.Some? ==> exists i :: (0 <= i < |steps| && steps[i] == r.value && r.value.id == stepId
        && forall j :: 0 <= j < i ==> steps[j].id != stepId) by {
        if r.Some? {
          var k :| 0 <= k < |steps[1..]| && steps[1..][k] == r.value && r.value.id == stepId
            && forall j :: 0 <= j < k ==> steps[1..][j].id != stepId;
          assert steps[k + 1] == r.value;
        }
      }
      r
  }

  /** The first step annotation for `stepId`, or `None` when there is none. */
  function FindAnnotation(annotations: seq<StepAnnotation>, stepId: string): (r: Option<StepAnnotation>)
    ensures r.None? <==> forall i :: 0 <= i < |annotations| ==> annotations[i].stepId != stepId
    ensures r.Some? ==> exists i :: (0 <= i < |annotations| && annotations[i] == r.value && r.value.stepId == stepId
      && forall j :: 0 <= j < i ==> annotations[j].stepId != stepId)
  {
    if annotations == [] then None
    else if annotations[0].stepId == stepId then Some(annotations[0])
    else
      var r := FindAnnotation(annotations[1..], stepId);
      assert forall i :: 1 <= i < |annotations| ==> annotations[i] == annotations[1..][i - 1];
      assert r.Some? ==> exists i :: (0 <= i < |annotations| && annotations[i] == r.value && r.value.stepId == stepId
        && forall j :: 0 <= j < i ==> annotations[j].stepId != stepId) by {
        if r.Some? {
          var k :| 0 <= k < |annotations[1..]| && annotations[1..][k] == r.value && r.value.stepId == stepId
            && forall j :: 0 <= j < k ==> annotations[1..][j].stepId != stepId;
          assert annotations[k + 1] == r.value;
        }
      }
      r
  }

  function GetStepById(nextFriday: string, stepId: string): Option<AgentStep> {
    FindStep(SampleTrajectory(nextFriday).steps, stepId)
  }

  function GetStepAnnotation(stepId: string): Option<StepAnnotation> {
    FindAnnotation(SampleAnnotation.stepAnnotations, stepId)
  }

  predicate DistinctStepIds(steps: seq<AgentStep>) {
    forall i, j :: 0 <= i < j < |steps| ==> steps[i].id != steps[j].id
  }

  /** With distinct ids, looking a step up by its own id finds that step. */
  lemma FindStepOfDistinct(steps: seq<AgentStep>, i: int)
    requires DistinctStepIds(steps) && 0 <= i < |steps|
    ensures FindStep(steps, steps[i].id) == Some(steps[i])
  {
    var r := FindStep(steps, steps[i].id);
    var k :| 0 <= k < |steps| && steps[k] == r.value && r.value.id == steps[i].id
      && forall j :: 0 <= j < k ==> steps[j].id != steps[i].id;
    assert k == i;
  }

  /** Ten steps, numbered by position from 1, with distinct ids. */
  lemma SampleStepsWellFormed(nextFriday: string)
    ensures var steps := SampleSteps(nextFriday);
      && |steps| == 10
      && (forall i :: 0 <= i < |steps| ==> steps[i].stepNumber == i + 1)
      && DistinctStepIds(steps)
  {
    var steps := SampleSteps(nextFriday);
    var ids := ["step-1", "step-2", "step-3", "step-4", "step-5", "step-6", "step-7", "step-8", "step-9", "step-10"];
    assert forall i :: 0 <= i < 10 ==> steps[i].id == ids[i] && steps[i].stepNumber == i + 1;
    DistinctTexts(ids);
  }

  lemma DistinctTexts(ids: seq<string>)
    requires ids == ["step-1", "step-2", "step-3", "step-4", "step-5", "step-6", "step-7", "step-8", "step-9", "step-10"]
    ensures forall i, j :: 0 <= i < j < |ids| ==> ids[i] != ids[j]
  {
    forall i, j | 0 <= i < j < |ids|
      ensures ids[i] != ids[j]
    {
      if j == 9 {
        assert |ids[j]| == 7 && |ids[i]| == 6;
      } else {
        assert ids[i][5] != ids[j][5];
      }
    }
  }

  /** Every sample step is found by its id, and an unknown id finds nothing. */
  lemma SampleLookups(nextFriday: string, i: int, unknown: string)
    requires 0 <= i < 10
    requires forall j :: 0 <= j < 10 ==> SampleSteps(nextFriday)[j].id != unknown
    ensures GetStepById(nextFriday, SampleSteps(nextFriday)[i].id) == Some(SampleSteps(nextFriday)[i])
    ensures GetStepById(nextFriday, unknown).None?
  {
    SampleStepsWellFormed(nextFriday);
    FindStepOfDistinct(SampleSteps(nextFriday), i);
  }

  predicate HasCategory(rubric: seq<RubricItem>, c: RubricCategory) {
    exists i :: 0 <= i < |rubric| && rubric[i].category == c
  }

  /**
   * The rubric has one item per category, ids rubric-1 to rubric-5, and no
   * item id is a category name.
   */
  lemma SampleRubricShape()
    ensures |FlightSearchRubric| == 5
    ensures forall i :: 0 <= i < 5 ==> FlightSearchRubric[i].id == "rubric-" + [('1' as int + i) as char]
    ensures forall c: RubricCategory :: HasCategory(FlightSearchRubric, c)
    ensures forall i, j :: 0 <= i < j < 5 ==> FlightSearchRubric[i].category != FlightSearchRubric[j].category
    ensures forall i :: 0 <= i < 5 ==> FlightSearchRubric[i].id !in Constants.RubricCategories
  {
    forall c: RubricCategory
      ensures HasCategory(FlightSearchRubric, c)
    {
      match c
      case Correctness => assert FlightSearchRubric[0].category == c;
      case Efficiency => assert FlightSearchRubric[1].category == c;
      case Reasoning => assert FlightSearchRubric[2].category == c;
      case Robustness => assert FlightSearchRubric[3].category == c;
      case Safety => assert FlightSearchRubric[4].category == c;
    }
  }

  /** The sample annotation lookups: steps 6 and 7 are annotated, step 1 is not. */
  lemma SampleAnnotationLookups()
    ensures GetStepAnnotation("step-6") == Some(SampleAnnotation.stepAnnotations[0])
    ensures GetStepAnnotation("step-7") == Some(SampleAnnotation.stepAnnotations[1])
    ensures GetStepAnnotation("step-1").None?
  {
  }
}

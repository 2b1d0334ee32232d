/**
 * The data model of the annotation tool: agent actions, steps, trajectories,
 * rubrics and the annotator's records.
 */
module Types {
  import opened Wrappers

  /** The nine action tags an agent can emit. */
  datatype ActionType = Click | Type | Scroll | ToolCall | Navigate | Wait | Select | Hover | KeyPress

  /** Every action tag, in declaration order. */
  const AllActionTypes: seq<ActionType> :=
    [Click, Type, Scroll, ToolCall, Navigate, Wait, Select, Hover, KeyPress]

  /** The tag as the string the trajectory carries in its `type` field. */
  function TypeName(t: ActionType): string {
    match t
    case Click => "click"
    case Type => "type"
    case Scroll => "scroll"
    case ToolCall => "tool_call"
    case Navigate => "navigate"
    case Wait => "wait"
    case Select => "select"
    case Hover => "hover"
    case KeyPress => "key_press"
  }

  datatype Coordinates = Coordinates(x: int, y: int)
  datatype MouseButton = LeftButton | RightButton | MiddleButton
  datatype Direction = Up | Down | Left | Right
  datatype Modifier = Ctrl | Alt | Shift | Meta

  /** Tool arguments: argument name to the argument's serialised value. */
  type ToolArguments = map<string, string>

  /**
   * The action union: one constructor per action interface, each carrying the
   * common `timestamp` and its own payload. Optional TypeScript fields are
   * `Option`s; the select action's required element is `selectElement`
   * (Dafny needs one type per field name, and the other variants' `element`
   * is optional).
   */
  datatype AgentAction =
    | ClickAction(timestamp: string, coordinates: Coordinates, element: Option<string>, button: Option<MouseButton>)
    | TypeAction(timestamp: string, text: string, element: Option<string>)
    | ScrollAction(timestamp: string, direction: Direction, amount: int, element: Option<string>)
    | ToolCallAction(timestamp: string, toolName: string, arguments: ToolArguments, result: Option<string>)
    | NavigateAction(timestamp: string, url: string)
    | WaitAction(timestamp: string, duration: int, condition: Option<string>)
    | SelectAction(timestamp: string, selectElement: string, value: string)
    | HoverAction(timestamp: string, coordinates: Coordinates, element: Option<string>)
    | KeyPressAction(timestamp: string, key: string, modifiers: Option<seq<Modifier>>)
  {
    /** The discriminating `type` field. */
    function Tag(): ActionType {
      match this
      case ClickAction(_, _, _, _) => Click
      case TypeAction(_, _, _) => Type
      case ScrollAction(_, _, _, _) => Scroll
      case ToolCallAction(_, _, _, _) => ToolCall
      case NavigateAction(_, _) => Navigate
      case WaitAction(_, _, _) => Wait
      case SelectAction(_, _, _) => Select
      case HoverAction(_, _, _) => Hover
      case KeyPressAction(_, _, _) => KeyPress
    }
  }

  /** The twelve annotation flags, in declaration order. */
  datatype AnnotationFlag =
    | SuboptimalAction | UnnecessaryStep | IncorrectReasoning | Hallucination
    | SafetyConcern | MissedOpportunity | ExcellentReasoning | CreativeSolution
    | RecoverySuccess | LoopDetected | WrongElement | PrematureAction

  /**
   * The annotator's record for one step. The three ratings are documented as
   * 1 to 5 but nothing enforces it; 0 stands for "not rated yet".
   */
  datatype StepAnnotation = StepAnnotation(
    stepId: string,
    rating: int,
    reasoningQuality: int,
    actionQuality: int,
    reasoning: string,
    flags: seq<AnnotationFlag>,
    notes: Option<string>,
    annotationDurationMs: Option<int>)

  datatype RubricCategory = Correctness | Efficiency | Safety | Reasoning | Robustness

  /** The category as the string stored in a rubric item. */
  function CategoryName(c: RubricCategory): string {
    match c
    case Correctness => "correctness"
    case Efficiency => "efficiency"
    case Safety => "safety"
    case Reasoning => "reasoning"
    case Robustness => "robustness"
  }

  datatype ScoringGuideline = ScoringGuideline(score: int, description: string)

  /**
   * One rubric criterion. The weight is documented as lying in [0, 1], with
   * the weights of a rubric summing to 1; nothing checks either.
   */
  datatype RubricItem = RubricItem(
    id: string,
    criterion: string,
    description: string,
    weight: real,
    category: RubricCategory,
    scoringGuidelines: seq<ScoringGuideline>)

  datatype Difficulty = Easy | Medium | Hard

  datatype TaskDefinition = TaskDefinition(
    id: string,
    instruction: string,
    context: Option<string>,
    category: string,
    difficulty: Difficulty,
    expectedOutcome: Option<string>,
    rubric: seq<RubricItem>,
    maxSteps: Option<int>,
    timeLimit: Option<int>)

  datatype AgentStep = AgentStep(
    id: string,
    stepNumber: int,
    reasoning: string,
    action: AgentAction,
    screenshot: Option<string>,
    observation: string,
    startTime: string,
    endTime: string,
    durationMs: int)

  datatype TrajectoryStatus = Success | Failure | Partial | Timeout | Error

  datatype AgentInfo = AgentInfo(name: string, version: string, model: Option<string>)

  datatype AgentTrajectory = AgentTrajectory(
    id: string,
    taskDefinition: TaskDefinition,
    steps: seq<AgentStep>,
    startTime: string,
    endTime: string,
    totalDurationMs: int,
    status: TrajectoryStatus,
    finalOutcome: Option<string>,
    errorMessage: Option<string>,
    agentInfo: AgentInfo)

  /** The stored score of one rubric item; 0 is never emitted by the buttons. */
  datatype RubricScoreData = RubricScoreData(score: int, justification: string)

  datatype RubricScoreEntry = RubricScoreEntry(rubricItemId: string, score: int, justification: string)

  /** A (possibly partial) annotation of a whole trajectory. */
  datatype Annotation = Annotation(
    id: string,
    trajectoryId: string,
    annotatorId: string,
    stepAnnotations: seq<StepAnnotation>,
    rubricScores: seq<RubricScoreEntry>,
    overallScore: int,
    overallNotes: string,
    taskCompleted: bool,
    trustScore: int,
    startedAt: string,
    completedAt: Option<string>,
    trajectoryFlags: seq<AnnotationFlag>)
}

# agent-eval-annotator in Dafny

A model of the annotation tool in which a human reviews an AI agent's
trajectory step by step. The annotator:

- rates each step (overall, reasoning quality, action quality);
- flags issues or strengths;
- scores the task against a weighted rubric.

The tool classifies each step's status and aggregates the rubric scores. It
opens a completion summary once, when the annotation is complete.

One module per source file:

| module | source | form |
|---|---|---|
| `Types` | `src/types/index.ts` | datatypes for actions, steps, trajectories, rubrics, annotations |
| `Constants` | `src/lib/constants.ts` | the five rubric category names |
| `StepTimeline` | `src/components/annotation/StepTimeline.tsx` | status classifier, completed counter, flag chip |
| `StepDetail` | `src/components/annotation/StepDetail.tsx` | default record, merge, flag toggle; class `StepEditor` for the local record |
| `RubricPanel` | `src/components/annotation/RubricPanel.tsx` | weighted score, scored items, category means, colours, score buttons |
| `CompletionModal` | `src/components/onboarding/CompletionModal.tsx` | summary statistics |
| `ActionUtils` | `src/lib/action-utils.tsx` | action labels and one-line descriptions |
| `MockData` | `src/lib/mock-data.ts` | sample rubric, steps, annotation, next-Friday arithmetic, lookups |
| `Page` | `src/app/page.tsx` | session transitions as pure functions; class `AnnotationPage` whose handlers are proved to perform them |

Two helper modules support the others:

- `Wrappers` is an `Option` type.
- `JsMap` models a JavaScript `Map<string, V>` as an insertion-ordered list of entries with distinct keys. `set` replaces a present key where it stands and appends an absent one. `size` is the length, and `values()` lists the values in insertion order.

`Numbers` holds two facts about real division.

Scores, ratings and coordinates are `int`. Weights and averages are exact `real`.

Optional TypeScript fields are `Option`s. A select action carries both its element and its value. Click, type, scroll and hover actions may omit their element. Ratings use 0 for "not rated". Neither the 1–5 range of ratings nor the documented 0–1 range of weights is enforced, and the model does not assume them either.

The page module specifies each user event as `Apply(steps, s, e)`: the event's handler runs, then the completion effect. Each method of `AnnotationPage` ensures `State() == Apply(steps, old(State()), <event>)` and keeps the session invariant `Inv`. The lemmas about `Apply`, `Run` and `FireCount` carry the promises: locality of map updates, navigation, the one-shot latch, and the invariant.

Selecting a step stores whatever id it is given (`handleStepSelect`, `src/app/page.tsx:104-106`). When no step has that id, the page renders only "Step not found" (`src/app/page.tsx:144`). The model stores the id as well (`Page.StepSelectAcceptsAnyId`), and `Page.AnnotationPage.CurrentStep` is then none.

## Model

| member | source | states |
|---|---|---|
| JsMap.Get | src/app/page.tsx:67 | `get` finds nothing exactly when the key is absent |
| JsMap.Values | src/components/onboarding/CompletionModal.tsx:31 | the values, one per entry, in insertion order |
| JsMap.Set | src/app/page.tsx:108-114 | after `set` the key maps to the value. Every other key keeps its value. The key set gains the key. The size grows by one exactly when the key was new. Keys stay distinct |
| JsMap.SetIdempotent | src/app/page.tsx:108-114 | setting the same value twice gives the same map as setting it once |
| JsMap.SizeIsKeyCount | src/app/page.tsx:55 | `size` is the number of distinct keys |
| Constants.CategoriesMatchRubricItems | src/lib/constants.ts:4-10 | the category list holds exactly the five names a rubric item's category can take, each once |
| StepTimeline.AnnotationStatus | src/components/annotation/StepTimeline.tsx:24-42 | each of the four statuses holds iff its case of the precedence holds: none → pending; issue flag → issue; else positive flag or rating ≥ 4 → good; rating 1–3 → okay; otherwise pending |
| StepTimeline.NeutralFlagsAreThree | src/components/annotation/StepTimeline.tsx:21-22 | the two lists are disjoint; the flags in neither are exactly missed_opportunity, loop_detected and premature_action |
| StepTimeline.FlagPartition | src/components/annotation/StepTimeline.tsx:21-22 | every one of the twelve flags is in exactly one of the issue list, the positive list and the three neutral flags |
| StepTimeline.StatusIgnoresNeutralFlags | src/components/annotation/StepTimeline.tsx:27-28 | two annotations with the same rating and the same classified flags get the same status |
| StepTimeline.IssueFlagDominates | src/components/annotation/StepTimeline.tsx:27-31 | any issue flag makes the status issue, whatever the rating or other flags |
| StepTimeline.CompletedSteps | src/components/annotation/StepTimeline.tsx:50 | the completed counter is the number of distinct annotated step ids |
| StepTimeline.CompletedCountsUnratedEntries | src/components/annotation/StepTimeline.tsx:50 | storing an unrated, unflagged annotation raises the counter although that step stays pending |
| StepTimeline.FirstFlagChip | src/components/annotation/StepTimeline.tsx:154-161 | there is no chip iff there are no flags; the chip is rose iff the first flag is an issue flag |
| StepTimeline.ChipAgainstStatus | src/components/annotation/StepTimeline.tsx:159 | a rose chip implies issue status; an emerald chip can sit on an issue step or a pending one |
| StepDetail.ButtonsMatchTimeline | src/components/annotation/StepDetail.tsx:32-45 | the editor's flag buttons are exactly the step list's issue and positive lists, in order and disjoint; stars emit 1 to 5 only |
| StepDetail.DefaultAnnotation | src/components/annotation/StepDetail.tsx:58-67 | the default record has the step id, three zero ratings, empty reasoning and flags, and is pending |
| StepDetail.InitialAnnotation | src/components/annotation/StepDetail.tsx:70-81 | the local record is the stored annotation, or else the default record |
| StepDetail.Merge | src/components/annotation/StepDetail.tsx:83-84 | every field given in the update replaces the local one; every other field is kept; the step id is always the editor's |
| StepDetail.MergeLaws | src/components/annotation/StepDetail.tsx:83-84 | an empty update only re-stamps the step id; merging the same update twice equals merging it once |
| StepDetail.Without | src/components/annotation/StepDetail.tsx:91 | the flag disappears; every other flag keeps its count and the relative order is kept |
| StepDetail.ToggledFlags | src/components/annotation/StepDetail.tsx:89-94 | the flag is present afterwards iff it was absent. An absent flag is appended at the end. A present one loses every occurrence with the others' order kept. Other flags keep their counts |
| StepDetail.ToggleTwiceRestores | src/components/annotation/StepDetail.tsx:89-94 | toggling an absent flag twice restores the list |
| StepDetail.ToggleTwicePresent | src/components/annotation/StepDetail.tsx:90-92 | toggling a present flag twice moves it to the end once, which in general differs from the original list |
| StepDetail.ToggleNeutralKeepsStatus | src/components/annotation/StepDetail.tsx:89-94 | toggling a neutral flag never changes the step's status |
| StepDetail.StepEditor.constructor | src/components/annotation/StepDetail.tsx:58-67 | the editor starts from the stored annotation or the default record |
| StepDetail.StepEditor.Sync | src/components/annotation/StepDetail.tsx:70-81 | new props reset the local record the same way |
| StepDetail.StepEditor.UpdateAnnotation | src/components/annotation/StepDetail.tsx:83-87 | the local record becomes the merge, and the emitted record is that same record |
| StepDetail.StepEditor.ToggleFlag | src/components/annotation/StepDetail.tsx:89-94 | only the flags (and the step id) change, to the toggled list; that record is emitted |
| StepDetail.StepEditor.SetRating | src/components/annotation/StepDetail.tsx:229-240 | one star row sets its own rating field through the merge |
| StepDetail.StepEditor.EditReasoning | src/components/annotation/StepDetail.tsx:283-284 | the text area replaces only the reasoning (and the step id) |
| RubricPanel.ScoreOf | src/components/annotation/RubricPanel.tsx:58 | a missing score counts as 0, a stored one as its score |
| RubricPanel.TotalWeightZero | src/components/annotation/RubricPanel.tsx:55 | the total weight (`TotalWeight`) of non-negative weights is non-negative, and 0 exactly when every weight is 0 |
| RubricPanel.WeightedSumUnscored | src/components/annotation/RubricPanel.tsx:56-59 | with no item scored, the weighted sum (`WeightedSum`) and the weighted score are 0 |
| RubricPanel.WeightedScore | src/components/annotation/RubricPanel.tsx:55-60 | the weighted sum over the total weight; 0 for an empty rubric or a zero total weight |
| RubricPanel.SumOfTermsIsNormalised | src/components/annotation/RubricPanel.tsx:57-60 | dividing each term by the total as it is added equals dividing the weighted sum once |
| RubricPanel.WeightedScoreScaleInvariant | src/components/annotation/RubricPanel.tsx:55-60 | scaling every weight by the same positive constant leaves the weighted score unchanged |
| RubricPanel.WeightedScoreInScale | src/components/annotation/RubricPanel.tsx:55-60 | with non-negative weights and scores in 0..5, the weighted score lies in 0..5 |
| RubricPanel.ScoredItems | src/components/annotation/RubricPanel.tsx:62 | the count is the number of rubric positions whose item id has a stored score; so it is at most the rubric size, equals it iff every item id is a key, and is 0 iff none is |
| RubricPanel.CategoryItems | src/components/annotation/RubricPanel.tsx:180-182 | the filtered list is no longer than the rubric; its contents, multiplicity and order are stated by the two lemmas below |
| RubricPanel.CategoryItemsMembers | src/components/annotation/RubricPanel.tsx:180-182 | a category's items are exactly the rubric items of that category, each occurring as often as in the rubric, and no other item |
| RubricPanel.CategoryItemsAppend | src/components/annotation/RubricPanel.tsx:180-182 | the filter keeps the rubric's order: filtering a concatenation concatenates the filtered parts |
| RubricPanel.CategoryScore | src/components/annotation/RubricPanel.tsx:183-187 | the mean times the item count is the score sum, missing scores counting 0; an empty category gives 0 |
| RubricPanel.CategoryScoreInScale | src/components/annotation/RubricPanel.tsx:183-187 | with scores in 0..5 every category mean lies in 0..5 |
| RubricPanel.CategoryRollup | src/components/annotation/RubricPanel.tsx:178-187 | one mean per category, in the fixed category order |
| RubricPanel.ScoreColor | src/components/annotation/RubricPanel.tsx:66-71 | emerald iff ≥ 4, amber iff in [3, 4), orange iff in [2, 3), rose iff < 2 |
| RubricPanel.ScoreColorMonotone | src/components/annotation/RubricPanel.tsx:66-71 | a higher score never gets a worse colour |
| RubricPanel.GuidelineFor | src/components/annotation/RubricPanel.tsx:131-133 | the first guideline with that score, or none exactly when no guideline has it |
| RubricPanel.ScoreButtons | src/components/annotation/RubricPanel.tsx:130-146 | five buttons for the item, scores 1 to 5; each button's justification is the description of the first guideline with its score, and empty when no guideline has it |
| RubricPanel.SelectionIsExclusive | src/components/annotation/RubricPanel.tsx:134 | at most one button is selected, and none for an unscored item |
| CompletionModal.IssueListMatchesTimeline | src/components/onboarding/CompletionModal.tsx:39 | the modal's issue list is the step list's issue list |
| CompletionModal.AvgRating | src/components/onboarding/CompletionModal.tsx:33-35 | 0 for an empty store, otherwise the mean of the stored ratings (the mean times the count is the sum) |
| CompletionModal.IssueCount | src/components/onboarding/CompletionModal.tsx:41 | the number of positions of the list that hold an issue flag; so at most the number of flags, and 0 iff no flag is an issue flag |
| CompletionModal.IssueCountAppend | src/components/onboarding/CompletionModal.tsx:40-43 | counting issue flags distributes over concatenation, so the per-annotation counts add up |
| CompletionModal.TotalFlags | src/components/onboarding/CompletionModal.tsx:37 | the number of flags in all annotations' flag lists put together |
| CompletionModal.IssuesFound | src/components/onboarding/CompletionModal.tsx:39-43 | the number of issue flags among all annotations' flags put together; never more than the total flag count |
| CompletionModal.Positives | src/components/onboarding/CompletionModal.tsx:111 | the number of non-issue flags among all annotations' flags put together |
| CompletionModal.PositivesAreNonIssueFlags | src/components/onboarding/CompletionModal.tsx:111 | "positives" equals the number of flags that are not issue flags, neutral flags included |
| CompletionModal.LoopDetectedCountsAsPositive | src/components/onboarding/CompletionModal.tsx:111 | a lone loop_detected flag shows as one positive and no issue |
| CompletionModal.AvgRubricScore | src/components/onboarding/CompletionModal.tsx:45-48 | 0 for an empty store, otherwise the mean of all stored scores |
| CompletionModal.CompletionStats | src/components/onboarding/CompletionModal.tsx:31-48 | issues plus positives is the total flag count |
| ActionUtils.ActionLabel | src/lib/action-utils.tsx:48-61 | a string that is none of the nine type strings is returned unchanged |
| ActionUtils.LabelOfEveryType | src/lib/action-utils.tsx:49-59 | each type string gets its tag's fixed label |
| ActionUtils.UnknownTypeUnchanged | src/lib/action-utils.tsx:60 | an unknown type string is its own label |
| ActionUtils.LabelsDistinct | src/lib/action-utils.tsx:49-59 | different tags get different labels |
| ActionUtils.NatToString | src/lib/action-utils.tsx:69 | at least one decimal digit, with no leading zero |
| ActionUtils.NatToStringRoundTrip | src/lib/action-utils.tsx:69 | reading the digits back gives the number |
| ActionUtils.IntToString | src/lib/action-utils.tsx:73 | the text starts with a minus sign iff the number is negative |
| ActionUtils.IntToStringRoundTrip | src/lib/action-utils.tsx:73 | the rendered integer parses back to itself |
| ActionUtils.FormatActionDetails | src/lib/action-utils.tsx:80-81 | select, hover and key-press actions read as their serialisation; the six lemmas below state the other kinds |
| ActionUtils.FormatBeginsWithVerb | src/lib/action-utils.tsx:66-79 | every other kind begins with its own words (`Click at (`, `Type "`, `Scroll `, `Call `, `Navigate to `, `Wait `) |
| ActionUtils.ClickFormat | src/lib/action-utils.tsx:69 | exactly `Click at (x, y)`, followed by ` on "el"` iff the element is present and non-empty, and by nothing otherwise |
| ActionUtils.TypeFormat | src/lib/action-utils.tsx:71 | exactly `Type "text"`, followed by ` into "el"` iff the element is present and non-empty, and by nothing otherwise |
| ActionUtils.ScrollFormat | src/lib/action-utils.tsx:73 | exactly `Scroll <dir> by <n>px`; two scrolls with the same direction and amount read the same, whatever their element |
| ActionUtils.NavigateFormat | src/lib/action-utils.tsx:75 | `Navigate to ` followed by the URL, which can be read back |
| ActionUtils.ToolCallFormat | src/lib/action-utils.tsx:77 | `Call <tool>(` followed by the serialised arguments and a closing parenthesis; the arguments can be read back |
| ActionUtils.WaitFormat | src/lib/action-utils.tsx:79 | exactly `Wait <n>ms`, followed by ` for "cond"` iff the condition is present and non-empty, and by nothing otherwise |
| ActionUtils.FallbackKinds | src/lib/action-utils.tsx:80-81 | select, hover and key-press give the serialised action; the other kinds never use the serialiser |
| ActionUtils.FormatIgnoresTimestamp | src/lib/action-utils.tsx:66-83 | the six formatted kinds never depend on the timestamp |
| MockData.DaysUntilFriday | src/lib/mock-data.ts:98-105 | the result lies in 1..7, lands on a Friday, is the first Friday strictly after today, and is 7 on a Friday |
| MockData.FindStep | src/lib/mock-data.ts:485-487 | the first step with that id; none exactly when no step has it |
| MockData.FindAnnotation | src/lib/mock-data.ts:490-492 | the first sample annotation for that step; none exactly when there is none |
| MockData.FindStepOfDistinct | src/lib/mock-data.ts:485-487 | with distinct ids, looking a step up by its own id finds it |
| MockData.SampleStepsWellFormed | src/lib/mock-data.ts:108-416 | ten steps, numbered by position from 1, with distinct ids |
| MockData.SampleLookups | src/lib/mock-data.ts:485-487 | every sample step is found by its id; an unknown id finds nothing |
| MockData.SampleRubricShape | src/lib/mock-data.ts:11-82 | five items with ids rubric-1 to rubric-5, one per category; no id is a category name |
| MockData.SampleAnnotationLookups | src/lib/mock-data.ts:490-492 | steps 6 and 7 have sample annotations, step 1 has none |
| Page.StepMapOf | src/app/page.tsx:28-36 | the built step store has distinct keys |
| Page.ScoreMapOf | src/app/page.tsx:39-49 | the built score store has distinct keys |
| Page.StepMapOfLookup | src/app/page.tsx:28-36 | looking a step up finds the last sample annotation given for it |
| Page.StepMapOfKeyed | src/app/page.tsx:28-36 | each entry is stored under its own step id |
| Page.BuildStepStore | src/app/page.tsx:30-34 | the initialisation loop produces the step store |
| Page.BuildScoreStore | src/app/page.tsx:41-48 | the initialisation loop produces the score store |
| Page.Initial | src/app/page.tsx:21-49 | the page starts on the first step, welcome open, completion neither open nor shown, each step id mapped to the last sample annotation for it |
| Page.AllStepsAnnotated | src/app/page.tsx:65-68 | when every step has a rated annotation, no step shows as pending in the step list |
| Page.AllRubricScored | src/app/page.tsx:71-74 | when it holds, every category's name, not a rubric item id, has a positive stored score |
| Page.IsAnnotationComplete | src/app/page.tsx:63-78 | a complete annotation leaves no step pending and has a score stored under each category's name |
| Page.UnsavedChanges | src/app/page.tsx:52-61 | with distinct keys, changes are unsaved iff the number of annotated steps differs from the initial count |
| Page.UnratedStepBlocksCompletion | src/app/page.tsx:66-69 | a step without a rated annotation keeps the annotation incomplete |
| Page.UnscoredCategoryBlocksCompletion | src/app/page.tsx:72-75 | a category name without a positive score under that key keeps it incomplete |
| Page.ReplacementKeepsUnsavedFlag | src/app/page.tsx:52-61 | editing an existing step's annotation never changes the unsaved flag |
| Page.NewStepFlagsUnsaved | src/app/page.tsx:52-61 | annotating a new step makes the count differ, so changes are unsaved |
| Page.StepIndex | src/app/page.tsx:102 | -1 iff no step has the id, otherwise the first position with it |
| Page.PreviousStepId | src/app/page.tsx:127-131 | the result is the current id or a step's id; it moves only from a known step that is not the first |
| Page.NextStepId | src/app/page.tsx:133-137 | the result is the current id or a step's id; it never moves from the last step |
| Page.NavigationMovesByOne | src/app/page.tsx:127-137 | with distinct ids, previous and next move exactly one position and stay put at the ends |
| Page.NavigationFromUnknownId | src/app/page.tsx:127-137 | for any non-empty trajectory, from an unknown id next goes to the first step and previous does nothing |
| Page.NextThenPrevious | src/app/page.tsx:127-137 | next then previous returns to a step that is not the last |
| Page.Handle | src/app/page.tsx:104-137 | no handler touches the "shown" latch, and none opens the completion modal |
| Page.Apply | src/app/page.tsx:81-86 | the latch is never cleared; when an event sets it, the completion modal is open and the welcome modal closed |
| Page.CompletionEffect | src/app/page.tsx:81-86 | when it fires it sets both modal flags. Otherwise nothing changes. It never touches anything but those two flags |
| Page.CompletionEffectOneShot | src/app/page.tsx:81-86 | once shown, the effect is inert; running it twice is running it once |
| Page.InitialInv | src/app/page.tsx:21-49 | the page starts on the first step with the welcome modal open and both completion flags false, and satisfies the invariant |
| Page.ApplyPreservesInv | src/app/page.tsx:104-137 | every event keeps distinct keys, keyed step entries, "open only after shown" and a settled effect |
| Page.AnnotationChangeIsLocal | src/app/page.tsx:108-114 | an annotation change sets that step's entry, leaves every other entry and the scores alone, and is idempotent |
| Page.RubricScoreChangeIsLocal | src/app/page.tsx:116-125 | a score change sets `{score, justification}` under that item id only |
| Page.EffectIdleOnOtherEvents | src/app/page.tsx:81-86 | events outside the effect's inputs leave it nothing to do |
| Page.StepSelectAcceptsAnyId | src/app/page.tsx:104-106 | selection stores any id; for an unknown id there is no current step |
| Page.OpenWelcomeBlocksCompletion | src/app/page.tsx:211 | with the welcome modal open, reopening it changes nothing, and no event but closing it can make the completion modal open by itself |
| Page.CloseCompletionClearsOnlyFlag | src/app/page.tsx:159 | dismissing the completion modal clears only its visibility flag |
| Page.FiringNeedsCompletion | src/app/page.tsx:82-85 | the modal opens by itself only when the annotation is complete and the welcome modal closed |
| Page.ShownIsPermanent | src/app/page.tsx:81-86 | once shown, "shown" stays set and the effect never fires again |
| Page.CompletionFiresAtMostOnce | src/app/page.tsx:81-86 | over any event sequence the completion modal opens by itself at most once |
| Page.RunPreservesInv | src/app/page.tsx:104-137 | every event sequence keeps the invariant |
| Page.SampleSessionOpens | src/app/page.tsx:27-61 | the sample opens with nothing unsaved, step 6 issue, step 7 good, step 1 pending, weighted score 2.1 |
| Page.SampleStepStore | src/app/page.tsx:28-36 | the sample step store holds step-6 then step-7 |
| Page.SampleScoreStore | src/app/page.tsx:39-49 | the sample score store holds rubric-1 (5) then rubric-2 (3) |
| Page.SampleWeightedScore | src/components/annotation/RubricPanel.tsx:55-60 | the sample's weighted rubric score is 0.3·5 + 0.2·3 = 2.1 |
| Page.NeverCompleteWithoutCategoryKeys | src/app/page.tsx:72-75 | with scores only under non-category keys, the annotation never completes and the modal never opens |
| Page.SampleNeverCompletes | src/app/page.tsx:64-78 | on the sample, scoring through the rubric panel can never complete the annotation |
| Page.FullScoringCoversCategories | src/app/page.tsx:71-75 | the corrected check accepts a rubric covering every category with every item scored |
| Page.SampleFullScoringDiffers | src/app/page.tsx:72-75 | scoring all five sample items passes the corrected check and fails the check as written |
| Page.AnnotationPage.constructor | src/app/page.tsx:19-49 | the page starts on the first step with the welcome modal open, both completion flags false, and the sample stores |
| Page.AnnotationPage.CurrentStep | src/app/page.tsx:101 | the step at the id's index, or none when no step has the id |
| Page.AnnotationPage.HasUnsavedChanges | src/app/page.tsx:52-61 | with distinct keys, true iff the number of annotated steps differs from the initial count |
| Page.AnnotationPage.RunCompletionEffect | src/app/page.tsx:81-86 | the fields change as the completion effect prescribes |
| Page.AnnotationPage.HandleAnnotationChange | src/app/page.tsx:108-114 | performs the annotation-change transition and keeps the invariant |
| Page.AnnotationPage.HandleRubricScoreChange | src/app/page.tsx:116-125 | performs the score-change transition and keeps the invariant |
| Page.AnnotationPage.GoToPreviousStep | src/app/page.tsx:127-131 | performs the previous-step transition |
| Page.AnnotationPage.GoToNextStep | src/app/page.tsx:133-137 | performs the next-step transition |
| Page.AnnotationPage.HandleStepSelect | src/app/page.tsx:104-106 | performs the step-select transition for any id |
| Page.AnnotationPage.CloseWelcome | src/app/page.tsx:153 | closes the welcome modal, then runs the effect |
| Page.AnnotationPage.OpenWelcome | src/app/page.tsx:211 | reopens the welcome modal |
| Page.AnnotationPage.CloseCompletion | src/app/page.tsx:159 | closes the completion modal |

## Left out

- All rendering: markup, class strings, icons (`getActionIcon`, the category icons and colours), tooltips, progress-bar widths and the demo highlight of step 6. These are presentation only.
- The flag chip's text (the flag name with underscores shown as spaces, and the "+N" count). Only the chip's colour is modelled.
- Displayed averages and scores are not rounded by `toFixed(1)`. A zero score is not replaced by the "-" placeholder. The model keeps the exact values.
- The submit button, its notification and its `setTimeout`. This is asynchronous presentation.
- The `beforeunload` listener. It is a host-environment side effect; the flag it reads is modelled (`Page.UnsavedChanges`).
- React scheduling. The completion effect is re-checked after every event that changes one of its inputs, rather than on a render.
- `new Date()` and the date arithmetic of the next-Friday helper. Only the weekday arithmetic is modelled. The resulting date string is a parameter of the sample steps.
- `JSON.stringify` is a host function. The tool-call and fallback branches of the description take the serialiser as a parameter.
- JavaScript numbers are doubles. Scores, ratings, coordinates and durations are integers here, and non-integer values are not rendered.
- RubricPanel.WeightedScore: a rubric whose negative and positive weights sum to exactly 0 gives 0 here. JavaScript divides by zero there and can show ±Infinity.
- ActionUtils.ActionLabel: the object lookup also matches inherited property names such as `constructor`. That is not modelled.
- The long free-text fields of the sample data are empty strings in the model: step reasoning and observations, task context, expected and final outcome, notes, justifications and overall notes. No behaviour depends on their contents.
- Optional `metadata` of steps and `environment` of trajectories. No core code reads them.
- The observation toggle of the step detail and its disabled navigation buttons. The buttons' guards are the same index tests the navigation handlers make.
- `src/components/onboarding/WelcomeModal.tsx` and `src/components/brand/MercorLogo.tsx` are not part of this model. They are static markup.

## Findings

| source | as written | input that shows it | evidently intended | confidence | as-written member | corrected member |
|---|---|---|---|---|---|---|
| src/app/page.tsx:72-75 | the completion check looks up the score store by the category names `correctness` … `safety`, but the rubric panel stores scores by rubric item id (`rubric-1` …), see src/app/page.tsx:120 | the sample session with all ten steps rated and all five rubric items scored 1–5 through the panel: the check stays false and the completion modal never opens | every category has a rubric item with a positive stored score (`Page.IsAnnotationCompleteByItems`) | high; not executed | Page.SampleNeverCompletes | Page.SampleFullScoringDiffers |

The session transition `Page.Apply` and the class keep the check as written, so that they describe what the page does. The corrected predicate is stated and proved beside it.

# Assessment generator wizard — verified model

This project models the client-side core of a three-step web wizard that
collects assessment-generation parameters and submits them to a remote
generation service:

- **content** step: course ids, topics and uploaded files;
- **configuration** step: question types with counts, Bloom's-taxonomy weights, difficulty and time limit;
- **results** step: the generated questions, which can be expanded, edited and exported.

The page polls the service for the job's status, then shows the results.
A separate login form checks the lengths of the credentials before it calls the login service.

The model has one Dafny module per source component:

| module | file | source |
|---|---|---|
| `SubjectTopicInput` | topic_input.dfy | src/components/SubjectTopicInput.tsx |
| `ContentInputStep` | content_input.dfy | src/components/ContentInputStep.tsx |
| `ConfigurationStep` | configuration.dfy | src/components/ConfigurationStep.tsx |
| `StepNavigation` | step_navigation.dfy | src/components/StepNavigation.tsx |
| `IndexPage` | index_page.dfy | src/pages/Index.tsx |
| `ResultsStep` | results.dfy | src/components/ResultsStep.tsx |
| `Login` | login.dfy | src/pages/Login.tsx |

Two helper modules support them:

- `Common` (common.dfy) holds the JavaScript array idioms: `filter`, `slice(0, n)`, `[...new Set(...)]` and removal by index.
- `Text` (text.dfy) holds the string operations: ECMAScript `trim`, `endsWith`, decimal `toString` and the comma join of an array in a template literal.

Form follows the source:

- State that a component updates in place is a class with fields and methods: the topic field, the content step's picker state, the wizard page, the results session and the login form. Each method states its new state in terms of the specification functions.
- Handlers that only compute a new list or value and hand it to a callback are pure functions. Their meaning is proved in lemmas about them.
- The loops in the source are `while` loops with invariants, proved against a specification function:
  - the `forEach` that appends one `question_types` field per submitted type (`IndexPage.BuildGenerationForm`);
  - the self-rescheduling status poll (`IndexPage.Poll`).

Remote calls become parameters. The login answer, the submission's answer and the sequence of status responses are arguments of the methods that consume them.

Three behaviours of the code are worth stating, because a reader might expect otherwise:

- A FAILED job status reaches the completion callback, because the `onError` call in that branch is commented out (src/pages/Index.tsx:119-123). The wizard therefore shows the results step for a failed job. The model does this, and `IndexPage.PollPendingThenCompleted` states it for one input.
- The Generate button refuses only a total of exactly 0 questions (src/components/ConfigurationStep.tsx:309). With no negative count this is the same as requiring a positive total, which `ConfigurationStep.GenerateEnabledMeans` proves.
- Course search is a fixed nine-entry catalogue (src/components/ContentInputStep.tsx:36-46).

## Model

| member | source | states |
|---|---|---|
| SubjectTopicInput.TopicsAfterAdd | src/components/SubjectTopicInput.tsx:17-22 | the list grows by exactly one element iff the trimmed input is non-empty and not yet listed; the new element is the trimmed input; the old list is a prefix of the new one; a list without duplicates stays without duplicates |
| SubjectTopicInput.TopicsAfterRemove | src/components/SubjectTopicInput.tsx:24-26 | the topic is gone, every other topic keeps its membership and its multiplicity |
| SubjectTopicInput.AddKeepsTopicsClean | src/components/SubjectTopicInput.tsx:17-22 | a list of distinct, trimmed, non-empty topics keeps all three properties after any add |
| SubjectTopicInput.RemoveKeepsTopicsClean | src/components/SubjectTopicInput.tsx:24-26 | the same three properties survive a removal |
| SubjectTopicInput.WhitespaceNeverAdded | src/components/SubjectTopicInput.tsx:18 | input made only of whitespace leaves the list unchanged |
| SubjectTopicInput.TopicInput.AddTopic | src/components/SubjectTopicInput.tsx:17-22 | hands on the list computed by TopicsAfterAdd; clears the field only when the topic was accepted |
| Text.Trim | src/components/ContentInputStep.tsx:92 | the result is a contiguous part of the input with only whitespace cut on both sides, and it neither starts nor ends with whitespace |
| Text.TrimIdempotent | src/components/ContentInputStep.tsx:92 | trimming twice is trimming once |
| Text.TrimEmptyIff | src/components/ContentInputStep.tsx:92 | the trimmed text is empty iff the input is all whitespace |
| Text.NatToStringValue | src/components/ContentInputStep.tsx:157 | the decimal digits of a count read back as that count |
| Text.JoinSnoc | src/pages/Index.tsx:146 | joining one more part appends the separator and the part, so the course ids appear in order, comma-separated |
| Common.DedupSnoc | src/pages/Index.tsx:58 | `[...new Set([...prev, x])]` appends x when it is new and otherwise keeps the list, which fixes the order of first occurrence |
| ContentInputStep.SelectCourse | src/components/ContentInputStep.tsx:67-85 | "NA" gives exactly ["NA"]; outside comprehensive mode the result is [value]; in comprehensive mode "NA" is dropped, the value is present iff it was absent, every other id keeps its membership |
| ContentInputStep.SingleSelectAtMostOne | src/components/ContentInputStep.tsx:74-76 | outside comprehensive mode exactly one course is selected |
| ContentInputStep.MultiSelectKeepsDistinct | src/components/ContentInputStep.tsx:77-84 | multi-select never creates a duplicate |
| ContentInputStep.MultiSelectTwice | src/components/ContentInputStep.tsx:77-84 | selecting the same course twice removes "NA" and otherwise restores the list; order is kept when the course was absent, and a present course moves to the end |
| ContentInputStep.MultiSelectTwiceMembership | src/components/ContentInputStep.tsx:77-84 | selecting twice restores the set of selected courses except "NA" |
| ContentInputStep.RemoveCourseId | src/components/ContentInputStep.tsx:87-89 | every copy of the id goes, the rest stay with their multiplicities |
| ContentInputStep.ButtonLabel | src/components/ContentInputStep.tsx:151-158 | no ids show "Select course..."; one id shows either that id or the label of a catalogue entry with that value; two or more show the count's decimal digits followed by " courses selected" |
| ContentInputStep.SelectedCourseLabel | src/components/ContentInputStep.tsx:151-158 | the same for the step's own catalogue: the prompt for no ids, and for one id either the id or the label of its catalogue entry |
| ContentInputStep.FindLabel | src/components/ContentInputStep.tsx:154 | a label is found iff some entry has that value, and it is the label of such an entry |
| ContentInputStep.FindLabelFirst | src/components/ContentInputStep.tsx:154 | the label found is the first matching entry's |
| ContentInputStep.CatalogueValuesDistinct | src/components/ContentInputStep.tsx:36-46 | no two catalogue entries share a value |
| ContentInputStep.ButtonLabelOfListed | src/components/ContentInputStep.tsx:153-156 | for a catalogue with distinct values, one listed course shows its non-empty label |
| ContentInputStep.SingleCourseLabel | src/components/ContentInputStep.tsx:153-156 | one selected catalogue course shows its catalogue label |
| ContentInputStep.UnknownCourseLabel | src/components/ContentInputStep.tsx:155 | one selected id outside the catalogue shows itself |
| ContentInputStep.ManyCoursesLabel | src/components/ContentInputStep.tsx:157 | two or more courses show the count in decimal followed by " courses selected" |
| ContentInputStep.AcceptedTranscripts | src/components/ContentInputStep.tsx:104-106 | exactly the picked files named .vtt or .txt are kept, each as many times as it was picked; nothing is dropped iff all are valid |
| ContentInputStep.AcceptedTranscriptsConcat | src/components/ContentInputStep.tsx:104-106 | the valid files of two batches of picks are those of the first followed by those of the second, so pick order is kept |
| ContentInputStep.AcceptedTranscriptsSingle | src/components/ContentInputStep.tsx:104-106 | a single pick is kept iff it is named .vtt or .txt; with the concatenation lemma this determines the list |
| ContentInputStep.UploadTranscripts | src/components/ContentInputStep.tsx:102-119 | the result is the first min(10, existing + valid) files of the existing files followed by the valid picks in pick order, so on overflow the first valid picks fill the free slots; the notice is shown iff some picked file is invalid |
| ContentInputStep.TranscriptCapReached | src/components/ContentInputStep.tsx:116 | with ten attached, an upload changes nothing |
| ContentInputStep.OversizeNames | src/components/ContentInputStep.tsx:124-132 | the "too large" notices name exactly the picked .pdf files over 25 MiB |
| ContentInputStep.AcceptedMaterials | src/components/ContentInputStep.tsx:123-134 | exactly the picked .pdf files of at most 25 MiB are kept, each as many times as it was picked |
| ContentInputStep.AcceptedMaterialsConcat | src/components/ContentInputStep.tsx:123-134 | the valid materials of two batches of picks are those of the first followed by those of the second, so pick order is kept |
| ContentInputStep.AcceptedMaterialsSingle | src/components/ContentInputStep.tsx:123-134 | a single pick is kept iff it is a .pdf of at most 25 MiB |
| ContentInputStep.UploadMaterials | src/components/ContentInputStep.tsx:121-139 | the result is the first min(3, existing + valid) files of the existing files followed by the valid PDFs in pick order, so on overflow the first valid PDFs fill the free slots; the notices name the oversize PDFs |
| ContentInputStep.MaterialsWithinLimit | src/components/ContentInputStep.tsx:123-136 | no attached material exceeds 25 MiB |
| ContentInputStep.MaterialCapReached | src/components/ContentInputStep.tsx:136 | with three attached, an upload changes nothing |
| ContentInputStep.ProceedAfterAdd | src/components/ContentInputStep.tsx:149 | adding a topic never disables "Next", and a topic with non-blank text always enables it |
| ContentInputStep.RemovingLastTopicBlocks | src/components/ContentInputStep.tsx:149 | removing the only topic disables "Next" |
| Common.RemoveAt | src/components/ContentInputStep.tsx:141-147 | removing by index drops exactly that file and shifts the rest; an index out of range changes nothing |
| ContentInputStep.ContentInput.HandleCourseSelect | src/components/ContentInputStep.tsx:67-85 | hands on SelectCourse's list; closes the picker for "NA" and outside comprehensive mode, and otherwise leaves it as it was |
| ContentInputStep.ContentInput.AddTopic | src/components/ContentInputStep.tsx:91-96 | same contract as the topic editor's addTopic |
| ConfigurationStep.ToggleQuestionType | src/components/ConfigurationStep.tsx:68-74 | only the enabled flag of the rows with that id flips |
| ConfigurationStep.ToggleTwice | src/components/ConfigurationStep.tsx:68-74 | toggling twice restores the table |
| ConfigurationStep.UpdateQuestionCount | src/components/ConfigurationStep.tsx:76-82 | only the count of the rows with that id changes, to max(0, count); counts stay non-negative |
| ConfigurationStep.TotalQuestions | src/components/ConfigurationStep.tsx:90-92 | with no enabled row the total is 0 |
| ConfigurationStep.BloomTotal | src/components/ConfigurationStep.tsx:94 | with non-negative weights the total is non-negative and at least every single weight |
| ConfigurationStep.GenerateDisabled | src/components/ConfigurationStep.tsx:309 | the button is disabled while generating, when no type is enabled, and when a single non-negative weight exceeds 100 |
| ConfigurationStep.TotalIgnoresDisabled | src/components/ConfigurationStep.tsx:90-92 | a disabled row's count never affects the total |
| ConfigurationStep.TotalNonNegative | src/components/ConfigurationStep.tsx:90-92 | non-negative counts give a non-negative total |
| ConfigurationStep.TotalAfterRowChange | src/components/ConfigurationStep.tsx:90-92 | changing one row changes the total by that row's change |
| ConfigurationStep.ToggleChangesTotal | src/components/ConfigurationStep.tsx:68-74 | with distinct ids, a toggle adds or subtracts exactly that row's count |
| ConfigurationStep.Weight | src/components/ConfigurationStep.tsx:85 | a weight is found iff the level is a key, and it is that key's value |
| ConfigurationStep.AdjustBloomValue | src/components/ConfigurationStep.tsx:84-88 | the new weight is the current one (0 when missing) plus delta, clamped to [0, 100] |
| ConfigurationStep.GenerateEnabledMeans | src/components/ConfigurationStep.tsx:309 | an enabled button means not generating, weights summing to 100 and, with non-negative counts, a positive total |
| StepNavigation.StepIndex | src/components/StepNavigation.tsx:27-28 | the position of the step, -1 exactly for an unknown id |
| StepNavigation.CanNavigateTo | src/components/StepNavigation.tsx:26-39 | a known step is navigable only if it is before the current one, completed, the first step, or preceded by a completed step; the lemmas below give the converse |
| StepNavigation.ButtonEnabled | src/components/StepNavigation.tsx:25-52 | without topics or course ids (`canProceed` false) no step button is enabled; with both, the first step and every completed step are enabled |
| StepNavigation.EarlierStepNavigable | src/components/StepNavigation.tsx:30 | a step before the current one is always navigable |
| StepNavigation.CompletedStepNavigable | src/components/StepNavigation.tsx:31 | a completed step is always navigable |
| StepNavigation.FirstStepNavigable | src/components/StepNavigation.tsx:33-38 | the first step is always navigable |
| StepNavigation.LaterStepNavigableIff | src/components/StepNavigation.tsx:33-36 | a step not before the current one and not completed is navigable iff its predecessor is completed |
| StepNavigation.AtStartOnlyFirstStep | src/components/StepNavigation.tsx:26-39 | at the start only the first step is navigable |
| StepNavigation.AfterClick | src/components/StepNavigation.tsx:50-52 | a click changes the step only when the step is navigable and both lists are non-empty; an enabled button always moves to its step |
| IndexPage.DefaultsBalanced | src/pages/Index.tsx:11-16 | the default weights sum to 100, the default types ask for 15 questions, and generation is enabled |
| IndexPage.WithBloomValue | src/pages/Index.tsx:44-46 | the order of the keys is kept; a new key is appended |
| IndexPage.WithBloomValueWeights | src/pages/Index.tsx:44-46 | the level gets the value, every other level keeps its weight |
| IndexPage.WithBloomValueDistinct | src/pages/Index.tsx:44-46 | each level keeps a single weight |
| IndexPage.BloomTotalAfterChange | src/pages/Index.tsx:44-46 | the weight total changes by the difference between the new and the old weight |
| IndexPage.AdjustUnbalances | src/components/ConfigurationStep.tsx:84-88 | from balanced weights, an unclamped +5/-5 unbalances them |
| IndexPage.SubmittedTypeIds | src/pages/Index.tsx:136-138 | exactly the ids of the rows that are enabled and have a positive count; distinct when the rows' ids are |
| IndexPage.SubmittedTypeIdsConcat | src/pages/Index.tsx:136-138 | the submitted ids follow the table order |
| IndexPage.FormCarriesConfiguration | src/pages/Index.tsx:144-163 | read back from the form: question_types is the list of submitted ids, total_questions is the enabled total, force is "false" |
| IndexPage.BuildGenerationForm | src/pages/Index.tsx:144-163 | the loop builds exactly the specified form |
| IndexPage.PollTrace | src/pages/Index.tsx:100-131 | at most one callback; none iff every response says to keep polling |
| IndexPage.PollStopsAtFirstTerminal | src/pages/Index.tsx:105-128 | the first non-continuing response decides: an exception gives onError, COMPLETED or FAILED gives onComplete |
| IndexPage.PollPendingThenCompleted | src/pages/Index.tsx:114-126 | PENDING, PENDING, COMPLETED completes; FAILED completes too; an exception stops polling |
| IndexPage.Poll | src/pages/Index.tsx:105-130 | the callbacks equal PollTrace; a request is made for each answer up to and including the deciding one |
| IndexPage.StartOverState | src/pages/Index.tsx:216-236 | starting over leaves a valid wizard on the content step with nothing completed, weights summing to 100 and 15 questions, and keeps the assessment type and the generating flag |
| IndexPage.InitialState | src/pages/Index.tsx:19-42 | the first state is valid, is its own start-over state, has the practice type and is neither generating nor generated |
| IndexPage.CompletedState | src/pages/Index.tsx:184-200 | completion keeps the wizard valid, opens the results step, ends generating, and adds "configuration" to the completed steps and nothing else |
| IndexPage.StartOverIdempotent | src/pages/Index.tsx:216-236 | starting over twice is starting over once |
| IndexPage.CompletionRecordsConfigurationOnce | src/pages/Index.tsx:191-193 | completion appends "configuration" to the completed steps only when it is missing |
| IndexPage.Wizard.constructor | src/pages/Index.tsx:19-42 | the initial state: practice type, content step, defaults |
| IndexPage.Wizard.HandleBloomChange | src/pages/Index.tsx:44-46 | only the weights change, as WithBloomValue says |
| IndexPage.Wizard.HandleContentNext | src/pages/Index.tsx:48-60 | it goes ahead iff the content step's `canProceed` holds; with no topics nothing changes; otherwise "content" is recorded once and the configuration step opens |
| IndexPage.Wizard.SetCurrentStep | src/pages/Index.tsx:299 | only the current step changes (also step-bar clicks, Index.tsx:267) |
| IndexPage.Wizard.SelectAssessmentType | src/pages/Index.tsx:257-260 | the type changes and the course ids are cleared |
| IndexPage.Wizard.HandleStartOver | src/pages/Index.tsx:216-236 | every field returns to its default except the assessment type and the generating flag |
| IndexPage.Wizard.BeginGenerate | src/pages/Index.tsx:133-163 | the generating flag is set and the form is GenerationForm of the current state |
| IndexPage.Wizard.OnGenerationComplete | src/pages/Index.tsx:184-200 | results step, not generating, generated, "configuration" recorded once |
| IndexPage.Wizard.OnGenerationFailed | src/pages/Index.tsx:201-204 | only the generating flag drops (also the catch, Index.tsx:209-212) |
| IndexPage.Wizard.HandleGenerate | src/pages/Index.tsx:133-213 | a rejected submission or an exception only ends generating; a terminal status completes; with no decision yet the wizard stays generating |
| ResultsStep.Toggled | src/components/ResultsStep.tsx:166-170 | the id is present iff it was absent, others keep their membership, no duplicate appears |
| ResultsStep.ToggleTwice | src/components/ResultsStep.tsx:166-170 | toggling twice restores membership, and the list itself when the id was absent |
| ResultsStep.Session.ToggleQuestion | src/components/ResultsStep.tsx:166-170 | the expanded list becomes Toggled of the old one |
| ResultsStep.Session.HeaderClick | src/components/ResultsStep.tsx:384 | clicking the header text toggles, except on the question being edited |
| ResultsStep.Session.StartEditing | src/components/ResultsStep.tsx:172-178 | the editing id and draft are the question; its id is expanded without being listed twice |
| ResultsStep.Session.CancelEditing | src/components/ResultsStep.tsx:180-183 | the edit state is cleared and nothing else changes |
| ResultsStep.ReplaceById | src/components/ResultsStep.tsx:187 | same length and order; exactly the questions with the draft's id become the draft |
| ResultsStep.ReplaceByIdKeepsIds | src/components/ResultsStep.tsx:187 | saving keeps the sequence of ids, hence distinct ids |
| ResultsStep.ReplaceByIdFacts | src/components/ResultsStep.tsx:187 | an unknown id changes nothing; saving twice is saving once |
| ResultsStep.SaveReplacesOnlyEdited | src/components/ResultsStep.tsx:185-194 | with distinct ids, saving a draft of question k replaces question k only |
| ResultsStep.Session.SaveEditing | src/components/ResultsStep.tsx:185-194 | without a draft the questions stay; with one they become ReplaceById; the edit state is cleared |
| ResultsStep.WithField | src/components/ResultsStep.tsx:196-199 | the chosen field gets the value, every other field is kept |
| ResultsStep.WithFieldOwnValue | src/components/ResultsStep.tsx:196-199 | writing back a field's own value changes nothing |
| ResultsStep.Session.UpdateEditForm | src/components/ResultsStep.tsx:196-199 | no draft means no change; otherwise the draft becomes WithField of it |
| ResultsStep.WithOptionText | src/components/ResultsStep.tsx:201-206 | only option i's text changes; labels and option count are kept |
| ResultsStep.OptionTextKeepsAnswer | src/components/ResultsStep.tsx:201-206 | a correct answer naming an option still names one after a text edit |
| ResultsStep.Session.UpdateOptionText | src/components/ResultsStep.tsx:201-206 | the copied option array with index i rewritten becomes the draft's options |
| ResultsStep.Session.ChooseCorrectAnswer | src/components/ResultsStep.tsx:466-476 | the correct answer becomes the chosen option's label, so it is always one of the labels |
| ResultsStep.Session.ExpandAll | src/components/ResultsStep.tsx:343 | the expanded list is exactly the question ids, in order |
| ResultsStep.Session.CollapseAll | src/components/ResultsStep.tsx:350 | the expanded list is empty |
| ResultsStep.Session.SelectFormat | src/components/ResultsStep.tsx:562 | the format becomes the clicked one |
| ResultsStep.ExportId | src/components/ResultsStep.tsx:225 | a non-empty specific id wins, else the comma-joined course ids, else "undefined" |
| ResultsStep.ExportTarget | src/components/ResultsStep.tsx:224-237 | a request exists iff the format is json or pdf; url, file name and MIME type are the base url plus download_<format>/<id>, assessment.<format>, application/<format> |
| ResultsStep.WordExportsNothing | src/components/ResultsStep.tsx:143-147 | of the offered formats only "word" makes no request |
| ResultsStep.ExportUrlCarriesId | src/components/ResultsStep.tsx:225-232 | the url ends with the course id it was built from |
| ResultsStep.Session.Export | src/components/ResultsStep.tsx:216-237 | the request built equals ExportTarget of the selected format and id |
| ResultsStep.EditScenario | src/components/ResultsStep.tsx:172-194 | edit then cancel leaves the questions as they were; edit then save replaces question k only |
| Login.ValidationMessage | src/pages/Login.tsx:22-38 | the login call is reached iff username ≥ 3 and password ≥ 8 characters; a short username gives the username message, otherwise a short password gives the password message |
| Login.UsernameCheckedFirst | src/pages/Login.tsx:22-38 | with both too short, only the username error is raised |
| Login.FailureMessage | src/pages/Login.tsx:53 | the service's non-empty message, otherwise "Invalid credentials."; never empty |
| Login.AfterLogin | src/pages/Login.tsx:44-56 | success iff navigating to "/"; a failure shows FailureMessage |
| Login.LoginForm.HandleSubmit | src/pages/Login.tsx:19-57 | an invalid form makes no call and leaves loading alone; a valid one calls login once with the fields, with loading on during the call and off afterwards, and shows AfterLogin of the answer |

## Left out

- Network I/O is left out: the generate, status and download requests, the blob download through a DOM link, and the login request with its local-storage session. The answers these calls give are parameters of the methods that use them.
- The 5-second timer between status requests is not modelled. Polling is a decision over a given sequence of responses. A response without a `status` field is treated like any non-terminal status.
- Completion callbacks can fire after the user starts over, because the asynchronous interleaving is not modelled. Each callback is a method applied to whatever state it finds.
- The `FormData` wire encoding and `JSON.stringify` of the weights and topics are not modelled. These fields stay structured values in `IndexPage.FormEntry`.
- `parseInt(...) || default` on the number inputs is not modelled; the handlers receive numbers.
- Toasts, rendering, colours, icons and the `e.target.value = ""` resets of the file inputs are presentation only.
- The presentational components (difficulty, Bloom sliders, count input, generate button, loader dialog, header, type selector) are left out. Their only logic is a sum or a flag, and that logic is modelled in `ConfigurationStep`.
- The per-question-type result normaliser is not part of this model; no shown source file contains it.
- The page's plain setters handed down as callbacks (`setCourseIds`, `setTopics`, `setNotes`, the file setters, `setQuestionTypes`, `setAssessmentLevel`, `setTimeLimit`) are not wizard methods. Each replaces one field with the value that the modelled child computation produces.
- Call sites pass different props than the components declare: `StepNavigation` gets no topics or course ids, `ResultsStep` gets no questions (src/pages/Index.tsx:265-269, 307-315). The components are modelled with their declared parameters.
- String lengths count Dafny characters, not UTF-16 code units as JavaScript does. The two differ only for characters outside the Basic Multilingual Plane.
- ResultsStep.Session.UpdateEditForm: only the five string-valued keys of a question are modelled. JavaScript would also let a string be written into `id`, `bloomPercent` or `options`, but the page never does so.
- ResultsStep.Session.UpdateOptionText: requires an index within the draft's options, which the rendered list always passes. An out-of-range index in JavaScript would grow the array with a hole.
- ResultsStep.Session.StartEditing: the draft is a value, so the source's deep copy of the options is implicit rather than modelled as separate objects.
- StepNavigation: the `findIndex` for an unknown current step is modelled (-1), but the page only ever passes the three known step ids.

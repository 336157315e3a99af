# Anamnesis questionnaire workflow, modelled in Dafny

The application is a single-page tool for the front desk of a diagnostic-imaging clinic. A
technician looks up a patient's anamnesis questionnaire by CPF (the Brazilian national
identifier). They then correct the answers and apply or dismiss AI suggestions, review the
consolidated answers, and collect two signatures. Finishing generates a PDF and starts over. The
whole session runs through four steps: Busca, Edição, Revisão and Assinatura.

This project models that core as pure Dafny functions over immutable state. It proves what the
code guarantees and also where it departs from what one would expect.

- `wrappers.dfy` (`Wrappers`): `T | undefined | null` as `Option<T>`, and JavaScript
  truthiness of an optional string (`Truthy`: present and non-empty).
- `seqs.dfy` (`Seqs`): `Array.prototype.filter`, and `Array.from(new Set(xs))` as
  distinct-in-first-seen-order.
- `report_types.dfy` (`ReportTypes`): the records of `src/types/report.ts` with the label and
  colour tables.
- `workflow.dfy` (`Workflow`): the controller hook `useReportWorkflow`. Each callback is a
  function from the state before the call to the state after it.
- `cpf.dfy` (`Cpf`) and `search.dfy` (`Search`): the CPF mask, the search gate and the filter
  over the report list, from `SearchReport`.
- `grouping.dfy` (`Grouping`): the category sections that `EditReport` and `ReviewReport`
  both build.
- `edit_view.dfy` (`EditView`): the pending suggestions, collapsible sections, answer drafts,
  apply button and in-place answer editing of `EditReport`.
- `review_view.dfy` (`ReviewView`): the review of the consolidated answers.
- `signature_view.dfy` (`SignatureView`): the finish gate and the PDF of `SignatureStep`. The
  PDF is modelled as a value saying which text and image goes on which page, at which
  coordinates and in which font size.
- `stepper.dfy` (`Stepper`): the buttons, badges and connectors of `WorkflowStepper`.
- `app.dfy` (`App`): the page `Index`, in four parts:
  - which view is shown for which step;
  - which button reaches which transition;
  - the view-local state that survives only while its view stays mounted;
  - `Run`, which replays any sequence of user actions from the freshly loaded page.

  Over `Run` the project proves an invariant of every reachable page, and proves concrete
  scenarios.

Three external inputs become parameters:
- the report list: the application searches a fixed fixture;
- the clock: `completeReport` stamps the time, so the model takes `now`;
- the signature images: a drawn signature is an opaque data-URL string.

## Model

| member | source | states |
|---|---|---|
| Seqs.Filter | src/hooks/useReportWorkflow.ts:71 | `filter` keeps exactly the elements that satisfy the predicate and never makes the list longer |
| Seqs.FilterAppend | src/components/SearchReport.tsx:48-50 | filtering a concatenation is the concatenation of the filtered parts, so a filter keeps the relative order of what it keeps |
| Seqs.FilterIdempotent | src/hooks/useReportWorkflow.ts:71 | filtering a second time with the same predicate changes nothing |
| Seqs.Distinct | src/components/ReviewReport.tsx:15 | `Array.from(new Set(xs))` has no duplicates and has exactly the members of `xs` |
| Seqs.DistinctFirstSeen | src/components/ReviewReport.tsx:15 | the distinct values come in the order of their first occurrence in `xs` |
| ReportTypes.ExamTypeLabelsDistinct | src/types/report.ts:60-65 | the label table gives the four exam types four different names |
| ReportTypes.ExamTypeColorsFollowCode | src/types/report.ts:67-72 | every colour class is `bg-exam-` followed by the exam type's own code |
| ReportTypes.ExamTypeCodesDistinct | src/types/report.ts:1 | the four exam-type literals are pairwise different |
| Workflow.InitialSteps | src/hooks/useReportWorkflow.ts:4-9 | four steps with ids 1 to 4: the first active, the others pending |
| Workflow.Initial | src/hooks/useReportWorkflow.ts:11-19 | the hook starts at step 1 with a valid stepper, only step 1 active, no report, no answers, no applied suggestions and no signatures |
| Workflow.UpdateStepStatus | src/hooks/useReportWorkflow.ts:21-25 | exactly the steps carrying the id get the new status; ids, titles, descriptions, length and order are kept |
| Workflow.GoToStep | src/hooks/useReportWorkflow.ts:27-38 | a target outside 1..4 changes nothing; otherwise the target becomes current and active, the step left is marked complete only on a forward move, and no other step (nor any step's id, title or description) or field changes |
| Workflow.GoToStepKeepsStepsValid | src/hooks/useReportWorkflow.ts:27-38 | after a move the current step is still in 1..4 and shown active, the four steps keep their ids and titles, and step 4 is never complete |
| Workflow.SelectReport | src/hooks/useReportWorkflow.ts:40-48 | the report becomes the session's report with its answers copied for editing; applied suggestions, synthesised answers and both signatures are cleared; the workflow moves to step 2 |
| Workflow.UpdateAnswer | src/hooks/useReportWorkflow.ts:50-54 | only the answer text of the entries with that id changes; ids, questions, categories, length, order and the rest of the state are kept |
| Workflow.UpdateAnswerUnknownId | src/hooks/useReportWorkflow.ts:50-54 | an id no edited answer has leaves the state unchanged |
| Workflow.ApplySuggestion | src/hooks/useReportWorkflow.ts:56-68 | exactly one applied record is appended (marked applied, carrying the answer), with no duplicate check; one answer `additional-<id>` in "Perguntas Adicionais" is appended iff the suggestion is an additional question with a non-empty answer; nothing else changes |
| Workflow.ApplyDoesNotDeduplicate | src/hooks/useReportWorkflow.ts:57 | applying the same suggestion twice leaves two identical applied records |
| Workflow.ApplyScenario | src/hooks/useReportWorkflow.ts:59-66 | applying additional question `s1` with answer "Sim" appends `additional-s1` with that question and answer under "Perguntas Adicionais" |
| Workflow.ApplyEmptyAnswerSynthesizesNothing | src/hooks/useReportWorkflow.ts:59 | an empty or missing answer synthesises no answer |
| Workflow.DismissSuggestion | src/hooks/useReportWorkflow.ts:70-72 | the applied records kept are exactly those whose id differs from the dismissed one; the synthesised answers and all other fields are untouched |
| Workflow.DismissKeepsOrder | src/hooks/useReportWorkflow.ts:70-72 | dismissal keeps the relative order of the remaining records |
| Workflow.DismissIdempotent | src/hooks/useReportWorkflow.ts:70-72 | dismissing the same id twice equals dismissing it once |
| Workflow.DismissUnknownId | src/hooks/useReportWorkflow.ts:70-72 | dismissing an id with no applied record changes nothing |
| Workflow.DismissKeepsSynthesizedAnswer | src/hooks/useReportWorkflow.ts:56-72 | after applying an answered additional question and dismissing it, its record is gone but its synthesised answer remains |
| Workflow.GetAllAnswers | src/hooks/useReportWorkflow.ts:74-76 | the consolidated answers are the edited answers followed by the synthesised ones |
| Workflow.ResetWorkflow | src/hooks/useReportWorkflow.ts:78-87 | from any state: step 1, the initial steps, no report, no answers, no applied suggestions, no signatures |
| Workflow.ResetLeavesNothing | src/hooks/useReportWorkflow.ts:78-100 | after a reset the state is the initial one, there are no answers, and `completeReport` yields nothing |
| Workflow.SetPatientSignature | src/hooks/useReportWorkflow.ts:18 | the patient signature is replaced and nothing else changes |
| Workflow.SetTechnicianSignature | src/hooks/useReportWorkflow.ts:19 | the technician signature is replaced and nothing else changes |
| Workflow.CompleteReport | src/hooks/useReportWorkflow.ts:89-100 | nothing iff no report is selected; otherwise the report with the consolidated answers, status completed, each signature present iff truthy, and the given completion time, every other field unchanged |
| Workflow.BackwardMoveLeavesTwoActive | src/hooks/useReportWorkflow.ts:27-38 | after selecting a report, continuing to step 3 and returning to step 2, steps 2 and 3 are both active |
| Cpf.Digits | src/components/SearchReport.tsx:18 | `replace(/\D/g, '')` keeps every ASCII digit of the input and nothing else, and never lengthens the string |
| Cpf.DigitsAppend | src/components/SearchReport.tsx:18 | the digits of a concatenation are the digits of the first part followed by those of the second, so the digits keep their order |
| Cpf.DigitsOfDigits | src/components/SearchReport.tsx:18 | a string of digits passes through unchanged |
| Cpf.DigitsJoin | src/components/SearchReport.tsx:20-22 | a separator placed between two parts adds no digit |
| Cpf.FormatCpf | src/components/SearchReport.tsx:17-23 | the mask consists of digits, dots and hyphens only |
| Cpf.Mask | src/components/SearchReport.tsx:19-22 | the first three digits come through unchanged, and every other character of the layout is one of the digits or a separator |
| Cpf.FormatCpfDigits | src/components/SearchReport.tsx:17-23 | the digits of the mask are the first (at most eleven) digits typed; the separators add none |
| Cpf.FormatCpfShape | src/components/SearchReport.tsx:17-23 | the mask's length and separator positions depend only on the number of digits (`ddd`, `ddd.ddd`, `ddd.ddd.ddd`, `ddd.ddd.ddd-dd`), and every other position is a digit |
| Cpf.FormatCpfAtMost14 | src/components/SearchReport.tsx:31-36 | the mask never exceeds 14 characters, so the length guard never rejects it |
| Cpf.FormatCpfLongEnough | src/components/SearchReport.tsx:39 | the masked key has at least 11 characters exactly when at least 9 digits were typed |
| Cpf.FormatCpfSameDigits | src/components/SearchReport.tsx:17-23 | two inputs with the same first eleven digits get the same mask |
| Cpf.FormatCpfIdempotent | src/components/SearchReport.tsx:17-23 | masking an already masked key changes nothing |
| Cpf.ElevenDigitMask | src/components/SearchReport.tsx:22 | `12345678909` is shown as `123.456.789-09` |
| Search.HandleCpfChange | src/components/SearchReport.tsx:31-36 | the search box always ends up holding the mask of the input |
| Search.IncludesIff | src/components/SearchReport.tsx:49 | `includes` holds iff the needle occurs at some position of the string |
| Search.Includes | src/components/SearchReport.tsx:49 | a match needs the needle to be no longer than the string, and a needle at the start always matches |
| Search.SearchKey | src/components/SearchReport.tsx:49 | the key consists of digits only and is the first three digits of the box, or all of them when fewer were typed |
| Search.Matches | src/components/SearchReport.tsx:48-50 | the filter predicate: the patient's CPF contains the key (its meaning is stated by `Search.MatchesIff`) |
| Search.MatchesIff | src/components/SearchReport.tsx:48-50 | a report passes the filter exactly when the key occurs at some position of its patient's CPF |
| Search.HandleSearch | src/components/SearchReport.tsx:38-54 | below 11 characters nothing changes; otherwise a search has run and its results are the reports, in list order, whose CPF contains the first three digits of the key |
| Search.SearchGateNineDigits | src/components/SearchReport.tsx:39 | with a masked key the button is disabled, and a search does nothing, exactly when fewer than 9 digits were typed; from 9 digits the search runs with the first three digits as key |
| Search.SearchKeepsOrder | src/components/SearchReport.tsx:48-50 | the results keep the order of the report list |
| Search.SearchMatchesInside | src/components/SearchReport.tsx:48-50 | a CPF whose key digits occur later in it, not at its start, still matches |
| Search.ElevenDigitKey | src/components/SearchReport.tsx:49 | the key of `123.456.789-09` is `123` |
| Search.SearchElevenDigits | src/components/SearchReport.tsx:38-54 | searching `123.456.789-09` finds a report whose CPF is stored as bare digits |
| Grouping.CategoriesFirstSeen | src/components/EditReport.tsx:40 | the categories are the answers' categories ('Geral' for a missing or empty one), each once, in first-seen order |
| Grouping.CategoryOf | src/components/EditReport.tsx:40 | an answer with a present, non-empty category goes to that category's section; one with a missing or empty category goes to 'Geral'; the name is never empty |
| Grouping.OwnCategorySection | src/components/EditReport.tsx:224-226 | for every answer list, an answer with a non-empty category is listed under the section of that name and under no other |
| Grouping.Categories | src/components/EditReport.tsx:40 | no category is listed twice, there are never more categories than answers, and every answer's category is listed and only those |
| Grouping.Section | src/components/EditReport.tsx:225 | a section holds exactly the answers of its category and never more answers than there are |
| Grouping.Sections | src/components/EditReport.tsx:224-226 | one section per category, in category order, each holding exactly the answers of its category |
| Grouping.GroupingOf | src/components/EditReport.tsx:224-226 | for any answers: sections named after the distinct categories in first-seen order, none empty, each holding exactly its category's answers, together a permutation of the answers |
| Grouping.SectionMembers | src/components/EditReport.tsx:225 | a section holds exactly the answers of its category |
| Grouping.SectionKeepsOrder | src/components/EditReport.tsx:225 | a section keeps the relative order of the answers |
| Grouping.ExactlyOneSection | src/components/EditReport.tsx:224-226 | every answer appears in exactly one section |
| Grouping.SectionsNonEmpty | src/components/EditReport.tsx:224-226 | no section is empty |
| Grouping.SectionsPartition | src/components/EditReport.tsx:224-226 | the sections, read top to bottom, hold the answers as a permutation, so their sizes add up to the number of answers |
| EditView.PendingSuggestions | src/components/EditReport.tsx:36-38 | the pending suggestions are exactly the report's suggestions with no applied record of the same id, and none when the report has no list |
| EditView.PendingKeepsOrder | src/components/EditReport.tsx:36-38 | the pending list keeps the report's order |
| EditView.NothingAppliedAllPending | src/components/EditReport.tsx:36-38 | with nothing applied every suggestion is pending |
| EditView.ToggleCategory | src/components/EditReport.tsx:42-52 | toggling flips membership of that category and leaves every other one alone |
| EditView.ToggleTwice | src/components/EditReport.tsx:42-52 | toggling twice restores the set |
| EditView.NothingCollapsesWhileAll | src/components/EditReport.tsx:226 | while `'all'` is in the set every section is expanded, and toggling any category other than `'all'` keeps it so |
| EditView.ToggleAllCollapses | src/components/EditReport.tsx:42-52 | toggling a category literally named `'all'` from the initial set collapses every other section |
| EditView.TrimBlank | src/components/EditReport.tsx:57 | `trim()` leaves nothing exactly when the text is all white space |
| EditView.Trim | src/components/EditReport.tsx:57 | `trim()` never lengthens the text, and what it leaves neither starts nor ends with white space |
| EditView.TrimIsInfix | src/components/EditReport.tsx:57 | what `trim()` leaves stands in the text with nothing but white space before and after it |
| EditView.IsExpanded | src/components/EditReport.tsx:226 | a section shows its answers when `'all'` or its own category is in the expanded set (see `EditView.NothingCollapsesWhileAll`) |
| EditView.ApplyDisabled | src/components/EditReport.tsx:205 | the apply button is disabled for an additional question with a blank draft (see `EditView.ApplyDisabledIffNothingApplied`) |
| EditView.SetDraft | src/components/EditReport.tsx:193-196 | typing sets that suggestion's draft and leaves every other draft alone |
| EditView.HandleApplySuggestion | src/components/EditReport.tsx:54-68 | an additional question is applied with its draft, which is then deleted, only when the draft is not blank, and a blank draft changes nothing; a correction is applied with no answer and synthesises nothing |
| EditView.ApplyDisabledIffNothingApplied | src/components/EditReport.tsx:205 | the button's disabled rule holds exactly when a click would apply nothing |
| EditView.StartEditing | src/components/EditReport.tsx:279 | "Editar" makes that answer the one being edited and keeps drafts and sections |
| EditView.CommitEditing | src/components/EditReport.tsx:256-264 | blur or Enter writes the text to the answer being edited and stops editing; with none being edited nothing happens |
| EditView.CancelEditing | src/components/EditReport.tsx:265-267 | Escape stops editing and writes nothing |
| EditView.EditSectionsPartition | src/components/EditReport.tsx:224-226 | the edit view's sections are non-empty, one per category, and partition the edited answers |
| ReviewView.ReviewSectionsPartition | src/components/ReviewReport.tsx:15-46 | the review's sections are named after the categories of the consolidated answers in first-seen order, are non-empty, hold exactly their category's answers and together partition the answers |
| ReviewView.ReviewSectionOrder | src/components/ReviewReport.tsx:46 | inside a section the edited answers come before the synthesised ones |
| ReviewView.TwoSectionScenario | src/components/ReviewReport.tsx:15-46 | two uncategorised answers and one under "Histórico" give a 'Geral' section with two answers followed by a "Histórico" section with one |
| SignatureView.FinishDisabledUnlessSigned | src/components/SignatureStep.tsx:26 | finishing is disabled exactly when a signature is missing or empty |
| SignatureView.CanComplete | src/components/SignatureStep.tsx:26 | finishing is allowed when both signatures are truthy (see `SignatureView.FinishDisabledUnlessSigned`) |
| SignatureView.RenderEntries | src/components/SignatureStep.tsx:37-45 | the answer loop writes one entry per answer, in order, with the question's text and `R: ` followed by the answer, and never goes back to an earlier page |
| SignatureView.RenderFrom | src/components/SignatureStep.tsx:37-45 | started where it stands before question `j`, the answer loop puts its `k`-th question in slot `j + k` |
| SignatureView.SlotClosedForm | src/components/SignatureStep.tsx:37-45 | the step-by-step page breaks land question `i` on page 0 at `70 + 14i` for `i < 13`, and at `20 + 14((i-13) mod 17)` on page `1 + (i-13) div 17` after that |
| SignatureView.LayoutClosedForm | src/components/SignatureStep.tsx:37-45 | each question and its `R:` answer line land at those positions, in sizes 10 and 9, 6 apart, and the loop ends just below the last question |
| SignatureView.EntriesWithinPage | src/components/SignatureStep.tsx:37-45 | every question line lies between heights 20 and 250, with its answer 6 below on the same page |
| SignatureView.PageCapacity | src/components/SignatureStep.tsx:37-45 | the first page takes 13 questions and every later page 17 |
| SignatureView.UpperAscii | src/components/SignatureStep.tsx:35 | upper-casing turns each lower-case ASCII letter into its capital, keeps every other character and the length, and leaves no lower-case letter |
| SignatureView.ExamCodesUpperCased | src/components/SignatureStep.tsx:35 | the header's exam line shows `CT`, `MRI`, `DENSITOMETRY` or `MAMMOGRAPHY` |
| SignatureView.FileNameIgnoresMask | src/components/SignatureStep.tsx:50 | a CPF stored with or without the mask gives the same file name |
| SignatureView.FileName | src/components/SignatureStep.tsx:50 | the file name is `anamnese_`, then the CPF's digits in order with repeats (all other characters dropped), then `.pdf` |
| SignatureView.Header | src/components/SignatureStep.tsx:30-35 | four header lines on the first page above the answers: the centred title in size 18, then patient name, CPF as stored and upper-cased exam type in size 12 |
| SignatureView.SignatureImages | src/components/SignatureStep.tsx:47-48 | one 60 by 25 image for each truthy signature, patient first at x 20 and technician at x 110, 10 below where the loop ended, each captioned 30 further down in the current font size |
| SignatureView.GeneratePdf | src/components/SignatureStep.tsx:28-52 | the header's title, patient, CPF and exam lines; entry `i` holds question `i` and `R: ` with its answer at the closed-form page and height of slot `i`; the page count follows the layout; a 60 by 25 image for each truthy signature (patient at x 20, technician at x 110) on the last page, 10 below the last answer, with its caption 30 below in size 9 (12 when there are no answers); the file is `anamnese_<cpf digits>.pdf` |
| Stepper.OnClick | src/components/WorkflowStepper.tsx:30 | a click reaches `onStepClick` iff the step is complete, and then with its id |
| Stepper.ActiveClickIgnored | src/components/WorkflowStepper.tsx:30-31 | an active step's button is enabled but its click does nothing |
| Stepper.ButtonDisabled | src/components/WorkflowStepper.tsx:31 | a step's button is disabled while the step is pending (see `Stepper.ActiveClickIgnored`) |
| Stepper.BadgeOf | src/components/WorkflowStepper.tsx:46-50 | the badge is a check mark iff the step is complete, otherwise the step number |
| Stepper.Connector | src/components/WorkflowStepper.tsx:17-23 | no connector before the first step; later ones are highlighted iff their step is not pending |
| App.ScreenOf | src/pages/Index.tsx:31-66 | step 1 shows the search; steps 2, 3 and 4 show edit, review and signatures iff a report is selected |
| App.OnSearchScreen | src/pages/Index.tsx:31 | the view's handler; what it may change is stated by `App.OnSearchScreenFrame` |
| App.OnSearchScreenFrame | src/pages/Index.tsx:31 | on the search view typing and searching touch only the search state; the session changes only when a listed result of a search is picked, which opens that report |
| App.OnEditScreen | src/pages/Index.tsx:33-44 | the view's handler; what it may change is stated by `App.OnEditScreenFrame` |
| App.OnEditScreenFrame | src/pages/Index.tsx:33-44 | on the edit view only continue and back move the stepper; every other action keeps the step, the report and both signatures; continue goes to step 3 and back abandons the session |
| App.OnReviewScreen | src/pages/Index.tsx:46-53 | the view's handler; what it may change is stated by `App.OnReviewScreenFrame` |
| App.OnReviewScreenFrame | src/pages/Index.tsx:46-53 | on the review view only the step changes: continue goes to step 4 and back to step 2 |
| App.OnSignScreen | src/pages/Index.tsx:55-66 | the view's handler; what it may change is stated by `App.OnSignScreenFrame` |
| App.OnSignScreenFrame | src/pages/Index.tsx:55-66 | on the signature view the session ends only through finishing with both signatures present; every other action keeps the report, the edited answers and the applied suggestions |
| App.OnStepper | src/pages/Index.tsx:29 | the view's handler; what it may change is stated by `App.OnStepperFrame` |
| App.OnStepperFrame | src/pages/Index.tsx:29 | a stepper click changes at most the current step and the step list, and only through a complete step's button |
| App.Handle | src/pages/Index.tsx:29-66 | an action goes to the stepper or to whichever view is on screen; none is handled while nothing is shown |
| App.Remount | src/pages/Index.tsx:31-66 | mounting and unmounting the views after an action; what survives is stated by `App.RemountFrame` |
| App.RemountFrame | src/pages/Index.tsx:31-66 | the controller's state passes through; a view's local state survives only while that view stays on screen, and starts fresh otherwise |
| App.Dispatch | src/pages/Index.tsx:29-66 | one user action: handled, then views mounted or unmounted (see `App.DispatchKeepsInv`) |
| App.Run | src/pages/Index.tsx:29-66 | the page after a sequence of user actions from a fresh load (see `App.RunKeepsInv`) |
| App.SessionInv | src/hooks/useReportWorkflow.ts:11-100 | the session invariant of every reachable page (established by `App.RunKeepsInv`) |
| App.Inv | src/pages/Index.tsx:29-66 | the session invariant together with a masked search box (established by `App.RunKeepsInv`) |
| App.HandleComplete | src/pages/Index.tsx:13-16 | finishing builds the document from the session as it stands, with all consolidated answers, and then returns to the initial state |
| App.CompleteGeneratesBeforeReset | src/components/SignatureStep.tsx:54-57 | the document holds one entry per consolidated answer, entry `i` with question `i` and `R: ` followed by its answer, while the session after finishing holds no answer |
| App.PickKeepsInv | src/hooks/useReportWorkflow.ts:40-48 | opening any report from a reachable page starts a session that satisfies the invariant |
| App.ApplyPendingKeepsSessionInv | src/hooks/useReportWorkflow.ts:56-68 | applying a pending suggestion of the report keeps applied ids distinct and drawn from the report, and keeps the synthesised answers exactly those of the applied records |
| App.DismissPendingIsNoOp | src/components/EditReport.tsx:176-183 | the dismiss button of a pending suggestion changes nothing, since that id has no applied record |
| App.DispatchKeepsInv | src/pages/Index.tsx:29-66 | every single user action from a page that satisfies the invariant leads to a page that satisfies it |
| App.RunKeepsInv | src/pages/Index.tsx:29-66 | on every reachable page: the stepper is valid; without a report the session is the initial one; the edited answers stay aligned with the report's; applied suggestions come from the report, each once; the synthesised answers match the applied records; the search box holds a masked key |
| App.NeverBlank | src/pages/Index.tsx:31-66 | no reachable page leaves the area under the stepper empty |
| App.EditButtons | src/pages/Index.tsx:41-42 | on the edit view, continue moves to step 3 and back resets the workflow |
| App.ReviewButtons | src/pages/Index.tsx:50-51 | on the review view, continue moves to step 4 and back to step 2 |
| App.PickOpensReport | src/components/SearchReport.tsx:122 | clicking a search result selects that report |
| App.SignButtons | src/pages/Index.tsx:58-64 | on the signature view, back moves to step 3; each pad sets its own signature to whatever it reports, including none, and changes nothing else; finishing resets iff both signatures are present and otherwise does nothing |
| App.StaleSignaturesSurviveRemount | src/pages/Index.tsx:55-66 | going back to the review and forward again shows the signature view with the same report and both earlier signatures kept, although the pads are mounted anew |
| App.StepperJumpsOnlyToComplete | src/pages/Index.tsx:29 | a stepper click moves to that step iff it is complete; otherwise the workflow and the mounted view's local state are unchanged |
| App.DismissButtonDoesNothing | src/pages/Index.tsx:40 | on every reachable edit page, pressing a dismiss button leaves the page unchanged |
| App.SearchGateOnPage | src/components/SearchReport.tsx:39 | on every reachable search page, pressing search with fewer than 9 digits changes nothing, and from 9 digits it searches |
| App.TypeElevenDigits | src/components/SearchReport.tsx:31-36 | typing `12345678909` on a fresh page fills the box with `123.456.789-09` |
| App.SearchFindsPatient | src/components/SearchReport.tsx:38-54 | typing those eleven digits and pressing search lists the report with that CPF, shows the formatted CPF, and leaves the session as it started |
| App.TwoActiveStepsReachable | src/hooks/useReportWorkflow.ts:27-38 | the actions search, open, continue and back lead to a page where steps 2 and 3 are both active |

## Left out

- The signature pad drawing (`SignatureCanvas`), `ExamTypeBadge`, icons, styling and animations
  are outside this model; a signature is whatever string the pad reports, including none.
- The PDF library calls are modelled only as the resulting `Document` (page, coordinates, font
  size, text, image); fonts, text wrapping and encoding are not. The success toasts are not
  modelled.
- The 500 ms simulated delay of the search and its `isSearching` flag are left out. A search
  settles in the same step it starts, so the stale-result race between two searches is not
  modelled.
- Date formatting (`toLocaleDateString`) and the clock are left out; `CompleteReport` takes the
  completion time as a parameter.
- The report fixture (`mockReports`) is not part of this model; the report list is a parameter
  of every search.
- React mechanics (hooks, `useCallback` dependency lists, batching) are left out; each callback
  is one atomic transition.
- The blur of the answer input is an explicit `EditCommitted` action. A browser blurs the input
  on its own when the user clicks elsewhere, for example on "Continuar". The model leaves it to
  the action sequence to commit first; leaving the view without a commit drops the text.
- The Enter key in the search box is the same `SearchPressed` event as the button. The button
  is disabled while a search is pending, but the Enter key is not; without the delay this makes
  no difference.
- The read-only parts of the review view (patient header, birth date, phone) are not modelled.
- The search box's 14-character input limit (`maxLength`, SearchReport.tsx:85) is not modelled.
  A `CpfTyped` event carries the text the change handler receives, which a browser has already
  cut to 14 characters. The model accepts text of any length, so it covers every value the
  handler can see, and some it cannot.

## Behaviour of the code worth knowing

The model follows the code. In these places the code does something other than what its
comments, labels or intended design suggest.

- Going back leaves the step you left active (`goToStep` marks only forward moves). So a
  reachable page can show two active steps at once; see `App.TwoActiveStepsReachable`.
- The search gate counts characters of the masked key (`cpfSearch.length < 11`), not digits.
  Nine typed digits mask to eleven characters, so a search runs from 9 digits on, not 11.
- The search key is the first three digits typed, and a report matches when its CPF contains
  them anywhere, not only at its start (`Search.SearchMatchesInside`).
- The dismiss button is rendered only for pending suggestions. Their ids never have an applied
  record, so through the interface dismissing changes nothing and the suggestion stays listed
  (`App.DismissButtonDoesNothing`). `dismissSuggestion` by itself removes applied records and
  leaves their synthesised answers behind (`Workflow.DismissKeepsSynthesizedAnswer`).
- The page's `handleComplete` never calls `completeReport`. The completed report with
  signatures and completion time is never produced; only the PDF is generated, and the
  workflow is reset.
- Step 4 is never marked complete, since nothing moves forward from it.
- The signature pads take no value from the session: each is mounted blank. Going back to the
  review and forward again mounts two blank pads, yet both earlier signatures are still in the
  session. The finish button stays enabled and the PDF embeds the earlier images
  (`App.StaleSignaturesSurviveRemount`).

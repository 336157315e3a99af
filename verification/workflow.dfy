/** The workflow controller: the four-step session state and its transitions. Each React callback
    becomes one pure function from the state before the call to the state after it. */
module Workflow {
  import opened Wrappers
  import opened Seqs
  import opened ReportTypes

  /** Category given to every answer synthesised from an additional-question suggestion. */
  const AdditionalCategory: string := "Perguntas Adicionais"
  /** Prefix of the id of every synthesised answer. */
  const AdditionalPrefix: string := "additional-"

  datatype State = State(
    currentStep: int,
    steps: seq<WorkflowStep>,
    selectedReport: Option<Report>,
    editedAnswers: seq<QuestionAnswer>,
    appliedSuggestions: seq<AISuggestion>,
    additionalAnswers: seq<QuestionAnswer>,
    patientSignature: Option<string>,
    technicianSignature: Option<string>)

  /** `INITIAL_STEPS`: search is active, the other three are pending. */
  function InitialSteps(): (r: seq<WorkflowStep>)
    ensures |r| == 4
    ensures forall i :: 0 <= i < 4 ==>
              r[i].id == i + 1 && r[i].status == (if i == 0 then StepActive else StepPending)
  {
    [ WorkflowStep(1, "Busca", "Localizar relatório", StepActive),
      WorkflowStep(2, "Edição", "Revisar e corrigir", StepPending),
      WorkflowStep(3, "Revisão", "Confirmar dados", StepPending),
      WorkflowStep(4, "Assinatura", "Finalizar documento", StepPending) ]
  }

  /** The state the hook starts in. */
  function Initial(): (r: State)
    ensures StepsValid(r) && r.currentStep == 1
    ensures forall i :: 0 <= i < 4 ==> (r.steps[i].status == StepActive <==> i == 0)
    ensures r.selectedReport.None? && GetAllAnswers(r) == [] && r.appliedSuggestions == []
    ensures r.patientSignature.None? && r.technicianSignature.None?
  {
    State(1, InitialSteps(), None, [], [], [], None, None)
  }

  /** The step list has the fixed four steps, in id order, with their fixed titles. */
  predicate StepsShape(steps: seq<WorkflowStep>) {
    && |steps| == 4
    && forall i :: 0 <= i < 4 ==>
         && steps[i].id == i + 1
         && steps[i].title == InitialSteps()[i].title
         && steps[i].description == InitialSteps()[i].description
  }

  /** What every transition of the controller keeps about the stepper: the position is a real
      step, the step list keeps its shape, the current step is shown active, and the last step,
      which nothing moves forward from, is never complete. */
  predicate StepsValid(s: State) {
    && 1 <= s.currentStep <= 4
    && StepsShape(s.steps)
    && s.steps[s.currentStep - 1].status == StepActive
    && s.steps[3].status != StepComplete
  }

  /** `updateStepStatus`: every step carrying `id` gets `status`. */
  function UpdateStepStatus(steps: seq<WorkflowStep>, id: int, status: StepStatus): (r: seq<WorkflowStep>)
    ensures |r| == |steps|
    ensures forall i :: 0 <= i < |r| ==>
              r[i].id == steps[i].id && r[i].title == steps[i].title && r[i].description == steps[i].description
    ensures forall i :: 0 <= i < |r| ==>
              r[i].status == (if steps[i].id == id then status else steps[i].status)
  {
    seq(|steps|, i requires 0 <= i < |steps| =>
      if steps[i].id == id then steps[i].(status := status) else steps[i])
  }

  /** `goToStep`: ignored outside 1..4; otherwise the step left behind is marked complete only on a
      forward move, the target step is marked active, and nothing else changes. In particular a
      backward move leaves the step it leaves `active`. */
  function GoToStep(s: State, n: int): (r: State)
    ensures !(1 <= n <= 4) ==> r == s
    ensures 1 <= n <= 4 ==> r == s.(currentStep := n, steps := r.steps)
    ensures 1 <= n <= 4 ==> |r.steps| == |s.steps|
    ensures 1 <= n <= 4 ==> forall i :: 0 <= i < |s.steps| ==>
              r.steps[i] == s.steps[i].(status :=
                (if s.steps[i].id == n then StepActive
                 else if n > s.currentStep && s.steps[i].id == s.currentStep then StepComplete
                 else s.steps[i].status))
  {
    if n < 1 || n > 4 then s
    else
      var marked := if n > s.currentStep then UpdateStepStatus(s.steps, s.currentStep, StepComplete) else s.steps;
      s.(steps := UpdateStepStatus(marked, n, StepActive), currentStep := n)
  }

  /** Moving to a step keeps the stepper valid. */
  lemma GoToStepKeepsStepsValid(s: State, n: int)
    requires StepsValid(s)
    ensures StepsValid(GoToStep(s, n))
  {
    var r := GoToStep(s, n);
    if 1 <= n <= 4 {
      assert r.steps[n - 1].status == StepActive;
      assert s.steps[3].id == 4;
    }
  }

  /** `selectReport`: the report becomes the session's report, its answers are copied for editing,
      everything derived from a previous report is cleared, and the workflow moves to step 2. */
  function SelectReport(s: State, report: Report): (r: State)
    ensures r.selectedReport == Some(report)
    ensures r.editedAnswers == report.answers
    ensures r.appliedSuggestions == [] && r.additionalAnswers == []
    ensures r.patientSignature == None && r.technicianSignature == None
    ensures r.currentStep == 2
    ensures r.steps == GoToStep(s, 2).steps
  {
    var cleared := s.(selectedReport := Some(report), editedAnswers := report.answers,
                      appliedSuggestions := [], additionalAnswers := [],
                      patientSignature := None, technicianSignature := None);
    GoToStep(cleared, 2)
  }

  /** `updateAnswer`: the answer text of every edited entry with the given id is replaced; ids,
      questions, categories, length and order are kept, and nothing else in the state changes. */
  function UpdateAnswer(s: State, questionId: string, newAnswer: string): (r: State)
    ensures r == s.(editedAnswers := r.editedAnswers)
    ensures |r.editedAnswers| == |s.editedAnswers|
    ensures forall i :: 0 <= i < |s.editedAnswers| ==>
              && r.editedAnswers[i].id == s.editedAnswers[i].id
              && r.editedAnswers[i].question == s.editedAnswers[i].question
              && r.editedAnswers[i].category == s.editedAnswers[i].category
              && r.editedAnswers[i].answer ==
                   (if s.editedAnswers[i].id == questionId then newAnswer else s.editedAnswers[i].answer)
  {
    s.(editedAnswers := seq(|s.editedAnswers|, i requires 0 <= i < |s.editedAnswers| =>
         if s.editedAnswers[i].id == questionId then s.editedAnswers[i].(answer := newAnswer)
         else s.editedAnswers[i]))
  }

  /** An unknown id leaves the whole state as it was. */
  lemma UpdateAnswerUnknownId(s: State, questionId: string, newAnswer: string)
    requires forall i :: 0 <= i < |s.editedAnswers| ==> s.editedAnswers[i].id != questionId
    ensures UpdateAnswer(s, questionId, newAnswer) == s
  {
    var r := UpdateAnswer(s, questionId, newAnswer);
    assert r.editedAnswers == s.editedAnswers;
  }

  /** The record kept in `appliedSuggestions` for an applied suggestion. */
  function AppliedRecord(suggestion: AISuggestion, answer: Option<string>): AISuggestion {
    suggestion.(applied := Some(true), newAnswer := answer)
  }

  /** The answer synthesised from an additional-question suggestion answered with `answer`. */
  function Synthesized(suggestion: AISuggestion, answer: string): QuestionAnswer {
    QuestionAnswer(AdditionalPrefix + suggestion.id, suggestion.suggestion, answer, Some(AdditionalCategory))
  }

  /** Whether applying `suggestion` with `answer` synthesises a new answer. */
  predicate Synthesizes(suggestion: AISuggestion, answer: Option<string>) {
    suggestion.kind == AdditionalQuestion && Truthy(answer)
  }

  /** `applySuggestion`: always appends exactly one applied record, with no duplicate check, and
      appends exactly one synthesised answer iff the suggestion is an additional question answered
      with a non-empty text. Nothing else changes. */
  function ApplySuggestion(s: State, suggestion: AISuggestion, answer: Option<string>): (r: State)
    ensures r == s.(appliedSuggestions := r.appliedSuggestions, additionalAnswers := r.additionalAnswers)
    ensures r.appliedSuggestions == s.appliedSuggestions + [AppliedRecord(suggestion, answer)]
    ensures r.appliedSuggestions[|s.appliedSuggestions|].applied == Some(true)
    ensures r.appliedSuggestions[|s.appliedSuggestions|].newAnswer == answer
    ensures Synthesizes(suggestion, answer) ==>
              r.additionalAnswers == s.additionalAnswers +
                [QuestionAnswer("additional-" + suggestion.id, suggestion.suggestion, answer.value,
                                Some("Perguntas Adicionais"))]
    ensures !Synthesizes(suggestion, answer) ==> r.additionalAnswers == s.additionalAnswers
  {
    var applied := s.appliedSuggestions + [AppliedRecord(suggestion, answer)];
    if suggestion.kind == AdditionalQuestion && Truthy(answer) then
      s.(appliedSuggestions := applied, additionalAnswers := s.additionalAnswers + [Synthesized(suggestion, answer.value)])
    else
      s.(appliedSuggestions := applied)
  }

  /** The predicate of the filter in `dismissSuggestion`. */
  function IdIsNot(id: string): AISuggestion -> bool {
    (a: AISuggestion) => a.id != id
  }

  /** `dismissSuggestion`: drops every applied record with the id, keeps the others, and leaves
      the synthesised answers alone. */
  function DismissSuggestion(s: State, suggestionId: string): (r: State)
    ensures r == s.(appliedSuggestions := r.appliedSuggestions)
    ensures r.additionalAnswers == s.additionalAnswers
    ensures forall a :: a in r.appliedSuggestions <==> a in s.appliedSuggestions && a.id != suggestionId
  {
    s.(appliedSuggestions := Filter(s.appliedSuggestions, IdIsNot(suggestionId)))
  }

  /** Dismissing keeps the relative order of the records it keeps. */
  lemma DismissKeepsOrder(s: State, suggestionId: string, a: seq<AISuggestion>, b: seq<AISuggestion>)
    requires s.appliedSuggestions == a + b
    ensures DismissSuggestion(s, suggestionId).appliedSuggestions ==
              DismissSuggestion(s.(appliedSuggestions := a), suggestionId).appliedSuggestions +
              DismissSuggestion(s.(appliedSuggestions := b), suggestionId).appliedSuggestions
  {
    FilterAppend(a, b, IdIsNot(suggestionId));
  }

  /** Dismissing the same id twice is the same as dismissing it once. */
  lemma DismissIdempotent(s: State, suggestionId: string)
    ensures DismissSuggestion(DismissSuggestion(s, suggestionId), suggestionId) == DismissSuggestion(s, suggestionId)
  {
    FilterIdempotent(s.appliedSuggestions, IdIsNot(suggestionId));
  }

  /** Dismissing an id that was never applied changes nothing. */
  lemma DismissUnknownId(s: State, suggestionId: string)
    requires forall i :: 0 <= i < |s.appliedSuggestions| ==> s.appliedSuggestions[i].id != suggestionId
    ensures DismissSuggestion(s, suggestionId) == s
  {
    FilterKeepsAll(s.appliedSuggestions, IdIsNot(suggestionId));
  }

  /** `getAllAnswers`: the edited answers followed by the synthesised ones. */
  function GetAllAnswers(s: State): (r: seq<QuestionAnswer>)
    ensures |r| == |s.editedAnswers| + |s.additionalAnswers|
    ensures r[..|s.editedAnswers|] == s.editedAnswers
    ensures r[|s.editedAnswers|..] == s.additionalAnswers
  {
    s.editedAnswers + s.additionalAnswers
  }

  /** `resetWorkflow`: from any state, back to exactly the initial state. */
  function ResetWorkflow(s: State): (r: State)
    ensures r.currentStep == 1 && r.steps == InitialSteps()
    ensures r.selectedReport == None
    ensures r.editedAnswers == [] && r.appliedSuggestions == [] && r.additionalAnswers == []
    ensures r.patientSignature == None && r.technicianSignature == None
    ensures StepsValid(r)
  {
    Initial()
  }

  /** `setPatientSignature`, the setter the signature step receives: the patient's signature is
      replaced (an empty or cleared pad included) and nothing else changes. */
  function SetPatientSignature(s: State, sig: Option<string>): (r: State)
    ensures r.patientSignature == sig
    ensures r == s.(patientSignature := r.patientSignature)
  {
    s.(patientSignature := sig)
  }

  /** `setTechnicianSignature`, the setter the signature step receives: the technician's
      signature is replaced and nothing else changes. */
  function SetTechnicianSignature(s: State, sig: Option<string>): (r: State)
    ensures r.technicianSignature == sig
    ensures r == s.(technicianSignature := r.technicianSignature)
  {
    s.(technicianSignature := sig)
  }

  /** `completeReport`: nothing without a selected report; otherwise the selected report with the
      consolidated answers, status completed, each signature attached only if non-empty, and the
      completion time given by the caller (`now` stands for the clock). */
  function CompleteReport(s: State, now: string): (r: Option<Report>)
    ensures r.None? <==> s.selectedReport.None?
    ensures r.Some? ==>
              && r.value.answers == s.editedAnswers + s.additionalAnswers
              && r.value.status == Completed
              && (r.value.patientSignature.Some? <==> Truthy(s.patientSignature))
              && (r.value.patientSignature.Some? ==> r.value.patientSignature == s.patientSignature)
              && (r.value.technicianSignature.Some? <==> Truthy(s.technicianSignature))
              && (r.value.technicianSignature.Some? ==> r.value.technicianSignature == s.technicianSignature)
              && r.value.completedAt == Some(now)
              && r.value.(answers := s.selectedReport.value.answers, status := s.selectedReport.value.status,
                          patientSignature := s.selectedReport.value.patientSignature,
                          technicianSignature := s.selectedReport.value.technicianSignature,
                          completedAt := s.selectedReport.value.completedAt) == s.selectedReport.value
  {
    match s.selectedReport
    case None => None
    case Some(report) =>
      Some(report.(answers := GetAllAnswers(s), status := Completed,
                   patientSignature := if Truthy(s.patientSignature) then s.patientSignature else None,
                   technicianSignature := if Truthy(s.technicianSignature) then s.technicianSignature else None,
                   completedAt := Some(now)))
  }

  /** Moving back from a step does not deactivate it: after selecting a report, continuing to
      step 3 and going back to step 2, both steps 2 and 3 are active. */
  lemma BackwardMoveLeavesTwoActive(report: Report)
    ensures var s := GoToStep(GoToStep(SelectReport(Initial(), report), 3), 2);
      && s.currentStep == 2
      && s.steps[0].status == StepComplete
      && s.steps[1].status == StepActive
      && s.steps[2].status == StepActive
      && s.steps[3].status == StepPending
  {
  }

  /** Applying the same suggestion twice records it twice. */
  lemma ApplyDoesNotDeduplicate(s: State, suggestion: AISuggestion, answer: Option<string>)
    ensures var r := ApplySuggestion(ApplySuggestion(s, suggestion, answer), suggestion, answer);
      && |r.appliedSuggestions| == |s.appliedSuggestions| + 2
      && r.appliedSuggestions[|s.appliedSuggestions|] == r.appliedSuggestions[|s.appliedSuggestions| + 1]
  {
  }

  /** Dismissing an applied additional question drops its record but keeps the answer it
      synthesised. */
  lemma DismissKeepsSynthesizedAnswer(s: State, suggestion: AISuggestion, answer: string)
    requires suggestion.kind == AdditionalQuestion && answer != ""
    ensures var r := DismissSuggestion(ApplySuggestion(s, suggestion, Some(answer)), suggestion.id);
      && Synthesized(suggestion, answer) in r.additionalAnswers
      && forall a :: a in r.appliedSuggestions ==> a.id != suggestion.id
  {
    var applied := ApplySuggestion(s, suggestion, Some(answer));
    assert applied.additionalAnswers[|s.additionalAnswers|] == Synthesized(suggestion, answer);
  }

  /** Applying additional question "s1" answered "Sim" synthesises the answer "additional-s1" in
      the "Perguntas Adicionais" category, and records the suggestion as applied. */
  lemma ApplyScenario(s: State, suggestion: AISuggestion)
    requires suggestion.id == "s1" && suggestion.kind == AdditionalQuestion
    ensures var r := ApplySuggestion(s, suggestion, Some("Sim"));
      && |r.additionalAnswers| == |s.additionalAnswers| + 1
      && |r.appliedSuggestions| == |s.appliedSuggestions| + 1
      && r.additionalAnswers[|s.additionalAnswers|] ==
           QuestionAnswer("additional-s1", suggestion.suggestion, "Sim", Some("Perguntas Adicionais"))
  {
  }

  /** An empty answer to an additional question records the suggestion but synthesises nothing. */
  lemma ApplyEmptyAnswerSynthesizesNothing(s: State, suggestion: AISuggestion)
    ensures ApplySuggestion(s, suggestion, Some("")).additionalAnswers == s.additionalAnswers
    ensures ApplySuggestion(s, suggestion, None).additionalAnswers == s.additionalAnswers
  {
  }

  /** After a reset nothing remains to complete or to show: no report, no answers. */
  lemma ResetLeavesNothing(s: State, now: string)
    ensures CompleteReport(ResetWorkflow(s), now) == None
    ensures GetAllAnswers(ResetWorkflow(s)) == []
    ensures ResetWorkflow(s) == Initial()
  {
  }
}

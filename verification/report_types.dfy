/** The shared vocabulary of the application: exam types, patients, questionnaire answers,
    suggestions, reports and workflow steps, with the exam-type label and colour tables. */
module ReportTypes {
  import opened Wrappers

  datatype ExamType = Ct | Mri | Densitometry | Mammography

  /** The string literal each exam type is written as. */
  function ExamTypeCode(e: ExamType): string {
    match e
    case Ct => "ct"
    case Mri => "mri"
    case Densitometry => "densitometry"
    case Mammography => "mammography"
  }

  datatype PatientInfo = PatientInfo(
    name: string,
    cpf: string,
    birthDate: string,
    phone: Option<string>,
    email: Option<string>)

  datatype ResponsibleInfo = ResponsibleInfo(
    name: string,
    cpf: string,
    relationship: string,
    phone: Option<string>)

  datatype QuestionAnswer = QuestionAnswer(
    id: string,
    question: string,
    answer: string,
    category: Option<string>)

  datatype SuggestionType = Correction | AdditionalQuestion

  datatype Priority = Low | Medium | High

  datatype AISuggestion = AISuggestion(
    id: string,
    kind: SuggestionType,
    originalQuestionId: Option<string>,
    suggestion: string,
    reason: string,
    priority: Priority,
    applied: Option<bool>,
    newAnswer: Option<string>)

  datatype ReportStatus = Pending | InReview | Completed

  datatype Report = Report(
    id: string,
    examType: ExamType,
    patient: PatientInfo,
    responsible: Option<ResponsibleInfo>,
    answers: seq<QuestionAnswer>,
    aiSuggestions: Option<seq<AISuggestion>>,
    status: ReportStatus,
    createdAt: string,
    updatedAt: Option<string>,
    technicianId: Option<string>,
    technicianName: Option<string>,
    patientSignature: Option<string>,
    technicianSignature: Option<string>,
    completedAt: Option<string>)

  datatype StepStatus = StepPending | StepActive | StepComplete

  datatype WorkflowStep = WorkflowStep(id: int, title: string, description: string, status: StepStatus)

  /** `EXAM_TYPE_LABELS`: the human-readable name of each exam type. */
  function ExamTypeLabel(e: ExamType): string {
    match e
    case Ct => "Tomografia Computadorizada"
    case Mri => "Ressonância Magnética"
    case Densitometry => "Densitometria"
    case Mammography => "Mamografia"
  }

  /** `EXAM_TYPE_COLORS`: the colour class of each exam type. */
  function ExamTypeColor(e: ExamType): string {
    match e
    case Ct => "bg-exam-ct"
    case Mri => "bg-exam-mri"
    case Densitometry => "bg-exam-densitometry"
    case Mammography => "bg-exam-mammography"
  }

  /** The label table is total and tells the four exam types apart. */
  lemma ExamTypeLabelsDistinct(a: ExamType, b: ExamType)
    ensures a != b <==> ExamTypeLabel(a) != ExamTypeLabel(b)
  {
  }

  /** Every colour class is the fixed prefix followed by the exam type's own code, so the colour
      table is total and, like the labels, injective. */
  lemma ExamTypeColorsFollowCode(e: ExamType)
    ensures ExamTypeColor(e) == "bg-exam-" + ExamTypeCode(e)
  {
  }

  /** The exam type codes are pairwise distinct. */
  lemma ExamTypeCodesDistinct(a: ExamType, b: ExamType)
    ensures a != b <==> ExamTypeCode(a) != ExamTypeCode(b)
  {
  }
}

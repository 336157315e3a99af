/** The page that wires everything together: which view is shown for which step, which button
    calls which controller transition, and the stepper above the views. Every user action is an
    `Event`; `Run` replays a sequence of them from the freshly loaded page, which makes the set of
    reachable states something the lemmas below can talk about. */
module App {
  import opened Wrappers
  import opened ReportTypes
  import Workflow
  import Cpf
  import opened Search
  import opened Grouping
  import opened EditView
  import opened SignatureView
  import Stepper

  /** The view rendered under the stepper. */
  datatype Screen = SearchScreen | EditScreen | ReviewScreen | SignScreen | Blank

  /** Step 1 always shows the search; steps 2 to 4 show their view only with a report selected. */
  function ScreenOf(wf: Workflow.State): (r: Screen)
    ensures r == SearchScreen <==> wf.currentStep == 1
    ensures r == EditScreen <==> wf.currentStep == 2 && wf.selectedReport.Some?
    ensures r == ReviewScreen <==> wf.currentStep == 3 && wf.selectedReport.Some?
    ensures r == SignScreen <==> wf.currentStep == 4 && wf.selectedReport.Some?
  {
    if wf.currentStep == 1 then SearchScreen
    else if wf.selectedReport.None? then Blank
    else if wf.currentStep == 2 then EditScreen
    else if wf.currentStep == 3 then ReviewScreen
    else if wf.currentStep == 4 then SignScreen
    else Blank
  }

  /** The controller's state with the local state of the two views that keep some. */
  datatype AppState = AppState(wf: Workflow.State, search: SearchState, edit: EditState)

  /** The freshly loaded page. */
  function Start(): AppState {
    AppState(Workflow.Initial(), InitialSearch(), InitialEdit())
  }

  /** A user action. Indices point into what the view lists: search results, edited answers,
      pending suggestions, categories, or stepper buttons. */
  datatype Event =
    | CpfTyped(text: string)
    | SearchPressed
    | ResultPicked(index: int)
    | EditStarted(index: int)
    | EditCommitted(text: string)
    | EditCancelled
    | DraftTyped(index: int, text: string)
    | ApplyPressed(index: int)
    | DismissPressed(index: int)
    | CategoryToggled(index: int)
    | EditContinue
    | EditBack
    | ReviewContinue
    | ReviewBack
    | PatientSigned(signature: Option<string>)
    | TechnicianSigned(signature: Option<string>)
    | SignBack
    | SignComplete
    | StepClicked(index: int)

  /** The search view: typing and searching touch only its own state, and the session changes
      only when a listed result is picked, which opens that report. */
  function OnSearchScreen(app: AppState, reports: seq<Report>, e: Event): AppState {
    match e
    case CpfTyped(t) => app.(search := HandleCpfChange(app.search, t))
    case SearchPressed => app.(search := HandleSearch(app.search, reports))
    case ResultPicked(i) =>
      if app.search.hasSearched && 0 <= i < |app.search.results|
      then app.(wf := Workflow.SelectReport(app.wf, app.search.results[i]))
      else app
    case _ => app
  }

  /** The edit view: only its continue and back buttons move the stepper; every other action
      keeps the step, the report and the signatures. Back abandons the session. */
  function OnEditScreen(app: AppState, e: Event): AppState
    requires app.wf.selectedReport.Some?
  {
    var edited := app.wf.editedAnswers;
    var pending := PendingSuggestions(app.wf.selectedReport.value, app.wf.appliedSuggestions);
    var cats := Categories(edited);
    match e
    case EditStarted(i) =>
      if 0 <= i < |edited| && IsExpanded(app.edit.expandedCategories, CategoryOf(edited[i]))
      then app.(edit := StartEditing(app.edit, edited[i].id))
      else app
    case EditCommitted(t) =>
      var r := CommitEditing(app.wf, app.edit, t);
      app.(wf := r.0, edit := r.1)
    case EditCancelled => app.(edit := CancelEditing(app.edit))
    case DraftTyped(i, t) =>
      if 0 <= i < |pending| && pending[i].kind == AdditionalQuestion
      then app.(edit := SetDraft(app.edit, pending[i].id, t))
      else app
    case ApplyPressed(i) =>
      if 0 <= i < |pending| && !ApplyDisabled(app.edit, pending[i])
      then
        var r := HandleApplySuggestion(app.wf, app.edit, pending[i]);
        app.(wf := r.0, edit := r.1)
      else app
    case DismissPressed(i) =>
      if 0 <= i < |pending| then app.(wf := Workflow.DismissSuggestion(app.wf, pending[i].id)) else app
    case CategoryToggled(i) =>
      if 0 <= i < |cats|
      then app.(edit := app.edit.(expandedCategories := ToggleCategory(app.edit.expandedCategories, cats[i])))
      else app
    case EditContinue => app.(wf := Workflow.GoToStep(app.wf, 3))
    case EditBack => app.(wf := Workflow.ResetWorkflow(app.wf))
    case _ => app
  }

  /** The review view only navigates: forward to the signatures or back to editing. */
  function OnReviewScreen(app: AppState, e: Event): AppState {
    match e
    case ReviewContinue => app.(wf := Workflow.GoToStep(app.wf, 4))
    case ReviewBack => app.(wf := Workflow.GoToStep(app.wf, 2))
    case _ => app
  }

  /** `handleComplete` of the signature view followed by the page's `handleComplete`: the document
      is generated from the session as it stands, and only then is the workflow reset. */
  function HandleComplete(wf: Workflow.State): (r: (Document, Workflow.State))
    requires wf.selectedReport.Some?
    ensures r.0 == GeneratePdf(wf.selectedReport.value, Workflow.GetAllAnswers(wf), wf.patientSignature, wf.technicianSignature)
    ensures |r.0.entries| == |wf.editedAnswers| + |wf.additionalAnswers|
    ensures r.1 == Workflow.Initial()
  {
    var doc := GeneratePdf(wf.selectedReport.value, Workflow.GetAllAnswers(wf), wf.patientSignature, wf.technicianSignature);
    (doc, Workflow.ResetWorkflow(wf))
  }

  /** The signature view: the pads set one signature each, and the session ends only through
      finishing with both signatures present. */
  function OnSignScreen(app: AppState, e: Event): AppState
    requires app.wf.selectedReport.Some?
  {
    match e
    case PatientSigned(sig) => app.(wf := Workflow.SetPatientSignature(app.wf, sig))
    case TechnicianSigned(sig) => app.(wf := Workflow.SetTechnicianSignature(app.wf, sig))
    case SignBack => app.(wf := Workflow.GoToStep(app.wf, 3))
    case SignComplete =>
      if CanComplete(app.wf.patientSignature, app.wf.technicianSignature)
      then app.(wf := HandleComplete(app.wf).1)
      else app
    case _ => app
  }

  /** The stepper's `onStepClick` is `goToStep`, reached only through a complete step's button. */
  function OnStepper(app: AppState, i: int): AppState {
    if 0 <= i < |app.wf.steps| && Stepper.OnClick(app.wf.steps[i]).Some?
    then app.(wf := Workflow.GoToStep(app.wf, Stepper.OnClick(app.wf.steps[i]).value))
    else app
  }

  /** The event handled by whatever is on screen, before views are mounted or unmounted. */
  function Handle(app: AppState, reports: seq<Report>, e: Event): AppState {
    if e.StepClicked? then OnStepper(app, e.index)
    else match ScreenOf(app.wf)
      case SearchScreen => OnSearchScreen(app, reports, e)
      case EditScreen => OnEditScreen(app, e)
      case ReviewScreen => OnReviewScreen(app, e)
      case SignScreen => OnSignScreen(app, e)
      case Blank => app
  }

  /** A view's local state survives only while the view stays on screen; a view that appears
      starts from its initial local state. */
  function Remount(before: AppState, after: AppState): AppState {
    after.(search := if ScreenOf(before.wf) == SearchScreen && ScreenOf(after.wf) == SearchScreen
                     then after.search else InitialSearch(),
           edit := if ScreenOf(before.wf) == EditScreen && ScreenOf(after.wf) == EditScreen
                   then after.edit else InitialEdit())
  }

  /** One user action. */
  function Dispatch(app: AppState, reports: seq<Report>, e: Event): AppState {
    Remount(app, Handle(app, reports, e))
  }

  /** The page after a sequence of user actions, over the report list `reports`. */
  function Run(reports: seq<Report>, events: seq<Event>): AppState {
    if |events| == 0 then Start()
    else Dispatch(Run(reports, events[..|events| - 1]), reports, events[|events| - 1])
  }

  lemma OnSearchScreenFrame(app: AppState, reports: seq<Report>, e: Event)
    ensures var r := OnSearchScreen(app, reports, e);
      && r.edit == app.edit
      && (!e.ResultPicked? ==> r.wf == app.wf)
      && (e.ResultPicked? ==> r.search == app.search)
      && (r.wf != app.wf ==>
            app.search.hasSearched && r.wf.selectedReport.Some? && r.wf.selectedReport.value in app.search.results)
  {
  }

  lemma OnEditScreenFrame(app: AppState, e: Event)
    requires app.wf.selectedReport.Some?
    ensures var r := OnEditScreen(app, e);
      && r.search == app.search
      && (!(e.EditContinue? || e.EditBack?) ==>
            && r.wf.currentStep == app.wf.currentStep && r.wf.steps == app.wf.steps
            && r.wf.selectedReport == app.wf.selectedReport
            && r.wf.patientSignature == app.wf.patientSignature
            && r.wf.technicianSignature == app.wf.technicianSignature)
      && (e.EditContinue? ==> r.wf.currentStep == 3 && r.edit == app.edit)
      && (e.EditBack? ==> r.wf.currentStep == 1 && r.wf.selectedReport.None?)
  {
  }

  lemma OnReviewScreenFrame(app: AppState, e: Event)
    ensures var r := OnReviewScreen(app, e);
      && r.search == app.search && r.edit == app.edit
      && r.wf == app.wf.(currentStep := r.wf.currentStep, steps := r.wf.steps)
      && (e.ReviewContinue? ==> r.wf.currentStep == 4)
      && (e.ReviewBack? ==> r.wf.currentStep == 2)
  {
  }

  lemma OnSignScreenFrame(app: AppState, e: Event)
    requires app.wf.selectedReport.Some?
    ensures var r := OnSignScreen(app, e);
      && r.search == app.search && r.edit == app.edit
      && (r.wf.selectedReport.None? ==>
            e.SignComplete? && CanComplete(app.wf.patientSignature, app.wf.technicianSignature))
      && (!e.SignComplete? ==>
            && r.wf.selectedReport == app.wf.selectedReport
            && r.wf.editedAnswers == app.wf.editedAnswers
            && r.wf.appliedSuggestions == app.wf.appliedSuggestions)
  {
  }

  lemma OnStepperFrame(app: AppState, i: int)
    ensures var r := OnStepper(app, i);
      && r.search == app.search && r.edit == app.edit
      && r.wf == app.wf.(currentStep := r.wf.currentStep, steps := r.wf.steps)
      && (r != app ==> 0 <= i < |app.wf.steps| && app.wf.steps[i].status == StepComplete)
  {
  }

  lemma RemountFrame(before: AppState, after: AppState)
    ensures var r := Remount(before, after);
      && r.wf == after.wf
      && (ScreenOf(before.wf) != SearchScreen || ScreenOf(after.wf) != SearchScreen ==> r.search == InitialSearch())
      && (ScreenOf(before.wf) != EditScreen || ScreenOf(after.wf) != EditScreen ==> r.edit == InitialEdit())
      && (ScreenOf(before.wf) == SearchScreen && ScreenOf(after.wf) == SearchScreen ==> r.search == after.search)
      && (ScreenOf(before.wf) == EditScreen && ScreenOf(after.wf) == EditScreen ==> r.edit == after.edit)
  {
  }

  /** The edited answers are the report's answers with possibly different answer texts. */
  predicate Aligned(original: seq<QuestionAnswer>, edited: seq<QuestionAnswer>) {
    && |original| == |edited|
    && forall i :: 0 <= i < |edited| ==>
         && edited[i].id == original[i].id
         && edited[i].question == original[i].question
         && edited[i].category == original[i].category
  }

  predicate AppliedIdsDistinct(applied: seq<AISuggestion>) {
    forall i, j :: 0 <= i < j < |applied| ==> applied[i].id != applied[j].id
  }

  predicate AppliedFromReport(applied: seq<AISuggestion>, report: Report) {
    forall k :: 0 <= k < |applied| ==>
      exists j :: 0 <= j < |SuggestionsOf(report)| && SuggestionsOf(report)[j].id == applied[k].id
  }

  /** The answers the controller synthesises for a list of applied records, in order. */
  function SynthesizedFrom(applied: seq<AISuggestion>): seq<QuestionAnswer> {
    if |applied| == 0 then []
    else
      var last := applied[|applied| - 1];
      SynthesizedFrom(applied[..|applied| - 1])
      + (if Workflow.Synthesizes(last, last.newAnswer) then [Workflow.Synthesized(last, last.newAnswer.value)] else [])
  }

  /** What holds of the controller's state on every page the user can reach. */
  predicate SessionInv(wf: Workflow.State) {
    && Workflow.StepsValid(wf)
    && (wf.selectedReport.None? ==> wf == Workflow.Initial())
    && (wf.selectedReport.Some? ==>
          && Aligned(wf.selectedReport.value.answers, wf.editedAnswers)
          && AppliedFromReport(wf.appliedSuggestions, wf.selectedReport.value))
    && AppliedIdsDistinct(wf.appliedSuggestions)
    && wf.additionalAnswers == SynthesizedFrom(wf.appliedSuggestions)
  }

  /** What holds on every page the user can reach. */
  predicate Inv(app: AppState) {
    && SessionInv(app.wf)
    && Cpf.FormatCpf(app.search.cpfSearch) == app.search.cpfSearch
  }

  lemma StartInv()
    ensures Inv(Start())
  {
  }

  lemma RemountKeepsInv(before: AppState, after: AppState)
    requires Inv(after)
    ensures Inv(Remount(before, after))
  {
  }

  lemma StepperKeepsInv(app: AppState, i: int)
    requires Inv(app)
    ensures Inv(OnStepper(app, i))
  {
    if 0 <= i < |app.wf.steps| && Stepper.OnClick(app.wf.steps[i]).Some? {
      Workflow.GoToStepKeepsStepsValid(app.wf, app.wf.steps[i].id);
    }
  }

  lemma SearchKeepsInv(app: AppState, reports: seq<Report>, e: Event)
    requires Inv(app) && ScreenOf(app.wf) == SearchScreen
    ensures Inv(OnSearchScreen(app, reports, e))
  {
    match e
    case CpfTyped(t) => Cpf.FormatCpfIdempotent(t);
    case ResultPicked(i) =>
      if app.search.hasSearched && 0 <= i < |app.search.results| {
        PickKeepsInv(app, app.search.results[i]);
      }
    case SearchPressed =>
    case _ =>
  }

  /** Opening a report starts a session that satisfies the invariant. */
  lemma PickKeepsInv(app: AppState, report: Report)
    requires Inv(app)
    ensures Inv(app.(wf := Workflow.SelectReport(app.wf, report)))
  {
    var cleared := app.wf.(selectedReport := Some(report), editedAnswers := report.answers,
                           appliedSuggestions := [], additionalAnswers := [],
                           patientSignature := None, technicianSignature := None);
    assert Workflow.StepsValid(cleared);
    Workflow.GoToStepKeepsStepsValid(cleared, 2);
  }

  lemma SynthesizedFromAppend(applied: seq<AISuggestion>, a: AISuggestion)
    ensures SynthesizedFrom(applied + [a]) ==
              SynthesizedFrom(applied) +
              (if Workflow.Synthesizes(a, a.newAnswer) then [Workflow.Synthesized(a, a.newAnswer.value)] else [])
  {
    assert (applied + [a])[..|applied|] == applied;
  }

  /** Applying a pending suggestion of the selected report keeps the session invariant. */
  lemma ApplyPendingKeepsSessionInv(wf: Workflow.State, s: AISuggestion, answer: Option<string>)
    requires SessionInv(wf) && wf.selectedReport.Some?
    requires s in SuggestionsOf(wf.selectedReport.value) && !IsApplied(wf.appliedSuggestions, s.id)
    ensures SessionInv(Workflow.ApplySuggestion(wf, s, answer))
  {
    var report := wf.selectedReport.value;
    var rec := Workflow.AppliedRecord(s, answer);
    var wf' := Workflow.ApplySuggestion(wf, s, answer);
    SynthesizedFromAppend(wf.appliedSuggestions, rec);
    var j :| 0 <= j < |SuggestionsOf(report)| && SuggestionsOf(report)[j] == s;
    assert wf'.appliedSuggestions == wf.appliedSuggestions + [rec];
  }

  lemma OnEditApply(app: AppState, i: int)
    requires app.wf.selectedReport.Some?
    ensures var pending := PendingSuggestions(app.wf.selectedReport.value, app.wf.appliedSuggestions);
      OnEditScreen(app, ApplyPressed(i)) ==
        if 0 <= i < |pending| && !ApplyDisabled(app.edit, pending[i])
        then app.(wf := HandleApplySuggestion(app.wf, app.edit, pending[i]).0,
                  edit := HandleApplySuggestion(app.wf, app.edit, pending[i]).1)
        else app
  {
  }

  lemma ApplyKeepsInv(app: AppState, i: int)
    requires Inv(app) && ScreenOf(app.wf) == EditScreen
    ensures Inv(OnEditScreen(app, ApplyPressed(i)))
  {
    var report := app.wf.selectedReport.value;
    var pending := PendingSuggestions(report, app.wf.appliedSuggestions);
    OnEditApply(app, i);
    if 0 <= i < |pending| && !ApplyDisabled(app.edit, pending[i]) {
      var s := pending[i];
      assert s in pending;
      var r := HandleApplySuggestion(app.wf, app.edit, s);
      if s.kind == AdditionalQuestion {
        ApplyPendingKeepsSessionInv(app.wf, s, Draft(app.edit, s.id));
      } else {
        ApplyPendingKeepsSessionInv(app.wf, s, None);
      }
    }
  }

  lemma OnEditDismiss(app: AppState, i: int)
    requires app.wf.selectedReport.Some?
    ensures var pending := PendingSuggestions(app.wf.selectedReport.value, app.wf.appliedSuggestions);
      OnEditScreen(app, DismissPressed(i)) ==
        if 0 <= i < |pending| then app.(wf := Workflow.DismissSuggestion(app.wf, pending[i].id)) else app
  {
  }

  /** Dismissing from the edit view never finds an applied record to drop. */
  lemma DismissPendingIsNoOp(app: AppState, i: int)
    requires ScreenOf(app.wf) == EditScreen
    ensures OnEditScreen(app, DismissPressed(i)) == app
  {
    var pending := PendingSuggestions(app.wf.selectedReport.value, app.wf.appliedSuggestions);
    OnEditDismiss(app, i);
    if 0 <= i < |pending| {
      assert pending[i] in pending;
      Workflow.DismissUnknownId(app.wf, pending[i].id);
    }
  }

  lemma EditKeepsInv(app: AppState, e: Event)
    requires Inv(app) && ScreenOf(app.wf) == EditScreen
    ensures Inv(OnEditScreen(app, e))
  {
    match e
    case ApplyPressed(i) => ApplyKeepsInv(app, i);
    case DismissPressed(i) => DismissPendingIsNoOp(app, i);
    case EditContinue => MoveKeepsInv(app, 3);
    case EditCommitted(t) => CommitKeepsInv(app, t);
    case EditBack => ResetKeepsInv(app);
    case _ => EditLocalKeepsInv(app, e);
  }

  /** The events of the editing view that only touch its local state. */
  lemma EditLocalKeepsInv(app: AppState, e: Event)
    requires Inv(app) && ScreenOf(app.wf) == EditScreen
    requires !e.ApplyPressed? && !e.DismissPressed? && !e.EditContinue? && !e.EditCommitted? && !e.EditBack?
    ensures Inv(OnEditScreen(app, e))
  {
    assert OnEditScreen(app, e).wf == app.wf;
    SameSessionKeepsInv(app, OnEditScreen(app, e));
  }

  /** Moving to another step keeps the invariant. */
  lemma MoveKeepsInv(app: AppState, step: int)
    requires Inv(app) && app.wf.selectedReport.Some?
    ensures Inv(app.(wf := Workflow.GoToStep(app.wf, step)))
  {
    var wf' := Workflow.GoToStep(app.wf, step);
    Workflow.GoToStepKeepsStepsValid(app.wf, step);
    assert wf'.selectedReport == app.wf.selectedReport && wf'.editedAnswers == app.wf.editedAnswers;
    assert wf'.appliedSuggestions == app.wf.appliedSuggestions && wf'.additionalAnswers == app.wf.additionalAnswers;
  }

  /** Starting over keeps the invariant. */
  lemma ResetKeepsInv(app: AppState)
    requires Inv(app)
    ensures Inv(app.(wf := Workflow.ResetWorkflow(app.wf)))
  {
  }

  /** Writing an answer keeps the answers aligned with the report's. */
  lemma CommitKeepsInv(app: AppState, t: string)
    requires Inv(app) && ScreenOf(app.wf) == EditScreen
    ensures Inv(OnEditScreen(app, EditCommitted(t)))
  {
    match app.edit.editingQuestion
    case None =>
    case Some(id) =>
      var wf' := Workflow.UpdateAnswer(app.wf, id, t);
      assert Aligned(app.wf.selectedReport.value.answers, wf'.editedAnswers);
  }

  /** Anything that touches only a view's local state keeps the invariant. */
  lemma SameSessionKeepsInv(app: AppState, app': AppState)
    requires Inv(app) && app'.wf == app.wf && app'.search == app.search
    ensures Inv(app')
  {
  }

  lemma ReviewKeepsInv(app: AppState, e: Event)
    requires Inv(app) && ScreenOf(app.wf) == ReviewScreen
    ensures Inv(OnReviewScreen(app, e))
  {
    Workflow.GoToStepKeepsStepsValid(app.wf, 4);
    Workflow.GoToStepKeepsStepsValid(app.wf, 2);
  }

  lemma SignKeepsInv(app: AppState, e: Event)
    requires Inv(app) && ScreenOf(app.wf) == SignScreen
    ensures Inv(OnSignScreen(app, e))
  {
    Workflow.GoToStepKeepsStepsValid(app.wf, 3);
  }

  lemma HandleKeepsInv(app: AppState, reports: seq<Report>, e: Event)
    requires Inv(app)
    ensures Inv(Handle(app, reports, e))
  {
    if e.StepClicked? {
      StepperKeepsInv(app, e.index);
    } else {
      match ScreenOf(app.wf)
      case SearchScreen =>
        assert Handle(app, reports, e) == OnSearchScreen(app, reports, e);
        SearchKeepsInv(app, reports, e);
      case EditScreen =>
        assert Handle(app, reports, e) == OnEditScreen(app, e);
        EditKeepsInv(app, e);
      case ReviewScreen =>
        assert Handle(app, reports, e) == OnReviewScreen(app, e);
        ReviewKeepsInv(app, e);
      case SignScreen =>
        assert Handle(app, reports, e) == OnSignScreen(app, e);
        SignKeepsInv(app, e);
      case Blank =>
    }
  }

  lemma DispatchKeepsInv(app: AppState, reports: seq<Report>, e: Event)
    requires Inv(app)
    ensures Inv(Dispatch(app, reports, e))
  {
    HandleKeepsInv(app, reports, e);
    RemountKeepsInv(app, Handle(app, reports, e));
  }

  /** Every reachable page satisfies the invariant: the stepper stays valid (one step at the
      current position is active, step 4 is never complete); without a report the session is
      exactly the initial one; the edited answers stay aligned with the report's; the applied
      suggestions come from the report, each at most once; the synthesised answers are exactly
      those of the applied additional questions; and the search box always holds a masked key. */
  lemma {:induction false} RunKeepsInv(reports: seq<Report>, events: seq<Event>)
    ensures Inv(Run(reports, events))
  {
    if |events| == 0 {
      StartInv();
    } else {
      RunKeepsInv(reports, events[..|events| - 1]);
      DispatchKeepsInv(Run(reports, events[..|events| - 1]), reports, events[|events| - 1]);
    }
  }

  /** No reachable page leaves the area under the stepper blank. */
  lemma NeverBlank(reports: seq<Report>, events: seq<Event>)
    ensures ScreenOf(Run(reports, events).wf) != Blank
  {
    RunKeepsInv(reports, events);
  }

  /** The continue and back buttons of the editing view move to the review or start over. */
  lemma EditButtons(app: AppState, reports: seq<Report>)
    requires ScreenOf(app.wf) == EditScreen
    ensures Dispatch(app, reports, EditContinue).wf == Workflow.GoToStep(app.wf, 3)
    ensures Dispatch(app, reports, EditBack).wf == Workflow.ResetWorkflow(app.wf)
  {
    DispatchElsewhere(app, reports, EditContinue);
    DispatchElsewhere(app, reports, EditBack);
  }

  /** The continue and back buttons of the review view move to the signatures or back to editing. */
  lemma ReviewButtons(app: AppState, reports: seq<Report>)
    requires ScreenOf(app.wf) == ReviewScreen
    ensures Dispatch(app, reports, ReviewContinue).wf == Workflow.GoToStep(app.wf, 4)
    ensures Dispatch(app, reports, ReviewBack).wf == Workflow.GoToStep(app.wf, 2)
  {
    DispatchElsewhere(app, reports, ReviewContinue);
    DispatchElsewhere(app, reports, ReviewBack);
  }

  /** Picking a search result opens that report. */
  lemma PickOpensReport(app: AppState, reports: seq<Report>, i: int)
    requires ScreenOf(app.wf) == SearchScreen
    requires app.search.hasSearched && 0 <= i < |app.search.results|
    ensures Dispatch(app, reports, ResultPicked(i)).wf == Workflow.SelectReport(app.wf, app.search.results[i])
  {
    DispatchElsewhere(app, reports, ResultPicked(i));
  }

  /** The signature view's buttons: back to the review, the signature pads, and finishing, which
      starts over only once both signatures are present. */
  lemma SignButtons(app: AppState, reports: seq<Report>, patient: Option<string>, technician: Option<string>)
    requires ScreenOf(app.wf) == SignScreen
    ensures Dispatch(app, reports, SignBack).wf == Workflow.GoToStep(app.wf, 3)
    ensures Dispatch(app, reports, PatientSigned(patient)).wf == app.wf.(patientSignature := patient)
    ensures Dispatch(app, reports, TechnicianSigned(technician)).wf == app.wf.(technicianSignature := technician)
    ensures CanComplete(app.wf.patientSignature, app.wf.technicianSignature) ==>
              Dispatch(app, reports, SignComplete).wf == Workflow.ResetWorkflow(app.wf)
    ensures !CanComplete(app.wf.patientSignature, app.wf.technicianSignature) ==>
              Dispatch(app, reports, SignComplete).wf == app.wf
  {
    DispatchOnSign(app, reports, SignBack);
    DispatchOnSign(app, reports, PatientSigned(patient));
    DispatchOnSign(app, reports, TechnicianSigned(technician));
    DispatchOnSign(app, reports, SignComplete);
  }

  lemma DispatchOnSign(app: AppState, reports: seq<Report>, e: Event)
    requires ScreenOf(app.wf) == SignScreen && !e.StepClicked?
    ensures Dispatch(app, reports, e) == Remount(app, OnSignScreen(app, e))
  {
  }

  /** Leaving the signature view and coming back keeps both signatures in the session although
      the pads are mounted anew and show nothing: finishing stays enabled, with the earlier
      images. */
  lemma StaleSignaturesSurviveRemount(app: AppState, reports: seq<Report>)
    requires ScreenOf(app.wf) == SignScreen
    ensures var back := Dispatch(app, reports, SignBack);
      var again := Dispatch(back, reports, ReviewContinue);
      && ScreenOf(again.wf) == SignScreen
      && again.wf.patientSignature == app.wf.patientSignature
      && again.wf.technicianSignature == app.wf.technicianSignature
      && again.wf.selectedReport == app.wf.selectedReport
  {
    var back := Dispatch(app, reports, SignBack);
    SignButtons(app, reports, None, None);
    assert ScreenOf(back.wf) == ReviewScreen;
    ReviewButtons(back, reports);
  }

  /** Stepper clicks only ever go to a complete step; a click on an active or pending step
      changes nothing at all. */
  lemma StepperJumpsOnlyToComplete(app: AppState, reports: seq<Report>, i: int)
    requires 0 <= i < |app.wf.steps|
    ensures app.wf.steps[i].status == StepComplete ==>
              Dispatch(app, reports, StepClicked(i)).wf == Workflow.GoToStep(app.wf, app.wf.steps[i].id)
    ensures app.wf.steps[i].status != StepComplete ==>
              Dispatch(app, reports, StepClicked(i)) == Remount(app, app)
  {
  }

  /** The dismiss button only appears on pending suggestions, whose ids have no applied record,
      so on every reachable page pressing it changes nothing: a dismissed suggestion stays
      listed as pending. */
  lemma DismissButtonDoesNothing(reports: seq<Report>, events: seq<Event>, i: int)
    ensures var app := Run(reports, events);
      ScreenOf(app.wf) == EditScreen ==> Dispatch(app, reports, DismissPressed(i)) == app
  {
    var app := Run(reports, events);
    RunKeepsInv(reports, events);
    if ScreenOf(app.wf) == EditScreen {
      DismissPendingIsNoOp(app, i);
    }
  }

  /** With fewer than 9 digits in the box, pressing search changes nothing on any reachable page;
      from 9 digits on it searches. */
  lemma SearchGateOnPage(reports: seq<Report>, events: seq<Event>)
    ensures var app := Run(reports, events);
      ScreenOf(app.wf) == SearchScreen ==>
        && (|Cpf.Digits(app.search.cpfSearch)| < 9 ==> Dispatch(app, reports, SearchPressed) == app)
        && (|Cpf.Digits(app.search.cpfSearch)| >= 9 ==> Dispatch(app, reports, SearchPressed).search.hasSearched)
  {
    var app := Run(reports, events);
    RunKeepsInv(reports, events);
    Cpf.FormatCpfLongEnough(app.search.cpfSearch);
  }

  /** Finishing emits the document of the session as it stood (all its consolidated answers),
      and afterwards the session is back at its start; generating after the reset would have
      produced a document with no answers. */
  lemma CompleteGeneratesBeforeReset(wf: Workflow.State)
    requires wf.selectedReport.Some?
    ensures var doc, all := HandleComplete(wf).0, Workflow.GetAllAnswers(wf);
      && |doc.entries| == |all|
      && forall i :: 0 <= i < |all| ==>
           doc.entries[i].question.text == all[i].question && doc.entries[i].answer.text == "R: " + all[i].answer
    ensures Workflow.GetAllAnswers(HandleComplete(wf).1) == []
  {
  }

  lemma RunSnoc(reports: seq<Report>, events: seq<Event>, e: Event)
    ensures Run(reports, events + [e]) == Dispatch(Run(reports, events), reports, e)
  {
    assert (events + [e])[..|events|] == events;
  }

  lemma DispatchElsewhere(app: AppState, reports: seq<Report>, e: Event)
    requires !e.StepClicked?
    ensures Dispatch(app, reports, e) == Remount(app,
              match ScreenOf(app.wf)
              case SearchScreen => OnSearchScreen(app, reports, e)
              case EditScreen => OnEditScreen(app, e)
              case ReviewScreen => OnReviewScreen(app, e)
              case SignScreen => OnSignScreen(app, e)
              case Blank => app)
  {
  }

  /** Typing eleven digits on the first page fills the search box with their mask. */
  lemma TypeElevenDigits(reports: seq<Report>)
    ensures Run(reports, [CpfTyped("12345678909")]) == Start().(search := SearchState("123.456.789-09", [], false))
  {
    RunSnoc(reports, [], CpfTyped("12345678909"));
    assert [] + [CpfTyped("12345678909")] == [CpfTyped("12345678909")];
    DispatchElsewhere(Start(), reports, CpfTyped("12345678909"));
    Cpf.ElevenDigitMask();
  }

  /** Typing eleven digits and pressing search finds a report whose CPF is those digits, and the
      session is still the initial one. */
  lemma SearchFindsPatient(r: Report)
    requires r.patient.cpf == "12345678909"
    ensures Run([r], [CpfTyped("12345678909")] + [SearchPressed]).search == SearchState("123.456.789-09", [r], true)
    ensures Run([r], [CpfTyped("12345678909")] + [SearchPressed]).wf == Workflow.Initial()
  {
    TypeElevenDigits([r]);
    SearchAfterTyping([r], [CpfTyped("12345678909")], r);
  }

  lemma SearchAfterTyping(reports: seq<Report>, events: seq<Event>, r: Report)
    requires r.patient.cpf == "12345678909" && reports == [r]
    requires Run(reports, events) == Start().(search := SearchState("123.456.789-09", [], false))
    ensures Run(reports, events + [SearchPressed]).search == SearchState("123.456.789-09", [r], true)
    ensures Run(reports, events + [SearchPressed]).wf == Workflow.Initial()
  {
    RunSnoc(reports, events, SearchPressed);
    PressSearch(Run(reports, events), reports);
    SearchElevenDigits(r);
  }

  /** Pressing search on the first page changes only the search box state. */
  lemma PressSearch(app: AppState, reports: seq<Report>)
    requires app.wf == Workflow.Initial()
    ensures Dispatch(app, reports, SearchPressed).wf == app.wf
    ensures Dispatch(app, reports, SearchPressed).search == HandleSearch(app.search, reports)
  {
    DispatchElsewhere(app, reports, SearchPressed);
  }

  /** Backward navigation leaves the step it leaves active, so a reachable page can show two
      active steps at once: search a patient, open the report, continue to the review, and go
      back to editing. */
  lemma TwoActiveStepsReachable(r: Report)
    requires r.patient.cpf == "12345678909"
    ensures var app := Run([r], [CpfTyped("12345678909")] + [SearchPressed] + [ResultPicked(0)] + [EditContinue] + [ReviewBack]);
      && |app.wf.steps| == 4
      && app.wf.currentStep == 2
      && app.wf.steps[1].status == StepActive
      && app.wf.steps[2].status == StepActive
  {
    OpenFoundReport(r);
    BackFromReview(r, [CpfTyped("12345678909")] + [SearchPressed] + [ResultPicked(0)]);
  }

  /** Searching the typed CPF and picking the first result opens the report. */
  lemma OpenFoundReport(r: Report)
    requires r.patient.cpf == "12345678909"
    ensures Run([r], [CpfTyped("12345678909")] + [SearchPressed] + [ResultPicked(0)]).wf ==
            Workflow.SelectReport(Workflow.Initial(), r)
  {
    SearchFindsPatient(r);
    PickFirstResult([r], [CpfTyped("12345678909")] + [SearchPressed], r);
  }

  /** After opening a report, continuing to the review and coming back leaves two active steps. */
  lemma BackFromReview(r: Report, events: seq<Event>)
    requires Run([r], events).wf == Workflow.SelectReport(Workflow.Initial(), r)
    ensures var app := Run([r], events + [EditContinue] + [ReviewBack]);
      && |app.wf.steps| == 4
      && app.wf.currentStep == 2
      && app.wf.steps[1].status == StepActive
      && app.wf.steps[2].status == StepActive
  {
    OpenedReportIsEdited(r);
    ContinueThenBack([r], events);
    Workflow.BackwardMoveLeavesTwoActive(r);
  }

  /** Opening a report from the first page shows the editing page. */
  lemma OpenedReportIsEdited(r: Report)
    ensures ScreenOf(Workflow.SelectReport(Workflow.Initial(), r)) == EditScreen
  {
  }

  /** Continuing from the editing page and coming back moves the workflow to step 3 and then to
      step 2. */
  lemma ContinueThenBack(reports: seq<Report>, events: seq<Event>)
    requires ScreenOf(Run(reports, events).wf) == EditScreen
    ensures Run(reports, events + [EditContinue] + [ReviewBack]).wf ==
            Workflow.GoToStep(Workflow.GoToStep(Run(reports, events).wf, 3), 2)
  {
    var a := Run(reports, events);
    RunSnoc(reports, events, EditContinue);
    EditButtons(a, reports);
    var b := Run(reports, events + [EditContinue]);
    assert ScreenOf(b.wf) == ReviewScreen;
    RunSnoc(reports, events + [EditContinue], ReviewBack);
    ReviewButtons(b, reports);
  }

  /** Picking the first result opens that report on the editing page. */
  lemma PickFirstResult(reports: seq<Report>, events: seq<Event>, r: Report)
    requires Run(reports, events).wf == Workflow.Initial()
    requires Run(reports, events).search.hasSearched
    requires Run(reports, events).search.results == [r]
    ensures Run(reports, events + [ResultPicked(0)]).wf == Workflow.SelectReport(Workflow.Initial(), r)
  {
    RunSnoc(reports, events, ResultPicked(0));
    DispatchElsewhere(Run(reports, events), reports, ResultPicked(0));
  }
}

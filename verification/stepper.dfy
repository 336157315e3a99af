/** The progress bar above every view: one button per step, a badge, and a connector line. */
module Stepper {
  import opened Wrappers
  import opened ReportTypes

  /** What a click on a step's button passes to `onStepClick`: its id when the step is complete,
      nothing for an active or pending step. */
  function OnClick(step: WorkflowStep): (r: Option<int>)
    ensures r.Some? <==> step.status == StepComplete
    ensures r.Some? ==> r.value == step.id
  {
    if step.status == StepComplete then Some(step.id) else None
  }

  /** A step's button is disabled exactly while the step is pending. */
  predicate ButtonDisabled(step: WorkflowStep) {
    step.status == StepPending
  }

  /** An active step's button is enabled, yet a click on it does nothing. */
  lemma ActiveClickIgnored(step: WorkflowStep)
    requires step.status == StepActive
    ensures !ButtonDisabled(step) && OnClick(step) == None
  {
  }

  /** What the round badge shows: a check mark or the step number. */
  datatype Badge = CheckMark | Number(id: int)

  /** The badge shows a check mark iff the step is complete, and its id otherwise. */
  function BadgeOf(step: WorkflowStep): (b: Badge)
    ensures b == CheckMark <==> step.status == StepComplete
    ensures b != CheckMark ==> b == Number(step.id)
  {
    if step.status == StepComplete then CheckMark else Number(step.id)
  }

  /** The connector drawn before the step at position `index`: none before the first step, and
      highlighted iff the step is complete or active. */
  function Connector(steps: seq<WorkflowStep>, index: nat): (r: Option<bool>)
    requires index < |steps|
    ensures r.None? <==> index == 0
    ensures r.Some? ==> (r.value <==> steps[index].status != StepPending)
  {
    if index > 0 then Some(steps[index].status == StepComplete || steps[index].status == StepActive)
    else None
  }
}

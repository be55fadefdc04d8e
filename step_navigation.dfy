/** The step bar above the wizard: which of the three steps may be opened,
    given the current step and the steps already completed. */
module StepNavigation {

  const ContentStep: string := "content"
  const ConfigurationStep: string := "configuration"
  const ResultsStep: string := "results"

  /** The wizard's steps in order. */
  const Steps: seq<string> := [ContentStep, ConfigurationStep, ResultsStep]

  /** `steps.findIndex(s => s.id === id)`: the position of the step, -1 for an
      unknown id. */
  function StepIndex(id: string): (i: int)
    ensures -1 <= i < |Steps|
    ensures i >= 0 ==> Steps[i] == id
    ensures i == -1 <==> id !in Steps
  {
    if id == ContentStep then 0
    else if id == ConfigurationStep then 1
    else if id == ResultsStep then 2
    else -1
  }

  /** `canNavigateTo(stepId)`. */
  predicate CanNavigateTo(currentStep: string, completedSteps: seq<string>, stepId: string)
    ensures CanNavigateTo(currentStep, completedSteps, stepId) && stepId in Steps ==>
              || StepIndex(stepId) < StepIndex(currentStep)
              || stepId in completedSteps
              || stepId == Steps[0]
              || Steps[StepIndex(stepId) - 1] in completedSteps
  {
    var stepIndex := StepIndex(stepId);
    var currentIndex := StepIndex(currentStep);
    if stepIndex < currentIndex then true
    else if stepId in completedSteps then true
    else if stepIndex > 0 then Steps[stepIndex - 1] in completedSteps
    else stepIndex == 0
  }

  /** A step before the current one can always be opened. */
  lemma EarlierStepNavigable(currentStep: string, completedSteps: seq<string>, stepId: string)
    requires StepIndex(stepId) < StepIndex(currentStep)
    ensures CanNavigateTo(currentStep, completedSteps, stepId)
  {
  }

  /** A completed step can always be opened. */
  lemma CompletedStepNavigable(currentStep: string, completedSteps: seq<string>, stepId: string)
    requires stepId in completedSteps
    ensures CanNavigateTo(currentStep, completedSteps, stepId)
  {
  }

  /** The first step can always be opened. */
  lemma FirstStepNavigable(currentStep: string, completedSteps: seq<string>)
    ensures CanNavigateTo(currentStep, completedSteps, Steps[0])
  {
  }

  /** A step of the bar (the current one or a later one) that is not
      completed can be opened exactly when the step before it is completed. */
  lemma LaterStepNavigableIff(currentStep: string, completedSteps: seq<string>, k: nat)
    requires 0 < k < |Steps| && StepIndex(currentStep) <= k && Steps[k] !in completedSteps
    ensures CanNavigateTo(currentStep, completedSteps, Steps[k]) <==> Steps[k - 1] in completedSteps
  {
  }

  /** `canProceed`: both lists are non-empty. */
  predicate CanProceed(topics: seq<string>, courseIds: seq<string>) {
    |topics| > 0 && |courseIds| > 0
  }

  /** A step button is enabled (`disabled={!isClickable || !canProceed}`). */
  predicate ButtonEnabled(currentStep: string, completedSteps: seq<string>,
                          topics: seq<string>, courseIds: seq<string>, stepId: string)
    ensures topics == [] || courseIds == [] ==> !ButtonEnabled(currentStep, completedSteps, topics, courseIds, stepId)
    ensures CanProceed(topics, courseIds) && (stepId == Steps[0] || stepId in completedSteps) ==>
              ButtonEnabled(currentStep, completedSteps, topics, courseIds, stepId)
  {
    CanNavigateTo(currentStep, completedSteps, stepId) && CanProceed(topics, courseIds)
  }

  /** The current step after a click on the button of `stepId`: a disabled
      button ignores the click, and the handler itself only changes the step
      when it is navigable. */
  function AfterClick(currentStep: string, completedSteps: seq<string>,
                      topics: seq<string>, courseIds: seq<string>, stepId: string): (next: string)
    ensures next == stepId || next == currentStep
    ensures next != currentStep ==> CanNavigateTo(currentStep, completedSteps, stepId)
    ensures next != currentStep ==> |topics| > 0 && |courseIds| > 0
    ensures ButtonEnabled(currentStep, completedSteps, topics, courseIds, stepId) ==> next == stepId
  {
    if !ButtonEnabled(currentStep, completedSteps, topics, courseIds, stepId) then currentStep
    else if CanNavigateTo(currentStep, completedSteps, stepId) then stepId
    else currentStep
  }

  /** From the start of the wizard (first step, nothing completed) only the
      first step can be opened. */
  lemma AtStartOnlyFirstStep(k: nat)
    requires k < |Steps|
    ensures CanNavigateTo(ContentStep, [], Steps[k]) <==> k == 0
  {
  }
}

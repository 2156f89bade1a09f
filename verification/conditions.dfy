/** Handler conditions (`Condition` and `ConditionFunctionFactory`): null-safe
    name-equality predicates whose "current" value is bound from the triggering
    event just before evaluation. */
module Conditions {
  import opened Lang

  /** The implemented condition functions. Each holds the expected value given in
      the workflow definition and the current value bound from the last event. */
  datatype ConditionFunction =
    | WorkflowNameEqualsTo(workflowName: NString, currentWorkflowName: NString)
    | TaskNameEqualsTo(taskName: NString, currentTaskName: NString)

  /** A condition; its function is `None` (null) when the factory did not recognise
      the function name. */
  datatype Condition = Condition(conditionFunction: Option<ConditionFunction>)

  /** Java's `nonNull(a) && nonNull(b) && a.equals(b)`. */
  predicate NullSafeEquals(a: NString, b: NString) {
    a.Some? && b.Some? && a.value == b.value
  }

  /** Evaluates a condition function: true exactly when the expected and the bound
      value are both present and equal, so false whenever either is missing. */
  function EvaluateFunction(f: ConditionFunction): (r: bool)
    ensures f.WorkflowNameEqualsTo? ==>
      (r <==> f.workflowName != None && f.workflowName == f.currentWorkflowName)
    ensures f.TaskNameEqualsTo? ==>
      (r <==> f.taskName != None && f.taskName == f.currentTaskName)
  {
    match f
    case WorkflowNameEqualsTo(expected, current) => NullSafeEquals(expected, current)
    case TaskNameEqualsTo(expected, current) => NullSafeEquals(expected, current)
  }

  /** `Condition.evaluate`: delegates to the function and throws when it is null. */
  function Evaluate(c: Condition): (r: Result<bool>)
    ensures r.Err? <==> c.conditionFunction.None?
    ensures r.Err? ==> r.fault == NullPointer
    ensures r.Ok? ==> r.value == EvaluateFunction(c.conditionFunction.value)
  {
    match c.conditionFunction
    case None => Err(NullPointer)
    case Some(f) => Ok(EvaluateFunction(f))
  }

  /** `setCurrentlValues(WorkflowEvent)`: only a workflow-name condition takes the
      event's workflow name; every other condition is returned unchanged. */
  function BindWorkflowEvent(c: Condition, workflowName: NString): (r: Condition)
    ensures c.conditionFunction.Some? && c.conditionFunction.value.WorkflowNameEqualsTo? ==>
      r == Condition(Some(WorkflowNameEqualsTo(c.conditionFunction.value.workflowName, workflowName)))
    ensures !(c.conditionFunction.Some? && c.conditionFunction.value.WorkflowNameEqualsTo?) ==> r == c
  {
    match c.conditionFunction
    case Some(WorkflowNameEqualsTo(expected, _)) =>
      Condition(Some(WorkflowNameEqualsTo(expected, workflowName)))
    case _ => c
  }

  /** `setCurrentlValues(TaskEvent)`: only a task-name condition takes the event's
      task name; every other condition is returned unchanged. */
  function BindTaskEvent(c: Condition, taskName: NString): (r: Condition)
    ensures c.conditionFunction.Some? && c.conditionFunction.value.TaskNameEqualsTo? ==>
      r == Condition(Some(TaskNameEqualsTo(c.conditionFunction.value.taskName, taskName)))
    ensures !(c.conditionFunction.Some? && c.conditionFunction.value.TaskNameEqualsTo?) ==> r == c
  {
    match c.conditionFunction
    case Some(TaskNameEqualsTo(expected, _)) =>
      Condition(Some(TaskNameEqualsTo(expected, taskName)))
    case _ => c
  }

  const TASK_NAME_EQUALS_TO: string := "taskNameEqualsTo"
  const WORKFLOW_NAME_EQUALS_TO: string := "workflowNameEqualsTo"
  const TASK_RESPONSE_EQUALS_TO: string := "taskResponseEqualsTo"

  /** `ConditionFunctionFactory.createCondition`: always a condition; its function
      is set for the two name-equality names, with nothing bound yet, and null for
      "taskResponseEqualsTo" and every unrecognised name. */
  function CreateCondition(name: string, arg: NString): (r: Condition)
    ensures name == TASK_NAME_EQUALS_TO ==> r.conditionFunction == Some(TaskNameEqualsTo(arg, None))
    ensures name == WORKFLOW_NAME_EQUALS_TO ==> r.conditionFunction == Some(WorkflowNameEqualsTo(arg, None))
    ensures name != TASK_NAME_EQUALS_TO && name != WORKFLOW_NAME_EQUALS_TO ==> r.conditionFunction.None?
  {
    if name == TASK_NAME_EQUALS_TO then Condition(Some(TaskNameEqualsTo(arg, None)))
    else if name == WORKFLOW_NAME_EQUALS_TO then Condition(Some(WorkflowNameEqualsTo(arg, None)))
    else Condition(None)
  }

  /** Before any binding, no condition the factory builds holds: it either throws
      (null function) or evaluates to false. */
  lemma CreatedConditionDoesNotHold(name: string, arg: NString)
    ensures Evaluate(CreateCondition(name, arg)) != Ok(true)
    ensures name == TASK_NAME_EQUALS_TO || name == WORKFLOW_NAME_EQUALS_TO ==>
      Evaluate(CreateCondition(name, arg)) == Ok(false)
    ensures name != TASK_NAME_EQUALS_TO && name != WORKFLOW_NAME_EQUALS_TO ==>
      Evaluate(CreateCondition(name, arg)) == Err(NullPointer)
  {
  }

  /** Binding a "workflowNameEqualsTo a" condition to an event of workflow `w`, then
      evaluating it, compares `a` with `w`. */
  lemma BindThenEvaluateWorkflowName(a: string, w: string)
    ensures Evaluate(BindWorkflowEvent(CreateCondition(WORKFLOW_NAME_EQUALS_TO, Some(a)), Some(w))) == Ok(a == w)
  {
  }

  /** Binding a "taskNameEqualsTo a" condition to an event of task `t`, then
      evaluating it, compares `a` with `t`. */
  lemma BindThenEvaluateTaskName(a: string, t: string)
    ensures Evaluate(BindTaskEvent(CreateCondition(TASK_NAME_EQUALS_TO, Some(a)), Some(t))) == Ok(a == t)
  {
  }

  /** Binds a condition to a sequence of workflow events, given by their workflow names. */
  function BindWorkflowEvents(c: Condition, names: seq<NString>): Condition
    decreases |names|
  {
    if |names| == 0 then c else BindWorkflowEvents(BindWorkflowEvent(c, names[0]), names[1..])
  }

  /** A task-name condition that only ever receives workflow-event bindings keeps its
      current task name unset, so it never holds. */
  lemma {:induction false} WorkflowEventsNeverBindTaskName(arg: NString, names: seq<NString>)
    ensures BindWorkflowEvents(CreateCondition(TASK_NAME_EQUALS_TO, arg), names)
         == Condition(Some(TaskNameEqualsTo(arg, None)))
    ensures Evaluate(BindWorkflowEvents(CreateCondition(TASK_NAME_EQUALS_TO, arg), names)) == Ok(false)
    decreases |names|
  {
    var c := CreateCondition(TASK_NAME_EQUALS_TO, arg);
    if |names| > 0 {
      assert BindWorkflowEvent(c, names[0]) == c;
      WorkflowEventsNeverBindTaskName(arg, names[1..]);
    }
  }
}

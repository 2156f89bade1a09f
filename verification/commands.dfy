/** Handler commands (`Command`, `Command.CommandFactory` and the four builder helpers). */
module Commands {
  import opened Lang

  /** `Command.CommandOperation`. */
  datatype CommandOperation = StartTask | ScheduleWorkflow | StartWorkflow | StopWorkflow | CancelWorkflow

  /** A command of a handler: what to do and on which task or workflow. */
  datatype Command = Command(operation: CommandOperation, taskName: NString, workflowName: NString, input: NString)

  /** `Command.startTask`: rejects a null task name (Lombok `@NonNull`). */
  function BuildStartTask(taskName: NString): (r: Result<Command>)
    ensures r.Err? <==> taskName.None?
    ensures r.Ok? ==> r.value == Command(StartTask, taskName, None, None)
  {
    if taskName.None? then Err(NullPointer) else Ok(Command(StartTask, taskName, None, None))
  }

  /** The three workflow builders (`startWorkflow`, `stopWorkflow`, `cancelWorkflow`):
      they reject a null workflow name. */
  function BuildWorkflowCommand(op: CommandOperation, workflowName: NString): (r: Result<Command>)
    requires op in {StartWorkflow, StopWorkflow, CancelWorkflow}
    ensures r.Err? <==> workflowName.None?
    ensures r.Ok? ==> r.value == Command(op, None, workflowName, None)
  {
    if workflowName.None? then Err(NullPointer) else Ok(Command(op, None, workflowName, None))
  }

  const START_TASK: string := "startTask"
  const START_WORKFLOW: string := "startWorkflow"
  const STOP_WORKFLOW: string := "stopWorkflow"
  const CANCEL_WORKFLOW: string := "cancelWorkflow"

  /** The function names the factory recognises. */
  predicate IsCommandFunction(name: string) {
    name == START_TASK || name == START_WORKFLOW || name == STOP_WORKFLOW || name == CANCEL_WORKFLOW
  }

  /** `CommandFactory.createCommand`: a command for the four recognised names, null
      (`Ok(None)`) for any other, and an exception when a recognised name gets a null
      argument. No name yields SCHEDULE_WORKFLOW. */
  function CreateCommand(name: string, arg: NString): (r: Result<Option<Command>>)
    ensures !IsCommandFunction(name) ==> r == Ok(None)
    ensures IsCommandFunction(name) ==> (r.Err? <==> arg.None?)
    ensures r.Ok? && IsCommandFunction(name) ==> r.value.Some?
    ensures r.Ok? && r.value.Some? ==> r.value.value.operation != ScheduleWorkflow
    ensures name == START_TASK && arg.Some? ==> r == Ok(Some(Command(StartTask, arg, None, None)))
    ensures name == START_WORKFLOW && arg.Some? ==> r == Ok(Some(Command(StartWorkflow, None, arg, None)))
    ensures name == STOP_WORKFLOW && arg.Some? ==> r == Ok(Some(Command(StopWorkflow, None, arg, None)))
    ensures name == CANCEL_WORKFLOW && arg.Some? ==> r == Ok(Some(Command(CancelWorkflow, None, arg, None)))
  {
    if name == START_TASK then
      var c :- BuildStartTask(arg); Ok(Some(c))
    else if name == START_WORKFLOW then
      var c :- BuildWorkflowCommand(StartWorkflow, arg); Ok(Some(c))
    else if name == STOP_WORKFLOW then
      var c :- BuildWorkflowCommand(StopWorkflow, arg); Ok(Some(c))
    else if name == CANCEL_WORKFLOW then
      var c :- BuildWorkflowCommand(CancelWorkflow, arg); Ok(Some(c))
    else
      Ok(None)
  }
}

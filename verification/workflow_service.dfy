/** `WorkflowService`: the entry point for workflow operations and for workflow
    definition edits. An operation first replaces the workflow's global inputs with
    the request's, and only then reads the operation, so a request without one
    throws after the inputs are replaced. */
module WorkflowService {
  import opened Lang
  import opened Definitions
  import opened Messages
  import opened ContextualInputRepository
  import opened WorkflowRepository
  import BeethovenOperation

  /** The operation a coordinator command performs. */
  function OperationOf(c: WorkflowCommand): BeethovenOperation.Operation {
    match c
    case ScheduleWorkflowCommand(_) => BeethovenOperation.Schedule
    case StartWorkflowCommand(_, _) => BeethovenOperation.Start
    case StopWorkflowCommand(_, _) => BeethovenOperation.Stop
    case CancelWorkflowCommand(_, _) => BeethovenOperation.Cancel
  }

  /** `execute`: saves the request's inputs as the workflow's global inputs, then
      sends the coordinator the command of the requested operation, naming the
      workflow and (except for a schedule) the request's instance. */
  function Execute(r: Repository, workflowName: string, d: BeethovenOperation.Request): (res: Messages.Step<Repository>)
    ensures res.state == r.(inputs := SaveGlobalInputs(r.inputs, workflowName, d.inputs))
    ensures res.fault.Some? <==> d.operation.None?
    ensures res.fault.Some? ==> res.fault == Some(NullPointer) && res.outbox == []
    ensures res.fault.None? ==>
      && |res.outbox| == 1 && res.outbox[0].ToWorkflowActor?
      && OperationOf(res.outbox[0].command) == d.operation.value
      && res.outbox[0].command.workflowName == Some(workflowName)
      && (!res.outbox[0].command.ScheduleWorkflowCommand? ==> res.outbox[0].command.instanceName == d.instanceName)
  {
    var saved := r.(inputs := SaveGlobalInputs(r.inputs, workflowName, d.inputs));
    match BeethovenOperation.GetOperation(d)
    case Err(f) => Messages.Step(saved, [], Some(f))
    case Ok(id) =>
      var c := match BeethovenOperation.FindById(Some(id)).value
        case Schedule => ScheduleWorkflowCommand(Some(workflowName))
        case Start => StartWorkflowCommand(Some(workflowName), d.instanceName)
        case Stop => StopWorkflowCommand(Some(workflowName), d.instanceName)
        case Cancel => CancelWorkflowCommand(Some(workflowName), d.instanceName);
      Messages.Step(saved, [ToWorkflowActor(c)], None)
  }

  /** After an operation, the workflow's global inputs are exactly the request's,
      whether or not the operation was valid. */
  lemma ExecuteReplacesInputs(r: Repository, workflowName: string, d: BeethovenOperation.Request, key: NString)
    ensures FindGlobalContextualInput(Execute(r, workflowName, d).state.inputs, workflowName, key)
         == Find(map[workflowName := d.inputs], workflowName, key)
  {
    SaveGlobalThenFind(r.inputs, workflowName, d.inputs, workflowName, key);
  }

  /** `save`: stores the workflow and returns it; it is then found by its name. */
  function Save(r: Repository, w: Workflow): (res: (Repository, Workflow))
    ensures res.1 == w
    ensures FindByName(res.0, w.name) == Some(w)
    ensures forall n :: n != w.name ==> FindByName(res.0, n) == FindByName(r, n)
    ensures res.0.inputs == r.inputs
    ensures Valid(r) ==> Valid(res.0)
  {
    (WorkflowRepository.Save(r, w), w)
  }

  /** `update`: ignores `workflowName` and saves under the workflow's own name. */
  function Update(r: Repository, workflowName: string, w: Workflow): (res: (Repository, Workflow))
    ensures res == Save(r, w)
  {
    Save(r, w)
  }

  /** Updating under a name that is not the workflow's own leaves the entry of that
      name as it was and saves under the workflow's name instead. */
  lemma UpdateUsesOwnName(r: Repository, n: string, w: Workflow)
    requires n != w.name
    ensures FindByName(Update(r, n, w).0, n) == FindByName(r, n)
    ensures FindByName(Update(r, n, w).0, w.name) == Some(w)
  {
  }

  /** `delete`: the workflow is no longer found, and neither are its global inputs. */
  function Delete(r: Repository, workflowName: string): (r': Repository)
    ensures FindByName(r', workflowName).None?
    ensures forall k :: FindGlobalContextualInput(r'.inputs, workflowName, k).NoStore?
    ensures forall n :: n != workflowName ==> FindByName(r', n) == FindByName(r, n)
    ensures r'.inputs.localInputs == r.inputs.localInputs
    ensures r'.inputs == DeleteGlobalContextualInput(r.inputs, workflowName)
    ensures forall w, k :: w != workflowName ==>
      FindGlobalContextualInput(r'.inputs, w, k) == FindGlobalContextualInput(r.inputs, w, k)
  {
    WorkflowRepository.Delete(r, workflowName)
  }
}

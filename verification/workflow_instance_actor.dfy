/** `WorkflowInstanceActor`: the worker for one workflow instance. It holds the
    instance record (null until a create command arrives), sets its status, and
    announces each change twice: to the Decider and to the Reporter. */
module WorkflowInstanceActor {
  import opened Lang
  import opened Messages
  import opened Engine
  import WorkflowActor
  import Definitions

  /** The status a command sets; a create command resets the record instead. */
  function StatusOf(c: InstanceCommand): (r: Option<WorkflowStatus>)
    ensures r.None? <==> c.CreateWorkflowInstanceCommand?
  {
    match c
    case CreateWorkflowInstanceCommand(_, _) => None
    case StartWorkflowInstanceCommand(_, _) => Some(Running)
    case StopWorkflowInstanceCommand(_, _) => Some(Paused)
    case CancelWorkflowInstanceCommand(_, _) => Some(Cancelled)
    case CompletedWorkflowInstanceEvent(_, _) => Some(Completed)
    case FailedWorkflowInstanceEvent(_, _) => Some(Failed)
  }

  /** The Decider event each command announces, with the given names. */
  function DeciderEventOf(c: InstanceCommand, workflowName: NString, instanceName: NString): (r: DeciderEvent)
    ensures !r.IsTaskEvent() && r.workflowName == workflowName && r.workflowInstanceName == instanceName
    ensures EventTypeOf(r) == Definitions.WorkflowScheduled <==> c.CreateWorkflowInstanceCommand?
  {
    match c
    case CreateWorkflowInstanceCommand(_, _) => WorkflowScheduledEvent(workflowName, instanceName)
    case StartWorkflowInstanceCommand(_, _) => WorkflowStartedEvent(workflowName, instanceName)
    case StopWorkflowInstanceCommand(_, _) => WorkflowStoppedEvent(workflowName, instanceName)
    case CancelWorkflowInstanceCommand(_, _) => WorkflowCanceledEvent(workflowName, instanceName)
    case CompletedWorkflowInstanceEvent(_, _) => WorkflowCompletedEvent(workflowName, instanceName)
    case FailedWorkflowInstanceEvent(_, _) => WorkflowFailedEvent(workflowName, instanceName)
  }

  /** The Reporter event that accompanies a workflow event, with the same names. */
  function ReportOf(e: DeciderEvent): (r: ReportEvent)
    requires !e.IsTaskEvent()
    ensures !r.IsTaskReport() && r.workflowName == e.workflowName && r.instanceName == e.workflowInstanceName
    ensures r.ReportWorkflowScheduledEvent? <==> e.WorkflowScheduledEvent?
  {
    match e
    case WorkflowScheduledEvent(w, i) => ReportWorkflowScheduledEvent(w, i)
    case WorkflowStartedEvent(w, i) => ReportWorkflowStartedEvent(w, i)
    case WorkflowStoppedEvent(w, i) => ReportWorkflowStoppedEvent(w, i)
    case WorkflowCanceledEvent(w, i) => ReportWorkflowCanceledEvent(w, i)
    case WorkflowCompletedEvent(w, i) => ReportWorkflowCompletedEvent(w, i)
    case WorkflowFailedEvent(w, i) => ReportWorkflowFailedEvent(w, i)
  }

  /** The status a command sets and the event it announces determine each other:
      two commands set the same status exactly when they announce the same event. */
  lemma StatusMatchesEvent(a: InstanceCommand, b: InstanceCommand, w: NString, i: NString)
    ensures StatusOf(a) == StatusOf(b) <==> DeciderEventOf(a, w, i) == DeciderEventOf(b, w, i)
  {
  }

  /** One message handled by the worker. A create command installs a fresh record
      with the command's names; every other command needs that record (it throws
      otherwise) and only sets its status. Both events carry the stored names, not
      the command's. */
  function Step(held: Option<WorkflowInstance>, c: InstanceCommand): (r: Messages.Step<Option<WorkflowInstance>>)
    ensures c.CreateWorkflowInstanceCommand? ==>
      r.state == Some(NoWorkflowInstance.(workflowName := c.workflowName, instanceName := c.instanceName))
    ensures !c.CreateWorkflowInstanceCommand? && held.None? ==> r == Messages.Step(None, [], Some(NullPointer))
    ensures !c.CreateWorkflowInstanceCommand? && held.Some? ==> r.state == Some(held.value.(status := StatusOf(c)))
    ensures r.fault.None? ==>
      && r.state.Some?
      && var e := DeciderEventOf(c, r.state.value.workflowName, r.state.value.instanceName);
      && r.outbox == [ToDecider(e), ToReporter(ReportOf(e))]
  {
    match c
    case CreateWorkflowInstanceCommand(w, i) =>
      var wi := NoWorkflowInstance.(workflowName := w, instanceName := i);
      var e := DeciderEventOf(c, w, i);
      Messages.Step(Some(wi), [ToDecider(e), ToReporter(ReportOf(e))], None)
    case _ =>
      match held
      case None => Messages.Step(None, [], Some(NullPointer))
      case Some(wi) =>
        var wi' := wi.(status := StatusOf(c));
        var e := DeciderEventOf(c, wi'.workflowName, wi'.instanceName);
        Messages.Step(Some(wi'), [ToDecider(e), ToReporter(ReportOf(e))], None)
  }

  /** The worker's state after handling the commands in order; it keeps running
      after an exception, with the state it had. */
  function Run(held: Option<WorkflowInstance>, cs: seq<InstanceCommand>): Option<WorkflowInstance>
    decreases |cs|
  {
    if |cs| == 0 then held else Run(Step(held, cs[0]).state, cs[1..])
  }

  /** After a create command, later commands never change the names: every event
      the worker sends names the instance it was created for. */
  lemma {:induction false} NamesFixedByCreate(w: NString, i: NString, cs: seq<InstanceCommand>)
    requires forall k :: 0 <= k < |cs| ==> !cs[k].CreateWorkflowInstanceCommand?
    ensures var r := Run(Step(None, CreateWorkflowInstanceCommand(w, i)).state, cs);
      r.Some? && r.value.workflowName == w && r.value.instanceName == i
    ensures |cs| > 0 ==> var r := Run(Step(None, CreateWorkflowInstanceCommand(w, i)).state, cs);
      r.value.status == StatusOf(cs[|cs| - 1])
    decreases |cs|
  {
    if |cs| > 0 {
      NamesFixedByCreateFrom(Step(None, CreateWorkflowInstanceCommand(w, i)).state.value, cs);
    }
  }

  lemma {:induction false} NamesFixedByCreateFrom(wi: WorkflowInstance, cs: seq<InstanceCommand>)
    requires forall k :: 0 <= k < |cs| ==> !cs[k].CreateWorkflowInstanceCommand?
    ensures var r := Run(Some(wi), cs);
      r.Some? && r.value.workflowName == wi.workflowName && r.value.instanceName == wi.instanceName
    ensures |cs| > 0 ==> Run(Some(wi), cs).value.status == StatusOf(cs[|cs| - 1])
    decreases |cs|
  {
    if |cs| > 0 {
      var wi' := Step(Some(wi), cs[0]).state.value;
      NamesFixedByCreateFrom(wi', cs[1..]);
      if |cs| == 1 {
        assert Run(Some(wi), cs) == Some(wi');
      } else {
        assert cs[1..][|cs[1..]| - 1] == cs[|cs| - 1];
      }
    }
  }

  /** Without a prior create command, every other command throws and sends nothing. */
  lemma CommandBeforeCreateFails(c: InstanceCommand)
    requires !c.CreateWorkflowInstanceCommand?
    ensures Step(None, c).fault == Some(NullPointer) && Step(None, c).outbox == []
  {
  }

  /** A start command given to the coordinator reaches an existing instance as a
      create command: the record is reset (status null again) and the events
      announce a scheduled workflow, never a started one. */
  lemma StartReschedules(s: WorkflowActor.State, held: Option<WorkflowInstance>, w: NString, i: string)
    requires i in s.children
    ensures var fwd := WorkflowActor.Step(s, StartWorkflowCommand(w, Some(i))).outbox;
      && fwd == [ToChild(i, CreateWorkflowInstanceCommand(w, Some(i)))]
      && Step(held, fwd[0].instanceCommand).state.value.status.None?
      && Step(held, fwd[0].instanceCommand).outbox[0] == ToDecider(WorkflowScheduledEvent(w, Some(i)))
  {
  }
}

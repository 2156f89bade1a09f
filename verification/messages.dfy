/** The messages the actors exchange, and the shape of one actor step. */
module Messages {
  import opened Lang
  import opened Definitions

  /** Events sent to the Decider (`DeciderActor.WorkflowEvent` / `TaskEvent` subclasses). */
  datatype DeciderEvent =
    | WorkflowScheduledEvent(workflowName: NString, workflowInstanceName: NString)
    | WorkflowStartedEvent(workflowName: NString, workflowInstanceName: NString)
    | WorkflowCompletedEvent(workflowName: NString, workflowInstanceName: NString)
    | WorkflowStoppedEvent(workflowName: NString, workflowInstanceName: NString)
    | WorkflowFailedEvent(workflowName: NString, workflowInstanceName: NString)
    | WorkflowCanceledEvent(workflowName: NString, workflowInstanceName: NString)
    | TaskStartedEvent(taskName: NString, workflowInstanceName: NString, workflowName: NString)
    | TaskCompletedEvent(taskName: NString, workflowInstanceName: NString, workflowName: NString)
    | TaskTimeoutEvent(taskName: NString, workflowInstanceName: NString, workflowName: NString)
    | TaskFailedEvent(taskName: NString, workflowInstanceName: NString, workflowName: NString)
  {
    predicate IsTaskEvent() {
      TaskStartedEvent? || TaskCompletedEvent? || TaskTimeoutEvent? || TaskFailedEvent?
    }
  }

  /** The event type under which the Decider decides each event class. */
  function EventTypeOf(e: DeciderEvent): (t: EventType)
    ensures e.IsTaskEvent() <==> t in {TaskStarted, TaskCompleted, TaskTimedOut, TaskFailed}
  {
    match e
    case WorkflowScheduledEvent(_, _) => WorkflowScheduled
    case WorkflowStartedEvent(_, _) => WorkflowStarted
    case WorkflowCompletedEvent(_, _) => WorkflowCompleted
    case WorkflowStoppedEvent(_, _) => WorkflowStopped
    case WorkflowFailedEvent(_, _) => WorkflowFailed
    case WorkflowCanceledEvent(_, _) => WorkflowCanceled
    case TaskStartedEvent(_, _, _) => TaskStarted
    case TaskCompletedEvent(_, _, _) => TaskCompleted
    case TaskTimeoutEvent(_, _, _) => TaskTimedOut
    case TaskFailedEvent(_, _, _) => TaskFailed
  }

  /** The two events are instances of the same event class. */
  predicate SameClass(a: DeciderEvent, b: DeciderEvent) {
    && a.WorkflowScheduledEvent? == b.WorkflowScheduledEvent?
    && a.WorkflowStartedEvent? == b.WorkflowStartedEvent?
    && a.WorkflowCompletedEvent? == b.WorkflowCompletedEvent?
    && a.WorkflowStoppedEvent? == b.WorkflowStoppedEvent?
    && a.WorkflowFailedEvent? == b.WorkflowFailedEvent?
    && a.WorkflowCanceledEvent? == b.WorkflowCanceledEvent?
    && a.TaskStartedEvent? == b.TaskStartedEvent?
    && a.TaskCompletedEvent? == b.TaskCompletedEvent?
    && a.TaskTimeoutEvent? == b.TaskTimeoutEvent?
    && a.TaskFailedEvent? == b.TaskFailedEvent?
  }

  /** Each event class is decided under its own event type: two events share a type
      exactly when they share a class, and task events are decided under the four
      task types. */
  lemma DispatchByClass(a: DeciderEvent, b: DeciderEvent)
    ensures EventTypeOf(a) == EventTypeOf(b) <==> SameClass(a, b)
    ensures a.IsTaskEvent() <==> EventTypeOf(a) in {TaskStarted, TaskCompleted, TaskTimedOut, TaskFailed}
  {
  }

  /** Events sent to the Reporter. Task events declare their fields in the order
      taskName, taskInstanceName, workflowName, workflowInstanceName. */
  datatype ReportEvent =
    | ReportWorkflowScheduledEvent(workflowName: NString, instanceName: NString)
    | ReportWorkflowStartedEvent(workflowName: NString, instanceName: NString)
    | ReportWorkflowStoppedEvent(workflowName: NString, instanceName: NString)
    | ReportWorkflowCompletedEvent(workflowName: NString, instanceName: NString)
    | ReportWorkflowFailedEvent(workflowName: NString, instanceName: NString)
    | ReportWorkflowCanceledEvent(workflowName: NString, instanceName: NString)
    | ReportTaskStartedEvent(taskName: NString, taskInstanceName: NString, workflowName: NString, workflowInstanceName: NString)
    | ReportTaskCompletedEvent(taskName: NString, taskInstanceName: NString, workflowName: NString, workflowInstanceName: NString)
    | ReportTaskTimeoutEvent(taskName: NString, taskInstanceName: NString, workflowName: NString, workflowInstanceName: NString)
    | ReportTaskFailedEvent(taskName: NString, taskInstanceName: NString, workflowName: NString, workflowInstanceName: NString)
  {
    predicate IsTaskReport() {
      ReportTaskStartedEvent? || ReportTaskCompletedEvent? || ReportTaskTimeoutEvent? || ReportTaskFailedEvent?
    }
  }

  /** The task-event subclass constructors: their parameters are named
      (taskName, taskInstanceName, workflowInstanceName, workflowName) and are passed
      on positionally to the superclass, whose fields are declared as
      (taskName, taskInstanceName, workflowName, workflowInstanceName). */
  function NewReportTaskStartedEvent(taskName: NString, taskInstanceName: NString, workflowInstanceName: NString, workflowName: NString): (r: ReportEvent)
    ensures r.ReportTaskStartedEvent? && r.taskName == taskName && r.taskInstanceName == taskInstanceName
    ensures r.workflowName == workflowInstanceName && r.workflowInstanceName == workflowName
  {
    ReportTaskStartedEvent(taskName, taskInstanceName, workflowInstanceName, workflowName)
  }
  function NewReportTaskCompletedEvent(taskName: NString, taskInstanceName: NString, workflowInstanceName: NString, workflowName: NString): (r: ReportEvent)
    ensures r.ReportTaskCompletedEvent? && r.taskName == taskName && r.taskInstanceName == taskInstanceName
    ensures r.workflowName == workflowInstanceName && r.workflowInstanceName == workflowName
  {
    ReportTaskCompletedEvent(taskName, taskInstanceName, workflowInstanceName, workflowName)
  }
  function NewReportTaskTimeoutEvent(taskName: NString, taskInstanceName: NString, workflowInstanceName: NString, workflowName: NString): (r: ReportEvent)
    ensures r.ReportTaskTimeoutEvent? && r.taskName == taskName && r.taskInstanceName == taskInstanceName
    ensures r.workflowName == workflowInstanceName && r.workflowInstanceName == workflowName
  {
    ReportTaskTimeoutEvent(taskName, taskInstanceName, workflowInstanceName, workflowName)
  }
  function NewReportTaskFailedEvent(taskName: NString, taskInstanceName: NString, workflowInstanceName: NString, workflowName: NString): (r: ReportEvent)
    ensures r.ReportTaskFailedEvent? && r.taskName == taskName && r.taskInstanceName == taskInstanceName
    ensures r.workflowName == workflowInstanceName && r.workflowInstanceName == workflowName
  {
    ReportTaskFailedEvent(taskName, taskInstanceName, workflowInstanceName, workflowName)
  }

  /** The task-event constructors as evidently intended: each argument lands in the
      field of its own name. */
  function NewReportTaskStartedEventCorrected(taskName: NString, taskInstanceName: NString, workflowInstanceName: NString, workflowName: NString): (r: ReportEvent)
    ensures r.ReportTaskStartedEvent? && r.taskName == taskName && r.taskInstanceName == taskInstanceName
    ensures r.workflowName == workflowName && r.workflowInstanceName == workflowInstanceName
  {
    ReportTaskStartedEvent(taskName, taskInstanceName, workflowName, workflowInstanceName)
  }
  function NewReportTaskCompletedEventCorrected(taskName: NString, taskInstanceName: NString, workflowInstanceName: NString, workflowName: NString): (r: ReportEvent)
    ensures r.ReportTaskCompletedEvent? && r.taskName == taskName && r.taskInstanceName == taskInstanceName
    ensures r.workflowName == workflowName && r.workflowInstanceName == workflowInstanceName
  {
    ReportTaskCompletedEvent(taskName, taskInstanceName, workflowName, workflowInstanceName)
  }
  function NewReportTaskTimeoutEventCorrected(taskName: NString, taskInstanceName: NString, workflowInstanceName: NString, workflowName: NString): (r: ReportEvent)
    ensures r.ReportTaskTimeoutEvent? && r.taskName == taskName && r.taskInstanceName == taskInstanceName
    ensures r.workflowName == workflowName && r.workflowInstanceName == workflowInstanceName
  {
    ReportTaskTimeoutEvent(taskName, taskInstanceName, workflowName, workflowInstanceName)
  }
  function NewReportTaskFailedEventCorrected(taskName: NString, taskInstanceName: NString, workflowInstanceName: NString, workflowName: NString): (r: ReportEvent)
    ensures r.ReportTaskFailedEvent? && r.taskName == taskName && r.taskInstanceName == taskInstanceName
    ensures r.workflowName == workflowName && r.workflowInstanceName == workflowInstanceName
  {
    ReportTaskFailedEvent(taskName, taskInstanceName, workflowName, workflowInstanceName)
  }

  /** Built with arguments (t, ti, a, b), every task report event answers `a` as its
      workflow name and `b` as its workflow instance name: the constructor parameter
      named workflowInstanceName ends up in the workflowName field and vice versa. */
  lemma ReportTaskEventSwapsNames(t: NString, ti: NString, a: NString, b: NString)
    ensures forall e | e in {NewReportTaskStartedEvent(t, ti, a, b), NewReportTaskCompletedEvent(t, ti, a, b),
                             NewReportTaskTimeoutEvent(t, ti, a, b), NewReportTaskFailedEvent(t, ti, a, b)} ::
      e.IsTaskReport() && e.taskName == t && e.taskInstanceName == ti && e.workflowName == a && e.workflowInstanceName == b
  {
  }

  /** Commands to the Workflow Coordinator (`WorkflowActor`). */
  datatype WorkflowCommand =
    | ScheduleWorkflowCommand(workflowName: NString)
    | StartWorkflowCommand(workflowName: NString, instanceName: NString)
    | StopWorkflowCommand(workflowName: NString, instanceName: NString)
    | CancelWorkflowCommand(workflowName: NString, instanceName: NString)

  /** Commands to one instance worker (`WorkflowInstanceActor`). */
  datatype InstanceCommand =
    | CreateWorkflowInstanceCommand(workflowName: NString, instanceName: NString)
    | StartWorkflowInstanceCommand(workflowName: NString, instanceName: NString)
    | StopWorkflowInstanceCommand(workflowName: NString, instanceName: NString)
    | CancelWorkflowInstanceCommand(workflowName: NString, instanceName: NString)
    | CompletedWorkflowInstanceEvent(workflowName: NString, instanceName: NString)
    | FailedWorkflowInstanceEvent(workflowName: NString, instanceName: NString)

  /** The command the task actor receives (`TaskActor.StartTaskCommand`). */
  datatype StartTaskCommand = StartTaskCommand(taskName: NString, workflowName: NString, workflowInstanceName: NString)

  /** One outgoing message, tagged with its destination. */
  datatype Message =
    | ToDecider(event: DeciderEvent)
    | ToReporter(report: ReportEvent)
    | ToWorkflowActor(command: WorkflowCommand)
    | ToTaskActor(startTask: StartTaskCommand)
    | ToChild(child: string, instanceCommand: InstanceCommand)

  /** The outcome of an actor handling one message: its new state, the messages it
      sent in order, and the exception that aborted the handling, if any (side
      effects made before the exception are kept). */
  datatype Step<S> = Step(state: S, outbox: seq<Message>, fault: Option<Fault>)
}

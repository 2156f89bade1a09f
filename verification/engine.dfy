/** Runtime records: `WorkflowInstance` and `TaskInstance`, over an abstract clock. */
module Engine {
  import opened Lang
  import opened Messages

  /** A reading of the abstract clock that replaces `LocalDateTime.now()`. */
  type Time = int

  /** `WorkflowInstance.WorkflowStatus`: there is no SCHEDULED value. */
  datatype WorkflowStatus = Running | Completed | Failed | Cancelled | Paused

  /** The error a failed HTTP call reports. */
  datatype Throwable = Throwable(message: NString)

  datatype TaskInstance = TaskInstance(
    workflowName: NString,
    workflowInstanceName: NString,
    taskName: NString,
    taskInstanceName: NString,
    startTime: Option<Time>,
    endTime: Option<Time>,
    response: NString,
    failure: Option<Throwable>)

  /** `new TaskInstance()`: every field null. */
  const NoTaskInstance := TaskInstance(None, None, None, None, None, None, None, None)

  datatype WorkflowInstance = WorkflowInstance(
    instanceName: NString,
    workflowName: NString,
    tasks: map<string, TaskInstance>,
    countTasks: int,
    startTime: Option<Time>,
    endTime: Option<Time>,
    status: Option<WorkflowStatus>)

  /** `new WorkflowInstance()`: no names, no tasks, no times, no status. */
  const NoWorkflowInstance := WorkflowInstance(None, None, map[], 0, None, None, None)

  /** `TaskInstance.isTerminated`. */
  predicate IsTerminated(ti: TaskInstance) {
    ti.startTime.Some? && ti.endTime.Some?
  }

  /** Stamping both times terminates a task instance whatever else it holds, and
      clearing either time makes it unterminated again. */
  lemma TerminatedByStamps(ti: TaskInstance, t0: Time, t1: Time)
    ensures IsTerminated(ti.(startTime := Some(t0), endTime := Some(t1)))
    ensures !IsTerminated(ti.(startTime := None)) && !IsTerminated(ti.(endTime := None))
    ensures !IsTerminated(NoTaskInstance)
  {
  }

  function Abs(x: int): nat {
    if x < 0 then -x else x
  }

  /** `TaskInstance.elapsedTime`: both times must be set; the absolute duration. */
  function ElapsedTime(ti: TaskInstance): (r: Result<nat>)
    ensures r.Ok? <==> IsTerminated(ti)
    ensures r.Err? ==> r.fault == NullPointer
    ensures r.Ok? ==> (ti.startTime.value + r.value == ti.endTime.value
                    || ti.endTime.value + r.value == ti.startTime.value)
  {
    if ti.startTime.None? || ti.endTime.None? then Err(NullPointer)
    else Ok(Abs(ti.endTime.value - ti.startTime.value))
  }

  /** The elapsed time does not depend on which of the two instants came first. */
  lemma ElapsedTimeSymmetric(ti: TaskInstance)
    requires IsTerminated(ti)
    ensures ElapsedTime(ti) == ElapsedTime(ti.(startTime := ti.endTime, endTime := ti.startTime))
  {
  }

  /** `new TaskInstance(ReportTaskEvent)`: copies the four names from the event's
      getters and leaves times, response and failure unset. */
  function TaskInstanceOf(e: ReportEvent): (ti: TaskInstance)
    requires e.IsTaskReport()
    ensures ti.workflowName == e.workflowName && ti.workflowInstanceName == e.workflowInstanceName
    ensures ti.taskName == e.taskName && ti.taskInstanceName == e.taskInstanceName
    ensures ti.startTime.None? && ti.endTime.None? && ti.response.None? && ti.failure.None?
    ensures !IsTerminated(ti)
  {
    TaskInstance(e.workflowName, e.workflowInstanceName, e.taskName, e.taskInstanceName, None, None, None, None)
  }
}

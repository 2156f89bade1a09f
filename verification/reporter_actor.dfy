/** `ReporterActor`: keeps one record per workflow instance name and stamps start
    and end times on it and on its task instances. The records it creates are
    blank: it never sets names, status or task counts, and never removes a record.
    Its maps reject null keys, and a missing record is dereferenced, so both throw. */
module ReporterActor {
  import opened Lang
  import opened Messages
  import opened Engine

  type Instances = map<string, WorkflowInstance>

  /** Sets the time of one workflow instance record that must already exist. */
  function StampWorkflow(m: Instances, instanceName: NString, now: Time, start: bool): (r: Result<Instances>)
    ensures r.Err? <==> instanceName.None? || instanceName.value !in m
    ensures r.Ok? ==> r.value.Keys == m.Keys
    ensures r.Ok? ==> forall k :: k in m && Some(k) != instanceName ==> r.value[k] == m[k]
    ensures r.Ok? && start ==> r.value[instanceName.value] == m[instanceName.value].(startTime := Some(now))
    ensures r.Ok? && !start ==> r.value[instanceName.value] == m[instanceName.value].(endTime := Some(now))
  {
    if instanceName.None? || instanceName.value !in m then Err(NullPointer)
    else
      var wi := m[instanceName.value];
      Ok(m[instanceName.value := if start then wi.(startTime := Some(now)) else wi.(endTime := Some(now))])
  }

  /** One event handled by the Reporter at clock reading `now`. Task events look
      up the record by the event's `workflowInstanceName` field. */
  function Step(m: Instances, e: ReportEvent, now: Time): (r: Result<Instances>)
    ensures r.Ok? ==> m.Keys <= r.value.Keys
    ensures e.ReportWorkflowScheduledEvent? ==>
      (r.Err? <==> e.instanceName.None?) &&
      (r.Ok? ==> r.value == m[e.instanceName.value := NoWorkflowInstance])
    ensures e.IsTaskReport() ==>
      (r.Err? <==>
        (|| e.workflowInstanceName.None? || e.workflowInstanceName.value !in m
         || e.taskInstanceName.None?
         || (!e.ReportTaskStartedEvent? && e.taskInstanceName.value !in m[e.workflowInstanceName.value].tasks)))
    ensures r.Ok? && e.ReportTaskStartedEvent? ==>
      r.value == m[e.workflowInstanceName.value := m[e.workflowInstanceName.value].(
        tasks := m[e.workflowInstanceName.value].tasks[e.taskInstanceName.value := NoTaskInstance.(startTime := Some(now))])]
    ensures r.Ok? && e.IsTaskReport() && !e.ReportTaskStartedEvent? ==>
      var wi := m[e.workflowInstanceName.value];
      r.value == m[e.workflowInstanceName.value := wi.(
        tasks := wi.tasks[e.taskInstanceName.value := wi.tasks[e.taskInstanceName.value].(endTime := Some(now))])]
    ensures e.ReportWorkflowStartedEvent? ==> r == StampWorkflow(m, e.instanceName, now, true)
    ensures !e.IsTaskReport() && !e.ReportWorkflowScheduledEvent? && !e.ReportWorkflowStartedEvent? ==>
      r == StampWorkflow(m, e.instanceName, now, false)
  {
    match e
    case ReportWorkflowScheduledEvent(_, i) =>
      if i.None? then Err(NullPointer) else Ok(m[i.value := NoWorkflowInstance])
    case ReportWorkflowStartedEvent(_, i) => StampWorkflow(m, i, now, true)
    case ReportWorkflowStoppedEvent(_, i) => StampWorkflow(m, i, now, false)
    case ReportWorkflowCompletedEvent(_, i) => StampWorkflow(m, i, now, false)
    case ReportWorkflowCanceledEvent(_, i) => StampWorkflow(m, i, now, false)
    case ReportWorkflowFailedEvent(_, i) => StampWorkflow(m, i, now, false)
    case ReportTaskStartedEvent(_, ti, _, wi) =>
      if wi.None? || wi.value !in m || ti.None? then Err(NullPointer)
      else
        var w := m[wi.value];
        Ok(m[wi.value := w.(tasks := w.tasks[ti.value := NoTaskInstance.(startTime := Some(now))])])
    case _ =>
      var wi := e.workflowInstanceName;
      var ti := e.taskInstanceName;
      if wi.None? || wi.value !in m || ti.None? || ti.value !in m[wi.value].tasks then Err(NullPointer)
      else
        var w := m[wi.value];
        Ok(m[wi.value := w.(tasks := w.tasks[ti.value := w.tasks[ti.value].(endTime := Some(now))])])
  }

  /** Handles timed events in order, stopping at the first exception. */
  function Run(m: Instances, es: seq<(ReportEvent, Time)>): Result<Instances>
    decreases |es|
  {
    if |es| == 0 then Ok(m)
    else
      match Step(m, es[0].0, es[0].1)
      case Err(f) => Err(f)
      case Ok(m') => Run(m', es[1..])
  }

  /** Records are never removed. */
  lemma {:induction false} RunNeverEvicts(m: Instances, es: seq<(ReportEvent, Time)>)
    ensures Run(m, es).Ok? ==> m.Keys <= Run(m, es).value.Keys
    decreases |es|
  {
    if |es| > 0 {
      var r := Step(m, es[0].0, es[0].1);
      if r.Ok? {
        RunNeverEvicts(r.value, es[1..]);
      }
    }
  }

  /** Every record is blank apart from its times and tasks: no name, no status, no
      task count. */
  predicate Blank(m: Instances) {
    forall k :: k in m ==>
      m[k].instanceName.None? && m[k].workflowName.None? && m[k].status.None? && m[k].countTasks == 0
  }

  /** The Reporter never fills in names or status: starting with no records, every
      record it ever holds is blank. */
  lemma {:induction false} RunKeepsRecordsBlank(m: Instances, es: seq<(ReportEvent, Time)>)
    requires Blank(m)
    ensures Run(m, es).Ok? ==> Blank(Run(m, es).value)
    decreases |es|
  {
    if |es| > 0 {
      var r := Step(m, es[0].0, es[0].1);
      if r.Ok? {
        assert Blank(r.value);
        RunKeepsRecordsBlank(r.value, es[1..]);
      }
    }
  }

  /** A task instance that is started and then completed, failed or timed out is
      terminated, and its elapsed time is the distance between the two readings. */
  lemma StartThenEndTerminates(m: Instances, t: NString, ti: string, w: NString, wi: string, e: ReportEvent, t0: Time, t1: Time)
    requires wi in m
    requires e.IsTaskReport() && !e.ReportTaskStartedEvent?
    requires e.taskInstanceName == Some(ti) && e.workflowInstanceName == Some(wi)
    ensures var r := Run(m, [(ReportTaskStartedEvent(t, Some(ti), w, Some(wi)), t0), (e, t1)]);
      && r.Ok? && wi in r.value && ti in r.value[wi].tasks
      && IsTerminated(r.value[wi].tasks[ti])
      && ElapsedTime(r.value[wi].tasks[ti]) == Ok(Abs(t1 - t0))
  {
    var es := [(ReportTaskStartedEvent(t, Some(ti), w, Some(wi)), t0), (e, t1)];
    var m1 := Step(m, es[0].0, es[0].1).value;
    assert m1[wi].tasks[ti] == NoTaskInstance.(startTime := Some(t0));
    var m2 := Step(m1, e, t1);
    assert m2.Ok?;
    assert m2.value[wi].tasks[ti] == NoTaskInstance.(startTime := Some(t0), endTime := Some(t1));
    assert es[1..] == [(e, t1)];
    assert Run(m1, [(e, t1)]) == m2 by {
      assert [(e, t1)][1..] == [];
    }
    assert Run(m, es) == Run(m1, es[1..]);
  }

  /** A task event built through its subclass constructor with a workflow instance
      name and a workflow name is looked up by the workflow name, so it throws when
      only the instance has a record. */
  lemma SwappedTaskEventMissesInstance(m: Instances, t: NString, ti: string, instanceName: string, workflowName: string, now: Time)
    requires instanceName in m && workflowName !in m
    ensures Step(m, NewReportTaskStartedEvent(t, Some(ti), Some(instanceName), Some(workflowName)), now).Err?
    ensures Step(m, NewReportTaskCompletedEvent(t, Some(ti), Some(instanceName), Some(workflowName)), now).Err?
  {
  }

  /** Built as intended, a started event and then a completed event for a task of
      an existing instance are both accepted, and the task instance ends up
      terminated under that instance's record. */
  lemma CorrectedTaskEventsReachInstance(m: Instances, t: NString, ti: string, instanceName: string, workflowName: string, t0: Time, t1: Time)
    requires instanceName in m
    ensures var r := Run(m, [(NewReportTaskStartedEventCorrected(t, Some(ti), Some(instanceName), Some(workflowName)), t0),
                            (NewReportTaskCompletedEventCorrected(t, Some(ti), Some(instanceName), Some(workflowName)), t1)]);
      && r.Ok? && instanceName in r.value && ti in r.value[instanceName].tasks
      && IsTerminated(r.value[instanceName].tasks[ti])
  {
    var e := NewReportTaskCompletedEventCorrected(t, Some(ti), Some(instanceName), Some(workflowName));
    StartThenEndTerminates(m, t, ti, Some(workflowName), instanceName, e, t0, t1);
  }

  /** A second scheduled event for the same instance replaces its record with a
      blank one, discarding its times and tasks. */
  lemma RescheduleResets(m: Instances, w: NString, i: string)
    ensures Step(m, ReportWorkflowScheduledEvent(w, Some(i)), 0).Ok?
    ensures Step(m, ReportWorkflowScheduledEvent(w, Some(i)), 0).value[i] == NoWorkflowInstance
  {
  }
}

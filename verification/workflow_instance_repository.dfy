/** `WorkflowInstanceRepository`: the task instances of each workflow instance,
    keyed by their response placeholder "${taskName.response}". */
module WorkflowInstanceRepository {
  import opened Lang
  import opened Definitions
  import opened Engine

  type Instances = map<string, map<string, TaskInstance>>

  /** `save`: creates the instance's map on first use, then stores the task instance
      under its response key, replacing any earlier one for the same task name. */
  function Save(repo: Instances, workflowInstance: string, ti: TaskInstance): (r: Instances)
    ensures workflowInstance in r
    ensures ResponseKey(ti.taskName) in r[workflowInstance] && r[workflowInstance][ResponseKey(ti.taskName)] == ti
    ensures forall k :: k != ResponseKey(ti.taskName) ==>
      (k in r[workflowInstance] <==> workflowInstance in repo && k in repo[workflowInstance])
    ensures forall k :: k != ResponseKey(ti.taskName) && k in r[workflowInstance] ==>
      r[workflowInstance][k] == repo[workflowInstance][k]
    ensures forall w :: w != workflowInstance ==> (w in r <==> w in repo) && (w in repo ==> r[w] == repo[w])
  {
    var tasks := if workflowInstance in repo then repo[workflowInstance] else map[];
    repo[workflowInstance := tasks[ResponseKey(ti.taskName) := ti]]
  }

  /** `findTaskInstanceByName`: throws for an unknown instance, and otherwise returns
      the stored task instance or null. */
  function FindTaskInstanceByName(repo: Instances, workflowInstance: string, key: string): (r: Result<Option<TaskInstance>>)
    ensures r.Err? <==> workflowInstance !in repo
    ensures r.Ok? ==> (r.value.Some? <==> key in repo[workflowInstance])
    ensures r.Ok? && r.value.Some? ==> r.value.value == repo[workflowInstance][key]
  {
    if workflowInstance !in repo then Err(NullPointer)
    else if key in repo[workflowInstance] then Ok(Some(repo[workflowInstance][key]))
    else Ok(None)
  }

  /** Saving a task instance of task `t`, then finding "${t.response}", returns it;
      a later save for the same task name overwrites an earlier one. */
  lemma SaveThenFind(repo: Instances, w: string, ti: TaskInstance, ti': TaskInstance, t: string)
    requires ti.taskName == Some(t) && ti'.taskName == Some(t)
    ensures FindTaskInstanceByName(Save(repo, w, ti), w, "${" + t + ".response}") == Ok(Some(ti))
    ensures FindTaskInstanceByName(Save(Save(repo, w, ti), w, ti'), w, "${" + t + ".response}") == Ok(Some(ti'))
  {
  }
}

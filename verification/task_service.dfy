/** `TaskService`: task edits over the workflow registry, and the older task
    executor, which fills a POST body written as a placeholder "${...}" from the
    task instances already stored for the workflow instance. The HTTP exchange is
    not modelled: its outcome arrives as the `response` or `failure` argument. */
module TaskService {
  import opened Lang
  import opened Definitions
  import opened Engine
  import opened Messages
  import WorkflowRepository
  import WorkflowInstanceRepository
  import TaskExecutorService

  /** The characters Java's `.` does not match without DOTALL: line feed, carriage
      return, next line, line separator and paragraph separator. */
  predicate IsLineTerminator(c: char) {
    c == '\n' || c == '\r' || c == '\U{0085}' || c == '\U{2028}' || c == '\U{2029}'
  }

  /** The strings the whole of `\$\{(.)*}` matches: "${", any run of characters
      without a line terminator (a '}' among them), and a closing '}'. */
  predicate IsContextualInput(s: string) {
    && |s| >= 3 && s[0] == '$' && s[1] == '{' && s[|s| - 1] == '}'
    && forall k :: 2 <= k < |s| - 1 ==> !IsLineTerminator(s[k])
  }

  /** `isContextualInput`, matching the pattern one character at a time as its
      automaton does: after "${" the body loop stays live while no line terminator
      has been read, and the input is accepted when the last character read was a
      '}' taken while the loop was live. */
  method MatchContextualInput(s: string) returns (b: bool)
    ensures b == IsContextualInput(s)
  {
    if |s| < 2 || s[0] != '$' || s[1] != '{' {
      return false;
    }
    var live := true;
    var accepted := false;
    var i := 2;
    while i < |s|
      invariant 2 <= i <= |s|
      invariant live == forall k :: 2 <= k < i ==> !IsLineTerminator(s[k])
      invariant accepted == (i > 2 && s[i - 1] == '}' && forall k :: 2 <= k < i - 1 ==> !IsLineTerminator(s[k]))
    {
      accepted := live && s[i] == '}';
      live := live && !IsLineTerminator(s[i]);
      i := i + 1;
    }
    return accepted;
  }

  /** The response placeholder of a task whose name has no line break matches the
      pattern, so a POST body written as that placeholder is looked up. */
  lemma ResponseKeyIsContextual(taskName: string)
    requires forall k :: 0 <= k < |taskName| ==> !IsLineTerminator(taskName[k])
    ensures IsContextualInput(ResponseKey(Some(taskName)))
  {
    var key := ResponseKey(Some(taskName));
    assert key == "${" + taskName + ".response}";
    forall k | 2 <= k < |key| - 1 ensures !IsLineTerminator(key[k]) {
      if k < 2 + |taskName| {
        assert key[k] == taskName[k - 2];
      }
    }
  }

  /** The body of a POST request: a placeholder is replaced by the response of the
      task instance stored under it for this workflow instance, and throws when the
      instance has nothing stored or nothing under that key. A null body throws in
      the matcher. */
  function BuildPostBody(repo: WorkflowInstanceRepository.Instances, body: NString, workflowInstance: string): (r: Result<NString>)
    ensures r.Err? ==> r.fault == NullPointer
    ensures body.None? ==> r.Err?
    ensures body.Some? && !IsContextualInput(body.value) ==> r == Ok(body)
    ensures body.Some? && IsContextualInput(body.value) ==>
      (r.Ok? <==> workflowInstance in repo && body.value in repo[workflowInstance])
    ensures body.Some? && IsContextualInput(body.value) && r.Ok? ==>
      r.value == repo[workflowInstance][body.value].response
  {
    if body.None? then Err(NullPointer)
    else if IsContextualInput(body.value) then
      var found :- WorkflowInstanceRepository.FindTaskInstanceByName(repo, workflowInstance, body.value);
      if found.None? then Err(NullPointer) else Ok(found.value.response)
    else Ok(body)
  }

  /** `addHeaders`: every header as written, in order; a null list throws. */
  function AddHeaders(headers: Option<seq<Header>>): (r: Result<seq<Entry>>)
    ensures r.Ok? <==> headers.Some?
    ensures r.Ok? ==> |r.value| == |headers.value|
    ensures r.Ok? ==> forall i :: 0 <= i < |r.value| ==> r.value[i] == Entry(headers.value[i].name, Some(headers.value[i].value))
  {
    if headers.None? then Err(NullPointer)
    else Ok(seq(|headers.value|, i requires 0 <= i < |headers.value| => Entry(headers.value[i].name, Some(headers.value[i].value))))
  }

  /** `addQueryParams`: every parameter becomes a request attribute; a null list
      throws. */
  function AddQueryParams(params: Option<seq<Param>>): (r: Result<map<string, string>>)
    ensures r.Ok? <==> params.Some?
    ensures r.Ok? ==> r.value.Keys == set p | p in params.value :: p.name
    ensures r.Ok? ==> r.value == Attributes(params.value)
  {
    if params.None? then Err(NullPointer) else Ok(Attributes(params.value))
  }

  /** The uri variables are passed on as they are; a null list is passed as null. */
  function PassUriVariables(vars: Option<seq<string>>): (r: Option<seq<NString>>)
    ensures r.Some? <==> vars.Some?
    ensures r.Some? ==> |r.value| == |vars.value| && forall i :: 0 <= i < |r.value| ==> r.value[i] == Some(vars.value[i])
  {
    if vars.None? then None
    else Some(seq(|vars.value|, i requires 0 <= i < |vars.value| => Some(vars.value[i])))
  }

  /** `prepareHttpRequest` and the four `build*Request` methods. A null method, or
      one other than GET, POST, PUT and DELETE, leaves the request null, and
      `execute` then dereferences it. Only POST looks its body up; PUT sends its
      body as written. */
  function PrepareHttpRequest(repo: WorkflowInstanceRepository.Instances, req: HttpRequest, workflowInstance: string): (r: Result<Request>)
    ensures r.Err? ==> r.fault == NullPointer
    ensures req.httpMethod !in {Some(Get), Some(Post), Some(Put), Some(HttpMethod.Delete)} ==> r.Err?
    ensures req.httpMethod in {Some(Get), Some(Put), Some(HttpMethod.Delete)} ==>
      (r.Ok? <==> req.headers.Some? && req.params.Some?)
    ensures req.httpMethod == Some(Post) ==>
      (r.Ok? <==> req.headers.Some? && req.params.Some? && BuildPostBody(repo, req.body, workflowInstance).Ok?)
    ensures r.Ok? ==>
      && Some(r.value.httpMethod) == req.httpMethod && r.value.url == req.url
      && r.value.uriVariables == PassUriVariables(req.uriVariables)
      && r.value.headers == AddHeaders(req.headers).value
      && r.value.attributes == AddQueryParams(req.params).value
    ensures r.Ok? ==> (r.value.body.Some? <==> r.value.httpMethod in {Post, Put})
    ensures r.Ok? && r.value.httpMethod == Put ==> r.value.body == Some(req.body)
    ensures r.Ok? && r.value.httpMethod == Post ==> r.value.body == Some(BuildPostBody(repo, req.body, workflowInstance).value)
  {
    if req.httpMethod !in {Some(Get), Some(Post), Some(Put), Some(HttpMethod.Delete)} then Err(NullPointer)
    else
      var m := req.httpMethod.value;
      var body :- if m == Post then
                    var b :- BuildPostBody(repo, req.body, workflowInstance); Ok(Some(b))
                  else if m == Put then Ok(Some(req.body))
                  else Ok(None);
      var headers :- AddHeaders(req.headers);
      var attributes :- AddQueryParams(req.params);
      Ok(Request(m, req.url, PassUriVariables(req.uriVariables), headers, attributes, body))
  }

  /** `execute` up to sending the request: the task instance and the request. */
  function Execute(repo: WorkflowInstanceRepository.Instances, task: Task, workflowInstance: string, uuid: string): (r: Result<(Request, TaskInstance)>)
    ensures r.Ok? <==> PrepareHttpRequest(repo, task.httpRequest, workflowInstance).Ok?
    ensures r.Ok? ==> r.value == (PrepareHttpRequest(repo, task.httpRequest, workflowInstance).value, TaskExecutorService.BuildTaskInstance(task, uuid))
  {
    var ti := TaskExecutorService.BuildTaskInstance(task, uuid);
    var request :- PrepareHttpRequest(repo, task.httpRequest, workflowInstance);
    Ok((request, ti))
  }

  /** The success callback: stores the task instance with its response for the
      workflow instance and reports the task completed for that instance. */
  function OnSuccess(repo: WorkflowInstanceRepository.Instances, task: Task, workflowInstance: string, ti: TaskInstance, response: NString)
    : (r: (WorkflowInstanceRepository.Instances, Message))
    ensures r.0 == WorkflowInstanceRepository.Save(repo, workflowInstance, ti.(response := response))
    ensures r.1 == ToDecider(TaskCompletedEvent(Some(task.name), Some(workflowInstance), Some(task.workflowName)))
  {
    (WorkflowInstanceRepository.Save(repo, workflowInstance, ti.(response := response)),
     ToDecider(TaskCompletedEvent(Some(task.name), Some(workflowInstance), Some(task.workflowName))))
  }

  /** The failure callback, as written: stores the task instance with its failure,
      and reports the task failed passing the task instance's random name where
      the event expects the workflow instance name. */
  function OnFailure(repo: WorkflowInstanceRepository.Instances, task: Task, workflowInstance: string, ti: TaskInstance, failure: Throwable)
    : (r: (WorkflowInstanceRepository.Instances, Message))
    ensures r.0 == WorkflowInstanceRepository.Save(repo, workflowInstance, ti.(failure := Some(failure)))
    ensures r.1 == ToDecider(TaskFailedEvent(Some(task.name), ti.taskInstanceName, Some(task.workflowName)))
  {
    (WorkflowInstanceRepository.Save(repo, workflowInstance, ti.(failure := Some(failure))),
     ToDecider(TaskFailedEvent(Some(task.name), ti.taskInstanceName, Some(task.workflowName))))
  }

  /** The failure callback as evidently intended: the event names the workflow
      instance the task ran for, as the success callback's does. */
  function OnFailureCorrected(repo: WorkflowInstanceRepository.Instances, task: Task, workflowInstance: string, ti: TaskInstance, failure: Throwable)
    : (r: (WorkflowInstanceRepository.Instances, Message))
    ensures r.0 == OnFailure(repo, task, workflowInstance, ti, failure).0
    ensures r.1.ToDecider? && r.1.event.TaskFailedEvent?
    ensures r.1.event.workflowInstanceName == OnSuccess(repo, task, workflowInstance, ti, None).1.event.workflowInstanceName
    ensures r.1.event.taskName == Some(task.name) && r.1.event.workflowName == Some(task.workflowName)
  {
    (WorkflowInstanceRepository.Save(repo, workflowInstance, ti.(failure := Some(failure))),
     ToDecider(TaskFailedEvent(Some(task.name), Some(workflowInstance), Some(task.workflowName))))
  }

  /** As written, the failure of a task run for instance `wi` is reported for the
      instance named by the task instance's random name. */
  lemma FailureNamesWrongInstance(repo: WorkflowInstanceRepository.Instances, task: Task, wi: string, uuid: string, failure: Throwable)
    requires uuid != wi
    ensures OnFailure(repo, task, wi, TaskExecutorService.BuildTaskInstance(task, uuid), failure).1.event.workflowInstanceName == Some(uuid)
    ensures OnFailure(repo, task, wi, TaskExecutorService.BuildTaskInstance(task, uuid), failure).1
         != OnFailureCorrected(repo, task, wi, TaskExecutorService.BuildTaskInstance(task, uuid), failure).1
  {
  }

  /** Data flows between tasks: once task `t` has answered `x` for instance `wi`, a
      POST whose body is "${t.response}" sends `x` for that instance. */
  lemma ResponseFeedsLaterPost(repo: WorkflowInstanceRepository.Instances, t: Task, wi: string, uuid: string, x: NString, req: HttpRequest)
    requires forall k :: 0 <= k < |t.name| ==> !IsLineTerminator(t.name[k])
    requires req.httpMethod == Some(Post) && req.headers.Some? && req.params.Some?
    requires req.body == Some("${" + t.name + ".response}")
    ensures var repo' := OnSuccess(repo, t, wi, TaskExecutorService.BuildTaskInstance(t, uuid), x).0;
      var r := PrepareHttpRequest(repo', req, wi);
      r.Ok? && r.value.body == Some(x)
  {
    ResponseKeyIsContextual(t.name);
    var repo' := OnSuccess(repo, t, wi, TaskExecutorService.BuildTaskInstance(t, uuid), x).0;
    assert ResponseKey(Some(t.name)) in repo'[wi];
  }

  /** Before any task of the instance has answered, a POST whose body is a
      placeholder throws. */
  lemma PlaceholderBeforeAnyResponseFails(repo: WorkflowInstanceRepository.Instances, req: HttpRequest, wi: string)
    requires wi !in repo
    requires req.httpMethod == Some(Post) && req.body.Some? && IsContextualInput(req.body.value)
    ensures PrepareHttpRequest(repo, req, wi) == Err(NullPointer)
  {
  }

  /** `save`: `Workflow.createTask` is not part of this model, so it is a parameter
      returning the updated workflow and the task it answers. */
  function Save(r: WorkflowRepository.Repository, workflowName: string, task: Task,
                createTask: (Workflow, Task) -> (Workflow, Task)): (res: Result<(WorkflowRepository.Repository, Task)>)
    ensures res.Err? <==> workflowName !in r.workflows
    ensures res.Ok? ==> res.value.1 == createTask(r.workflows[workflowName], task).1
    ensures res.Ok? ==> res.value.0.workflows == r.workflows[workflowName := createTask(r.workflows[workflowName], task).0]
    ensures res.Ok? ==> res.value.0.inputs == r.inputs
  {
    match WorkflowRepository.FindByName(r, workflowName)
    case None => Err(NullPointer)
    case Some(w) =>
      var (w', t) := createTask(w, task);
      Ok((r.(workflows := r.workflows[workflowName := w']), t))
  }

  /** `update` in TaskService.java, which ignores `taskName` and calls `save`; it
      mirrors `HandlerService.Update` because the two services are separate classes. */
  function Update(r: WorkflowRepository.Repository, workflowName: string, taskName: string, task: Task,
                  createTask: (Workflow, Task) -> (Workflow, Task)): (res: Result<(WorkflowRepository.Repository, Task)>)
    ensures res == Save(r, workflowName, task, createTask)
  {
    Save(r, workflowName, task, createTask)
  }

  /** Two updates that differ only in the task name give the same result. */
  lemma UpdateIgnoresTaskName(r: WorkflowRepository.Repository, workflowName: string, n1: string, n2: string, task: Task,
                              createTask: (Workflow, Task) -> (Workflow, Task))
    ensures Update(r, workflowName, n1, task, createTask) == Update(r, workflowName, n2, task, createTask)
  {
  }

  /** `findAll`: the workflow's tasks. */
  function FindAll(r: WorkflowRepository.Repository, workflowName: string): (ts: Result<seq<Task>>)
    ensures ts.Err? <==> workflowName !in r.workflows
    ensures ts.Ok? ==> ts.value == r.workflows[workflowName].tasks
  {
    match WorkflowRepository.FindByName(r, workflowName)
    case None => Err(NullPointer)
    case Some(w) => Ok(w.tasks)
  }

  /** The tasks not named `n`, in order. */
  function RemoveNamed(ts: seq<Task>, n: string): (r: seq<Task>)
    ensures forall t :: t in r <==> t in ts && t.name != n
    ensures |r| <= |ts|
  {
    if |ts| == 0 then []
    else (if ts[0].name == n then [] else [ts[0]]) + RemoveNamed(ts[1..], n)
  }

  /** `delete`: removes every task named `taskName` from the workflow and keeps all
      others; the rest of the registry is unchanged. */
  function Delete(r: WorkflowRepository.Repository, workflowName: string, taskName: string): (r': Result<WorkflowRepository.Repository>)
    ensures r'.Err? <==> workflowName !in r.workflows
    ensures r'.Ok? ==> r'.value.workflows.Keys == r.workflows.Keys && r'.value.inputs == r.inputs
    ensures r'.Ok? ==> forall n :: n in r.workflows && n != workflowName ==> r'.value.workflows[n] == r.workflows[n]
    ensures r'.Ok? ==>
      var before := r.workflows[workflowName];
      var after := r'.value.workflows[workflowName];
      && after.name == before.name && after.handlers == before.handlers
      && forall t :: t in after.tasks <==> t in before.tasks && t.name != taskName
  {
    match WorkflowRepository.FindByName(r, workflowName)
    case None => Err(NullPointer)
    case Some(w) =>
      Ok(r.(workflows := r.workflows[workflowName := w.(tasks := RemoveNamed(w.tasks, taskName))]))
  }

  /** After a delete, no task of that name is left, and deleting again changes
      nothing. */
  lemma DeleteIdempotent(r: WorkflowRepository.Repository, workflowName: string, taskName: string)
    requires workflowName in r.workflows
    ensures var r1 := Delete(r, workflowName, taskName).value;
      && (forall t :: t in r1.workflows[workflowName].tasks ==> t.name != taskName)
      && Delete(r1, workflowName, taskName) == Ok(r1)
  {
    var r1 := Delete(r, workflowName, taskName).value;
    RemoveNamedIdempotent(r.workflows[workflowName].tasks, taskName);
    assert r1.workflows[workflowName].(tasks := RemoveNamed(r1.workflows[workflowName].tasks, taskName)) == r1.workflows[workflowName];
    assert r1.workflows[workflowName := r1.workflows[workflowName]] == r1.workflows;
  }

  lemma {:induction false} RemoveNamedIdempotent(ts: seq<Task>, n: string)
    ensures RemoveNamed(RemoveNamed(ts, n), n) == RemoveNamed(ts, n)
    decreases |ts|
  {
    if |ts| > 0 {
      RemoveNamedIdempotent(ts[1..], n);
      var rest := RemoveNamed(ts[1..], n);
      if ts[0].name != n {
        var once := [ts[0]] + rest;
        assert RemoveNamed(ts, n) == once;
        assert once[0] == ts[0] && once[1..] == rest;
        assert RemoveNamed(once, n) == [ts[0]] + RemoveNamed(rest, n);
      } else {
        assert RemoveNamed(ts, n) == [] + rest;
        assert [] + rest == rest;
      }
    }
  }
}

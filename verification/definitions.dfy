/** The workflow definition model: workflows, tasks with their HTTP request
    templates, handlers with their event type, contextual inputs, and the abstract
    request record the task services hand to the HTTP client. */
module Definitions {
  import opened Lang
  import opened Conditions
  import opened Commands

  /** `Handler.EventType`. */
  datatype EventType =
    | TaskStarted | TaskCompleted | TaskTimedOut | TaskFailed
    | WorkflowScheduled | WorkflowStarted | WorkflowCompleted | WorkflowStopped | WorkflowFailed | WorkflowCanceled

  /** The name `Enum.name()` gives each event type. */
  function EventTypeName(t: EventType): string {
    match t
    case TaskStarted => "TASK_STARTED"
    case TaskCompleted => "TASK_COMPLETED"
    case TaskTimedOut => "TASK_TIMEDOUT"
    case TaskFailed => "TASK_FAILED"
    case WorkflowScheduled => "WORKFLOW_SCHEDULED"
    case WorkflowStarted => "WORKFLOW_STARTED"
    case WorkflowCompleted => "WORKFLOW_COMPLETED"
    case WorkflowStopped => "WORKFLOW_STOPPED"
    case WorkflowFailed => "WORKFLOW_FAILED"
    case WorkflowCanceled => "WORKFLOW_CANCELED"
  }

  /** `EventType.valueOf`: the event type of that name, or IllegalArgumentException. */
  function EventTypeValueOf(name: string): (r: Result<EventType>)
    ensures r.Ok? ==> EventTypeName(r.value) == name
    ensures r.Err? ==> r.fault == IllegalArgument && forall t :: EventTypeName(t) != name
  {
    if name == "TASK_STARTED" then Ok(TaskStarted)
    else if name == "TASK_COMPLETED" then Ok(TaskCompleted)
    else if name == "TASK_TIMEDOUT" then Ok(TaskTimedOut)
    else if name == "TASK_FAILED" then Ok(TaskFailed)
    else if name == "WORKFLOW_SCHEDULED" then Ok(WorkflowScheduled)
    else if name == "WORKFLOW_STARTED" then Ok(WorkflowStarted)
    else if name == "WORKFLOW_COMPLETED" then Ok(WorkflowCompleted)
    else if name == "WORKFLOW_STOPPED" then Ok(WorkflowStopped)
    else if name == "WORKFLOW_FAILED" then Ok(WorkflowFailed)
    else if name == "WORKFLOW_CANCELED" then Ok(WorkflowCanceled)
    else Err(IllegalArgument)
  }

  /** `valueOf` inverts `name()` on every event type. */
  lemma EventTypeNameRoundTrip(t: EventType)
    ensures EventTypeValueOf(EventTypeName(t)) == Ok(t)
  {
  }

  /** Spring's `HttpMethod`. */
  datatype HttpMethod = Get | Head | Post | Put | Patch | Delete | Options | Trace

  datatype Header = Header(name: string, value: string)
  datatype Param = Param(name: string, value: string)

  /** A task's request template. Every reference field may be null: the serializer
      leaves method, url, uri variables and headers null for an unknown request kind,
      and a GET or DELETE has a null body. */
  datatype HttpRequest = HttpRequest(
    httpMethod: Option<HttpMethod>,
    url: NString,
    uriVariables: Option<seq<string>>,
    headers: Option<seq<Header>>,
    params: Option<seq<Param>>,
    body: NString)

  datatype Task = Task(name: string, workflowName: string, httpRequest: HttpRequest)

  /** A handler: the event type it reacts to, its conditions (ANDed) and its commands.
      A command slot is null when the factory did not recognise its function name.
      The source compares handlers by name only (see `PartiturWorkflowSerializer`). */
  datatype Handler = Handler(
    name: string,
    eventType: EventType,
    conditions: seq<Condition>,
    commands: seq<Option<Command>>)

  /** A workflow definition; the task and handler sets are kept in iteration order. */
  datatype Workflow = Workflow(name: string, tasks: seq<Task>, handlers: seq<Handler>)

  /** A contextual input: a placeholder key and the value substituted for it. */
  datatype ContextualInput = ContextualInput(key: string, value: NString)

  /** A header or request attribute added to the outgoing request, in the order added. */
  datatype Entry = Entry(name: string, value: NString)

  /** The request a task service builds and gives to the HTTP client. `uriVariables`
      is the list object passed to `uri(url, ...)`; headers accumulate in the order
      added; `attributes` is the request's attribute map; `body` is `None` for a
      method that carries no body, and `Some(None)` for a null body. */
  datatype Request = Request(
    httpMethod: HttpMethod,
    url: NString,
    uriVariables: Option<seq<NString>>,
    headers: seq<Entry>,
    attributes: map<string, string>,
    body: Option<NString>)

  /** The keys of `m` are exactly the names of the parameters. */
  ghost predicate NamesAreKeys(params: seq<Param>, m: map<string, string>) {
    forall n :: n in m <==> exists i :: 0 <= i < |params| && params[i].name == n
  }

  /** No parameter after the `i`-th has its name. */
  predicate IsLastOfName(params: seq<Param>, i: nat)
    requires i < |params|
  {
    forall j :: i < j < |params| ==> params[j].name != params[i].name
  }

  /** The last parameter of each name is the one whose value `m` holds. */
  predicate LastOfNameWins(params: seq<Param>, m: map<string, string>) {
    forall i :: 0 <= i < |params| && IsLastOfName(params, i) ==>
      params[i].name in m && m[params[i].name] == params[i].value
  }

  /** Setting the last parameter's attribute on top of the attributes of the others
      adds exactly its name. */
  lemma NamesAreKeysExtend(ps: seq<Param>, m: map<string, string>)
    requires |ps| > 0 && NamesAreKeys(ps[..|ps| - 1], m)
    ensures NamesAreKeys(ps, m[ps[|ps| - 1].name := ps[|ps| - 1].value])
  {
    var init := ps[..|ps| - 1];
    var last := ps[|ps| - 1];
    var m' := m[last.name := last.value];
    forall n
      ensures n in m' <==> exists i :: 0 <= i < |ps| && ps[i].name == n
    {
      if n in m' && n != last.name {
        var i :| 0 <= i < |init| && init[i].name == n;
        assert ps[i] == init[i];
      }
      if n !in m' {
        forall i | 0 <= i < |ps| ensures ps[i].name != n {
          if i < |init| {
            assert ps[i] == init[i];
          }
        }
      }
    }
  }

  /** Setting the last parameter's attribute on top of the attributes of the others
      keeps the value of every other last-of-its-name parameter. */
  lemma LastOfNameWinsExtend(ps: seq<Param>, m: map<string, string>)
    requires |ps| > 0 && LastOfNameWins(ps[..|ps| - 1], m)
    ensures LastOfNameWins(ps, m[ps[|ps| - 1].name := ps[|ps| - 1].value])
  {
    var init := ps[..|ps| - 1];
    var last := ps[|ps| - 1];
    var m' := m[last.name := last.value];
    forall i | 0 <= i < |ps| && IsLastOfName(ps, i)
      ensures ps[i].name in m' && m'[ps[i].name] == ps[i].value
    {
      if i < |init| {
        assert ps[|ps| - 1].name != ps[i].name;
        assert ps[i] == init[i];
        forall j | i < j < |init| ensures init[j].name != init[i].name {
          assert ps[j] == init[j];
        }
        assert IsLastOfName(init, i);
      }
    }
  }

  /** `request.attribute(name, value)` for each query parameter in order: every
      parameter name becomes an attribute, and the last parameter of a name wins. */
  function Attributes(params: seq<Param>): (m: map<string, string>)
    ensures NamesAreKeys(params, m)
    ensures LastOfNameWins(params, m)
  {
    if |params| == 0 then map[]
    else
      var init := params[..|params| - 1];
      var last := params[|params| - 1];
      var m := Attributes(init);
      NamesAreKeysExtend(params, m);
      LastOfNameWinsExtend(params, m);
      m[last.name := last.value]
  }

  /** The key a task's response is published under: "${" + taskName + ".response}". */
  function ResponseKey(taskName: NString): (k: string)
    ensures |k| >= 12 && k[..2] == "${" && k[|k| - 1] == '}'
    ensures taskName.Some? ==> k == "${" + taskName.value + ".response}"
  {
    "${" + Show(taskName) + ".response}"
  }
}

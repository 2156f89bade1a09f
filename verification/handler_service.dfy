/** `HandlerService`: handler queries and edits over one workflow of the registry.
    Every operation first looks the workflow up and dereferences it, so it throws
    when the workflow does not exist. */
module HandlerService {
  import opened Lang
  import opened Definitions
  import opened WorkflowRepository

  /** The handlers of type `t`, in iteration order. */
  function Filter(hs: seq<Handler>, t: EventType): (r: seq<Handler>)
    ensures forall h :: h in r <==> h in hs && h.eventType == t
    ensures |r| <= |hs|
  {
    if |hs| == 0 then []
    else (if hs[0].eventType == t then [hs[0]] else []) + Filter(hs[1..], t)
  }

  /** A single handler is kept exactly when it has type `t`. */
  lemma FilterSingle(h: Handler, t: EventType)
    ensures Filter([h], t) == (if h.eventType == t then [h] else [])
  {
    assert [h][1..] == [];
  }

  /** Filtering distributes over concatenation. With `FilterSingle` this pins the
      result down as the handlers of type `t` in their original order. */
  lemma {:induction false} FilterAppend(a: seq<Handler>, b: seq<Handler>, t: EventType)
    ensures Filter(a + b, t) == Filter(a, t) + Filter(b, t)
  {
    if |a| == 0 {
      assert a + b == b;
    } else {
      var head := if a[0].eventType == t then [a[0]] else [];
      assert (a + b)[0] == a[0];
      assert (a + b)[1..] == a[1..] + b;
      FilterAppend(a[1..], b, t);
      assert Filter(a + b, t) == head + Filter(a[1..] + b, t);
      assert head + (Filter(a[1..], t) + Filter(b, t)) == (head + Filter(a[1..], t)) + Filter(b, t);
    }
  }

  /** `find`: exactly the workflow's handlers whose event type is `t`. */
  function Find(r: Repository, workflowName: string, t: EventType): (hs: Result<seq<Handler>>)
    ensures hs.Err? <==> workflowName !in r.workflows
    ensures hs.Ok? ==> forall h :: h in hs.value ==> h.eventType == t && h in r.workflows[workflowName].handlers
    ensures hs.Ok? ==> forall h :: h in r.workflows[workflowName].handlers && h.eventType == t ==> h in hs.value
  {
    match FindByName(r, workflowName)
    case None => Err(NullPointer)
    case Some(w) => Ok(Filter(w.handlers, t))
  }

  /** `findAll`: the workflow's handlers. */
  function FindAll(r: Repository, workflowName: string): (hs: Result<seq<Handler>>)
    ensures hs.Err? <==> workflowName !in r.workflows
    ensures hs.Ok? ==> hs.value == r.workflows[workflowName].handlers
  {
    match FindByName(r, workflowName)
    case None => Err(NullPointer)
    case Some(w) => Ok(w.handlers)
  }

  /** The handlers not named `n`, in order. */
  function RemoveNamed(hs: seq<Handler>, n: string): (r: seq<Handler>)
    ensures forall h :: h in r <==> h in hs && h.name != n
    ensures |r| <= |hs|
  {
    if |hs| == 0 then []
    else (if hs[0].name == n then [] else [hs[0]]) + RemoveNamed(hs[1..], n)
  }

  /** `delete`: removes every handler named `handlerName` from the workflow and keeps
      all others; the rest of the registry is unchanged. */
  function Delete(r: Repository, workflowName: string, handlerName: string): (r': Result<Repository>)
    ensures r'.Err? <==> workflowName !in r.workflows
    ensures r'.Ok? ==> r'.value.workflows.Keys == r.workflows.Keys && r'.value.inputs == r.inputs
    ensures r'.Ok? ==> forall n :: n in r.workflows && n != workflowName ==> r'.value.workflows[n] == r.workflows[n]
    ensures r'.Ok? ==>
      var before := r.workflows[workflowName];
      var after := r'.value.workflows[workflowName];
      && after.name == before.name && after.tasks == before.tasks
      && forall h :: h in after.handlers <==> h in before.handlers && h.name != handlerName
  {
    match FindByName(r, workflowName)
    case None => Err(NullPointer)
    case Some(w) =>
      Ok(r.(workflows := r.workflows[workflowName := w.(handlers := RemoveNamed(w.handlers, handlerName))]))
  }

  /** `save`: `Workflow.createHandler` is not part of this model, so it is a parameter
      returning the updated workflow and the handler it answers. */
  function Save(r: Repository, workflowName: string, handler: Handler,
                createHandler: (Workflow, Handler) -> (Workflow, Handler)): (res: Result<(Repository, Handler)>)
    ensures res.Err? <==> workflowName !in r.workflows
    ensures res.Ok? ==> res.value.1 == createHandler(r.workflows[workflowName], handler).1
    ensures res.Ok? ==> res.value.0.workflows == r.workflows[workflowName := createHandler(r.workflows[workflowName], handler).0]
    ensures res.Ok? ==> res.value.0.inputs == r.inputs
  {
    match FindByName(r, workflowName)
    case None => Err(NullPointer)
    case Some(w) =>
      var (w', h) := createHandler(w, handler);
      Ok((r.(workflows := r.workflows[workflowName := w']), h))
  }

  /** `update`: ignores `handlerName` and behaves exactly like `save`. */
  function Update(r: Repository, workflowName: string, handlerName: string, handler: Handler,
                  createHandler: (Workflow, Handler) -> (Workflow, Handler)): (res: Result<(Repository, Handler)>)
    ensures res == Save(r, workflowName, handler, createHandler)
  {
    Save(r, workflowName, handler, createHandler)
  }

  /** Two updates that differ only in the handler name give the same result. */
  lemma UpdateIgnoresHandlerName(r: Repository, workflowName: string, n1: string, n2: string, handler: Handler,
                                 createHandler: (Workflow, Handler) -> (Workflow, Handler))
    ensures Update(r, workflowName, n1, handler, createHandler) == Update(r, workflowName, n2, handler, createHandler)
  {
  }
}

/** `PartiturWorkflowSerializer`: turns a parsed Partitur workflow into the engine's
    definition. The parser is not part of this model; its output is the syntax tree
    below, with one alternative per request kind the serializer recognises. */
module PartiturWorkflowSerializer {
  import opened Lang
  import opened Definitions
  import opened Conditions
  import opened Commands
  import TaskService
  import TaskExecutorService
  import ContextualInputRepository
  import WorkflowInstanceRepository

  datatype PartiturHeader = PartiturHeader(name: string, value: string)
  datatype QueryParam = QueryParam(name: string, value: string)

  /** A request as parsed. A uri variable block is optional, and so is a body block,
      whose value may itself be null. `OtherRequest` is a missing request or one of
      a kind the serializer does not recognise. */
  datatype PartiturRequest =
    | HttpGet(url: NString, uriVariables: Option<seq<string>>, headers: seq<PartiturHeader>, params: seq<QueryParam>)
    | HttpPost(url: NString, uriVariables: Option<seq<string>>, headers: seq<PartiturHeader>, body: Option<NString>)
    | HttpPut(url: NString, uriVariables: Option<seq<string>>, headers: seq<PartiturHeader>, body: Option<NString>)
    | HttpDelete(url: NString, uriVariables: Option<seq<string>>, headers: seq<PartiturHeader>)
    | OtherRequest

  datatype PartiturTask = PartiturTask(name: string, request: PartiturRequest)
  datatype PartiturCondition = PartiturCondition(functionName: string, arg: NString)
  datatype PartiturCommand = PartiturCommand(functionName: string, arg: NString)
  datatype PartiturHandler = PartiturHandler(
    name: string, eventName: string, conditions: seq<PartiturCondition>, commands: seq<PartiturCommand>)
  datatype PartiturWorkflow = PartiturWorkflow(name: string, tasks: seq<PartiturTask>, handlers: seq<PartiturHandler>)

  /** `convertToBody`: a missing body block becomes the empty string; a present one
      gives its value, null or not. */
  function ConvertBody(body: Option<NString>): (r: NString)
    ensures body.None? ==> r == Some("")
    ensures body.Some? ==> r == body.value
  {
    if body.None? then Some("") else body.value
  }

  /** `convertToUriVariables`: a missing block becomes the empty list. */
  function ConvertUriVariables(vars: Option<seq<string>>): (r: seq<string>)
    ensures vars.None? ==> r == []
    ensures vars.Some? ==> r == vars.value
  {
    if vars.None? then [] else vars.value
  }

  /** `convertToHeaders`: each header copied in order. */
  function ConvertHeaders(hs: seq<PartiturHeader>): (r: seq<Header>)
    ensures |r| == |hs|
    ensures forall i :: 0 <= i < |hs| ==> r[i] == Header(hs[i].name, hs[i].value)
  {
    seq(|hs|, i requires 0 <= i < |hs| => Header(hs[i].name, hs[i].value))
  }

  /** `convertToQueryParams`: each parameter copied in order. */
  function ConvertQueryParams(ps: seq<QueryParam>): (r: seq<Param>)
    ensures |r| == |ps|
    ensures forall i :: 0 <= i < |ps| ==> r[i] == Param(ps[i].name, ps[i].value)
  {
    seq(|ps|, i requires 0 <= i < |ps| => Param(ps[i].name, ps[i].value))
  }

  /** The request part of `convertToTasks`: every recognised kind sets its method,
      url, uri variables and headers; only GET sets query parameters (the others keep
      an empty list), and only POST and PUT set a body. An unrecognised request keeps
      every field null except the empty parameter list. */
  function ConvertRequest(req: PartiturRequest): (r: HttpRequest)
    ensures req.OtherRequest? <==> r.httpMethod.None?
    ensures req.OtherRequest? ==> r == HttpRequest(None, None, None, None, Some([]), None)
    ensures !req.OtherRequest? ==>
      && r.url == req.url
      && r.uriVariables == Some(ConvertUriVariables(req.uriVariables))
      && r.headers == Some(ConvertHeaders(req.headers))
    ensures r.params.Some?
    ensures req.HttpGet? ==> r.httpMethod == Some(Get) && r.params == Some(ConvertQueryParams(req.params))
    ensures !req.HttpGet? ==> r.params == Some([])
    ensures req.HttpPost? ==> r.httpMethod == Some(Post) && r.body == ConvertBody(req.body)
    ensures req.HttpPut? ==> r.httpMethod == Some(Put) && r.body == ConvertBody(req.body)
    ensures req.HttpDelete? ==> r.httpMethod == Some(HttpMethod.Delete)
    ensures req.HttpGet? || req.HttpDelete? || req.OtherRequest? ==> r.body.None?
  {
    match req
    case HttpGet(url, vars, hs, ps) =>
      HttpRequest(Some(Get), url, Some(ConvertUriVariables(vars)), Some(ConvertHeaders(hs)), Some(ConvertQueryParams(ps)), None)
    case HttpPost(url, vars, hs, body) =>
      HttpRequest(Some(Post), url, Some(ConvertUriVariables(vars)), Some(ConvertHeaders(hs)), Some([]), ConvertBody(body))
    case HttpPut(url, vars, hs, body) =>
      HttpRequest(Some(Put), url, Some(ConvertUriVariables(vars)), Some(ConvertHeaders(hs)), Some([]), ConvertBody(body))
    case HttpDelete(url, vars, hs) =>
      HttpRequest(Some(HttpMethod.Delete), url, Some(ConvertUriVariables(vars)), Some(ConvertHeaders(hs)), Some([]), None)
    case OtherRequest =>
      HttpRequest(None, None, None, None, Some([]), None)
  }

  /** `convertToTasks`: one task per parsed task, in order, each carrying the
      workflow's name. */
  function ConvertTasks(pts: seq<PartiturTask>, workflowName: string): (r: seq<Task>)
    ensures |r| == |pts|
    ensures forall i :: 0 <= i < |pts| ==>
      r[i].name == pts[i].name && r[i].workflowName == workflowName && r[i].httpRequest == ConvertRequest(pts[i].request)
  {
    seq(|pts|, i requires 0 <= i < |pts| => Task(pts[i].name, workflowName, ConvertRequest(pts[i].request)))
  }

  /** `convertToConditions`: the factory's condition for each parsed condition. */
  function ConvertConditions(pcs: seq<PartiturCondition>): (r: seq<Condition>)
    ensures |r| == |pcs|
    ensures forall i :: 0 <= i < |pcs| ==> r[i] == CreateCondition(pcs[i].functionName, pcs[i].arg)
  {
    seq(|pcs|, i requires 0 <= i < |pcs| => CreateCondition(pcs[i].functionName, pcs[i].arg))
  }

  /** `convertToCommands`: the factory's command for each parsed command, stopping
      at the first one the factory rejects. An unknown function gives a null slot. */
  function ConvertCommands(pcs: seq<PartiturCommand>): (r: Result<seq<Option<Command>>>)
    ensures r.Err? <==> exists i :: 0 <= i < |pcs| && IsCommandFunction(pcs[i].functionName) && pcs[i].arg.None?
    ensures r.Err? ==> r.fault == NullPointer
    ensures r.Ok? ==> |r.value| == |pcs|
    ensures r.Ok? ==> forall i :: 0 <= i < |pcs| ==> Ok(r.value[i]) == CreateCommand(pcs[i].functionName, pcs[i].arg)
    ensures r.Ok? ==> forall i :: 0 <= i < |pcs| ==> (r.value[i].None? <==> !IsCommandFunction(pcs[i].functionName))
  {
    if |pcs| == 0 then Ok([])
    else
      var init := pcs[..|pcs| - 1];
      var last := pcs[|pcs| - 1];
      assert forall i :: 0 <= i < |init| ==> init[i] == pcs[i];
      var front :- ConvertCommands(init);
      var c :- CreateCommand(last.functionName, last.arg);
      Ok(front + [c])
  }

  /** One parsed handler: its event name is resolved first (an unknown name throws
      IllegalArgumentException), then its conditions and commands. */
  function ConvertHandler(ph: PartiturHandler): (r: Result<Handler>)
    ensures EventTypeValueOf(ph.eventName).Err? ==> r == Err(IllegalArgument)
    ensures EventTypeValueOf(ph.eventName).Ok? ==> (r.Ok? <==> ConvertCommands(ph.commands).Ok?)
    ensures r.Ok? ==>
      && r.value.name == ph.name
      && EventTypeName(r.value.eventType) == ph.eventName
      && r.value.conditions == ConvertConditions(ph.conditions)
      && Ok(r.value.commands) == ConvertCommands(ph.commands)
  {
    var t :- EventTypeValueOf(ph.eventName);
    var commands :- ConvertCommands(ph.commands);
    Ok(Handler(ph.name, t, ConvertConditions(ph.conditions), commands))
  }

  /** Applies `f` to each element in order, stopping at the first that throws. */
  function ConvertEach<A, B>(xs: seq<A>, f: A -> Result<B>): (r: Result<seq<B>>)
    ensures r.Err? <==> exists i :: 0 <= i < |xs| && f(xs[i]).Err?
    ensures r.Ok? ==> |r.value| == |xs|
    ensures r.Ok? ==> forall i :: 0 <= i < |xs| ==> f(xs[i]) == Ok(r.value[i])
  {
    if |xs| == 0 then Ok([])
    else
      var init := xs[..|xs| - 1];
      assert forall i :: 0 <= i < |init| ==> init[i] == xs[i];
      var front :- ConvertEach(init, f);
      var y :- f(xs[|xs| - 1]);
      Ok(front + [y])
  }

  /** Some handler of `hs` is named `n`. */
  predicate HasName(hs: seq<Handler>, n: string) {
    exists i :: 0 <= i < |hs| && hs[i].name == n
  }

  /** `HashSet.add` of handlers, which compare by name: a handler whose name is
      already present is not added. */
  function AddHandler(hs: seq<Handler>, h: Handler): (r: seq<Handler>)
    ensures HasName(hs, h.name) ==> r == hs
    ensures !HasName(hs, h.name) ==> r == hs + [h]
  {
    if HasName(hs, h.name) then hs else hs + [h]
  }

  /** No two handlers share a name. */
  predicate DistinctNames(hs: seq<Handler>) {
    forall i, j :: 0 <= i < j < |hs| ==> hs[i].name != hs[j].name
  }

  /** `hs[i]` is the first handler with its name. */
  predicate FirstOfName(hs: seq<Handler>, i: int) {
    0 <= i < |hs| && !HasName(hs[..i], hs[i].name)
  }

  /** Adding the handlers one by one to a set that compares by name. */
  function AddAll(hs: seq<Handler>): seq<Handler>
  {
    if |hs| == 0 then [] else AddHandler(AddAll(hs[..|hs| - 1]), hs[|hs| - 1])
  }

  /** The set holds a handler of every name that occurs, and of no other. */
  lemma {:induction false} AddAllNames(hs: seq<Handler>, n: string)
    ensures HasName(AddAll(hs), n) <==> HasName(hs, n)
    decreases |hs|
  {
    if |hs| > 0 {
      var init := hs[..|hs| - 1];
      var last := hs[|hs| - 1];
      var front := AddAll(init);
      AddAllNames(init, n);
      assert forall i :: 0 <= i < |init| ==> init[i] == hs[i];
      var r := AddAll(hs);
      assert r == front || r == front + [last];
      assert HasName(hs, n) <==> HasName(init, n) || last.name == n;
      if HasName(front, n) {
        var i :| 0 <= i < |front| && front[i].name == n;
        assert r[i] == front[i];
      } else if last.name == n {
        assert r == front + [last];
        assert r[|r| - 1].name == n;
      } else {
        assert !HasName(r, n) by {
          if r != front {
            forall i | 0 <= i < |r| ensures r[i].name != n {
              if i < |front| {
                assert r[i] == front[i];
              }
            }
          }
        }
      }
    }
  }

  /** The set never holds two handlers of one name. */
  lemma {:induction false} AddAllDistinct(hs: seq<Handler>)
    ensures DistinctNames(AddAll(hs))
    decreases |hs|
  {
    if |hs| > 0 {
      var init := hs[..|hs| - 1];
      var last := hs[|hs| - 1];
      AddAllDistinct(init);
      var front := AddAll(init);
      if !HasName(front, last.name) {
        var r := front + [last];
        forall i, j | 0 <= i < j < |r| ensures r[i].name != r[j].name {
          if j == |r| - 1 {
            assert r[i] == front[i];
          }
        }
      }
    }
  }

  /** The set keeps only first occurrences. */
  lemma {:induction false} AddAllOnlyFirsts(hs: seq<Handler>)
    ensures forall h :: h in AddAll(hs) ==> exists i :: FirstOfName(hs, i) && hs[i] == h
    decreases |hs|
  {
    if |hs| > 0 {
      var init := hs[..|hs| - 1];
      var last := hs[|hs| - 1];
      AddAllOnlyFirsts(init);
      var front := AddAll(init);
      forall i | 0 <= i < |init| ensures FirstOfName(init, i) ==> FirstOfName(hs, i) {
        assert init[..i] == hs[..i];
      }
      if !HasName(front, last.name) {
        AddAllNames(init, last.name);
        assert hs[..|hs| - 1] == init;
        assert FirstOfName(hs, |hs| - 1);
      }
    }
  }

  /** The set keeps every first occurrence. */
  lemma {:induction false} AddAllKeepsFirsts(hs: seq<Handler>)
    ensures forall i :: FirstOfName(hs, i) ==> hs[i] in AddAll(hs)
    decreases |hs|
  {
    if |hs| > 0 {
      var init := hs[..|hs| - 1];
      var last := hs[|hs| - 1];
      AddAllKeepsFirsts(init);
      var front := AddAll(init);
      forall i | FirstOfName(hs, i) ensures hs[i] in AddAll(hs) {
        if i < |init| {
          assert init[..i] == hs[..i];
          assert FirstOfName(init, i);
        } else {
          assert hs[..|hs| - 1] == init;
          AddAllNames(init, last.name);
        }
      }
    }
  }

  /** `convertToHandlers`: converts the handlers in order, stopping at the first
      that throws; of several handlers with one name only the first is kept. */
  function ConvertHandlers(phs: seq<PartiturHandler>): (r: Result<seq<Handler>>)
    ensures r.Err? <==> exists i :: 0 <= i < |phs| && ConvertHandler(phs[i]).Err?
    ensures r.Ok? ==> DistinctNames(r.value)
    ensures r.Ok? ==> forall h :: h in r.value ==> exists i :: FirstOfName(ConvertEach(phs, ConvertHandler).value, i) && ConvertHandler(phs[i]) == Ok(h)
    ensures r.Ok? ==> forall i :: FirstOfName(ConvertEach(phs, ConvertHandler).value, i) ==> ConvertHandler(phs[i]).value in r.value
  {
    var hs :- ConvertEach(phs, ConvertHandler);
    AddAllDistinct(hs);
    AddAllOnlyFirsts(hs);
    AddAllKeepsFirsts(hs);
    Ok(AddAll(hs))
  }

  /** `to`: the workflow's name, its tasks (each stamped with that name) and its
      handlers; a handler that throws aborts the whole conversion. */
  function To(pw: PartiturWorkflow): (r: Result<Workflow>)
    ensures r.Err? <==> ConvertHandlers(pw.handlers).Err?
    ensures r.Ok? ==> r.value.name == pw.name
    ensures r.Ok? ==> |r.value.tasks| == |pw.tasks|
    ensures r.Ok? ==> forall t :: t in r.value.tasks ==> t.workflowName == pw.name
    ensures r.Ok? ==> forall i :: 0 <= i < |pw.tasks| ==> r.value.tasks[i].name == pw.tasks[i].name
    ensures r.Ok? ==> r.value.tasks == ConvertTasks(pw.tasks, pw.name)
    ensures r.Ok? ==> forall i :: 0 <= i < |pw.tasks| ==> r.value.tasks[i].httpRequest == ConvertRequest(pw.tasks[i].request)
    ensures r.Ok? ==> Ok(r.value.handlers) == ConvertHandlers(pw.handlers)
    ensures r.Ok? ==> DistinctNames(r.value.handlers)
  {
    var tasks := ConvertTasks(pw.tasks, pw.name);
    var handlers :- ConvertHandlers(pw.handlers);
    Ok(Workflow(pw.name, tasks, handlers))
  }

  /** Two handlers of one name: the workflow keeps the first and drops the second,
      even when the second reacts to another event. */
  lemma DuplicateHandlerNameKeepsFirst(a: PartiturHandler, b: PartiturHandler)
    requires a.name == b.name
    requires ConvertHandler(a).Ok? && ConvertHandler(b).Ok?
    ensures ConvertHandlers([a, b]) == Ok([ConvertHandler(a).value])
  {
    var ha := ConvertHandler(a).value;
    var hb := ConvertHandler(b).value;
    var r := ConvertEach([a, b], ConvertHandler);
    assert forall i :: 0 <= i < 2 ==> ConvertHandler([a, b][i]).Ok?;
    assert r.value[0] == ha && r.value[1] == hb;
    assert r.value == [ha, hb];
    assert [ha, hb][..1] == [ha];
    assert [ha][..0] == [];
    assert AddAll([ha]) == [ha];
    assert HasName([ha], hb.name);
  }

  /** A GET, PUT or DELETE task as parsed always has the lists the task service
      iterates over, so preparing its request never throws. */
  lemma ParsedRequestPrepares(repo: WorkflowInstanceRepository.Instances, req: PartiturRequest, wi: string)
    requires req.HttpGet? || req.HttpPut? || req.HttpDelete?
    ensures TaskService.PrepareHttpRequest(repo, ConvertRequest(req), wi).Ok?
  {
  }

  /** A task of an unrecognised kind parses, but both task services then throw. */
  lemma UnrecognisedRequestFails(repo: WorkflowInstanceRepository.Instances, s: ContextualInputRepository.Store,
                                 w: string, wi: string)
    ensures TaskService.PrepareHttpRequest(repo, ConvertRequest(OtherRequest), wi) == Err(NullPointer)
    ensures TaskExecutorService.BuildHttpRequest(s, ConvertRequest(OtherRequest), w, wi) == Err(NullPointer)
  {
  }

  /** A parsed POST or PUT without a body block sends the empty string, which no
      placeholder matches, so the task service sends it as written. */
  lemma MissingBodyIsEmpty(repo: WorkflowInstanceRepository.Instances, req: PartiturRequest, wi: string)
    requires (req.HttpPost? || req.HttpPut?) && req.body.None?
    ensures TaskService.PrepareHttpRequest(repo, ConvertRequest(req), wi) == Ok(
      Definitions.Request(ConvertRequest(req).httpMethod.value, req.url,
        TaskService.PassUriVariables(Some(ConvertUriVariables(req.uriVariables))),
        TaskService.AddHeaders(Some(ConvertHeaders(req.headers))).value, map[], Some(Some(""))))
  {
  }
}

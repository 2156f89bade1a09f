/** `DeciderActor`: on each event it finds the workflow's handlers of the event's
    type and, for each in turn, binds the conditions to the event, stamps the
    event's workflow name on the commands, evaluates the conditions and, when they
    all hold, sends the commands. The bindings and stamps are made on the stored
    handlers, so they persist in the registry. */
module DeciderActor {
  import opened Lang
  import opened Conditions
  import opened Commands
  import opened Definitions
  import opened Messages
  import opened WorkflowRepository
  import HandlerService

  /** `condition.setCurrentlValues(event)`: task events bind task-name conditions,
      workflow events bind workflow-name conditions. */
  function BindCondition(c: Condition, e: DeciderEvent): Condition {
    if e.IsTaskEvent() then BindTaskEvent(c, e.taskName) else BindWorkflowEvent(c, e.workflowName)
  }

  /** Binding twice to the same event is the same as binding once. */
  lemma BindConditionIdempotent(c: Condition, e: DeciderEvent)
    ensures BindCondition(BindCondition(c, e), e) == BindCondition(c, e)
  {
  }

  function BindConditions(cs: seq<Condition>, e: DeciderEvent): (r: seq<Condition>)
    ensures |r| == |cs|
    ensures forall i :: 0 <= i < |cs| ==> r[i] == BindCondition(cs[i], e)
  {
    seq(|cs|, i requires 0 <= i < |cs| => BindCondition(cs[i], e))
  }

  /** The position of the first null command, or the length when there is none. */
  function FirstNull(cmds: seq<Option<Command>>): (k: nat)
    ensures k <= |cmds|
    ensures forall j :: 0 <= j < k ==> cmds[j].Some?
    ensures k < |cmds| ==> cmds[k].None?
  {
    if |cmds| == 0 || cmds[0].None? then 0 else 1 + FirstNull(cmds[1..])
  }

  datatype Rewritten = Rewritten(commands: seq<Option<Command>>, fault: Option<Fault>)

  /** `commands.forEach(c -> c.setWorkflowName(w))`: every command before the first
      null one takes the workflow name `w`; the null command throws, and the commands
      after it are left as they were. */
  function RewriteCommands(cmds: seq<Option<Command>>, w: NString): (r: Rewritten)
    ensures |r.commands| == |cmds|
    ensures r.fault.None? <==> FirstNull(cmds) == |cmds|
    ensures r.fault.Some? ==> r.fault == Some(NullPointer)
    ensures forall i :: 0 <= i < FirstNull(cmds) ==> r.commands[i] == Some(cmds[i].value.(workflowName := w))
    ensures forall i :: FirstNull(cmds) <= i < |cmds| ==> r.commands[i] == cmds[i]
  {
    if |cmds| == 0 then Rewritten([], None)
    else if cmds[0].None? then Rewritten(cmds, Some(NullPointer))
    else
      var rest := RewriteCommands(cmds[1..], w);
      Rewritten([Some(cmds[0].value.(workflowName := w))] + rest.commands, rest.fault)
  }

  /** Stamping the same workflow name twice is the same as stamping it once. */
  lemma {:induction false} RewriteCommandsIdempotent(cmds: seq<Option<Command>>, w: NString)
    ensures RewriteCommands(RewriteCommands(cmds, w).commands, w) == RewriteCommands(cmds, w)
  {
    var r := RewriteCommands(cmds, w);
    var k := FirstNull(cmds);
    assert FirstNull(r.commands) == k by {
      FirstNullPrefix(cmds, r.commands, k);
    }
    var r2 := RewriteCommands(r.commands, w);
    assert r2.commands == r.commands;
  }

  /** Two command lists that agree on being null up to and including position `k`
      (the first null of the first list) have the same first null. */
  lemma {:induction false} FirstNullPrefix(a: seq<Option<Command>>, b: seq<Option<Command>>, k: nat)
    requires |a| == |b| && k == FirstNull(a)
    requires forall i :: 0 <= i < |a| ==> (a[i].Some? <==> b[i].Some?)
    ensures FirstNull(b) == k
    decreases |a|
  {
    if |a| > 0 && a[0].Some? {
      FirstNullPrefix(a[1..], b[1..], FirstNull(a[1..]));
    }
  }

  /** `evaluateConditions`: the conjunction `result && condition.evaluate()`, which
      stops evaluating at the first condition that does not hold; an empty list holds. */
  function EvaluateConditions(cs: seq<Condition>): (r: Result<bool>)
    ensures r == Ok(true) <==> forall i :: 0 <= i < |cs| ==> Evaluate(cs[i]) == Ok(true)
    ensures r.Err? <==> exists i :: 0 <= i < |cs| && Evaluate(cs[i]).Err? && forall j :: 0 <= j < i ==> Evaluate(cs[j]) == Ok(true)
    ensures r.Err? ==> r.fault == NullPointer
  {
    if |cs| == 0 then Ok(true)
    else
      match Evaluate(cs[0])
      case Err(f) => Err(f)
      case Ok(false) => Ok(false)
      case Ok(true) =>
        var r := EvaluateConditions(cs[1..]);
        assert forall i :: 1 <= i < |cs| ==> cs[i] == cs[1..][i - 1];
        if r.Err? then
          var i :| 0 <= i < |cs[1..]| && Evaluate(cs[1..][i]).Err? && forall j :: 0 <= j < i ==> Evaluate(cs[1..][j]) == Ok(true);
          assert Evaluate(cs[i + 1]).Err? && forall j :: 0 <= j < i + 1 ==> Evaluate(cs[j]) == Ok(true);
          r
        else
          r
  }

  /** A null condition after one that does not hold is never evaluated, but one
      before it throws. */
  lemma ConditionsShortCircuit()
    ensures EvaluateConditions([CreateCondition(TASK_NAME_EQUALS_TO, Some("a")), Condition(None)]) == Ok(false)
    ensures EvaluateConditions([Condition(None), CreateCondition(TASK_NAME_EQUALS_TO, Some("a"))]) == Err(NullPointer)
  {
    assert Evaluate(Condition(None)).Err?;
  }

  /** `sendCommand`: the message each operation sends, with the handler's instance. */
  function Route(c: Command, instanceName: NString): (m: Message)
    ensures OperationOf(m) == Some(c.operation)
    ensures m.ToWorkflowActor? ==> m.command.workflowName == c.workflowName
    ensures m.ToTaskActor? ==> m.startTask == StartTaskCommand(c.taskName, c.workflowName, instanceName)
    ensures m.ToWorkflowActor? && c.operation != ScheduleWorkflow ==>
      !m.command.ScheduleWorkflowCommand? && m.command.instanceName == instanceName
  {
    match c.operation
    case StartTask => ToTaskActor(StartTaskCommand(c.taskName, c.workflowName, instanceName))
    case ScheduleWorkflow => ToWorkflowActor(ScheduleWorkflowCommand(c.workflowName))
    case StartWorkflow => ToWorkflowActor(StartWorkflowCommand(c.workflowName, instanceName))
    case StopWorkflow => ToWorkflowActor(StopWorkflowCommand(c.workflowName, instanceName))
    case CancelWorkflow => ToWorkflowActor(CancelWorkflowCommand(c.workflowName, instanceName))
  }

  /** The operation a message sent by the Decider carries out. */
  function OperationOf(m: Message): Option<CommandOperation> {
    match m
    case ToTaskActor(_) => Some(StartTask)
    case ToWorkflowActor(ScheduleWorkflowCommand(_)) => Some(ScheduleWorkflow)
    case ToWorkflowActor(StartWorkflowCommand(_, _)) => Some(StartWorkflow)
    case ToWorkflowActor(StopWorkflowCommand(_, _)) => Some(StopWorkflow)
    case ToWorkflowActor(CancelWorkflowCommand(_, _)) => Some(CancelWorkflow)
    case _ => None
  }

  /** `sendCommands`: one message per command, in order. */
  function SendCommands(cmds: seq<Option<Command>>, instanceName: NString): (r: seq<Message>)
    requires forall i :: 0 <= i < |cmds| ==> cmds[i].Some?
    ensures |r| == |cmds|
    ensures forall i :: 0 <= i < |cmds| ==> OperationOf(r[i]) == Some(cmds[i].value.operation)
    ensures forall i :: 0 <= i < |cmds| ==> r[i] == Route(cmds[i].value, instanceName)
  {
    seq(|cmds|, i requires 0 <= i < |cmds| => Route(cmds[i].value, instanceName))
  }

  /** A message the Decider sends on event `e` is addressed with the event's workflow
      name and, except for a schedule, the event's workflow instance name. */
  predicate CarriesEventNames(m: Message, e: DeciderEvent) {
    match m
    case ToTaskActor(c) => c.workflowName == e.workflowName && c.workflowInstanceName == e.workflowInstanceName
    case ToWorkflowActor(ScheduleWorkflowCommand(w)) => w == e.workflowName
    case ToWorkflowActor(c) => c.workflowName == e.workflowName && c.instanceName == e.workflowInstanceName
    case _ => false
  }

  /** Commands stamped with the event's workflow name are sent with the event's names. */
  lemma SentCommandsCarryEventNames(cmds: seq<Option<Command>>, e: DeciderEvent)
    requires forall i :: 0 <= i < |cmds| ==> cmds[i].Some? && cmds[i].value.workflowName == e.workflowName
    ensures forall m :: m in SendCommands(cmds, e.workflowInstanceName) ==> CarriesEventNames(m, e)
  {
    var out := SendCommands(cmds, e.workflowInstanceName);
    forall m | m in out ensures CarriesEventNames(m, e) {
      var i :| 0 <= i < |out| && out[i] == m;
      assert m == Route(cmds[i].value, e.workflowInstanceName);
    }
  }

  /** The outcome of one handler: the handler as stored afterwards, what it sent,
      and the exception it raised. */
  datatype Firing = Firing(handler: Handler, outbox: seq<Message>, fault: Option<Fault>)

  /** One iteration of `decide`'s loop for handler `h`. */
  function Fire(h: Handler, e: DeciderEvent): (f: Firing)
    ensures f.handler.name == h.name && f.handler.eventType == h.eventType
    ensures f.handler.conditions == BindConditions(h.conditions, e)
    ensures f.handler.commands == RewriteCommands(h.commands, e.workflowName).commands
    ensures f.fault.Some? ==> f.fault == Some(NullPointer) && f.outbox == []
    ensures f.outbox != [] ==> forall i :: 0 <= i < |h.conditions| ==> Evaluate(f.handler.conditions[i]) == Ok(true)
    ensures f.fault.None? && (forall i :: 0 <= i < |h.conditions| ==> Evaluate(f.handler.conditions[i]) == Ok(true)) ==>
      |f.outbox| == |h.commands| &&
      forall i :: 0 <= i < |h.commands| ==>
        f.handler.commands[i].Some? && f.outbox[i] == Route(f.handler.commands[i].value, e.workflowInstanceName)
    ensures forall m :: m in f.outbox ==> CarriesEventNames(m, e)
  {
    var conditions := BindConditions(h.conditions, e);
    var rewritten := RewriteCommands(h.commands, e.workflowName);
    var h' := h.(conditions := conditions, commands := rewritten.commands);
    if rewritten.fault.Some? then Firing(h', [], rewritten.fault)
    else
      match EvaluateConditions(conditions)
      case Err(f) => Firing(h', [], Some(f))
      case Ok(false) => Firing(h', [], None)
      case Ok(true) =>
        SentCommandsCarryEventNames(rewritten.commands, e);
        Firing(h', SendCommands(rewritten.commands, e.workflowInstanceName), None)
  }

  /** Delivering the same event twice to a handler behaves as delivering it once:
      the second pass rebinds and restamps the same values. */
  lemma FireIdempotent(h: Handler, e: DeciderEvent)
    ensures Fire(Fire(h, e).handler, e) == Fire(h, e)
  {
    var f := Fire(h, e);
    RewriteCommandsIdempotent(h.commands, e.workflowName);
    forall i | 0 <= i < |h.conditions|
      ensures BindCondition(f.handler.conditions[i], e) == f.handler.conditions[i]
    {
      BindConditionIdempotent(h.conditions[i], e);
    }
    assert BindConditions(f.handler.conditions, e) == f.handler.conditions;
  }

  /** The messages of the given handlers fired one after the other, ignoring faults. */
  function FireAll(hs: seq<Handler>, e: DeciderEvent): seq<Message> {
    if |hs| == 0 then [] else Fire(hs[0], e).outbox + FireAll(hs[1..], e)
  }

  /** `decide`'s loop, over the whole handler set: handlers of another type are left
      alone, handlers of type `t` are fired in order, and the first exception stops
      the loop, leaving the later handlers untouched. */
  function DecideHandlers(hs: seq<Handler>, e: DeciderEvent, t: EventType): (r: Step<seq<Handler>>)
    ensures |r.state| == |hs|
    ensures r.fault.Some? ==> r.fault == Some(NullPointer)
    ensures r.fault.None? ==> r.outbox == FireAll(HandlerService.Filter(hs, t), e)
    ensures forall m :: m in r.outbox ==> CarriesEventNames(m, e)
  {
    if |hs| == 0 then Step([], [], None)
    else if hs[0].eventType != t then
      var rest := DecideHandlers(hs[1..], e, t);
      assert HandlerService.Filter(hs, t) == HandlerService.Filter(hs[1..], t);
      Step([hs[0]] + rest.state, rest.outbox, rest.fault)
    else
      var f := Fire(hs[0], e);
      if f.fault.Some? then Step([f.handler] + hs[1..], f.outbox, f.fault)
      else
        var rest := DecideHandlers(hs[1..], e, t);
        var filtered := HandlerService.Filter(hs, t);
        assert filtered == [hs[0]] + HandlerService.Filter(hs[1..], t);
        assert filtered[1..] == HandlerService.Filter(hs[1..], t);
        Step([f.handler] + rest.state, f.outbox + rest.outbox, rest.fault)
  }

  /** Firing with the event fixed. */
  function FireOn(e: DeciderEvent): Handler -> Firing {
    h => Fire(h, e)
  }

  /** `decide`'s loop for any way `fire` of firing one handler; `DecideHandlers` is
      this loop with `FireOn(e)`. */
  function DecideWith(hs: seq<Handler>, t: EventType, fire: Handler -> Firing): (r: Step<seq<Handler>>)
    ensures |r.state| == |hs|
  {
    if |hs| == 0 then Step([], [], None)
    else if hs[0].eventType != t then
      var rest := DecideWith(hs[1..], t, fire);
      Step([hs[0]] + rest.state, rest.outbox, rest.fault)
    else
      var f := fire(hs[0]);
      if f.fault.Some? then Step([f.handler] + hs[1..], f.outbox, f.fault)
      else
        var rest := DecideWith(hs[1..], t, fire);
        Step([f.handler] + rest.state, f.outbox + rest.outbox, rest.fault)
  }

  /** `DecideHandlers` is the generic loop with `Fire` for the event. */
  lemma {:induction false} DecideHandlersIsDecideWith(hs: seq<Handler>, e: DeciderEvent, t: EventType)
    ensures DecideHandlers(hs, e, t) == DecideWith(hs, t, FireOn(e))
  {
    if |hs| > 0 {
      DecideHandlersIsDecideWith(hs[1..], e, t);
      assert FireOn(e)(hs[0]) == Fire(hs[0], e);
    }
  }

  /** In the generic loop, each handler is left as it was or replaced by its fired
      form, and only handlers of type `t` are fired. */
  lemma {:induction false} DecideWithFiresOnlyType(hs: seq<Handler>, t: EventType, fire: Handler -> Firing, i: nat)
    requires i < |hs|
    ensures var s := DecideWith(hs, t, fire).state;
      s[i] == hs[i] || (hs[i].eventType == t && s[i] == fire(hs[i]).handler)
    decreases i
  {
    if i > 0 && (hs[0].eventType != t || fire(hs[0]).fault.None?) {
      DecideWithFiresOnlyType(hs[1..], t, fire, i - 1);
      assert hs[1..][i - 1] == hs[i];
    }
  }

  /** In the generic loop without an exception, every handler of type `t` is
      replaced by its fired form. */
  lemma {:induction false} DecideWithFiresAllOfType(hs: seq<Handler>, t: EventType, fire: Handler -> Firing, i: nat)
    requires i < |hs| && hs[i].eventType == t
    requires DecideWith(hs, t, fire).fault.None?
    ensures DecideWith(hs, t, fire).state[i] == fire(hs[i]).handler
    decreases i
  {
    if i > 0 {
      DecideWithFiresAllOfType(hs[1..], t, fire, i - 1);
      assert hs[1..][i - 1] == hs[i];
    }
  }

  /** Each handler is either left as it was or replaced by its fired form, and only
      handlers of the event type are fired. */
  lemma DecideHandlersFiresOnlyType(hs: seq<Handler>, e: DeciderEvent, t: EventType, i: nat)
    requires i < |hs|
    ensures var s := DecideHandlers(hs, e, t).state;
      s[i] == hs[i] || (hs[i].eventType == t && s[i] == Fire(hs[i], e).handler)
  {
    DecideHandlersIsDecideWith(hs, e, t);
    DecideWithFiresOnlyType(hs, t, FireOn(e), i);
    assert FireOn(e)(hs[i]) == Fire(hs[i], e);
  }

  /** Without an exception, every handler of the event type is replaced by its fired
      form. */
  lemma DecideHandlersFiresAllOfType(hs: seq<Handler>, e: DeciderEvent, t: EventType, i: nat)
    requires i < |hs| && hs[i].eventType == t
    requires DecideHandlers(hs, e, t).fault.None?
    ensures DecideHandlers(hs, e, t).state[i] == Fire(hs[i], e).handler
  {
    DecideHandlersIsDecideWith(hs, e, t);
    DecideWithFiresAllOfType(hs, t, FireOn(e), i);
    assert FireOn(e)(hs[i]) == Fire(hs[i], e);
  }

  /** Deciding never renames a handler or changes its event type. */
  lemma DecideHandlersKeepsIdentity(hs: seq<Handler>, e: DeciderEvent, t: EventType)
    ensures var s := DecideHandlers(hs, e, t).state;
      forall i :: 0 <= i < |hs| ==> s[i].name == hs[i].name && s[i].eventType == hs[i].eventType
  {
    forall i | 0 <= i < |hs|
      ensures DecideHandlers(hs, e, t).state[i].name == hs[i].name
      ensures DecideHandlers(hs, e, t).state[i].eventType == hs[i].eventType
    {
      DecideHandlersFiresOnlyType(hs, e, t, i);
    }
  }

  /** The messages of the given handlers fired one after the other with `fire`. */
  function FireAllWith(hs: seq<Handler>, fire: Handler -> Firing): seq<Message> {
    if |hs| == 0 then [] else fire(hs[0]).outbox + FireAllWith(hs[1..], fire)
  }

  /** `FireAll` is `FireAllWith` with `Fire` for the event. */
  lemma {:induction false} FireAllIsFireAllWith(hs: seq<Handler>, e: DeciderEvent)
    ensures FireAll(hs, e) == FireAllWith(hs, FireOn(e))
  {
    if |hs| > 0 {
      FireAllIsFireAllWith(hs[1..], e);
      assert FireOn(e)(hs[0]) == Fire(hs[0], e);
    }
  }

  /** Handler `k` is the first handler of type `t` whose firing throws. */
  predicate FirstFaultAt(hs: seq<Handler>, t: EventType, fire: Handler -> Firing, k: int) {
    && 0 <= k < |hs|
    && hs[k].eventType == t && fire(hs[k]).fault.Some?
    && (forall j :: 0 <= j < k && hs[j].eventType == t ==> fire(hs[j]).fault.None?)
  }

  /** A front handler that does not throw moves the first fault one place on. */
  lemma FirstFaultCons(hs: seq<Handler>, t: EventType, fire: Handler -> Firing, k: nat)
    requires |hs| > 0 && FirstFaultAt(hs[1..], t, fire, k)
    requires hs[0].eventType == t ==> fire(hs[0]).fault.None?
    ensures FirstFaultAt(hs, t, fire, k + 1)
  {
    var tl := hs[1..];
    assert hs[k + 1] == tl[k];
    forall j | 0 <= j < k + 1 && hs[j].eventType == t
      ensures fire(hs[j]).fault.None?
    {
      if j > 0 {
        assert hs[j] == tl[j - 1];
      }
    }
  }

  /** The generic loop `r` stopped at handler `k`: it is the first handler of type
      `t` whose firing threw; it was fired, every later handler is untouched, and
      the messages are those sent before the exception. */
  predicate StopsAtWith(hs: seq<Handler>, t: EventType, fire: Handler -> Firing, r: Step<seq<Handler>>, k: int) {
    FirstFaultAt(hs, t, fire, k) && KeptAfter(hs, fire, r, k) && SentBefore(hs, t, fire, r, k)
  }

  /** Handler `k` was fired and threw; every later handler is untouched. */
  predicate KeptAfter(hs: seq<Handler>, fire: Handler -> Firing, r: Step<seq<Handler>>, k: int) {
    && 0 <= k < |hs| && |r.state| == |hs|
    && r.state[k] == fire(hs[k]).handler && r.state[k + 1..] == hs[k + 1..]
    && r.fault == fire(hs[k]).fault
  }

  /** The messages are those of the handlers of type `t` before `k`, then those of
      handler `k`. */
  predicate SentBefore(hs: seq<Handler>, t: EventType, fire: Handler -> Firing, r: Step<seq<Handler>>, k: int) {
    && 0 <= k < |hs|
    && r.outbox == FireAllWith(HandlerService.Filter(hs[..k], t), fire) + fire(hs[k]).outbox
  }

  /** A handler of type `t` whose firing throws stops the loop at itself. */
  lemma StopsAtHead(hs: seq<Handler>, t: EventType, fire: Handler -> Firing)
    requires |hs| > 0 && hs[0].eventType == t && fire(hs[0]).fault.Some?
    ensures StopsAtWith(hs, t, fire, Step([fire(hs[0]).handler] + hs[1..], fire(hs[0]).outbox, fire(hs[0]).fault), 0)
  {
    assert hs[..0] == [];
  }

  /** Indexing and slicing past a front element. */
  lemma ConsSlices<T>(a: T, xs: seq<T>, k: nat)
    requires k < |xs|
    ensures ([a] + xs)[k + 1] == xs[k] && ([a] + xs)[k + 2..] == xs[k + 1..]
  {
  }

  /** The messages sent before position `k + 1` are those of the front handler,
      when it has type `t`, then those sent before position `k` of the rest. */
  lemma SentBeforeCons(hs: seq<Handler>, t: EventType, fire: Handler -> Firing, k: nat, pre: seq<Message>)
    requires k < |hs| - 1
    requires hs[0].eventType != t ==> pre == []
    requires hs[0].eventType == t ==> pre == fire(hs[0]).outbox
    ensures FireAllWith(HandlerService.Filter(hs[..k + 1], t), fire)
         == pre + FireAllWith(HandlerService.Filter(hs[1..][..k], t), fire)
  {
    var tl := hs[1..];
    assert hs[..k + 1] == [hs[0]] + tl[..k];
    HandlerService.FilterAppend([hs[0]], tl[..k], t);
    HandlerService.FilterSingle(hs[0], t);
    var before := HandlerService.Filter(tl[..k], t);
    if hs[0].eventType == t {
      assert ([hs[0]] + before)[1..] == before;
    } else {
      assert [] + before == before;
    }
  }

  /** A front handler keeps the later handlers untouched, one place on. */
  lemma KeptAfterCons(hs: seq<Handler>, fire: Handler -> Firing, rest: Step<seq<Handler>>, k: nat,
                      head: Handler, out: seq<Message>)
    requires |hs| > 0 && KeptAfter(hs[1..], fire, rest, k)
    ensures KeptAfter(hs, fire, Step([head] + rest.state, out, rest.fault), k + 1)
  {
    ConsSlices(head, rest.state, k);
    ConsSlices(hs[0], hs[1..], k);
    assert [hs[0]] + hs[1..] == hs;
  }

  /** A front handler that did not throw sends its messages first. */
  lemma SentBeforeStep(hs: seq<Handler>, t: EventType, fire: Handler -> Firing, rest: Step<seq<Handler>>, k: nat,
                       pre: seq<Message>, st: seq<Handler>, f: Option<Fault>)
    requires |hs| > 0 && SentBefore(hs[1..], t, fire, rest, k)
    requires hs[0].eventType != t ==> pre == []
    requires hs[0].eventType == t ==> pre == fire(hs[0]).outbox
    ensures SentBefore(hs, t, fire, Step(st, pre + rest.outbox, f), k + 1)
  {
    var before := FireAllWith(HandlerService.Filter(hs[1..][..k], t), fire);
    SentBeforeCons(hs, t, fire, k, pre);
    assert hs[1..][k] == hs[k + 1];
    assert pre + (before + fire(hs[k + 1]).outbox) == (pre + before) + fire(hs[k + 1]).outbox;
  }

  /** Putting a handler that did not throw in front of a loop that stopped at `k`
      gives a loop that stopped at `k + 1`; the front handler's messages come
      first. */
  lemma StopsAtCons(hs: seq<Handler>, t: EventType, fire: Handler -> Firing, rest: Step<seq<Handler>>, k: nat,
                    head: Handler, pre: seq<Message>)
    requires |hs| > 0 && StopsAtWith(hs[1..], t, fire, rest, k)
    requires hs[0].eventType != t ==> head == hs[0] && pre == []
    requires hs[0].eventType == t ==> fire(hs[0]).fault.None? && head == fire(hs[0]).handler && pre == fire(hs[0]).outbox
    ensures StopsAtWith(hs, t, fire, Step([head] + rest.state, pre + rest.outbox, rest.fault), k + 1)
  {
    FirstFaultCons(hs, t, fire, k);
    KeptAfterCons(hs, fire, rest, k, head, pre + rest.outbox);
    SentBeforeStep(hs, t, fire, rest, k, pre, [head] + rest.state, rest.fault);
  }

  /** In the generic loop, an exception means the loop stopped at the first
      handler whose firing threw. */
  lemma {:induction false} DecideWithStopsAtFault(hs: seq<Handler>, t: EventType, fire: Handler -> Firing)
    requires DecideWith(hs, t, fire).fault.Some?
    ensures exists k :: StopsAtWith(hs, t, fire, DecideWith(hs, t, fire), k)
  {
    assert |hs| > 0;
    var r := DecideWith(hs, t, fire);
    if hs[0].eventType != t {
      var rest := DecideWith(hs[1..], t, fire);
      DecideWithStopsAtFault(hs[1..], t, fire);
      var k :| StopsAtWith(hs[1..], t, fire, rest, k);
      StopsAtCons(hs, t, fire, rest, k, hs[0], []);
      assert [] + rest.outbox == rest.outbox;
      assert StopsAtWith(hs, t, fire, r, k + 1);
    } else if fire(hs[0]).fault.Some? {
      StopsAtHead(hs, t, fire);
      assert StopsAtWith(hs, t, fire, r, 0);
    } else {
      var f := fire(hs[0]);
      var rest := DecideWith(hs[1..], t, fire);
      DecideWithStopsAtFault(hs[1..], t, fire);
      var k :| StopsAtWith(hs[1..], t, fire, rest, k);
      StopsAtCons(hs, t, fire, rest, k, f.handler, f.outbox);
      assert StopsAtWith(hs, t, fire, r, k + 1);
    }
  }

  /** `decide`'s loop stopped at handler `k` of `hs`. */
  predicate StopsAt(hs: seq<Handler>, e: DeciderEvent, t: EventType, r: Step<seq<Handler>>, k: int) {
    && 0 <= k < |hs| && |r.state| == |hs|
    && hs[k].eventType == t && Fire(hs[k], e).fault.Some?
    && (forall j :: 0 <= j < k && hs[j].eventType == t ==> Fire(hs[j], e).fault.None?)
    && r.state[k] == Fire(hs[k], e).handler && r.state[k + 1..] == hs[k + 1..]
    && r.fault == Fire(hs[k], e).fault
    && r.outbox == FireAll(HandlerService.Filter(hs[..k], t), e) + Fire(hs[k], e).outbox
  }

  /** Once an exception is thrown, the loop has stopped at the first handler of the
      event's type whose firing threw: later handlers stay unbound and unstamped,
      and the messages of the handlers before it have already been sent. */
  lemma DecideHandlersStopsAtFault(hs: seq<Handler>, e: DeciderEvent, t: EventType)
    requires DecideHandlers(hs, e, t).fault.Some?
    ensures exists k :: StopsAt(hs, e, t, DecideHandlers(hs, e, t), k)
  {
    var fire := FireOn(e);
    DecideHandlersIsDecideWith(hs, e, t);
    DecideWithStopsAtFault(hs, t, fire);
    var k :| StopsAtWith(hs, t, fire, DecideWith(hs, t, fire), k);
    forall j | 0 <= j <= k
      ensures fire(hs[j]) == Fire(hs[j], e)
    {
    }
    FireAllIsFireAllWith(HandlerService.Filter(hs[..k], t), e);
    assert StopsAt(hs, e, t, DecideHandlers(hs, e, t), k);
  }

  /** `decide`: the handlers come from `HandlerService.find`, which throws for a null
      or unknown workflow name before anything is bound or sent. */
  function Decide(r: Repository, e: DeciderEvent): (s: Step<Repository>)
    ensures e.workflowName.None? || e.workflowName.value !in r.workflows ==> s == Step(r, [], Some(NullPointer))
    ensures s.state.workflows.Keys == r.workflows.Keys && s.state.inputs == r.inputs
    ensures forall n :: n in r.workflows && Some(n) != e.workflowName ==> s.state.workflows[n] == r.workflows[n]
    ensures e.workflowName.Some? && e.workflowName.value in r.workflows ==>
      var before := r.workflows[e.workflowName.value];
      var after := s.state.workflows[e.workflowName.value];
      && after.name == before.name && after.tasks == before.tasks
      && (s.fault.None? ==> s.outbox == FireAll(HandlerService.Filter(before.handlers, EventTypeOf(e)), e))
    ensures forall m :: m in s.outbox ==> CarriesEventNames(m, e)
    ensures Valid(r) ==> Valid(s.state)
  {
    match e.workflowName
    case None => Step(r, [], Some(NullPointer))
    case Some(w) =>
      if w !in r.workflows then Step(r, [], Some(NullPointer))
      else
        var wf := r.workflows[w];
        var d := DecideHandlers(wf.handlers, e, EventTypeOf(e));
        Step(r.(workflows := r.workflows[w := wf.(handlers := d.state)]), d.outbox, d.fault)
  }

  /** A TASK_FAILED handler guarded by "taskNameEqualsTo t1" whose command is
      "startTask t2". */
  function RetryHandler(): Handler {
    Handler("retry", TaskFailed, [CreateCondition(TASK_NAME_EQUALS_TO, Some("t1"))],
            [Some(Command(StartTask, Some("t2"), None, None))])
  }

  /** A failure of t1 starts t2 in the same workflow instance. */
  lemma RetryFiresOnMatch(h: Handler, e: DeciderEvent)
    requires h == RetryHandler() && e == TaskFailedEvent(Some("t1"), Some("w-1"), Some("w"))
    ensures Fire(h, e).outbox == [ToTaskActor(StartTaskCommand(Some("t2"), Some("w"), Some("w-1")))]
  {
    assert Fire(h, e).handler.conditions == [Condition(Some(TaskNameEqualsTo(Some("t1"), Some("t1"))))];
  }

  /** A failure of any other task sends nothing. */
  lemma RetryIgnoresOther(h: Handler, e: DeciderEvent, other: string)
    requires other != "t1"
    requires h == RetryHandler() && e == TaskFailedEvent(Some(other), Some("w-1"), Some("w"))
    ensures Fire(h, e).outbox == []
  {
    assert Fire(h, e).handler.conditions == [Condition(Some(TaskNameEqualsTo(Some("t1"), Some(other))))];
    assert Evaluate(Fire(h, e).handler.conditions[0]) == Ok(false);
  }

  /** The retry handler on both kinds of failure. */
  lemma RetryOnFailureExample(other: string)
    requires other != "t1"
    ensures Fire(RetryHandler(), TaskFailedEvent(Some("t1"), Some("w-1"), Some("w"))).outbox
         == [ToTaskActor(StartTaskCommand(Some("t2"), Some("w"), Some("w-1")))]
    ensures Fire(RetryHandler(), TaskFailedEvent(Some(other), Some("w-1"), Some("w"))).outbox == []
  {
    RetryFiresOnMatch(RetryHandler(), TaskFailedEvent(Some("t1"), Some("w-1"), Some("w")));
    RetryIgnoresOther(RetryHandler(), TaskFailedEvent(Some(other), Some("w-1"), Some("w")), other);
  }

  /** Task events never bind workflow-name conditions, so a handler with an unbound
      workflow-name condition sends nothing on a task event. */
  lemma UnboundWorkflowConditionBlocksTaskEvent(h: Handler, e: DeciderEvent, k: nat)
    requires e.IsTaskEvent()
    requires k < |h.conditions| && h.conditions[k].conditionFunction.Some?
    requires h.conditions[k].conditionFunction.value.WorkflowNameEqualsTo?
    requires h.conditions[k].conditionFunction.value.currentWorkflowName.None?
    ensures Fire(h, e).outbox == []
  {
    var f := Fire(h, e);
    assert f.handler.conditions[k] == h.conditions[k];
    assert Evaluate(f.handler.conditions[k]) == Ok(false);
  }
}

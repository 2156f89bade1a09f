/** `WorkflowActor`, the coordinator: it names and creates one child actor per
    scheduled instance, and forwards instance commands to existing children. One
    counter is shared by all workflows. */
module WorkflowActor {
  import opened Lang
  import opened Decimal
  import opened Messages

  /** The instance counter (`AtomicInteger`, starting at 0) and the names of the
      child actors created so far. Children are never stopped. */
  datatype State = State(count: nat, children: set<string>)

  const Fresh := State(0, {})

  /** `generateInstanceName`: the workflow name (a null one renders as "null"),
      a dash, and the counter's new value in decimal. */
  function InstanceName(workflowName: NString, n: nat): (name: string)
    ensures SuffixAfterLastDash(name) == ToString(n)
    ensures Parse(SuffixAfterLastDash(name)) == n
  {
    var name := Show(workflowName) + "-" + ToString(n);
    SuffixOfDashed(Show(workflowName), ToString(n));
    ParseToString(n);
    name
  }

  /** Instance names generated from different counter values differ, whatever the
      workflow names; names from the same value differ exactly when the workflow
      names render differently. */
  lemma InstanceNamesDistinct(w1: NString, w2: NString, m: nat, n: nat)
    ensures InstanceName(w1, m) == InstanceName(w2, n) <==> m == n && Show(w1) == Show(w2)
  {
    if InstanceName(w1, m) == InstanceName(w2, n) {
      assert m == n;
      var p1 := Show(w1) + "-";
      var p2 := Show(w2) + "-";
      assert p1 + ToString(m) == p2 + ToString(n);
      assert |p1| == |p2|;
      assert p1 == (p1 + ToString(m))[..|p1|];
      assert Show(w1) == p1[..|p1| - 1];
    }
  }

  /** Forwarding to a child: delivered when a child of that name exists, silently
      dropped otherwise (including a null name). */
  function Forward(s: State, cmd: InstanceCommand, actorName: NString): (out: seq<Message>)
    ensures out != [] <==> actorName.Some? && actorName.value in s.children
    ensures out != [] ==> out == [ToChild(actorName.value, cmd)]
  {
    if actorName.Some? && actorName.value in s.children then [ToChild(actorName.value, cmd)] else []
  }

  /** One message handled by the coordinator. Scheduling increments the counter
      first; creating a child under a name already in use throws
      InvalidActorNameException, keeping the increment. A start is forwarded as a
      create command. */
  function Step(s: State, c: WorkflowCommand): (r: Messages.Step<State>)
    ensures c.ScheduleWorkflowCommand? ==>
      var name := InstanceName(c.workflowName, s.count + 1);
      && r.state.count == s.count + 1
      && (name in s.children ==> r.state.children == s.children && r.outbox == [] && r.fault == Some(InvalidActorName))
      && (name !in s.children ==>
            && r.state.children == s.children + {name} && r.fault.None?
            && r.outbox == [ToChild(name, CreateWorkflowInstanceCommand(c.workflowName, Some(name)))])
    ensures !c.ScheduleWorkflowCommand? ==> r.state == s && r.fault.None?
    ensures c.StartWorkflowCommand? ==>
      r.outbox == Forward(s, CreateWorkflowInstanceCommand(c.workflowName, c.instanceName), c.instanceName)
    ensures c.StopWorkflowCommand? ==>
      r.outbox == Forward(s, StopWorkflowInstanceCommand(c.workflowName, c.instanceName), c.instanceName)
    ensures c.CancelWorkflowCommand? ==>
      r.outbox == Forward(s, CancelWorkflowInstanceCommand(c.workflowName, c.instanceName), c.instanceName)
  {
    match c
    case ScheduleWorkflowCommand(w) =>
      var n := s.count + 1;
      var name := InstanceName(w, n);
      if name in s.children then Messages.Step(s.(count := n), [], Some(InvalidActorName))
      else
        var s' := State(n, s.children + {name});
        Messages.Step(s', Forward(s', CreateWorkflowInstanceCommand(w, Some(name)), Some(name)), None)
    case StartWorkflowCommand(w, i) =>
      Messages.Step(s, Forward(s, CreateWorkflowInstanceCommand(w, i), i), None)
    case StopWorkflowCommand(w, i) =>
      Messages.Step(s, Forward(s, StopWorkflowInstanceCommand(w, i), i), None)
    case CancelWorkflowCommand(w, i) =>
      Messages.Step(s, Forward(s, CancelWorkflowInstanceCommand(w, i), i), None)
  }

  /** Every child's name ends in a dash and a number no larger than the counter. */
  predicate Inv(s: State) {
    forall c :: c in s.children ==> AllDigits(SuffixAfterLastDash(c)) && Parse(SuffixAfterLastDash(c)) <= s.count
  }

  /** Adding a child whose suffix is a number no larger than the new counter keeps
      the invariant. */
  lemma InvAddChild(s: State, name: string, n: nat)
    requires Inv(s) && s.count <= n
    requires AllDigits(SuffixAfterLastDash(name)) && Parse(SuffixAfterLastDash(name)) <= n
    ensures Inv(State(n, s.children + {name}))
  { }

  /** Under the invariant, the next generated name is not in use yet. */
  lemma NextNameFresh(s: State, w: NString)
    requires Inv(s)
    ensures InstanceName(w, s.count + 1) !in s.children
  {
    var name := InstanceName(w, s.count + 1);
    assert Parse(SuffixAfterLastDash(name)) == s.count + 1;
  }

  /** A schedule under a fresh name adds exactly that child, tells it to create its
      instance and throws nothing. */
  lemma ScheduleFresh(s: State, w: NString, name: string)
    requires InstanceName(w, s.count + 1) == name && name !in s.children
    ensures Step(s, ScheduleWorkflowCommand(w))
      == Messages.Step(State(s.count + 1, s.children + {name}),
                       [ToChild(name, CreateWorkflowInstanceCommand(w, Some(name)))], None)
  { }

  /** Every step keeps the invariant, and from a state that satisfies it scheduling
      never collides with an existing child. */
  lemma StepPreservesInv(s: State, c: WorkflowCommand)
    requires Inv(s)
    ensures Inv(Step(s, c).state)
    ensures c.ScheduleWorkflowCommand? ==> Step(s, c).fault.None?
  {
    if c.ScheduleWorkflowCommand? {
      var n := s.count + 1;
      var name := InstanceName(c.workflowName, n);
      NextNameFresh(s, c.workflowName);
      ScheduleFresh(s, c.workflowName, name);
      InvAddChild(s, name, n);
    } else {
      assert Step(s, c).state == s;
    }
  }

  /** The state after handling the commands in order. */
  function Run(s: State, cs: seq<WorkflowCommand>): State
    decreases |cs|
  {
    if |cs| == 0 then s else Run(Step(s, cs[0]).state, cs[1..])
  }

  /** The commands that are schedules. */
  function CountSchedules(cs: seq<WorkflowCommand>): nat {
    if |cs| == 0 then 0 else (if cs[0].ScheduleWorkflowCommand? then 1 else 0) + CountSchedules(cs[1..])
  }

  /** From a fresh coordinator, any run keeps the invariant, so no schedule ever
      throws, and the counter equals the number of schedules handled. */
  lemma {:induction false} RunKeepsInv(s: State, cs: seq<WorkflowCommand>)
    requires Inv(s)
    ensures Inv(Run(s, cs))
    ensures Run(s, cs).count == s.count + CountSchedules(cs)
    ensures s.children <= Run(s, cs).children
    decreases |cs|
  {
    if |cs| > 0 {
      StepPreservesInv(s, cs[0]);
      RunKeepsInv(Step(s, cs[0]).state, cs[1..]);
    }
  }

  /** A one-digit counter value is rendered as that single digit. */
  lemma SmallInstanceName(w: string, n: nat)
    requires n < 10
    ensures InstanceName(Some(w), n) == w + "-" + [Digit(n)]
  { }

  /** The names of the first two instances in the example below. */
  lemma ExampleNames()
    ensures InstanceName(Some("A"), 1) == "A-1"
    ensures InstanceName(Some("B"), 2) == "B-2"
  {
    SmallInstanceName("A", 1);
    SmallInstanceName("B", 2);
    assert "A" + "-" + [Digit(1)] == "A-1";
    assert "B" + "-" + [Digit(2)] == "B-2";
  }

  /** Scheduling "A" on a fresh coordinator creates "A-1". */
  lemma FirstScheduleExample(s: State)
    requires s == Fresh
    ensures Step(s, ScheduleWorkflowCommand(Some("A"))).state == State(1, {"A-1"})
  {
    ExampleNames();
    assert s.count + 1 == 1 && s.children == {};
    ScheduleFresh(s, Some("A"), "A-1");
  }

  /** Scheduling "B" next creates "B-2" and tells it to create its instance. */
  lemma SecondScheduleExample(s: State)
    requires s == State(1, {"A-1"})
    ensures Step(s, ScheduleWorkflowCommand(Some("B"))).state == State(2, {"A-1", "B-2"})
    ensures Step(s, ScheduleWorkflowCommand(Some("B"))).outbox
      == [ToChild("B-2", CreateWorkflowInstanceCommand(Some("B"), Some("B-2")))]
  {
    ExampleNames();
    assert s.count + 1 == 2;
    assert "B-2" !in s.children by { assert "B-2"[0] != "A-1"[0]; }
    ScheduleFresh(s, Some("B"), "B-2");
  }

  /** The counter is shared: scheduling A and then B on a fresh coordinator creates
      "A-1" and "B-2". */
  lemma SharedCounterExample()
    ensures Step(Fresh, ScheduleWorkflowCommand(Some("A"))).state == State(1, {"A-1"})
    ensures Step(State(1, {"A-1"}), ScheduleWorkflowCommand(Some("B"))).state == State(2, {"A-1", "B-2"})
    ensures Step(State(1, {"A-1"}), ScheduleWorkflowCommand(Some("B"))).outbox
      == [ToChild("B-2", CreateWorkflowInstanceCommand(Some("B"), Some("B-2")))]
  {
    FirstScheduleExample(Fresh);
    SecondScheduleExample(State(1, {"A-1"}));
  }

  /** A command for an instance that has no child actor changes nothing and
      sends nothing. */
  lemma UnknownInstanceIgnored(s: State, c: WorkflowCommand)
    requires !c.ScheduleWorkflowCommand?
    requires c.instanceName.None? || c.instanceName.value !in s.children
    ensures Step(s, c) == Messages.Step(s, [], None)
  {
  }
}

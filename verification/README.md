# Beethoven workflow engine — a Dafny model

Beethoven runs workflows written in the Partitur language. A workflow has
tasks (HTTP requests) and handlers. Each handler has an event type,
conditions and commands. This project models the engine's decision and
bookkeeping logic as pure functions over immutable data.

- **The workflow definition.** Events, handlers, conditions and commands
  (`Definitions`, `Conditions`, `Commands`).
- **The actors.** Each actor is a step function. It takes its state and one
  message, and returns the new state, the messages it sent (in order) and the
  exception that aborted the handling, if any (`Messages.Step`). The actors
  are:
  - the Decider (`DeciderActor`);
  - the Workflow Coordinator (`WorkflowActor`);
  - the per-instance worker (`WorkflowInstanceActor`);
  - the Reporter (`ReporterActor`).
- **The stores.** The contextual input store and the two repositories
  (`ContextualInputRepository`, `WorkflowRepository`,
  `WorkflowInstanceRepository`).
- **The services.** Handler and task edits, request-template resolution in
  both task executors, and operation routing (`HandlerService`, `TaskService`,
  `TaskExecutorService`, `WorkflowService`, `BeethovenOperation`).
- **The serializer.** The Partitur-to-definition conversion
  (`PartiturWorkflowSerializer`), over a syntax-tree datatype that mirrors the
  parser's getters.

How Java constructs are modelled:
- A Java `null` is `None`.
- An exception is `Err(fault)` (`Lang.Result`) or the `fault` of a step.
- Java sets are sequences in iteration order.
- `LocalDateTime.now()` is an integer clock reading passed in as an argument.
- `UUID.randomUUID()` is a string argument.
- A `find*` lookup in the contextual input store returns a null `Optional`
  when the name has no non-empty set. Lookups are therefore three-valued
  (`NoStore | Miss | Hit`). Dereferencing `NoStore` throws, so the lemmas can
  say exactly when request building fails.

The model follows the code as written, including behaviour that the system's
description presents differently:
- The Reporter never evicts a record.
- `WorkflowStatus` has no SCHEDULED value.
- One instance counter is shared by all workflows.
- A start command reaches the instance worker as a create command. This
  resets the record and announces a scheduled workflow
  (`WorkflowInstanceActor.StartReschedules`).
- The task services send no TaskStarted event and nothing to the Reporter.
- The local input map can never become non-empty, so every local lookup
  returns null (`ContextualInputRepository.FindLocalAlwaysNoStore`).

## Model

| member | source | states |
|---|---|---|
| `Conditions.EvaluateFunction` | beethoven-core/src/main/java/io/beethoven/dsl/Condition.java:54-78 | Both name conditions hold exactly when the expected name and the bound current name are both non-null and equal. They are false whenever either is null. |
| `Conditions.Evaluate` | beethoven-core/src/main/java/io/beethoven/dsl/Condition.java:112-114 | `evaluate` throws exactly when the condition function is null. Otherwise it answers the function's verdict. |
| `Conditions.BindWorkflowEvent` | beethoven-core/src/main/java/io/beethoven/dsl/Condition.java:100-104 | Only a workflow-name condition takes the event's workflow name. Task-name conditions and null functions are unchanged. |
| `Conditions.BindTaskEvent` | beethoven-core/src/main/java/io/beethoven/dsl/Condition.java:106-110 | Only a task-name condition takes the event's task name. Every other condition is unchanged. |
| `Conditions.CreateCondition` | beethoven-core/src/main/java/io/beethoven/dsl/ConditionFunctionFactory.java:38-58 | The factory always returns a condition. "taskNameEqualsTo" and "workflowNameEqualsTo" carry the argument with nothing bound. "taskResponseEqualsTo" and unknown names have a null function. |
| `Conditions.CreatedConditionDoesNotHold` | beethoven-core/src/main/java/io/beethoven/dsl/ConditionFunctionFactory.java:41-56 | Before any binding, no factory-made condition holds. The two name conditions evaluate to false; every other name throws. |
| `Conditions.BindThenEvaluateWorkflowName` | beethoven-core/src/main/java/io/beethoven/dsl/Condition.java:100-104 | Binding "workflowNameEqualsTo a" to an event of workflow `w`, then evaluating it, answers `a == w`. |
| `Conditions.BindThenEvaluateTaskName` | beethoven-core/src/main/java/io/beethoven/dsl/Condition.java:106-110 | Binding "taskNameEqualsTo a" to an event of task `t`, then evaluating it, answers `a == t`. |
| `Conditions.WorkflowEventsNeverBindTaskName` | beethoven-core/src/main/java/io/beethoven/dsl/Condition.java:100-104 | A task-name condition that receives only workflow-event bindings keeps its current name unset. It always evaluates to false. |
| `Commands.BuildStartTask` | beethoven-core/src/main/java/io/beethoven/dsl/Command.java:88-90 | `startTask` rejects exactly a null name. Otherwise it gives START_TASK with that task name and no workflow name. |
| `Commands.BuildWorkflowCommand` | beethoven-core/src/main/java/io/beethoven/dsl/Command.java:92-102 | The three workflow builders reject exactly a null name. Otherwise they give their operation with that workflow name and no task name. |
| `Commands.CreateCommand` | beethoven-core/src/main/java/io/beethoven/dsl/Command.java:62-83 | The four known names give the matching command with the argument in the right field, and throw on a null argument. Any other name gives null. No name yields SCHEDULE_WORKFLOW. |
| `Definitions.EventTypeValueOf` | beethoven-core/src/main/java/io/beethoven/dsl/Handler.java:55-61 | `valueOf` returns an event type whose name is the string. It throws IllegalArgumentException only when no event type has that name. |
| `Definitions.EventTypeNameRoundTrip` | beethoven-core/src/main/java/io/beethoven/dsl/Handler.java:55-61 | `valueOf(t.name())` gives `t` for every event type. |
| `Definitions.Attributes` | beethoven-core/src/main/java/io/beethoven/service/TaskService.java:189-193 | Every parameter name becomes a request attribute, and no other name does. A name's attribute is the value of its last parameter. |
| `Definitions.ResponseKey` | beethoven-core/src/main/java/io/beethoven/repository/WorkflowInstanceRepository.java:43 | A task's response key is "${" + name + ".response}". |
| `Messages.DispatchByClass` | beethoven-core/src/main/java/io/beethoven/engine/core/DeciderActor.java:61-129 | Two events are decided under the same event type exactly when they are of the same class. Task events are decided under the four task types. |
| `Messages.EventTypeOf` | beethoven-core/src/main/java/io/beethoven/engine/core/DeciderActor.java:62-129 | An event is decided under one of the four task event types exactly when it is a task event. |
| `Messages.ReportTaskEventSwapsNames` | beethoven-core/src/main/java/io/beethoven/engine/core/ReporterActor.java:210-239 | A task report event built with arguments (t, ti, a, b) answers `a` as its workflow name and `b` as its workflow instance name. |
| `Messages.NewReportTaskStartedEvent` | beethoven-core/src/main/java/io/beethoven/engine/core/ReporterActor.java:217-221 | The constructor as written: a started report event with the given task names, whose workflow name is the argument named workflowInstanceName and whose workflow instance name is the argument named workflowName. |
| `Messages.NewReportTaskCompletedEvent` | beethoven-core/src/main/java/io/beethoven/engine/core/ReporterActor.java:223-227 | The constructor as written: a completed report event with the given task names, whose workflow name is the argument named workflowInstanceName and whose workflow instance name is the argument named workflowName. |
| `Messages.NewReportTaskTimeoutEvent` | beethoven-core/src/main/java/io/beethoven/engine/core/ReporterActor.java:229-233 | The constructor as written: a timeout report event with the given task names, whose workflow name is the argument named workflowInstanceName and whose workflow instance name is the argument named workflowName. |
| `Messages.NewReportTaskFailedEvent` | beethoven-core/src/main/java/io/beethoven/engine/core/ReporterActor.java:235-239 | The constructor as written: a failed report event with the given task names, whose workflow name is the argument named workflowInstanceName and whose workflow instance name is the argument named workflowName. |
| `Messages.NewReportTaskStartedEventCorrected` | beethoven-core/src/main/java/io/beethoven/engine/core/ReporterActor.java:217-221 | The evidently intended constructor: a started report event in which every argument lands in the field of its own name. |
| `Messages.NewReportTaskCompletedEventCorrected` | beethoven-core/src/main/java/io/beethoven/engine/core/ReporterActor.java:223-227 | The evidently intended constructor: a completed report event in which every argument lands in the field of its own name. |
| `Messages.NewReportTaskTimeoutEventCorrected` | beethoven-core/src/main/java/io/beethoven/engine/core/ReporterActor.java:229-233 | The evidently intended constructor: a timeout report event in which every argument lands in the field of its own name. |
| `Messages.NewReportTaskFailedEventCorrected` | beethoven-core/src/main/java/io/beethoven/engine/core/ReporterActor.java:235-239 | The evidently intended constructor: a failed report event in which every argument lands in the field of its own name. |
| `Engine.ElapsedTime` | beethoven-core/src/main/java/io/beethoven/engine/TaskInstance.java:58-62 | `elapsedTime` succeeds exactly when the instance is terminated. It answers the non-negative distance between start and end. |
| `Engine.ElapsedTimeSymmetric` | beethoven-core/src/main/java/io/beethoven/engine/TaskInstance.java:61-62 | Swapping start and end leaves the elapsed time unchanged. |
| `Engine.TerminatedByStamps` | beethoven-core/src/main/java/io/beethoven/engine/TaskInstance.java:65-67 | A task instance is terminated once both its start and end times are set, whatever else it holds. Clearing either time makes it unterminated, and a fresh instance is not terminated. |
| `Engine.TaskInstanceOf` | beethoven-core/src/main/java/io/beethoven/engine/TaskInstance.java:50-56 | The event constructor copies the four names from the event's getters. It leaves times, response and failure unset, so the instance is not terminated. |
| `ContextualInputRepository.FirstWithKey` | beethoven-core/src/main/java/io/beethoven/repository/ContextualInputRepository.java:53 | The filter finds nothing exactly when no input has the key. Otherwise it finds the first input with the key. |
| `ContextualInputRepository.Find` | beethoven-core/src/main/java/io/beethoven/repository/ContextualInputRepository.java:47-57 | A lookup is null exactly when the name has no set or an empty one. A hit comes from that set and has the key. A miss means no input of the set has the key. |
| `ContextualInputRepository.FindGlobalContextualInput` | beethoven-core/src/main/java/io/beethoven/repository/ContextualInputRepository.java:47-57 | A global lookup is a null Optional exactly when the workflow has no set or an empty one. A hit is an input of that set with the key. A miss means no input of the set has the key. |
| `ContextualInputRepository.FindLocalContextualInput` | beethoven-core/src/main/java/io/beethoven/repository/ContextualInputRepository.java:67-76 | The same for the local set of a workflow instance. |
| `ContextualInputRepository.SaveGlobalInputs` | beethoven-core/src/main/java/io/beethoven/repository/ContextualInputRepository.java:43-45 | The set of the workflow is replaced whole. Other workflows and the local map are unchanged. |
| `ContextualInputRepository.SaveGlobalThenFind` | beethoven-core/src/main/java/io/beethoven/repository/ContextualInputRepository.java:43-57 | After a global save, lookups for that workflow see exactly the saved set. Lookups for other workflows are unaffected. |
| `ContextualInputRepository.AddInput` | beethoven-core/src/main/java/io/beethoven/repository/ContextualInputRepository.java:63 | Set insertion: afterwards the set holds the new input and exactly the inputs it held before. |
| `ContextualInputRepository.SaveLocalInput` | beethoven-core/src/main/java/io/beethoven/repository/ContextualInputRepository.java:59-65 | An input is added only to an existing non-empty local set. Otherwise the store is unchanged. Global inputs are never touched. |
| `ContextualInputRepository.DeleteGlobalContextualInput` | beethoven-core/src/main/java/io/beethoven/repository/ContextualInputRepository.java:78-80 | Only the given workflow's global set is removed. |
| `ContextualInputRepository.DeleteLocalContextualInput` | beethoven-core/src/main/java/io/beethoven/repository/ContextualInputRepository.java:82-84 | Only the given instance's local set is removed. |
| `ContextualInputRepository.LocalInputsStayEmpty` | beethoven-core/src/main/java/io/beethoven/repository/ContextualInputRepository.java:59-65 | No sequence of saves and deletes ever creates a local set. An empty local map stays empty. |
| `ContextualInputRepository.FindLocalAlwaysNoStore` | beethoven-core/src/main/java/io/beethoven/repository/ContextualInputRepository.java:67-76 | From the initial store, every local lookup after any sequence of operations returns a null Optional. |
| `WorkflowRepository.Save` | beethoven-core/src/main/java/io/beethoven/repository/WorkflowRepository.java:47-50 | The workflow is stored under its own name, replacing any earlier entry. Other entries are unchanged, and the registry stays name-consistent. |
| `WorkflowRepository.SaveAll` | beethoven-core/src/main/java/io/beethoven/repository/WorkflowRepository.java:52-55 | A name is stored when it was stored before or occurs in the list. For a repeated name, the last workflow in the list wins. |
| `WorkflowRepository.FindByName` | beethoven-core/src/main/java/io/beethoven/repository/WorkflowRepository.java:57-60 | Answers the stored workflow, or null exactly when the name is absent. |
| `WorkflowRepository.FindAll` | beethoven-core/src/main/java/io/beethoven/repository/WorkflowRepository.java:62-64 | Every stored workflow is returned. In a name-consistent registry, each returned workflow is the one stored under its name. |
| `WorkflowRepository.Delete` | beethoven-core/src/main/java/io/beethoven/repository/WorkflowRepository.java:66-70 | Only that workflow is removed, and its global contextual inputs are deleted with it. |
| `WorkflowInstanceRepository.Save` | beethoven-core/src/main/java/io/beethoven/repository/WorkflowInstanceRepository.java:39-45 | The instance's map is created on first use. The task instance is stored under its response key, replacing the previous one. Other keys and other instances are unchanged. |
| `WorkflowInstanceRepository.FindTaskInstanceByName` | beethoven-core/src/main/java/io/beethoven/repository/WorkflowInstanceRepository.java:51-53 | Throws exactly for an unknown instance. Otherwise answers the stored task instance, or null. |
| `WorkflowInstanceRepository.SaveThenFind` | beethoven-core/src/main/java/io/beethoven/repository/WorkflowInstanceRepository.java:43-53 | After saving a task instance of task `t`, looking up "${t.response}" finds it. A later save for the same task overwrites it. |
| `HandlerService.Filter` | beethoven-core/src/main/java/io/beethoven/service/HandlerService.java:49-51 | Keeps exactly the handlers of the event type, each as often as it occurs, in list order. |
| `HandlerService.FilterSingle` | beethoven-core/src/main/java/io/beethoven/service/HandlerService.java:49-51 | A one-handler list is kept exactly when the handler has the type. |
| `HandlerService.FilterAppend` | beethoven-core/src/main/java/io/beethoven/service/HandlerService.java:49-51 | Filtering distributes over concatenation, so the order of the kept handlers is the order of the list. |
| `HandlerService.Find` | beethoven-core/src/main/java/io/beethoven/service/HandlerService.java:47-53 | Throws exactly when the workflow is absent. Otherwise every returned handler has the event type, and every such handler of the workflow is returned. |
| `HandlerService.FindAll` | beethoven-core/src/main/java/io/beethoven/service/HandlerService.java:60-63 | Throws exactly when the workflow is absent. Otherwise answers the workflow's handlers. |
| `HandlerService.RemoveNamed` | beethoven-core/src/main/java/io/beethoven/service/HandlerService.java:77 | Keeps exactly the handlers with another name. |
| `HandlerService.Delete` | beethoven-core/src/main/java/io/beethoven/service/HandlerService.java:75-78 | Throws exactly when the workflow is absent. Otherwise every handler of that name is removed, and everything else in the registry is unchanged. |
| `HandlerService.Save` | beethoven-core/src/main/java/io/beethoven/service/HandlerService.java:55-58 | Throws exactly when the workflow is absent. Otherwise the registry holds the workflow that `createHandler` returns, and the contextual inputs are unchanged. |
| `HandlerService.Update` | beethoven-core/src/main/java/io/beethoven/service/HandlerService.java:70-73 | `update` behaves exactly like `save`. |
| `HandlerService.UpdateIgnoresHandlerName` | beethoven-core/src/main/java/io/beethoven/service/HandlerService.java:70-73 | Two updates that differ only in the handler name give the same result. |
| `DeciderActor.BindConditionIdempotent` | beethoven-core/src/main/java/io/beethoven/engine/core/DeciderActor.java:134 | Binding a condition twice to the same event is the same as binding it once. |
| `DeciderActor.BindConditions` | beethoven-core/src/main/java/io/beethoven/engine/core/DeciderActor.java:143 | Every condition of the handler is bound to the event, and the length is kept. |
| `DeciderActor.RewriteCommands` | beethoven-core/src/main/java/io/beethoven/engine/core/DeciderActor.java:135 | Every command before the first null one takes the event's workflow name. Exactly a null command throws, and the commands from it onward are unchanged. |
| `DeciderActor.RewriteCommandsIdempotent` | beethoven-core/src/main/java/io/beethoven/engine/core/DeciderActor.java:144 | Stamping the same workflow name twice equals stamping it once. |
| `DeciderActor.EvaluateConditions` | beethoven-core/src/main/java/io/beethoven/engine/core/DeciderActor.java:155-162 | The conjunction holds exactly when every condition evaluates to true. It throws exactly when a condition throws after only true ones. An empty list holds. |
| `DeciderActor.ConditionsShortCircuit` | beethoven-core/src/main/java/io/beethoven/engine/core/DeciderActor.java:158 | A null condition after a false one is never evaluated. One before it throws. |
| `DeciderActor.Route` | beethoven-core/src/main/java/io/beethoven/engine/core/DeciderActor.java:170-195 | The command's operation can be read back from the message it is routed to. A workflow message carries the command's workflow name, and every workflow operation other than schedule carries the instance name. A start-task message carries task, workflow and instance. |
| `DeciderActor.SendCommands` | beethoven-core/src/main/java/io/beethoven/engine/core/DeciderActor.java:164-168 | One message per command, in list order, each carrying its command's operation. |
| `DeciderActor.SentCommandsCarryEventNames` | beethoven-core/src/main/java/io/beethoven/engine/core/DeciderActor.java:140-147 | Commands stamped with the event's workflow name are sent with the event's workflow name and workflow instance name. |
| `DeciderActor.Fire` | beethoven-core/src/main/java/io/beethoven/engine/core/DeciderActor.java:133-136 | Conditions are bound and commands restamped whether or not the conditions hold. Messages are sent only when every condition holds, then one per command, in order, addressed with the event's names. |
| `DeciderActor.FireIdempotent` | beethoven-core/src/main/java/io/beethoven/engine/core/DeciderActor.java:131-138 | Delivering the same event twice to a handler behaves like delivering it once. |
| `DeciderActor.DecideHandlers` | beethoven-core/src/main/java/io/beethoven/engine/core/DeciderActor.java:131-146 | The handler list keeps its length. The first exception is a NullPointer. Without one, the messages are those of the handlers of the event's type, in order, and each carries the event's names. |
| `DeciderActor.DecideWith` | beethoven-core/src/main/java/io/beethoven/engine/core/DeciderActor.java:131-146 | The loop over handlers, with the firing given as a parameter, keeps the list's length. |
| `DeciderActor.DecideHandlersIsDecideWith` | beethoven-core/src/main/java/io/beethoven/engine/core/DeciderActor.java:131-146 | The decision loop equals the parameterised loop given firing on the event. |
| `DeciderActor.DecideWithFiresOnlyType` | beethoven-core/src/main/java/io/beethoven/engine/core/DeciderActor.java:131-146 | Every handler after the loop is either unchanged, or of the event's type and rewritten by its own firing. |
| `DeciderActor.DecideWithFiresAllOfType` | beethoven-core/src/main/java/io/beethoven/engine/core/DeciderActor.java:131-146 | When nothing throws, every handler of the event's type ends up rewritten by its own firing. |
| `DeciderActor.DecideHandlersFiresOnlyType` | beethoven-core/src/main/java/io/beethoven/engine/core/DeciderActor.java:131-146 | A handler of another event type is left as it was. A handler of the event's type is either left as it was or replaced by the result of firing it. |
| `DeciderActor.DecideHandlersFiresAllOfType` | beethoven-core/src/main/java/io/beethoven/engine/core/DeciderActor.java:131-146 | When nothing throws, every handler of the event's type keeps its rewritten, bound conditions. |
| `DeciderActor.DecideWithStopsAtFault` | beethoven-core/src/main/java/io/beethoven/engine/core/DeciderActor.java:131-146 | When the parameterised loop throws, some handler k of the type is the first to throw. Handlers after k are untouched, handler k is rewritten by its own firing, the exception is its exception, and the messages are those of the earlier handlers of the type followed by handler k's. |
| `DeciderActor.DecideHandlersStopsAtFault` | beethoven-core/src/main/java/io/beethoven/engine/core/DeciderActor.java:131-146 | The first exception stops the loop: there is a handler k of the event's type, the first to throw, after which every handler is left as it was. The messages are those fired by the handlers of the type before k, then those k sent before throwing. |
| `DeciderActor.FireAllIsFireAllWith` | beethoven-core/src/main/java/io/beethoven/engine/core/DeciderActor.java:131-146 | Firing every handler on the event equals the parameterised firing of all of them. |
| `DeciderActor.DecideHandlersKeepsIdentity` | beethoven-core/src/main/java/io/beethoven/engine/core/DeciderActor.java:131-146 | The loop keeps every handler's name and event type at its position. |
| `DeciderActor.Decide` | beethoven-core/src/main/java/io/beethoven/engine/core/DeciderActor.java:131-147 | An unknown or null workflow throws before anything changes. Otherwise only that workflow's handlers change. Everything sent carries the event's names, and the registry stays name-consistent. |
| `DeciderActor.RetryFiresOnMatch` | beethoven-core/src/main/java/io/beethoven/engine/core/DeciderActor.java:131-138 | A TASK_FAILED handler guarded by "taskNameEqualsTo t1" with "startTask t2" starts t2 in the same instance when t1 fails. |
| `DeciderActor.RetryIgnoresOther` | beethoven-core/src/main/java/io/beethoven/engine/core/DeciderActor.java:131-138 | The same handler sends nothing when any other task fails. |
| `DeciderActor.RetryOnFailureExample` | beethoven-core/src/main/java/io/beethoven/engine/core/DeciderActor.java:131-138 | A TASK_FAILED handler guarded by "taskNameEqualsTo t1" with "startTask t2" starts t2 in the same instance when t1 fails. It sends nothing when another task fails. |
| `DeciderActor.UnboundWorkflowConditionBlocksTaskEvent` | beethoven-core/src/main/java/io/beethoven/engine/core/DeciderActor.java:134 | Task events never bind workflow-name conditions, so a handler with an unbound one sends nothing on a task event. |
| `WorkflowActor.InstanceName` | beethoven-core/src/main/java/io/beethoven/engine/core/WorkflowActor.java:90-92 | The counter value can be read back from the text after the last dash of the generated name. |
| `Decimal.ToString` | beethoven-core/src/main/java/io/beethoven/engine/core/WorkflowActor.java:90-92 | The rendered counter is a non-empty string of decimal digits, with no dash. |
| `Decimal.ParseToString` | beethoven-core/src/main/java/io/beethoven/engine/core/WorkflowActor.java:90-92 | Reading the rendered counter back as decimal digits gives the counter. |
| `Decimal.ToStringInjective` | beethoven-core/src/main/java/io/beethoven/engine/core/WorkflowActor.java:90-92 | Distinct counter values render differently. |
| `WorkflowActor.InstanceNamesDistinct` | beethoven-core/src/main/java/io/beethoven/engine/core/WorkflowActor.java:90-92 | Two generated names are equal exactly when the counter values are equal and the workflow names render alike. |
| `WorkflowActor.Forward` | beethoven-core/src/main/java/io/beethoven/engine/core/WorkflowActor.java:86-88 | A command is delivered exactly when a child of that name exists. Otherwise it is dropped. |
| `WorkflowActor.Step` | beethoven-core/src/main/java/io/beethoven/engine/core/WorkflowActor.java:59-84 | A schedule increments the shared counter and creates a child under the new name. A name in use throws InvalidActorName. A start forwards a create command. Stop and cancel forward their own commands. |
| `WorkflowActor.InvAddChild` | beethoven-core/src/main/java/io/beethoven/engine/core/WorkflowActor.java:62-65 | Adding a child whose numeric suffix is at most the new counter keeps every suffix at most the counter. |
| `WorkflowActor.NextNameFresh` | beethoven-core/src/main/java/io/beethoven/engine/core/WorkflowActor.java:62-65 | While every suffix is at most the counter, the next generated name belongs to no existing child. |
| `WorkflowActor.ScheduleFresh` | beethoven-core/src/main/java/io/beethoven/engine/core/WorkflowActor.java:62-66 | A schedule under an unused name increments the counter, adds that one child, tells it to create its instance, and throws nothing. |
| `WorkflowActor.StepPreservesInv` | beethoven-core/src/main/java/io/beethoven/engine/core/WorkflowActor.java:59-66 | Every child's numeric suffix is at most the counter, and every step keeps this. So a schedule never collides with an existing child. |
| `WorkflowActor.RunKeepsInv` | beethoven-core/src/main/java/io/beethoven/engine/core/WorkflowActor.java:45 | Over any run, the counter equals the number of schedules handled. Children are never lost, and no schedule throws. |
| `WorkflowActor.SmallInstanceName` | beethoven-core/src/main/java/io/beethoven/engine/core/WorkflowActor.java:90-92 | A counter value below ten is rendered as one digit after the dash. |
| `WorkflowActor.ExampleNames` | beethoven-core/src/main/java/io/beethoven/engine/core/WorkflowActor.java:90-92 | Workflow A at count 1 is named "A-1", and workflow B at count 2 is named "B-2". |
| `WorkflowActor.FirstScheduleExample` | beethoven-core/src/main/java/io/beethoven/engine/core/WorkflowActor.java:59-66 | On a fresh coordinator, scheduling A creates the single child "A-1". |
| `WorkflowActor.SecondScheduleExample` | beethoven-core/src/main/java/io/beethoven/engine/core/WorkflowActor.java:59-66 | After "A-1", scheduling B creates "B-2" and tells it to create its instance. |
| `WorkflowActor.SharedCounterExample` | beethoven-core/src/main/java/io/beethoven/engine/core/WorkflowActor.java:59-66 | On a fresh coordinator, scheduling A then B creates "A-1" then "B-2". |
| `WorkflowActor.UnknownInstanceIgnored` | beethoven-core/src/main/java/io/beethoven/engine/core/WorkflowActor.java:86-88 | A start, stop or cancel for a name with no child changes nothing and sends nothing. |
| `WorkflowInstanceActor.Step` | beethoven-core/src/main/java/io/beethoven/engine/core/support/WorkflowInstanceActor.java:66-108 | Create installs a fresh record with the command's names. Every other command needs that record (it throws otherwise) and sets its status unconditionally. Each handled command emits the Decider event, then the Reporter event, with the stored names. |
| `WorkflowInstanceActor.NamesFixedByCreate` | beethoven-core/src/main/java/io/beethoven/engine/core/support/WorkflowInstanceActor.java:66-108 | After a create, later commands never change the names. The status is the one set by the last command. |
| `WorkflowInstanceActor.NamesFixedByCreateFrom` | beethoven-core/src/main/java/io/beethoven/engine/core/support/WorkflowInstanceActor.java:75-108 | Commands other than create, from any record, keep its names. They leave the status of the last command. |
| `WorkflowInstanceActor.CommandBeforeCreateFails` | beethoven-core/src/main/java/io/beethoven/engine/core/support/WorkflowInstanceActor.java:75-108 | Without a prior create, every other command throws and sends nothing. |
| `WorkflowInstanceActor.StatusOf` | beethoven-core/src/main/java/io/beethoven/engine/core/support/WorkflowInstanceActor.java:66-108 | Create leaves the status unset. Each other command sets a status. |
| `WorkflowInstanceActor.DeciderEventOf` | beethoven-core/src/main/java/io/beethoven/engine/core/support/WorkflowInstanceActor.java:66-108 | Every command announces a workflow event, never a task event, with the record's workflow and instance names. It is decided as a scheduled workflow exactly for create. |
| `WorkflowInstanceActor.ReportOf` | beethoven-core/src/main/java/io/beethoven/engine/core/support/WorkflowInstanceActor.java:66-108 | The report sent beside a workflow event carries the event's workflow and instance names and is never a task report. It is a scheduled report exactly when the event is a scheduled event. |
| `WorkflowInstanceActor.StatusMatchesEvent` | beethoven-core/src/main/java/io/beethoven/engine/core/support/WorkflowInstanceActor.java:66-108 | Two commands set the same status exactly when they announce the same event. |
| `WorkflowInstanceActor.StartReschedules` | beethoven-core/src/main/java/io/beethoven/engine/core/WorkflowActor.java:68-72 | A start reaches an existing instance as a create command. It resets the status and announces a scheduled workflow, never a started one. |
| `ReporterActor.StampWorkflow` | beethoven-core/src/main/java/io/beethoven/engine/core/ReporterActor.java:82-110 | Throws exactly for a null or unknown instance. Otherwise it sets only that record's start or end time. |
| `ReporterActor.Step` | beethoven-core/src/main/java/io/beethoven/engine/core/ReporterActor.java:76-140 | Scheduled installs a blank record, overwriting any earlier one. Started and the end events stamp the record. Task start installs a started task instance; task ends stamp an existing one. The exact throw conditions are given. No record is removed. |
| `ReporterActor.RunNeverEvicts` | beethoven-core/src/main/java/io/beethoven/engine/core/ReporterActor.java:76-140 | Over any run, the set of recorded instances never shrinks. |
| `ReporterActor.RunKeepsRecordsBlank` | beethoven-core/src/main/java/io/beethoven/engine/core/ReporterActor.java:76-80 | The Reporter never sets names, status or task counts: blank records stay blank over any run. |
| `ReporterActor.StartThenEndTerminates` | beethoven-core/src/main/java/io/beethoven/engine/core/ReporterActor.java:112-140 | A task started and then completed, failed or timed out is terminated. Its elapsed time is the distance between the two readings. |
| `ReporterActor.SwappedTaskEventMissesInstance` | beethoven-core/src/main/java/io/beethoven/engine/core/ReporterActor.java:217-227 | A task event built with (instance, workflow) is looked up by the workflow name. So it throws when only the instance has a record. |
| `ReporterActor.CorrectedTaskEventsReachInstance` | beethoven-core/src/main/java/io/beethoven/engine/core/ReporterActor.java:217-227 | With the corrected constructors, a started then completed event for a recorded instance succeeds, records the task instance, and leaves it terminated. |
| `ReporterActor.RescheduleResets` | beethoven-core/src/main/java/io/beethoven/engine/core/ReporterActor.java:76-80 | A second scheduled event replaces the record with a blank one. |
| `TaskExecutorService.BuildBody` | beethoven-core/src/main/java/io/beethoven/service/TaskExecutorService.java:159-166 | A global input with a non-null value wins. Otherwise, when the global set has no usable input of that key, the local lookup decides (`BodyFromLocal`). The exact null-lookup throw conditions are given. A changed body is always the value of an input with that key. |
| `TaskExecutorService.BodyFromLocal` | beethoven-core/src/main/java/io/beethoven/service/TaskExecutorService.java:162-165 | The local fallback of `buildBody`: a local input of that key with a non-null value gives its value, and a local set without one keeps the body as written. A null local lookup throws. |
| `TaskExecutorService.BuildBodyFirstSubstitute` | beethoven-core/src/main/java/io/beethoven/service/TaskExecutorService.java:159-178 | Where neither lookup is null, the body is the first non-null substitute that a uri variable of the same name would get, or the body as written when there is none. |
| `TaskExecutorService.Substitutes` | beethoven-core/src/main/java/io/beethoven/service/TaskExecutorService.java:171-175 | Throws exactly when a lookup is null. Otherwise one value per present input: the global input's value first when it is present, and the local input's value last when it is present. Each is supplied by an input with that key. |
| `TaskExecutorService.BuildUriVariables` | beethoven-core/src/main/java/io/beethoven/service/TaskExecutorService.java:168-178 | Throws exactly when some variable's lookup is null. Otherwise at most twice as many values, each a substitute of some variable. The literal is never kept. Which values, in which order, is stated by `BuildUriVariablesSingle` and `BuildUriVariablesAppend`. |
| `TaskExecutorService.ConcatStepsSingle` | beethoven-core/src/main/java/io/beethoven/service/TaskExecutorService.java:168-202 | The loop shape shared by the three builders: over one element it is that element's step. |
| `TaskExecutorService.ConcatStepsAppend` | beethoven-core/src/main/java/io/beethoven/service/TaskExecutorService.java:168-202 | The loop over `a + b` succeeds exactly when the loops over `a` and over `b` both do, and then gives the values of `a` followed by those of `b`. |
| `TaskExecutorService.BuildUriVariablesIsConcatSteps` | beethoven-core/src/main/java/io/beethoven/service/TaskExecutorService.java:168-178 | `buildUriVariables` is that loop with each variable's substitutes as its step. |
| `TaskExecutorService.BuildUriVariablesSingle` | beethoven-core/src/main/java/io/beethoven/service/TaskExecutorService.java:170-175 | One variable contributes exactly its substitutes: its global value, then its local value, each when present. |
| `TaskExecutorService.BuildUriVariablesAppend` | beethoven-core/src/main/java/io/beethoven/service/TaskExecutorService.java:168-178 | The variables of `a + b` give the values of `a` followed by those of `b`, and succeed exactly when both halves do. With the single case, each variable in order contributes its substitutes. |
| `TaskExecutorService.BuildHeaders` | beethoven-core/src/main/java/io/beethoven/service/TaskExecutorService.java:180-190 | Throws exactly when some header's lookup is null. Otherwise between one and three headers per header. Which headers, in which order, is stated by `BuildHeadersSingle` and `BuildHeadersAppend`. |
| `TaskExecutorService.BuildHeadersIsConcatSteps` | beethoven-core/src/main/java/io/beethoven/service/TaskExecutorService.java:180-190 | `buildHeaders` is the shared loop with, as each header's step, the header as written and then its substitutes under its name. |
| `TaskExecutorService.BuildHeadersSingle` | beethoven-core/src/main/java/io/beethoven/service/TaskExecutorService.java:181-188 | One header is sent as written, then under its own name with its global value and then its local value, each when present. |
| `TaskExecutorService.BuildHeadersAppend` | beethoven-core/src/main/java/io/beethoven/service/TaskExecutorService.java:180-190 | The headers of `a + b` are those of `a` followed by those of `b`, and succeed exactly when both halves do. |
| `TaskExecutorService.BuildHeadersLast` | beethoven-core/src/main/java/io/beethoven/service/TaskExecutorService.java:180-190 | A proof step, not a partner: a successful build is the build of all but the last header, then the last header as written, then its substitutes under its name. |
| `TaskExecutorService.BuildHeadersKeepsLiteral` | beethoven-core/src/main/java/io/beethoven/service/TaskExecutorService.java:181-182 | Each header is sent as written. |
| `TaskExecutorService.BuildHeadersKeepsLiterals` | beethoven-core/src/main/java/io/beethoven/service/TaskExecutorService.java:181-182 | Every header is sent as written. |
| `TaskExecutorService.BuildHeadersNamesOnly` | beethoven-core/src/main/java/io/beethoven/service/TaskExecutorService.java:183-188 | Substituted values are sent only under the task's own header names. |
| `TaskExecutorService.BuildQueryParams` | beethoven-core/src/main/java/io/beethoven/service/TaskExecutorService.java:192-202 | Throws exactly when some parameter's lookup is null. Otherwise substitutes become headers named after parameters, at most two per parameter. Which headers, in which order, is stated by `BuildQueryParamsSingle` and `BuildQueryParamsAppend`. |
| `TaskExecutorService.BuildQueryParamsIsConcatSteps` | beethoven-core/src/main/java/io/beethoven/service/TaskExecutorService.java:192-202 | `buildQueryParams` is the shared loop with each parameter's substitutes, under its name, as its step. |
| `TaskExecutorService.BuildQueryParamsSingle` | beethoven-core/src/main/java/io/beethoven/service/TaskExecutorService.java:196-200 | One parameter adds its global value and then its local value as headers of its own name, each when present. |
| `TaskExecutorService.BuildQueryParamsAppend` | beethoven-core/src/main/java/io/beethoven/service/TaskExecutorService.java:192-202 | The headers added for parameters `a + b` are those for `a` followed by those for `b`, and succeed exactly when both halves do. |
| `TaskExecutorService.BuildHttpRequest` | beethoven-core/src/main/java/io/beethoven/service/TaskExecutorService.java:89-157 | A method other than GET, POST, PUT or DELETE yields a null request. Otherwise the request has the resolved uri variables and headers plus parameter headers. Every parameter becomes an attribute. A resolved body is sent exactly for POST and PUT. |
| `TaskExecutorService.BuildTaskInstance` | beethoven-core/src/main/java/io/beethoven/service/TaskExecutorService.java:204-210 | A new task instance has only its task name and a fresh random name set. `TaskService` builds its task instances the same way (TaskService.java:195-201). |
| `TaskExecutorService.Execute` | beethoven-core/src/main/java/io/beethoven/service/TaskExecutorService.java:59-63 | Execution reaches the HTTP call exactly when the request builds. |
| `TaskExecutorService.ResponseInput` | beethoven-core/src/main/java/io/beethoven/service/TaskExecutorService.java:78-81 | The published input has the task's response key and its response as value. |
| `TaskExecutorService.OnSuccess` | beethoven-core/src/main/java/io/beethoven/service/TaskExecutorService.java:72-76 | The response is recorded and offered as a local input. The Decider alone is told that the task completed for this instance. |
| `TaskExecutorService.OnFailure` | beethoven-core/src/main/java/io/beethoven/service/TaskExecutorService.java:83-87 | The failure is recorded. The null response is offered as a local input. The failure event carries the task instance's random name in the workflow-instance slot. |
| `TaskExecutorService.OnFailureCorrected` | beethoven-core/src/main/java/io/beethoven/service/TaskExecutorService.java:83-87 | Same record and store update as the failure handler, but the event names the same instance as the success event. |
| `TaskExecutorService.FailureNamesWrongInstance` | beethoven-core/src/main/java/io/beethoven/service/TaskExecutorService.java:86 | As written, a failure is reported for the instance named by the random task instance name. That differs from the corrected event. |
| `TaskExecutorService.FailureHandlersTargetTaskInstance` | beethoven-core/src/main/java/io/beethoven/service/TaskExecutorService.java:86 | As written, every instance command the Decider sends on that failure is addressed to the random task instance name. |
| `TaskExecutorService.CorrectedFailureHandlersTargetInstance` | beethoven-core/src/main/java/io/beethoven/service/TaskExecutorService.java:83-87 | Corrected, those commands reach the instance the task ran for. |
| `TaskExecutorService.HandlersLeaveStoreUnchanged` | beethoven-core/src/main/java/io/beethoven/service/TaskExecutorService.java:72-87 | With no local sets, both response handlers leave the input store as it was. |
| `TaskExecutorService.BuildsOnlyWithoutPlaceholders` | beethoven-core/src/main/java/io/beethoven/service/TaskExecutorService.java:89-202 | With no local sets, a request builds only without uri variables, headers or parameters. A POST or PUT body must then be the key of a non-null global input. |
| `TaskService.MatchContextualInput` | beethoven-core/src/main/java/io/beethoven/service/TaskService.java:135-137 | The matcher accepts exactly "${", then characters without line terminators, then "}". |
| `TaskService.ResponseKeyIsContextual` | beethoven-core/src/main/java/io/beethoven/service/TaskService.java:55 | A task's response key matches the placeholder pattern when the task name has no line break. |
| `TaskService.BuildPostBody` | beethoven-core/src/main/java/io/beethoven/service/TaskService.java:148-153 | A placeholder body is replaced by the response of the task instance stored under it for this instance. It throws when there is none. Other bodies are kept, and a null body throws. |
| `TaskService.AddHeaders` | beethoven-core/src/main/java/io/beethoven/service/TaskService.java:183-187 | Every header is added as written, in order. A null list throws. |
| `TaskService.AddQueryParams` | beethoven-core/src/main/java/io/beethoven/service/TaskService.java:189-193 | A null list throws. Otherwise the attributes are exactly those of `Definitions.Attributes`: the names are the parameter names, and each name maps to the value of its last parameter. |
| `TaskService.PassUriVariables` | beethoven-core/src/main/java/io/beethoven/service/TaskService.java:139-141 | Uri variables are passed on unchanged, and a null list as null. |
| `TaskService.PrepareHttpRequest` | beethoven-core/src/main/java/io/beethoven/service/TaskService.java:114-181 | Other methods yield a null request. GET, PUT and DELETE build exactly when headers and parameters are non-null; POST additionally needs its body. Only POST substitutes its body; PUT sends it as written. |
| `TaskService.Execute` | beethoven-core/src/main/java/io/beethoven/service/TaskService.java:95-99 | Execution reaches the HTTP call exactly when the request is prepared. |
| `TaskService.OnSuccess` | beethoven-core/src/main/java/io/beethoven/service/TaskService.java:103-106 | The task instance with its response is stored for the instance. The task is reported completed for that instance. |
| `TaskService.OnFailure` | beethoven-core/src/main/java/io/beethoven/service/TaskService.java:107-110 | The task instance with its failure is stored. The failure event carries the random task instance name in the workflow-instance slot. |
| `TaskService.OnFailureCorrected` | beethoven-core/src/main/java/io/beethoven/service/TaskService.java:107-110 | Same store update, but the event names the same instance as the success event. |
| `TaskService.FailureNamesWrongInstance` | beethoven-core/src/main/java/io/beethoven/service/TaskService.java:110 | As written, the failure is reported for the random task instance name, which differs from the corrected event. |
| `TaskService.ResponseFeedsLaterPost` | beethoven-core/src/main/java/io/beethoven/service/TaskService.java:103-153 | Once task `t` has answered `x` for an instance, a POST whose body is "${t.response}" sends `x` for that instance. |
| `TaskService.PlaceholderBeforeAnyResponseFails` | beethoven-core/src/main/java/io/beethoven/service/TaskService.java:150-152 | A placeholder POST body throws before any task of the instance has answered. |
| `TaskService.Save` | beethoven-core/src/main/java/io/beethoven/service/TaskService.java:70-73 | Throws exactly when the workflow is absent. Otherwise the registry holds the workflow that `createTask` returns. |
| `TaskService.Update` | beethoven-core/src/main/java/io/beethoven/service/TaskService.java:85-87 | `update` behaves exactly like `save`. |
| `TaskService.UpdateIgnoresTaskName` | beethoven-core/src/main/java/io/beethoven/service/TaskService.java:85-87 | Two updates that differ only in the task name give the same result. |
| `TaskService.FindAll` | beethoven-core/src/main/java/io/beethoven/service/TaskService.java:75-78 | Throws exactly when the workflow is absent. Otherwise answers its tasks. |
| `TaskService.RemoveNamed` | beethoven-core/src/main/java/io/beethoven/service/TaskService.java:91 | Keeps exactly the tasks with another name. |
| `TaskService.Delete` | beethoven-core/src/main/java/io/beethoven/service/TaskService.java:89-92 | Throws exactly when the workflow is absent. Otherwise every task of that name is removed, and everything else is unchanged. |
| `TaskService.DeleteIdempotent` | beethoven-core/src/main/java/io/beethoven/service/TaskService.java:89-92 | After a delete, no task of that name is left, and deleting again changes nothing. |
| `TaskService.RemoveNamedIdempotent` | beethoven-core/src/main/java/io/beethoven/service/TaskService.java:91 | Removing a name twice equals removing it once. |
| `BeethovenOperation.FirstWithId` | beethoven-core/src/main/java/io/beethoven/api/dto/BeethovenOperation.java:67-68 | The filter finds nothing exactly when no operation has the id. Otherwise it finds an operation with that id. |
| `BeethovenOperation.FindById` | beethoven-core/src/main/java/io/beethoven/api/dto/BeethovenOperation.java:66-70 | `findById` succeeds exactly for "schedule", "start", "stop" and "cancel", answering the operation with that id. Any other id, null included, throws. |
| `BeethovenOperation.FindByIdRoundTrip` | beethoven-core/src/main/java/io/beethoven/api/dto/BeethovenOperation.java:53-70 | Every operation is found by its own id. |
| `BeethovenOperation.SetOperation` | beethoven-core/src/main/java/io/beethoven/api/dto/BeethovenOperation.java:43-45 | Succeeds exactly for a known id, and then stores that operation. |
| `BeethovenOperation.GetOperation` | beethoven-core/src/main/java/io/beethoven/api/dto/BeethovenOperation.java:47-51 | Throws exactly when no operation is set. Otherwise answers an id that finds the stored operation. |
| `BeethovenOperation.SetThenGet` | beethoven-core/src/main/java/io/beethoven/api/dto/BeethovenOperation.java:43-51 | Setting an id and reading it back gives the id. Setting the id just read changes nothing. |
| `WorkflowService.Execute` | beethoven-core/src/main/java/io/beethoven/service/WorkflowService.java:58-79 | The workflow's global inputs are always replaced first. A missing operation then throws. Otherwise exactly one command of that operation goes to the coordinator, naming the workflow and, except for a schedule, the request's instance. |
| `WorkflowService.ExecuteReplacesInputs` | beethoven-core/src/main/java/io/beethoven/service/WorkflowService.java:59 | After an execute, lookups for the workflow see exactly the request's inputs, valid operation or not. |
| `WorkflowService.Save` | beethoven-core/src/main/java/io/beethoven/service/WorkflowService.java:81-84 | Returns its argument unchanged. The workflow is then found by its name, other names are unaffected, and the contextual inputs are unchanged. |
| `WorkflowService.Update` | beethoven-core/src/main/java/io/beethoven/service/WorkflowService.java:94-96 | `update` behaves exactly like `save`. |
| `WorkflowService.UpdateUsesOwnName` | beethoven-core/src/main/java/io/beethoven/service/WorkflowService.java:94-96 | Updating under another name leaves that name's entry as it was and stores the workflow under its own name. |
| `WorkflowService.Delete` | beethoven-core/src/main/java/io/beethoven/service/WorkflowService.java:98-100 | Afterwards the workflow and its global inputs are no longer found. Only that workflow's global input set is removed: other workflows, their global inputs and the local inputs are unchanged. |
| `PartiturWorkflowSerializer.ConvertBody` | beethoven-core/src/main/java/io/beethoven/dsl/PartiturWorkflowSerializer.java:113-119 | A missing body block becomes "". A present one gives its value, null or not. |
| `PartiturWorkflowSerializer.ConvertUriVariables` | beethoven-core/src/main/java/io/beethoven/dsl/PartiturWorkflowSerializer.java:121-127 | A missing block becomes the empty list. A present one keeps its values in order. |
| `PartiturWorkflowSerializer.ConvertHeaders` | beethoven-core/src/main/java/io/beethoven/dsl/PartiturWorkflowSerializer.java:144-156 | Headers are copied element-wise, keeping order and length. |
| `PartiturWorkflowSerializer.ConvertQueryParams` | beethoven-core/src/main/java/io/beethoven/dsl/PartiturWorkflowSerializer.java:130-142 | Parameters are copied element-wise, keeping order and length. |
| `PartiturWorkflowSerializer.ConvertRequest` | beethoven-core/src/main/java/io/beethoven/dsl/PartiturWorkflowSerializer.java:57-101 | The method follows the request kind, and an unknown kind leaves method, url, uri variables and headers null. Only GET gets parameters (the others an empty list). Only POST and PUT get a body. |
| `PartiturWorkflowSerializer.ConvertTasks` | beethoven-core/src/main/java/io/beethoven/dsl/PartiturWorkflowSerializer.java:51-111 | One task per parsed task, keeping its name and converted request, each carrying the workflow's name. |
| `PartiturWorkflowSerializer.ConvertConditions` | beethoven-core/src/main/java/io/beethoven/dsl/PartiturWorkflowSerializer.java:178-189 | Each condition is the factory's condition for its function name and argument, keeping order and length. |
| `PartiturWorkflowSerializer.ConvertCommands` | beethoven-core/src/main/java/io/beethoven/dsl/PartiturWorkflowSerializer.java:191-202 | Throws exactly when a known command function has a null argument. Otherwise each slot is the factory's command, null exactly for unknown functions. |
| `PartiturWorkflowSerializer.ConvertHandler` | beethoven-core/src/main/java/io/beethoven/dsl/PartiturWorkflowSerializer.java:163-170 | An unknown event name throws IllegalArgumentException before anything else. Otherwise the handler has the parsed name, the named event type, and converted conditions and commands. |
| `PartiturWorkflowSerializer.AddHandler` | beethoven-core/src/main/java/io/beethoven/dsl/Handler.java:36 | Handlers compare by name: adding one whose name is present changes nothing, otherwise it is appended. |
| `PartiturWorkflowSerializer.AddAllNames` | beethoven-core/src/main/java/io/beethoven/dsl/PartiturWorkflowSerializer.java:172 | The handler set holds a handler of a name exactly when some converted handler has that name. |
| `PartiturWorkflowSerializer.AddAllDistinct` | beethoven-core/src/main/java/io/beethoven/dsl/PartiturWorkflowSerializer.java:172 | The handler set never holds two handlers of one name. |
| `PartiturWorkflowSerializer.AddAllOnlyFirsts` | beethoven-core/src/main/java/io/beethoven/dsl/PartiturWorkflowSerializer.java:172 | Every handler in the set is the first of its name. |
| `PartiturWorkflowSerializer.AddAllKeepsFirsts` | beethoven-core/src/main/java/io/beethoven/dsl/PartiturWorkflowSerializer.java:172 | The first handler of every name is in the set. |
| `PartiturWorkflowSerializer.ConvertHandlers` | beethoven-core/src/main/java/io/beethoven/dsl/PartiturWorkflowSerializer.java:158-176 | Throws exactly when some handler throws. Otherwise the set has distinct names and holds exactly the first converted handler of each name. |
| `PartiturWorkflowSerializer.To` | beethoven-core/src/main/java/io/beethoven/dsl/PartiturWorkflowSerializer.java:43-49 | The workflow keeps the parsed name. Its tasks are the parsed tasks converted in order, each carrying that name and the request converted from its parsed request (method by kind, GET parameters, "" for a missing body). A throwing handler aborts the conversion. |
| `PartiturWorkflowSerializer.DuplicateHandlerNameKeepsFirst` | beethoven-core/src/main/java/io/beethoven/dsl/PartiturWorkflowSerializer.java:158-176 | Of two handlers with one name, only the first is kept, even when the second reacts to another event. |
| `PartiturWorkflowSerializer.ParsedRequestPrepares` | beethoven-core/src/main/java/io/beethoven/dsl/PartiturWorkflowSerializer.java:66-93 | A parsed GET, PUT or DELETE always has the lists the task service iterates over, so preparing it never throws. |
| `PartiturWorkflowSerializer.UnrecognisedRequestFails` | beethoven-core/src/main/java/io/beethoven/dsl/PartiturWorkflowSerializer.java:57-62 | A task of an unknown request kind converts, but both task services then throw on it. |
| `PartiturWorkflowSerializer.MissingBodyIsEmpty` | beethoven-core/src/main/java/io/beethoven/dsl/PartiturWorkflowSerializer.java:113-119 | A POST or PUT without a body block sends "" as written. |

## Left out

- Akka runtime: actor creation, `actorSelection` delivery, mailboxes, supervision and restart, and interleaving between actors. Each actor is modelled as a sequential step function with an outbox.
- Akka's rules on the characters allowed in actor names: a name that Akka rejects is not modelled as an exception.
- HTTP execution: `WebClient`, `retrieve`, and the Reactor `subscribe`. The response or failure is an argument of the success and failure handlers.
- Spring's expansion of the uri template: the request record keeps the list passed to `uri(url, ...)`.
- Reactor's rejection of a null body: `Flux.just(null)` for POST and `fromObject(null)` for PUT are not modelled.
- The Partitur parser, file loading and bootstrap (`Beethoven`, `PartiturParser`, the Spring configuration classes): these are I/O and framework code. The parsed syntax tree is the serializer's input.
- REST resources (`WorkflowResource`, `TaskResource`, `HandlerResource`) and `TaskActor`: these only delegate to the modelled services.
- `Condition.ConditionTaskResponseEqualsTo`: the factory never constructs it, and it depends on JsonPath and Hamcrest.
- Logging, `System.out.println`, `TaskInstance.print`, and the empty `report(...)` hooks.
- `Workflow.createHandler`, `createTask`, `findHandlerByName` and `findTaskByName` are not part of this model. `HandlerService.Save` and `TaskService.Save` take the first two as function parameters. `HandlerService.findByName` and `TaskService.findByName` are left out because they only call the last two.
- `WorkflowService.findAll` and `findByName`: they return `WorkflowRepository.findAll` and `findByName` unchanged, which `WorkflowRepository.FindAll` and `WorkflowRepository.FindByName` model.
- Task equality: `Task` is not part of this model, so the task set keeps every converted task. Equal tasks are not merged.
- Java's hash-set iteration order: sets are kept in insertion order.
- Null `String` arguments where the source declares `@NonNull` or where callers always pass a value: these are `string`, not `Option<string>`. This covers workflow names in the repositories, keys of local lookups and service arguments.
- WorkflowActor.Step: the `AtomicInteger` counter is unbounded. Its 32-bit wrap-around after 2^31 - 1 schedules is not modelled.
- A null `inputs` set passed to `saveGlobalInputs`: `ConcurrentHashMap.put` throws NullPointerException on it. Inputs are a sequence, never null, so this exception is not modelled.
- Null header and parameter values of a request: values are `string`, not `Option<string>`, so a null value is not distinguished from a text.
- `BeethovenOperation.inputs` defaults to the empty set. The request datatype has no default value, so this is not stated.

## Findings

| source | as written | input that shows it | evidently intended | confidence | as-written member | corrected member |
|---|---|---|---|---|---|---|
| beethoven-core/src/main/java/io/beethoven/service/TaskExecutorService.java:86 | The failure handler builds `TaskFailedEvent(task name, taskInstance.getTaskInstanceName(), workflow name)`. The second constructor argument is the workflow instance name, but this passes the random task instance name. | Any task run for instance "w-1" whose HTTP call fails, with random task instance name "u" ≠ "w-1". The Decider receives an event for instance "u". Every start/stop/cancel its TASK_FAILED handlers send is addressed to "u", which no coordinator child has, so it is dropped. | The event names the workflow instance the task ran for, as the completion event does at line 75. | medium; not executed | `TaskExecutorService.OnFailure` with `TaskExecutorService.FailureNamesWrongInstance` and `TaskExecutorService.FailureHandlersTargetTaskInstance` | `TaskExecutorService.OnFailureCorrected` with `TaskExecutorService.CorrectedFailureHandlersTargetInstance` |
| beethoven-core/src/main/java/io/beethoven/service/TaskService.java:110 | The same pattern: the failure event carries `taskInstance.getTaskInstanceName()` in the workflow-instance slot. | A task run for instance "w-1" fails with random task instance name "u" ≠ "w-1". The failure is reported for "u". | The event names the workflow instance, as the completion event does at line 106. | medium; not executed | `TaskService.OnFailure` with `TaskService.FailureNamesWrongInstance` | `TaskService.OnFailureCorrected` |
| beethoven-core/src/main/java/io/beethoven/engine/core/ReporterActor.java:217-239 | The four task report constructors take `(taskName, taskInstanceName, workflowInstanceName, workflowName)` and pass them to a superclass whose fields are `(taskName, taskInstanceName, workflowName, workflowInstanceName)`, so the two workflow names swap. | A started event built with instance "w-1" of workflow "w", when only "w-1" has a record: the reporter looks up "w" and throws. | Each argument lands in the field of its own name. Nothing in the modelled sources builds these events yet, so the fault is latent. | medium; not executed | `Messages.NewReportTaskStartedEvent` (and the Completed, Timeout and Failed ones) with `Messages.ReportTaskEventSwapsNames` and `ReporterActor.SwappedTaskEventMissesInstance` | `Messages.NewReportTaskStartedEventCorrected` (and the other three) with `ReporterActor.CorrectedTaskEventsReachInstance` |

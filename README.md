# Drag-and-drop workflow DSL — Dafny model

This project models the core of a drag-and-drop workflow builder whose workflows run on a
durable-execution engine:

- **The DSL interpreter.** `dslWorkflow` takes a `WorkflowDefinition` (a root step id plus a
  list of steps) and walks it from the root. It dispatches on the step type: `activity`,
  `sequence`, `parallel` or `condition`. After each step it follows the step's `next`
  pointer. A single mutable state record, seeded with the caller's input, is threaded
  through the walk.
- **The activity registry.** A name → handler map with `register`, `get`, `has` and
  `getAvailableActivities`. Its `executeActivity` wrapper turns "not registered" and
  "handler threw" into `{success: false, error}` results.
- **The sample activities.** `sendEmail`, `httpRequest`, `transformData`, `wait` and
  `logMessage` (their result values), and `registerActivities`, which installs all five.
- **The editor converters.** `serializeWorkflow` turns the editor's node/edge graph into a
  `WorkflowDefinition`. `deserializeWorkflow` lays a definition out as start, step and end
  nodes joined by edges. Several lemmas state what survives the round trip
  `serializeWorkflow(deserializeWorkflow(d))`.

Module layout:

| file | module | contents |
|---|---|---|
| `Wrappers.dfy` | `Wrappers` | `Option`, `Result`, sequence associativity |
| `JsValues.dfy` | `JsValues` | JavaScript values, `undefined` lookups, truthiness, `===`, number-to-string |
| `Schema.dfy` | `WorkflowSchema` | `Step`, `WorkflowDefinition`, `ActivityResult`, `Array.prototype.find` on steps |
| `Registry.dfy` | `Registry` | class `ActivityRegistry`, `executeActivity` |
| `Activities.dfy` | `ActivityImplementations` | sample activity results, `registerActivities` |
| `Interpreter.dfy` | `DslWorkflow` | interpreter as specification functions, plus the imperative executors over a class `ExecutionState` |
| `InterpreterProperties.dfy` | `DslWorkflowProperties` | lemmas about the interpreter |
| `Scenarios.dfy` | `WorkflowScenarios` | the interpreter run through the registry, and an end-to-end echo workflow |
| `EditorGraph.dfy` | `EditorGraph` | editor nodes and edges |
| `Serializer.dfy` | `WorkflowSerializer` | `serializeWorkflow` |
| `Deserializer.dfy` | `WorkflowDeserializer` | `deserializeWorkflow` |
| `RoundTrip.dfy` | `RoundTrip` | properties of serialize ∘ deserialize |

### How the interpreter is modelled

- Each executor exists twice:
  - a **specification function** (`ExecStep`, `ExecActivityStep`, `ExecSequenceStep`,
    `ExecParallelStep`, `ExecConditionalStep`, `RunInOrder`, `Run`). It returns an `Outcome`:
    the final state, the trace of activity invocations, and the failure (the error the source
    throws), if any;
  - an **imperative method** (`ExecuteStep`, `ExecuteActivityStep`, …). It mutates the `vars`
    field of one shared `ExecutionState` object, as the source mutates its shared `state`
    record, and returns the failure. Each method's `ensures` ties the new state and the
    failure to its specification function.
- The activity proxy is a parameter `invoke: (name, args) -> ActivityResult`. `Proxy` in
  `Scenarios.dfy` plugs the registry's `InvokeRegistered` into it.
- A `fuel` argument bounds the walk, because `next` pointers may form cycles. Running out of
  fuel is a distinct failure, `FuelExhausted`. `StepFuelMonotone` proves that any result
  reached without exhausting the fuel is the same for every larger fuel.

### Behaviours of the code the model keeps

- **Echo scenario.** In the two-step echo example, the second step's argument `${out}`
  resolves to the whole `data` object `{msg: 'hi'}` (dsl-workflow.ts:87 and 183-186), and
  that object becomes the second result's `data.msg`. So `state.s2.data.msg` is the object
  `{msg: 'hi'}`, not the string `'hi'`. `WorkflowScenarios.EchoScenario` proves this.
- **resultVariable on failure.** `executeActivityStep` stores `result.data` under
  `resultVariable` and the result under the step id before it checks `success`
  (dsl-workflow.ts:96-105). A failing activity therefore still writes both, and the model
  does the same.
- **Condition steps and `next`.** `executeConditionalStep` runs the chosen branch
  (dsl-workflow.ts:154-170). `executeStep` then follows the condition step's own `next`, as
  it does for every step type (dsl-workflow.ts:66-72).

## Model

| member | source | states |
|---|---|---|
| JsValues.Lookup | backend/src/temporal/workflows/dsl-workflow.ts:186 | `state[name]` on a record: a key the record holds as its own yields its value; any other key yields `undefined` |
| JsValues.NatToString | frontend/src/utils/workflowDeserializer.ts:110 | A number in a branch label prints as a non-empty string of decimal digits that spells exactly that number (`DigitsValue`), with no leading zero |
| WorkflowSchema.ResultValue | shared/types/workflow-schema.ts:32-36 | The stored `ActivityResult` object has `success`, `data` and `error` fields holding exactly the result's parts |
| WorkflowSchema.Find | backend/src/temporal/workflows/dsl-workflow.ts:24-27 | `steps.find(s => s.id === id)`: None iff no step has that id; otherwise the first step with it |
| WorkflowSchema.Ids | frontend/src/utils/workflowDeserializer.ts:28-45 | The step ids, one per step, in order |
| Registry.ActivityRegistry.constructor | backend/src/temporal/activities/activity-registry.ts:11-12 | A new registry holds no activities and lists no names |
| Registry.ActivityRegistry.Register | backend/src/temporal/activities/activity-registry.ts:17-19 | `register(n, f)` maps `n` to `f`, overwriting any earlier handler (last write wins). Every other name keeps its handler. A new name is appended to the listing order; an existing name keeps its place |
| Registry.ActivityRegistry.Get | backend/src/temporal/activities/activity-registry.ts:24-26 | Returns a handler iff the name is registered, and then exactly the registered handler |
| Registry.ActivityRegistry.Has | backend/src/temporal/activities/activity-registry.ts:31-33 | True iff the name is registered, i.e. iff `get` returns a handler |
| Registry.ActivityRegistry.GetAvailableActivities | backend/src/temporal/activities/activity-registry.ts:38-40 | Returns exactly the registered names, each once, in first-registration order (a JavaScript `Map` iterates keys in insertion order) |
| Registry.InvokeRegistered | backend/src/temporal/activities/activity-registry.ts:49-70 | An unregistered name gives `{success: false, error: "Activity '<name>' not found in registry"}`. A handler's normal result is returned unchanged. A thrown `Error` gives `{success: false, error: message}`; any other thrown value gives `error: 'Unknown error'`. No case propagates an exception |
| Registry.ExecuteActivity | backend/src/temporal/activities/activity-registry.ts:49-70 | The method reading the registry object computes exactly `InvokeRegistered` over the registry's current handlers |
| ActivityImplementations.ToUpperCase | backend/src/temporal/activities/activity-implementations.ts:56-58 | Preserves length; each ASCII lower-case letter becomes its upper-case form and every other character is unchanged |
| ActivityImplementations.ToLowerCase | backend/src/temporal/activities/activity-implementations.ts:59-61 | Preserves length; each ASCII upper-case letter becomes its lower-case form and every other character is unchanged |
| ActivityImplementations.Reverse | backend/src/temporal/activities/activity-implementations.ts:62-63 | Preserves length; character `i` of the result is character `n-1-i` of the input |
| ActivityImplementations.ReverseInvolution | backend/src/temporal/activities/activity-implementations.ts:62-63 | Reversing twice gives back the original string |
| ActivityImplementations.CaseMappingIdempotent | backend/src/temporal/activities/activity-implementations.ts:56-61 | Upper-casing or lower-casing twice is the same as doing it once, and the last mapping applied decides the result |
| ActivityImplementations.TransformData | backend/src/temporal/activities/activity-implementations.ts:49-73 | For `uppercase`, `lowercase` and `reverse`: success with `data.transformed` set to the transformed `String(input)`. For any other operation: `{success: false, error: "Unknown operation: <op>"}` |
| ActivityImplementations.Wait | backend/src/temporal/activities/activity-implementations.ts:78-88 | Succeeds with `data.waited` equal to `seconds`, or 1 when `seconds` is undefined |
| ActivityImplementations.LogMessage | backend/src/temporal/activities/activity-implementations.ts:93-102 | Succeeds with `data.logged = true` |
| ActivityImplementations.HttpRequest | backend/src/temporal/activities/activity-implementations.ts:25-44 | Succeeds with `data.statusCode = 200` and `data.body = 'Success'` |
| ActivityImplementations.SendEmail | backend/src/temporal/activities/activity-implementations.ts:9-20 | Succeeds with `data.messageId = 'msg-' + now` |
| ActivityImplementations.RegisterActivities | backend/src/temporal/activities/activity-implementations.ts:241-247 | The registry gains the five handlers in order: `sendEmail`, `httpRequest`, `transformData`, `wait`, `logMessage`. The registered names afterwards are those before plus these five. The listing order gains, in that order, exactly those of the five not registered before (`NewNames`); on a registry holding none of them, it gains all five |
| ActivityImplementations.NewNames | backend/src/temporal/activities/activity-registry.ts:17-19 | The names a run of registrations adds to the listing: a name is among them iff the run registers it and it was not registered before, since `Map.set` on an existing key keeps its place |
| ActivityImplementations.NewNamesNoneKnown | backend/src/temporal/activities/activity-registry.ts:17-19 | When none of the names is known yet, all of them are added, in order |
| ActivityImplementations.FiveRegistrations | backend/src/temporal/activities/activity-registry.ts:17-19 | Five `register` calls with pairwise different names append to the listing exactly the names the map did not hold before, in call order |
| ActivityImplementations.SampleRegistrationOrder | backend/src/temporal/activities/activity-implementations.ts:241-247 | The five sample registrations, taken one `register` at a time, leave the listing as before followed by the new sample names |
| ActivityImplementations.FreshRegistryListsSampleNames | backend/src/temporal/activities/activity-registry.ts:38-40 | On a fresh registry, `registerActivities()` then `getAvailableActivities()` lists exactly `sendEmail`, `httpRequest`, `transformData`, `wait`, `logMessage`, in that order |
| DslWorkflow.ReferenceName | backend/src/temporal/workflows/dsl-workflow.ts:184-186 | The name extracted from a reference string `s` is exactly the text with `s == "${" + name + "}"` |
| DslWorkflow.ResolveArguments | backend/src/temporal/workflows/dsl-workflow.ts:176-193 | The loop's result has exactly the keys of `args`. A `${name}` string is replaced by `state[name]` (`undefined` when absent); every other value is copied unchanged. The result equals the map comprehension `ResolvedArguments` |
| DslWorkflow.EvaluateCondition | backend/src/temporal/workflows/dsl-workflow.ts:199-225 | A condition can hold only when `variable` and `operator` are both truthy and the operator is one of the five known ones. For a non-empty string `variable` naming state value `a` and a `value` `x`: `equals` holds iff `a === x`; `notEquals` iff not `a === x`; `greaterThan` iff both are numbers and `a > x`; `lessThan` iff both are numbers and `a < x`; `exists` iff `a` is not `undefined` |
| DslWorkflow.MissingBranch | backend/src/temporal/workflows/dsl-workflow.ts:140-146 | None iff every branch id names a step; otherwise a branch id that names no step |
| DslWorkflow.ExecutionState.constructor | backend/src/temporal/workflows/dsl-workflow.ts:21 | The state starts as a copy of the input |
| DslWorkflow.ExecuteStep | backend/src/temporal/workflows/dsl-workflow.ts:38-73 | Mutates the shared state exactly as `ExecStep` describes, and fails exactly when it does: dispatch on type, then follow `next` unless the step failed |
| DslWorkflow.ExecuteIfFound | backend/src/temporal/workflows/dsl-workflow.ts:66-72 | Runs the step with a given id if one exists, otherwise does nothing (`RunIfFound`) |
| DslWorkflow.ExecuteActivityStep | backend/src/temporal/workflows/dsl-workflow.ts:78-106 | Mutates the state and fails exactly as `ExecActivityStep` describes |
| DslWorkflow.RunEach | backend/src/temporal/workflows/dsl-workflow.ts:116-125 | The loop over child ids runs each existing child in order and stops at the first failure (`RunInOrder`) |
| DslWorkflow.ExecuteSequenceStep | backend/src/temporal/workflows/dsl-workflow.ts:111-126 | Mutates the state and fails exactly as `ExecSequenceStep` describes |
| DslWorkflow.ExecuteParallelStep | backend/src/temporal/workflows/dsl-workflow.ts:131-149 | Looks up every branch before running any; then behaves exactly as `ExecParallelStep` |
| DslWorkflow.ExecuteConditionalStep | backend/src/temporal/workflows/dsl-workflow.ts:154-170 | Mutates the state and fails exactly as `ExecConditionalStep` describes |
| DslWorkflow.RunWorkflow | backend/src/temporal/workflows/dsl-workflow.ts:14-33 | A missing root fails with `RootNotFound`. Otherwise the result is `Ok(final state)` iff the run did not fail, and the error is the run's failure |
| DslWorkflowProperties.KeepsThen | backend/src/temporal/workflows/dsl-workflow.ts:66-72 | Running two pieces one after the other keeps every key that neither piece's activities write |
| DslWorkflowProperties.RecordsThenFirst | backend/src/temporal/workflows/dsl-workflow.ts:66-72 | A result recorded by the first piece survives the second piece unless the second rewrites that step id |
| DslWorkflowProperties.RecordsThenSecond | backend/src/temporal/workflows/dsl-workflow.ts:66-72 | A result recorded by the second piece is present in the combined run |
| DslWorkflowProperties.AccountsThen | backend/src/temporal/workflows/dsl-workflow.ts:66-72 | Composition preserves "untouched keys are kept and every last write of a step id holds its result" |
| DslWorkflowProperties.ActivityAccounts | backend/src/temporal/workflows/dsl-workflow.ts:96-101 | An activity step writes only its step id and its `resultVariable`, and records its full result at its step id |
| DslWorkflowProperties.StepAccounts | backend/src/temporal/workflows/dsl-workflow.ts:38-73 | Any step, of any type, with any fuel: keys no executed activity writes keep their value, and each step id's last recorded result is in the state |
| DslWorkflowProperties.DispatchedAccounts | backend/src/temporal/workflows/dsl-workflow.ts:45-64 | The same property for the type dispatch of one step |
| DslWorkflowProperties.RunIfFoundAccounts | backend/src/temporal/workflows/dsl-workflow.ts:66-72 | The same property for running a step by id |
| DslWorkflowProperties.FollowAccounts | backend/src/temporal/workflows/dsl-workflow.ts:67-72 | The same property for following an optional `next` |
| DslWorkflowProperties.RunInOrderAccounts | backend/src/temporal/workflows/dsl-workflow.ts:116-125 | The same property for running a list of step ids in order |
| DslWorkflowProperties.RunKeepsUntouchedInput | backend/src/temporal/workflows/dsl-workflow.ts:21 | Every input key survives with its value unless some executed activity step's id or `resultVariable` equals it |
| DslWorkflowProperties.RunRecordsEveryResult | backend/src/temporal/workflows/dsl-workflow.ts:96-101 | For every executed activity step, the result of the last execution writing its id is stored at `state[step.id]` |
| DslWorkflowProperties.RootMissingFailsFirst | backend/src/temporal/workflows/dsl-workflow.ts:24-27 | With no step whose id is `root`, the run fails with "Root step not found" before any activity runs or any state is written |
| DslWorkflowProperties.StepFuelMonotone | backend/src/temporal/workflows/dsl-workflow.ts:38-73 | A run that does not exhaust its fuel gives the same outcome with any larger fuel |
| DslWorkflowProperties.DispatchedFuelMonotone | backend/src/temporal/workflows/dsl-workflow.ts:45-64 | The same for the type dispatch |
| DslWorkflowProperties.RunIfFoundFuelMonotone | backend/src/temporal/workflows/dsl-workflow.ts:66-72 | The same for running a step by id |
| DslWorkflowProperties.FollowFuelMonotone | backend/src/temporal/workflows/dsl-workflow.ts:67-72 | The same for following an optional `next` |
| DslWorkflowProperties.RunInOrderFuelMonotone | backend/src/temporal/workflows/dsl-workflow.ts:116-125 | The same for a list of step ids |
| DslWorkflowProperties.ReferenceResolvesToCurrentValue | backend/src/temporal/workflows/dsl-workflow.ts:184-186 | `"${name}"` is a reference and resolves to the current `state[name]` |
| DslWorkflowProperties.ActivityStepEffect | backend/src/temporal/workflows/dsl-workflow.ts:78-106 | An activity step invokes the activity once with resolved arguments and stores the full result at `state[step.id]`. It stores `result.data` at `resultVariable`, whether or not the activity succeeded. It fails iff `!result.success`, and in that case `next` does not run |
| DslWorkflowProperties.MissingActivityNameFails | backend/src/temporal/workflows/dsl-workflow.ts:82-84 | An activity step without `activityName` fails before the invoker is called, leaving the state untouched |
| DslWorkflowProperties.UnknownStepTypeFails | backend/src/temporal/workflows/dsl-workflow.ts:62-63 | An unknown step type fails with "Unknown step type" and changes nothing |
| DslWorkflowProperties.EmptySequenceIsNoOp | backend/src/temporal/workflows/dsl-workflow.ts:116-118 | A sequence with no `steps` list, or an empty one, changes nothing and invokes nothing |
| DslWorkflowProperties.KnownIds | backend/src/temporal/workflows/dsl-workflow.ts:117-124 | Keeps exactly those child ids that name a step |
| DslWorkflowProperties.UnknownChildrenSkipped | backend/src/temporal/workflows/dsl-workflow.ts:117-124 | Running the children is the same as running only those whose ids name a step: unknown ids are silently skipped |
| DslWorkflowProperties.ChildrenRunInOrder | backend/src/temporal/workflows/dsl-workflow.ts:116-125 | Running `a + b` runs `a` first, then `b` from the state `a` left, unless `a` failed |
| DslWorkflowProperties.FirstMissingBranch | backend/src/temporal/workflows/dsl-workflow.ts:140-146 | The reported missing branch is the first one in list order |
| DslWorkflowProperties.ParallelMissingBranchFails | backend/src/temporal/workflows/dsl-workflow.ts:140-146 | A parallel step whose branch list names an unknown id fails with "Branch step '<id>' not found" for the first such id, with the state untouched and no activity invoked |
| DslWorkflowProperties.ParallelRunsBranchesInOrder | backend/src/temporal/workflows/dsl-workflow.ts:131-149 | With all branches present, a parallel step runs its branches in list order, then its own `next` unless a branch failed |
| DslWorkflowProperties.SucceedingBranch | backend/src/temporal/workflows/dsl-workflow.ts:78-106 | A branch holding one successful activity without `next` leaves exactly that activity's state and no failure |
| DslWorkflowProperties.ChainOfTwoActivities | backend/src/temporal/workflows/dsl-workflow.ts:66-72 | When two activity steps are linked by `next` and both succeed, both are invoked in order and the final state is the second one's |
| DslWorkflowProperties.ParallelJoinsBothBranches | backend/src/temporal/workflows/dsl-workflow.ts:143-148 | After two succeeding branches are joined, both branch results are present at their step ids |
| DslWorkflowProperties.ParallelFailsWithFailingBranch | backend/src/temporal/workflows/dsl-workflow.ts:103-105 | If the first branch's activity fails, the parallel step fails with that activity's error |
| DslWorkflowProperties.ConditionFollowsChosenBranch | backend/src/temporal/workflows/dsl-workflow.ts:154-170 | A condition step runs `onSuccess` when the condition holds and `onFailure` otherwise (an absent or unknown target does nothing), then its own `next` unless the branch failed |
| DslWorkflowProperties.ConditionFalseWhenIncomplete | backend/src/temporal/workflows/dsl-workflow.ts:205-207 | A missing or empty `variable` or `operator`, or an unknown operator, makes the condition false |
| DslWorkflowProperties.EqualsNotEqualsComplementary | backend/src/temporal/workflows/dsl-workflow.ts:212-215 | For any present variable, `equals` and `notEquals` give opposite answers |
| DslWorkflowProperties.ExistsIffDefined | backend/src/temporal/workflows/dsl-workflow.ts:220-221 | `exists` holds iff `state[variable]` is not `undefined` |
| WorkflowScenarios.EqualsConditionExample | backend/src/temporal/workflows/dsl-workflow.ts:212-213 | `count equals 5` holds for `count = 5` and fails for `count = 4` |
| WorkflowScenarios.UnregisteredActivityFailsRun | backend/src/temporal/activities/activity-registry.ts:55-60 | Calling an unregistered activity through the registry fails the step with "Activity '<name>' failed: Activity '<name>' not found in registry", after the failed result is stored at the step id |
| WorkflowScenarios.EchoFirstStep | backend/src/temporal/workflows/dsl-workflow.ts:78-101 | The first echo step resolves `${input1}` to `'hi'` and records `{msg: 'hi'}` |
| WorkflowScenarios.EchoSecondStep | backend/src/temporal/workflows/dsl-workflow.ts:78-101 | The second echo step resolves `${out}` to the whole object `{msg: 'hi'}` and records it under `msg` |
| WorkflowScenarios.EchoFirstRun | backend/src/temporal/workflows/dsl-workflow.ts:38-73 | Running from `s1` executes `s1`, then `s2` through `next`, without failure |
| WorkflowScenarios.EchoScenario | backend/src/temporal/workflows/dsl-workflow.ts:14-33 | The two-step echo workflow on `{input1: 'hi'}` succeeds with `out = {msg: 'hi'}`, both results stored, and exactly two invocations |
| WorkflowSerializer.OutgoingEdgesMembers | frontend/src/utils/workflowSerializer.ts:20 | The outgoing edges of a node are exactly the edges whose source is that node |
| WorkflowSerializer.Targets | frontend/src/utils/workflowSerializer.ts:34 | The targets of the given edges, one per edge, in edge order |
| WorkflowSerializer.LastWithHandleIsLast | frontend/src/utils/workflowSerializer.ts:38-45 | The handle pass yields the target of the LAST edge with that source handle, or nothing when no edge has it |
| WorkflowSerializer.LastFallbackIsLast | frontend/src/utils/workflowSerializer.ts:47-55 | The fallback pass yields the target of the last edge it picks for that branch: index 0 or label `✓ Success` for success, otherwise index 1 or label `✗ Failure` for failure |
| WorkflowSerializer.AssignConditionTargets | frontend/src/utils/workflowSerializer.ts:36-55 | The two overwriting loops produce exactly `ConditionTargets`: handle-based targets, and the label/index fallback only when neither handle produced a non-empty target |
| WorkflowSerializer.OutgoingEdgesConcat | frontend/src/utils/workflowSerializer.ts:20 | Filtering by source distributes over concatenation |
| WorkflowSerializer.OutgoingEdgesAll | frontend/src/utils/workflowSerializer.ts:20 | Filtering keeps a list whose edges all leave the node |
| WorkflowSerializer.OutgoingEdgesNone | frontend/src/utils/workflowSerializer.ts:20 | Filtering empties a list none of whose edges leave the node |
| WorkflowSerializer.LastWithHandlePrefix | frontend/src/utils/workflowSerializer.ts:38-45 | Edges after the scanned prefix do not affect the handle pass |
| WorkflowSerializer.LastWithHandleConcat | frontend/src/utils/workflowSerializer.ts:38-45 | On a concatenation, a match in the later part overrides one in the earlier part |
| WorkflowSerializer.LastWithHandleNone | frontend/src/utils/workflowSerializer.ts:38-45 | No edge with the handle means no target |
| WorkflowSerializer.NodeToStep | frontend/src/utils/workflowSerializer.ts:17-62 | A node becomes a step with the node's id, label, activity name, arguments and result variable. With no outgoing edges: `condition` or `activity`, with no links. A parallel node with edges: `parallel`, with `branches` equal to the edge targets in order. A condition node with edges: `onSuccess`/`onFailure` as `ConditionTargets`. Any other node with edges: `activity`, with `next` equal to the first edge's target |
| WorkflowSerializer.SerializeNode | frontend/src/utils/workflowSerializer.ts:22-62 | The field-by-field construction of a step builds exactly `NodeToStep` |
| WorkflowSerializer.StepNodesMembers | frontend/src/utils/workflowSerializer.ts:17-18 | The kept nodes are exactly those that are neither start nor end |
| WorkflowSerializer.StepNodesConcat | frontend/src/utils/workflowSerializer.ts:17-18 | The filter distributes over concatenation |
| WorkflowSerializer.StepNodesKeepsStepNodes | frontend/src/utils/workflowSerializer.ts:17-18 | The filter keeps a list of step nodes unchanged |
| WorkflowSerializer.StartNodeOf | frontend/src/utils/workflowSerializer.ts:65 | The first start node, if any |
| WorkflowSerializer.RootId | frontend/src/utils/workflowSerializer.ts:65-67 | `root` is the non-empty target of the first edge leaving the start node; failing that, the first step's id; failing that, `''` |
| WorkflowSerializer.SerializeWorkflow | frontend/src/utils/workflowSerializer.ts:11-76 | One step per non-start, non-end node, in node order, each built by `NodeToStep`. `name` and `description` pass through, `version` is `'1.0'`, and `root` is as in `RootId` |
| WorkflowDeserializer.PushStepEdges | frontend/src/utils/workflowDeserializer.ts:69-114 | Appends the step's edges in order: `next`, then `onSuccess` (handle `success`), then `onFailure` (handle `failure`), then one edge per branch labelled `branch i+1` |
| WorkflowDeserializer.PushBranchEdges | frontend/src/utils/workflowDeserializer.ts:104-113 | Appends one edge per branch, in branch order; the edge for branch `i` goes from the step to that branch, with id `step-branch` and label `branch i+1` |
| WorkflowDeserializer.DeserializeWorkflow | frontend/src/utils/workflowDeserializer.ts:9-127 | Builds exactly the node list `DeserializedNodes` and the edge list `DeserializedEdges` |
| WorkflowDeserializer.LayOutNodes | frontend/src/utils/workflowDeserializer.ts:16-57 | The node pushes produce start, one node per step, then end |
| WorkflowDeserializer.LinkSteps | frontend/src/utils/workflowDeserializer.ts:60-124 | The edge pushes produce the root edge, then each step's edges in step order, then the edge to `end` |
| WorkflowDeserializer.NodeLayout | frontend/src/utils/workflowDeserializer.ts:16-57 | `|steps| + 2` nodes: `start` first, then the step nodes in order with `id = step.id` and `y = 150 + 120·i`, then `end` at `y = 150 + 120·|steps|`. A step node is `conditionNode`/`condition` iff the step is a condition; otherwise it is an activity node |
| WorkflowDeserializer.RootEdgeFirst | frontend/src/utils/workflowDeserializer.ts:60-66 | A `start → root` edge exists iff `root` is non-empty, and it is the first edge |
| WorkflowDeserializer.StepEdgesLeaveStep | frontend/src/utils/workflowDeserializer.ts:69-114 | Every edge emitted for a step has that step as its source |
| WorkflowDeserializer.StepEdgesLeaveSteps | frontend/src/utils/workflowDeserializer.ts:69-114 | Every edge emitted for the step list leaves some step |
| RoundTrip.Reserialized | frontend/src/utils/workflowSerializer.ts:17-19 | `serializeWorkflow(deserializeWorkflow(d))` has as many steps as `d` |
| RoundTrip.OutgoingStepEdges | frontend/src/utils/workflowSerializer.ts:20 | With unique ids, a step's outgoing edges are exactly the edges emitted for it |
| RoundTrip.OutgoingAfterLayout | frontend/src/utils/workflowDeserializer.ts:60-124 | In the deserialized graph, a step's outgoing edges are its own edges, plus the edge to `end` for the last step |
| RoundTrip.KeptNodesAreStepNodes | frontend/src/utils/workflowSerializer.ts:17-18 | The serializer's filter keeps exactly the step nodes the deserializer laid out |
| RoundTrip.ReserializedSteps | frontend/src/utils/workflowSerializer.ts:22-62 | Step `i` of the round trip is the serialized form of step node `i` |
| RoundTrip.RoundTripKeepsStepData | frontend/src/utils/workflowSerializer.ts:22-29 | The round trip keeps the ordered list of step ids, and each step's name, activity name, arguments and result variable |
| RoundTrip.RoundTripKeepsRoot | frontend/src/utils/workflowDeserializer.ts:60-66 | A non-empty root survives the round trip; `name` and `description` pass through and `version` becomes `'1.0'` |
| RoundTrip.RoundTripFillsEmptyRoot | frontend/src/utils/workflowSerializer.ts:65-67 | An empty root comes back as the first step's id (or `''` with no steps) |
| RoundTrip.RoundTripLinksLastStepToEnd | frontend/src/utils/workflowDeserializer.ts:117-124 | A last step that is not a condition and has no `next`, `onSuccess`, `onFailure` or branches comes back as an activity with `next = 'end'` |
| RoundTrip.RoundTripKeepsNext | frontend/src/utils/workflowSerializer.ts:56-57 | A non-condition step's `next` survives, and the step comes back as an activity |
| RoundTrip.RoundTripCollapsesParallel | frontend/src/utils/workflowDeserializer.ts:31 | A parallel step with branches and no other links comes back as an activity whose `next` is its first branch: its branches are lost |
| RoundTrip.HandlesOfStepEdges | frontend/src/utils/workflowDeserializer.ts:69-114 | Only the `onSuccess` edge carries handle `success` and only the `onFailure` edge carries handle `failure`; branch edges carry no handle |
| RoundTrip.LastWithHandleOfFour | frontend/src/utils/workflowSerializer.ts:38-45 | The handle pass over four concatenated edge groups is the last group's match overriding the earlier ones |
| RoundTrip.HandleTargetsOfLaidOutEdges | frontend/src/utils/workflowSerializer.ts:38-45 | Over a step's edges followed by handle-free edges, the handle pass recovers exactly the step's `onSuccess` and `onFailure` |
| RoundTrip.RoundTripKeepsConditionTargets | frontend/src/utils/workflowSerializer.ts:36-45 | A condition step with a non-empty `onSuccess` or `onFailure` comes back as a condition with the same non-empty targets and no `next` |

## Left out

- **Temporal plumbing.** `proxyActivities` and its timeout, the worker, the client, the HTTP
  routes and the server are engine and network calls. The activity proxy is the parameter
  `invoke`.
- **Concurrency of `Promise.all`.** Parallel branches run one after another, in list order,
  over one state. The model does not capture interleavings, last-write-wins races, or which
  rejection settles first in time. The failure reported is the first in list order, and the
  effects of branches after a failing one are dropped (their results are never returned).
- **Activities scheduled before a missing branch is found.** The source's `map` calls
  `executeStep` on earlier branches before it throws for a missing one. Those calls stop at
  their first `await`, having written no state. The model looks up all branches first; any
  activity those calls may have scheduled with the engine is not modelled.
- **Fuel.** `ExecStep` and its methods carry a `fuel` bound. A cyclic `next` chain, which
  does not terminate in the source, ends here with the failure `FuelExhausted`.
- **Logging and timers.** `console.log`/`log`, `setTimeout` in `wait` and `httpRequest`,
  and `Math.random` are side effects with no stateable result. Only the returned result
  values are modelled.
- **`Date.now`.** `sendEmail` reads the clock; the clock is the parameter `now` of
  `SendEmail` and `RegisterActivities`.
- **Activity schemas.** `registerActivities` passes a third schema argument that `register`
  ignores, so schemas and `activity-schema.types.ts` are not modelled.
- **YAML.** `workflowToYaml`, `yamlToWorkflow` and `deserializeWorkflowFromYaml` call a
  foreign library and are not part of this model.
- **UI.** The React components and hooks are not part of this model.
- DslWorkflow.EvaluateCondition: `greaterThan` and `lessThan` compare integers only. Two
  strings (which JavaScript compares lexicographically), two booleans and any mix of types
  all compare false in the model; JavaScript's `>`/`<` coercions are not modelled.
- DslWorkflow.EvaluateCondition: a condition `variable` that is truthy but not a string
  names no state key, whereas JavaScript would coerce it to a string key.
- JsValues.Lookup: a Record holds only its own keys. The names a plain JavaScript object
  inherits from `Object.prototype` (`toString`, `constructor`, `__proto__`, …), which
  `state[name]` would return, are not modelled; they read as `undefined`.
- JsValues.Value: numbers are integers. Floating point, `NaN` and `-0` are not modelled.
- JsValues.StrictEquals: objects and arrays are never `===`, because values built by JSON
  parsing are distinct references. Object identity is not modelled beyond that.
- ActivityImplementations.ToUpperCase: ASCII letters only; Unicode case mapping is not
  modelled. The same holds for ToLowerCase.
- ActivityImplementations.TransformData: `String(input)` is modelled by `ToJsString` for
  integers, booleans, strings, arrays, `null` and `undefined`. A plain object prints as
  `[object Object]`.
- ActivityImplementations.Reverse: reverses characters (code points of the model's
  strings), whereas `split('')` splits UTF-16 code units.
- RoundTrip.RoundTripLinksLastStepToEnd: holds under the stated preconditions (unique ids, no
  step called `start`, the last step has no links). Otherwise other edges of the last step
  can come before its `end` edge.
- RoundTrip.RoundTripKeepsNext: requires unique step ids and no step called `start`. With
  duplicates, the serializer merges the outgoing edges of equal ids.
- WorkflowSerializer.NodeToStep: the editor node's `position`, `type` and edge styling are
  carried but do not affect the result, as in the source.

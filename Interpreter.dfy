/**
 * The DSL workflow interpreter. It walks a workflow definition from its root
 * step, dispatches on the step type, follows `next` pointers, and threads one
 * mutable state record through the whole walk.
 *
 * The functions give the meaning of each executor as a value: the state it
 * leaves, the activity calls it made (the trace) and the error it threw, if
 * any. The methods below them are the executors themselves, updating a
 * shared `ExecutionState` in place, and each is proved to do what its
 * function says.
 *
 * Two modelling choices: the activity proxy is the parameter `invoke`, and
 * `Promise.all` over parallel branches runs the branches one after another
 * in listed order. Every `executeStep` call spends one unit of `fuel`,
 * because `next` pointers may form cycles and the source then never stops.
 */
module DslWorkflow {
  import opened Wrappers
  import opened JsValues
  import opened WorkflowSchema

  /** The activity proxy: `executeActivity(activityName, args)`. */
  type Invoker = (string, Record) -> ActivityResult

  /** The errors a run can throw. `FuelExhausted` marks a walk cut off by the fuel bound. */
  datatype Failure =
    | RootNotFound(root: string)
    | MissingActivityName(stepId: string)
    | ActivityFailed(activityName: string, error: Option<string>)
    | BranchNotFound(branchId: string)
    | UnknownStepType(tag: string)
    | FuelExhausted

  /** The message of the thrown `Error`. */
  function Message(f: Failure): string {
    match f
    case RootNotFound(root) => "Root step '" + root + "' not found"
    case MissingActivityName(id) => "Activity step '" + id + "' missing activityName"
    case ActivityFailed(name, error) =>
      "Activity '" + name + "' failed: " + (if error.Some? then error.value else "undefined")
    case BranchNotFound(id) => "Branch step '" + id + "' not found"
    case UnknownStepType(tag) => "Unknown step type: " + tag
    case FuelExhausted => "fuel exhausted"
  }

  /** One activity call made by an activity step. */
  datatype Invocation = Invocation(
    stepId: string,
    activityName: string,
    args: Record,
    resultVariable: Option<string>,
    result: ActivityResult)

  /** The state after an executor, the calls it made in order, and the error it threw. */
  datatype Outcome = Outcome(state: Record, trace: seq<Invocation>, failure: Option<Failure>)

  function Done(s: Record): Outcome {
    Outcome(s, [], None)
  }

  /** `second` ran after `first` completed. */
  function Then(first: Outcome, second: Outcome): Outcome {
    Outcome(second.state, first.trace + second.trace, second.failure)
  }

  /** The keys an activity call wrote into the state. */
  predicate Writes(e: Invocation, k: string) {
    k == e.stepId || (Given(e.resultVariable) && e.resultVariable.value == k)
  }

  /** `step.arguments || {}`. */
  function ArgsOrEmpty(a: Option<Record>): Record {
    if a.Some? then a.value else map[]
  }

  // ---------------------------------------------------------------------
  // Argument resolution and condition evaluation
  // ---------------------------------------------------------------------

  /** `typeof v === 'string' && v.startsWith('${') && v.endsWith('}')`. */
  predicate IsReference(v: Value) {
    v.Str? && |v.s| >= 2 && v.s[..2] == "${" && v.s[|v.s| - 1] == '}'
  }

  /** `v.slice(2, -1)`: the variable name inside `${...}`. */
  function ReferenceName(v: Value): (name: string)
    requires IsReference(v)
    ensures v.s == "${" + name + "}"
  {
    assert v.s[1] == '{' by { assert v.s[..2][1] == v.s[1]; }
    var name := v.s[2..|v.s| - 1];
    assert v.s == v.s[..2] + name + [v.s[|v.s| - 1]];
    name
  }

  /** The resolved form of one argument value. */
  function Resolve(v: Value, state: Record): Value {
    if IsReference(v) then Lookup(state, ReferenceName(v)) else v
  }

  /** What `resolveArguments(args, state)` returns. */
  function ResolvedArguments(args: Record, state: Record): Record {
    map k | k in args :: Resolve(args[k], state)
  }

  /**
   * `resolveArguments`: builds a fresh record key by key. A `${name}` string
   * is replaced by the current `state[name]`; every other value is copied.
   */
  method ResolveArguments(args: Record, state: Record) returns (resolved: Record)
    ensures resolved == ResolvedArguments(args, state)
    ensures resolved.Keys == args.Keys
    ensures forall k :: k in args && IsReference(args[k]) ==>
              resolved[k] == Lookup(state, ReferenceName(args[k]))
    ensures forall k :: k in args && !IsReference(args[k]) ==> resolved[k] == args[k]
  {
    resolved := map[];
    var remaining := args.Keys;
    while remaining != {}
      invariant remaining <= args.Keys
      invariant resolved.Keys == args.Keys - remaining
      invariant forall k :: k in resolved ==> resolved[k] == Resolve(args[k], state)
      decreases remaining
    {
      var key :| key in remaining;
      var value := args[key];
      if IsReference(value) {
        resolved := resolved[key := Lookup(state, ReferenceName(value))];
      } else {
        resolved := resolved[key := value];
      }
      assert resolved[key] == Resolve(args[key], state);
      remaining := remaining - {key};
    }
    assert resolved.Keys == ResolvedArguments(args, state).Keys;
    assert resolved == ResolvedArguments(args, state);
  }

  /** The operators `evaluateCondition` knows. */
  const Operators: set<string> := {"equals", "notEquals", "greaterThan", "lessThan", "exists"}

  /**
   * `evaluateCondition(args, state)` on `{variable, operator, value}`.
   * Ordering compares two integers; a variable that is not a string names
   * no state key.
   */
  function EvaluateCondition(args: Record, state: Record): (holds: bool)
    ensures holds ==> Truthy(Lookup(args, "variable")) && Truthy(Lookup(args, "operator"))
    ensures holds ==> Lookup(args, "operator").Str? && Lookup(args, "operator").s in Operators
    ensures var v := Lookup(args, "variable");
            var x := Lookup(args, "value");
            v.Str? && v.s != "" ==>
              var a := Lookup(state, v.s);
              && (Lookup(args, "operator") == Str("equals") ==> (holds <==> StrictEquals(a, x)))
              && (Lookup(args, "operator") == Str("notEquals") ==> (holds <==> !StrictEquals(a, x)))
              && (Lookup(args, "operator") == Str("greaterThan") ==> (holds <==> a.Num? && x.Num? && a.n > x.n))
              && (Lookup(args, "operator") == Str("lessThan") ==> (holds <==> a.Num? && x.Num? && a.n < x.n))
              && (Lookup(args, "operator") == Str("exists") ==> (holds <==> a != Undefined))
  {
    var variable := Lookup(args, "variable");
    var operator := Lookup(args, "operator");
    var value := Lookup(args, "value");
    if !Truthy(variable) || !Truthy(operator) then false
    else
      var actual := if variable.Str? then Lookup(state, variable.s) else Undefined;
      match operator
      case Str("equals") => StrictEquals(actual, value)
      case Str("notEquals") => !StrictEquals(actual, value)
      case Str("greaterThan") => actual.Num? && value.Num? && actual.n > value.n
      case Str("lessThan") => actual.Num? && value.Num? && actual.n < value.n
      case Str("exists") => actual != Undefined
      case _ => false
  }

  // ---------------------------------------------------------------------
  // The executors as functions
  // ---------------------------------------------------------------------

  /** `executeStep`: the type-specific part, then the step's own `next` if it resolves. */
  function ExecStep(step: Step, all: seq<Step>, s: Record, invoke: Invoker, fuel: nat): Outcome
    decreases fuel, 0, 0
  {
    if fuel == 0 then Outcome(s, [], Some(FuelExhausted))
    else
      var body :=
        match step.stepType
        case Activity => ExecActivityStep(step, s, invoke)
        case Sequence => ExecSequenceStep(step, all, s, invoke, fuel - 1)
        case Parallel => ExecParallelStep(step, all, s, invoke, fuel - 1)
        case Condition => ExecConditionalStep(step, all, s, invoke, fuel - 1)
        case Unknown(tag) => Outcome(s, [], Some(UnknownStepType(tag)));
      if body.failure.Some? then body
      else Then(body, FollowOptional(step.next, all, body.state, invoke, fuel - 1))
  }

  /** `allSteps.find(s => s.id === id)`, then `executeStep` on it if found. */
  function RunIfFound(id: string, all: seq<Step>, s: Record, invoke: Invoker, fuel: nat): Outcome
    decreases fuel, 1, 0
  {
    match Find(all, id)
    case Some(child) => ExecStep(child, all, s, invoke, fuel)
    case None => Done(s)
  }

  /** `if (id) { ... }` around `RunIfFound`: an absent or empty id is a no-op. */
  function FollowOptional(id: Option<string>, all: seq<Step>, s: Record, invoke: Invoker, fuel: nat): Outcome
    decreases fuel, 1, 1
  {
    if Given(id) then RunIfFound(id.value, all, s, invoke, fuel) else Done(s)
  }

  /** Runs the ids one after another, skipping unknown ids, stopping at the first error. */
  function RunInOrder(ids: seq<string>, all: seq<Step>, s: Record, invoke: Invoker, fuel: nat): Outcome
    decreases fuel, 1, |ids| + 2
  {
    if ids == [] then Done(s)
    else
      var first := RunIfFound(ids[0], all, s, invoke, fuel);
      if first.failure.Some? then first
      else Then(first, RunInOrder(ids[1..], all, first.state, invoke, fuel))
  }

  /** The state after an activity call: `resultVariable` first, then the step id. */
  function StoreResult(step: Step, s: Record, r: ActivityResult): Record {
    var withVariable := if Given(step.resultVariable) then s[step.resultVariable.value := r.data] else s;
    withVariable[step.id := ResultValue(r)]
  }

  /** `executeActivityStep`. */
  function ExecActivityStep(step: Step, s: Record, invoke: Invoker): Outcome {
    if !Given(step.activityName) then Outcome(s, [], Some(MissingActivityName(step.id)))
    else
      var name := step.activityName.value;
      var args := ResolvedArguments(ArgsOrEmpty(step.arguments), s);
      var r := invoke(name, args);
      Outcome(StoreResult(step, s, r),
              [Invocation(step.id, name, args, step.resultVariable, r)],
              if r.success then None else Some(ActivityFailed(name, r.error)))
  }

  /** `executeSequenceStep`. */
  function ExecSequenceStep(step: Step, all: seq<Step>, s: Record, invoke: Invoker, fuel: nat): Outcome
    decreases fuel, 2, 0
  {
    if step.steps.None? || |step.steps.value| == 0 then Done(s)
    else RunInOrder(step.steps.value, all, s, invoke, fuel)
  }

  /** The first id that names no step. */
  function MissingBranch(ids: seq<string>, all: seq<Step>): (m: Option<string>)
    ensures m.None? <==> forall i :: 0 <= i < |ids| ==> Find(all, ids[i]).Some?
    ensures m.Some? ==> m.value in ids && Find(all, m.value).None?
  {
    if ids == [] then None
    else if Find(all, ids[0]).None? then Some(ids[0])
    else
      MissingBranch(ids[1..], all)
  }

  /**
   * `executeParallelStep`. Every branch id is looked up before any branch
   * makes progress (the lookups happen synchronously inside `map`, and no
   * executor writes the state before its first `await`), so a missing branch
   * fails the step with the state untouched. Then the branches run in order.
   */
  function ExecParallelStep(step: Step, all: seq<Step>, s: Record, invoke: Invoker, fuel: nat): Outcome
    decreases fuel, 2, 0
  {
    if step.branches.None? || |step.branches.value| == 0 then Done(s)
    else
      match MissingBranch(step.branches.value, all)
      case Some(id) => Outcome(s, [], Some(BranchNotFound(id)))
      case None => RunInOrder(step.branches.value, all, s, invoke, fuel)
  }

  /** The step a condition step goes to. */
  function ChosenBranch(step: Step, s: Record): Option<string> {
    if EvaluateCondition(ArgsOrEmpty(step.arguments), s) then step.onSuccess else step.onFailure
  }

  /** `executeConditionalStep`. */
  function ExecConditionalStep(step: Step, all: seq<Step>, s: Record, invoke: Invoker, fuel: nat): Outcome
    decreases fuel, 2, 0
  {
    FollowOptional(ChosenBranch(step, s), all, s, invoke, fuel)
  }

  /** `dslWorkflow(def, input)`: the state starts as a copy of the input. */
  function Run(def: WorkflowDefinition, input: Record, invoke: Invoker, fuel: nat): Outcome {
    match Find(def.steps, def.root)
    case None => Outcome(input, [], Some(RootNotFound(def.root)))
    case Some(root) => ExecStep(root, def.steps, input, invoke, fuel)
  }

  // ---------------------------------------------------------------------
  // The executors as methods over the shared state
  // ---------------------------------------------------------------------

  /** The `Record<string, any>` shared by reference across one run. */
  class ExecutionState {
    var vars: Record

    constructor (input: Record)
      ensures vars == input
    {
      vars := input;
    }
  }

  method ExecuteStep(step: Step, all: seq<Step>, st: ExecutionState, invoke: Invoker, fuel: nat)
    returns (failure: Option<Failure>)
    modifies st
    decreases fuel, 0, 0
    ensures st.vars == ExecStep(step, all, old(st.vars), invoke, fuel).state
    ensures failure == ExecStep(step, all, old(st.vars), invoke, fuel).failure
  {
    if fuel == 0 {
      return Some(FuelExhausted);
    }
    match step.stepType {
      case Activity =>
        failure := ExecuteActivityStep(step, st, invoke);
      case Sequence =>
        failure := ExecuteSequenceStep(step, all, st, invoke, fuel - 1);
      case Parallel =>
        failure := ExecuteParallelStep(step, all, st, invoke, fuel - 1);
      case Condition =>
        failure := ExecuteConditionalStep(step, all, st, invoke, fuel - 1);
      case Unknown(tag) =>
        return Some(UnknownStepType(tag));
    }
    if failure.Some? {
      return;
    }
    if Given(step.next) {
      failure := ExecuteIfFound(step.next.value, all, st, invoke, fuel - 1);
    }
  }

  method ExecuteIfFound(id: string, all: seq<Step>, st: ExecutionState, invoke: Invoker, fuel: nat)
    returns (failure: Option<Failure>)
    modifies st
    decreases fuel, 1, 0
    ensures st.vars == RunIfFound(id, all, old(st.vars), invoke, fuel).state
    ensures failure == RunIfFound(id, all, old(st.vars), invoke, fuel).failure
  {
    var child := Find(all, id);
    failure := None;
    if child.Some? {
      failure := ExecuteStep(child.value, all, st, invoke, fuel);
    }
  }

  method ExecuteActivityStep(step: Step, st: ExecutionState, invoke: Invoker)
    returns (failure: Option<Failure>)
    modifies st
    ensures st.vars == ExecActivityStep(step, old(st.vars), invoke).state
    ensures failure == ExecActivityStep(step, old(st.vars), invoke).failure
  {
    if !Given(step.activityName) {
      return Some(MissingActivityName(step.id));
    }
    var args := ResolveArguments(ArgsOrEmpty(step.arguments), st.vars);
    var result := invoke(step.activityName.value, args);
    if Given(step.resultVariable) {
      st.vars := st.vars[step.resultVariable.value := result.data];
    }
    st.vars := st.vars[step.id := ResultValue(result)];
    if !result.success {
      return Some(ActivityFailed(step.activityName.value, result.error));
    }
    return None;
  }

  /** The `for (const stepId of ids)` loop shared by sequence and parallel steps. */
  method RunEach(ids: seq<string>, all: seq<Step>, st: ExecutionState, invoke: Invoker, fuel: nat)
    returns (failure: Option<Failure>)
    modifies st
    decreases fuel, 1, |ids| + 2
    ensures st.vars == RunInOrder(ids, all, old(st.vars), invoke, fuel).state
    ensures failure == RunInOrder(ids, all, old(st.vars), invoke, fuel).failure
  {
    ghost var total := RunInOrder(ids, all, st.vars, invoke, fuel);
    var i := 0;
    while i < |ids|
      invariant 0 <= i <= |ids|
      invariant RunInOrder(ids[i..], all, st.vars, invoke, fuel).state == total.state
      invariant RunInOrder(ids[i..], all, st.vars, invoke, fuel).failure == total.failure
    {
      ghost var before := st.vars;
      assert ids[i..][0] == ids[i] && ids[i..][1..] == ids[i + 1..];
      failure := ExecuteIfFound(ids[i], all, st, invoke, fuel);
      if failure.Some? {
        return;
      }
      i := i + 1;
    }
    return None;
  }

  method ExecuteSequenceStep(step: Step, all: seq<Step>, st: ExecutionState, invoke: Invoker, fuel: nat)
    returns (failure: Option<Failure>)
    modifies st
    decreases fuel, 2, 0
    ensures st.vars == ExecSequenceStep(step, all, old(st.vars), invoke, fuel).state
    ensures failure == ExecSequenceStep(step, all, old(st.vars), invoke, fuel).failure
  {
    if step.steps.None? || |step.steps.value| == 0 {
      return None;
    }
    failure := RunEach(step.steps.value, all, st, invoke, fuel);
  }

  method ExecuteParallelStep(step: Step, all: seq<Step>, st: ExecutionState, invoke: Invoker, fuel: nat)
    returns (failure: Option<Failure>)
    modifies st
    decreases fuel, 2, 0
    ensures st.vars == ExecParallelStep(step, all, old(st.vars), invoke, fuel).state
    ensures failure == ExecParallelStep(step, all, old(st.vars), invoke, fuel).failure
  {
    if step.branches.None? || |step.branches.value| == 0 {
      return None;
    }
    var branches := step.branches.value;
    var i := 0;
    while i < |branches|
      invariant 0 <= i <= |branches|
      invariant MissingBranch(branches[i..], all) == MissingBranch(branches, all)
    {
      assert branches[i..][0] == branches[i] && branches[i..][1..] == branches[i + 1..];
      if Find(all, branches[i]).None? {
        return Some(BranchNotFound(branches[i]));
      }
      i := i + 1;
    }
    failure := RunEach(branches, all, st, invoke, fuel);
  }

  method ExecuteConditionalStep(step: Step, all: seq<Step>, st: ExecutionState, invoke: Invoker, fuel: nat)
    returns (failure: Option<Failure>)
    modifies st
    decreases fuel, 2, 0
    ensures st.vars == ExecConditionalStep(step, all, old(st.vars), invoke, fuel).state
    ensures failure == ExecConditionalStep(step, all, old(st.vars), invoke, fuel).failure
  {
    var condition := EvaluateCondition(ArgsOrEmpty(step.arguments), st.vars);
    var nextStepId := if condition then step.onSuccess else step.onFailure;
    failure := None;
    if Given(nextStepId) {
      failure := ExecuteIfFound(nextStepId.value, all, st, invoke, fuel);
    }
  }

  /**
   * `dslWorkflow`: fails before anything runs when the root is missing;
   * otherwise returns the final state, or the error the walk threw.
   */
  method RunWorkflow(def: WorkflowDefinition, input: Record, invoke: Invoker, fuel: nat)
    returns (result: Result<Record, Failure>)
    ensures Find(def.steps, def.root).None? ==> result == Err(RootNotFound(def.root))
    ensures result.Ok? <==> Run(def, input, invoke, fuel).failure.None?
    ensures result.Ok? ==> result.value == Run(def, input, invoke, fuel).state
    ensures result.Err? ==> Some(result.error) == Run(def, input, invoke, fuel).failure
  {
    var st := new ExecutionState(input);
    var rootStep := Find(def.steps, def.root);
    if rootStep.None? {
      return Err(RootNotFound(def.root));
    }
    var failure := ExecuteStep(rootStep.value, def.steps, st, invoke, fuel);
    if failure.Some? {
      return Err(failure.value);
    }
    return Ok(st.vars);
  }
}

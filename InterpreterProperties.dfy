/**
 * What a workflow run guarantees: which state keys it can touch, how each
 * step kind behaves, and that the fuel bound only ever cuts runs short.
 */
module DslWorkflowProperties {
  import opened Wrappers
  import opened JsValues
  import opened WorkflowSchema
  import opened DslWorkflow

  // ---------------------------------------------------------------------
  // Which state keys a run can change
  // ---------------------------------------------------------------------

  /** No call in the trace wrote key `k`. */
  ghost predicate Untouched(trace: seq<Invocation>, k: string) {
    forall e :: e in trace ==> !Writes(e, k)
  }

  /** Every key that no recorded call wrote is as it was in `s`: same presence, same value. */
  ghost predicate Keeps(s: Record, o: Outcome) {
    forall k :: Untouched(o.trace, k) ==> (k in o.state <==> k in s) && Lookup(o.state, k) == Lookup(s, k)
  }

  /** No call after position `i` of the trace wrote the step id of call `i`. */
  ghost predicate LastToWriteId(trace: seq<Invocation>, i: nat)
    requires i < |trace|
  {
    forall j :: i < j < |trace| ==> !Writes(trace[j], trace[i].stepId)
  }

  /**
   * Every call whose step id no later call wrote has its result, as an
   * object, under that id in the final state.
   */
  ghost predicate Records(o: Outcome) {
    forall i {:trigger LastToWriteId(o.trace, i)} :: 0 <= i < |o.trace| && LastToWriteId(o.trace, i) ==>
      Lookup(o.state, o.trace[i].stepId) == ResultValue(o.trace[i].result)
  }

  /** What a run leaves in the state: untouched keys kept, each result under its step id. */
  ghost predicate Accounts(s: Record, o: Outcome) {
    Keeps(s, o) && Records(o)
  }

  lemma KeepsThen(s: Record, first: Outcome, second: Outcome)
    requires Keeps(s, first) && Keeps(first.state, second)
    ensures Keeps(s, Then(first, second))
  {
    forall k | Untouched(first.trace + second.trace, k)
      ensures (k in second.state <==> k in s) && Lookup(second.state, k) == Lookup(s, k)
    {
      assert Untouched(first.trace, k) && Untouched(second.trace, k);
    }
  }

  /** A call of the first part that is last to write its id in the whole trace is last in its part too, and the second part leaves its key alone. */
  lemma RecordsThenFirst(first: Outcome, second: Outcome, i: nat)
    requires Records(first) && Keeps(first.state, second)
    requires i < |first.trace| && LastToWriteId(first.trace + second.trace, i)
    ensures Lookup(second.state, first.trace[i].stepId) == ResultValue(first.trace[i].result)
  {
    var whole := first.trace + second.trace;
    var n := |first.trace|;
    var k := first.trace[i].stepId;
    assert whole[i] == first.trace[i];
    forall e | e in second.trace ensures !Writes(e, k) {
      var j :| 0 <= j < |second.trace| && second.trace[j] == e;
      assert whole[n + j] == e;
    }
    assert Untouched(second.trace, k);
    forall j | i < j < n ensures !Writes(first.trace[j], k) {
      assert whole[j] == first.trace[j];
    }
    assert LastToWriteId(first.trace, i);
  }

  lemma RecordsThenSecond(first: Outcome, second: Outcome, i: nat)
    requires Records(second)
    requires |first.trace| <= i < |first.trace| + |second.trace| && LastToWriteId(first.trace + second.trace, i)
    ensures Lookup(second.state, second.trace[i - |first.trace|].stepId) == ResultValue(second.trace[i - |first.trace|].result)
  {
    var whole := first.trace + second.trace;
    var n := |first.trace|;
    assert whole[i] == second.trace[i - n];
    forall j | i - n < j < |second.trace| ensures !Writes(second.trace[j], second.trace[i - n].stepId) {
      assert whole[j + n] == second.trace[j];
    }
    assert LastToWriteId(second.trace, i - n);
  }

  lemma AccountsThen(s: Record, first: Outcome, second: Outcome)
    requires Accounts(s, first) && Accounts(first.state, second)
    ensures Accounts(s, Then(first, second))
  {
    KeepsThen(s, first, second);
    var o := Then(first, second);
    forall i | 0 <= i < |o.trace| && LastToWriteId(o.trace, i)
      ensures Lookup(o.state, o.trace[i].stepId) == ResultValue(o.trace[i].result)
    {
      if i < |first.trace| {
        RecordsThenFirst(first, second, i);
      } else {
        RecordsThenSecond(first, second, i);
      }
    }
  }

  /** An activity step writes its id and its result variable, and nothing else. */
  lemma ActivityAccounts(step: Step, s: Record, invoke: Invoker)
    ensures Accounts(s, ExecActivityStep(step, s, invoke))
  {
    var o := ExecActivityStep(step, s, invoke);
    if Given(step.activityName) {
      forall k | Untouched(o.trace, k)
        ensures (k in o.state <==> k in s) && Lookup(o.state, k) == Lookup(s, k)
      {
        assert !Writes(o.trace[0], k);
      }
    }
  }

  /** What `executeStep` runs before following `next`: the executor its step type picks. */
  function Dispatched(step: Step, all: seq<Step>, s: Record, invoke: Invoker, fuel: nat): Outcome
    requires fuel > 0
  {
    match step.stepType
    case Activity => ExecActivityStep(step, s, invoke)
    case Sequence => ExecSequenceStep(step, all, s, invoke, fuel - 1)
    case Parallel => ExecParallelStep(step, all, s, invoke, fuel - 1)
    case Condition => ExecConditionalStep(step, all, s, invoke, fuel - 1)
    case Unknown(tag) => Outcome(s, [], Some(UnknownStepType(tag)))
  }

  lemma {:induction false} StepAccounts(step: Step, all: seq<Step>, s: Record, invoke: Invoker, fuel: nat)
    ensures Accounts(s, ExecStep(step, all, s, invoke, fuel))
    decreases fuel, 0, 1
  {
    if fuel > 0 {
      var body := Dispatched(step, all, s, invoke, fuel);
      DispatchedAccounts(step, all, s, invoke, fuel);
      if body.failure.None? {
        FollowAccounts(step.next, all, body.state, invoke, fuel - 1);
        AccountsThen(s, body, FollowOptional(step.next, all, body.state, invoke, fuel - 1));
      }
    }
  }

  lemma {:induction false} DispatchedAccounts(step: Step, all: seq<Step>, s: Record, invoke: Invoker, fuel: nat)
    requires fuel > 0
    ensures Accounts(s, Dispatched(step, all, s, invoke, fuel))
    decreases fuel, 0, 0
  {
    match step.stepType {
      case Activity =>
        ActivityAccounts(step, s, invoke);
      case Sequence =>
        if step.steps.Some? && |step.steps.value| > 0 {
          RunInOrderAccounts(step.steps.value, all, s, invoke, fuel - 1);
        }
      case Parallel =>
        if step.branches.Some? && |step.branches.value| > 0 && MissingBranch(step.branches.value, all).None? {
          RunInOrderAccounts(step.branches.value, all, s, invoke, fuel - 1);
        }
      case Condition =>
        FollowAccounts(ChosenBranch(step, s), all, s, invoke, fuel - 1);
      case Unknown(_) =>
    }
  }

  lemma {:induction false} RunIfFoundAccounts(id: string, all: seq<Step>, s: Record, invoke: Invoker, fuel: nat)
    ensures Accounts(s, RunIfFound(id, all, s, invoke, fuel))
    decreases fuel, 1, 0
  {
    if Find(all, id).Some? {
      StepAccounts(Find(all, id).value, all, s, invoke, fuel);
    }
  }

  lemma {:induction false} FollowAccounts(id: Option<string>, all: seq<Step>, s: Record, invoke: Invoker, fuel: nat)
    ensures Accounts(s, FollowOptional(id, all, s, invoke, fuel))
    decreases fuel, 1, 1
  {
    if Given(id) {
      RunIfFoundAccounts(id.value, all, s, invoke, fuel);
    }
  }

  lemma {:induction false} RunInOrderAccounts(ids: seq<string>, all: seq<Step>, s: Record, invoke: Invoker, fuel: nat)
    ensures Accounts(s, RunInOrder(ids, all, s, invoke, fuel))
    decreases fuel, 1, |ids| + 2
  {
    if ids != [] {
      var first := RunIfFound(ids[0], all, s, invoke, fuel);
      RunIfFoundAccounts(ids[0], all, s, invoke, fuel);
      if first.failure.None? {
        RunInOrderAccounts(ids[1..], all, first.state, invoke, fuel);
        AccountsThen(s, first, RunInOrder(ids[1..], all, first.state, invoke, fuel));
      }
    }
  }

  /**
   * The state starts as a copy of the input, and an input key survives to
   * the end of the run unless an executed activity step has it as its id or
   * result variable.
   */
  lemma RunKeepsUntouchedInput(def: WorkflowDefinition, input: Record, invoke: Invoker, fuel: nat)
    ensures var o := Run(def, input, invoke, fuel);
            forall k :: k in input && Untouched(o.trace, k) ==> k in o.state && o.state[k] == input[k]
  {
    if Find(def.steps, def.root).Some? {
      StepAccounts(Find(def.steps, def.root).value, def.steps, input, invoke, fuel);
    }
  }

  /**
   * Whether the run succeeds or fails, each activity call made leaves its
   * result object under its step id, unless a later call wrote that key.
   */
  lemma RunRecordsEveryResult(def: WorkflowDefinition, input: Record, invoke: Invoker, fuel: nat)
    ensures var o := Run(def, input, invoke, fuel);
            forall i :: 0 <= i < |o.trace| && LastToWriteId(o.trace, i) ==>
              o.trace[i].stepId in o.state && o.state[o.trace[i].stepId] == ResultValue(o.trace[i].result)
  {
    if Find(def.steps, def.root).Some? {
      StepAccounts(Find(def.steps, def.root).value, def.steps, input, invoke, fuel);
    }
  }

  /** A missing root fails the run before any step runs or any state is written. */
  lemma RootMissingFailsFirst(def: WorkflowDefinition, input: Record, invoke: Invoker, fuel: nat)
    requires forall i :: 0 <= i < |def.steps| ==> def.steps[i].id != def.root
    ensures Run(def, input, invoke, fuel) == Outcome(input, [], Some(RootNotFound(def.root)))
  {
  }

  // ---------------------------------------------------------------------
  // Fuel only cuts runs short
  // ---------------------------------------------------------------------

  predicate Exhausted(o: Outcome) {
    o.failure == Some(FuelExhausted)
  }

  /**
   * A run that ends without exhausting its fuel ends the same way with any
   * larger amount: the bound never changes the result of a run that fits.
   */
  lemma {:induction false} StepFuelMonotone(step: Step, all: seq<Step>, s: Record, invoke: Invoker, fuel: nat, more: nat)
    requires fuel <= more && !Exhausted(ExecStep(step, all, s, invoke, fuel))
    ensures ExecStep(step, all, s, invoke, more) == ExecStep(step, all, s, invoke, fuel)
    decreases fuel, 0, 1
  {
    var body := Dispatched(step, all, s, invoke, fuel);
    assert !Exhausted(body);
    DispatchedFuelMonotone(step, all, s, invoke, fuel, more);
    if body.failure.None? {
      FollowFuelMonotone(step.next, all, body.state, invoke, fuel - 1, more - 1);
    }
  }

  lemma {:induction false} DispatchedFuelMonotone(step: Step, all: seq<Step>, s: Record, invoke: Invoker, fuel: nat, more: nat)
    requires 0 < fuel <= more && !Exhausted(Dispatched(step, all, s, invoke, fuel))
    ensures Dispatched(step, all, s, invoke, more) == Dispatched(step, all, s, invoke, fuel)
    decreases fuel, 0, 0
  {
    match step.stepType {
      case Activity =>
      case Sequence =>
        if step.steps.Some? && |step.steps.value| > 0 {
          RunInOrderFuelMonotone(step.steps.value, all, s, invoke, fuel - 1, more - 1);
        }
      case Parallel =>
        if step.branches.Some? && |step.branches.value| > 0 && MissingBranch(step.branches.value, all).None? {
          RunInOrderFuelMonotone(step.branches.value, all, s, invoke, fuel - 1, more - 1);
        }
      case Condition =>
        FollowFuelMonotone(ChosenBranch(step, s), all, s, invoke, fuel - 1, more - 1);
      case Unknown(_) =>
    }
  }

  lemma {:induction false} RunIfFoundFuelMonotone(id: string, all: seq<Step>, s: Record, invoke: Invoker, fuel: nat, more: nat)
    requires fuel <= more && !Exhausted(RunIfFound(id, all, s, invoke, fuel))
    ensures RunIfFound(id, all, s, invoke, more) == RunIfFound(id, all, s, invoke, fuel)
    decreases fuel, 1, 0
  {
    if Find(all, id).Some? {
      StepFuelMonotone(Find(all, id).value, all, s, invoke, fuel, more);
    }
  }

  lemma {:induction false} FollowFuelMonotone(id: Option<string>, all: seq<Step>, s: Record, invoke: Invoker, fuel: nat, more: nat)
    requires fuel <= more && !Exhausted(FollowOptional(id, all, s, invoke, fuel))
    ensures FollowOptional(id, all, s, invoke, more) == FollowOptional(id, all, s, invoke, fuel)
    decreases fuel, 1, 1
  {
    if Given(id) {
      RunIfFoundFuelMonotone(id.value, all, s, invoke, fuel, more);
    }
  }

  lemma {:induction false} RunInOrderFuelMonotone(ids: seq<string>, all: seq<Step>, s: Record, invoke: Invoker, fuel: nat, more: nat)
    requires fuel <= more && !Exhausted(RunInOrder(ids, all, s, invoke, fuel))
    ensures RunInOrder(ids, all, s, invoke, more) == RunInOrder(ids, all, s, invoke, fuel)
    decreases fuel, 1, |ids| + 2
  {
    if ids != [] {
      var first := RunIfFound(ids[0], all, s, invoke, fuel);
      RunIfFoundFuelMonotone(ids[0], all, s, invoke, fuel, more);
      if first.failure.None? {
        RunInOrderFuelMonotone(ids[1..], all, first.state, invoke, fuel, more);
      }
    }
  }

  // ---------------------------------------------------------------------
  // Argument resolution
  // ---------------------------------------------------------------------

  /** `"${name}"` resolves to the value the state holds under `name` at resolution time. */
  lemma ReferenceResolvesToCurrentValue(name: string, state: Record)
    ensures IsReference(Str("${" + name + "}"))
    ensures Resolve(Str("${" + name + "}"), state) == Lookup(state, name)
  {
    var v := Str("${" + name + "}");
    assert v.s[..2] == "${";
    var inner := ReferenceName(v);
    assert inner == v.s[2..|v.s| - 1] == name;
  }

  // ---------------------------------------------------------------------
  // Activity steps
  // ---------------------------------------------------------------------

  /**
   * An activity step calls the activity once with its resolved arguments,
   * stores the whole result under the step id, and stores `result.data`
   * under the result variable whether or not the call succeeded. It fails
   * exactly when the result is unsuccessful, and then its `next` never runs.
   */
  lemma ActivityStepEffect(step: Step, all: seq<Step>, s: Record, invoke: Invoker, fuel: nat)
    requires step.stepType == Activity && Given(step.activityName) && fuel > 0
    ensures var name := step.activityName.value;
            var args := ResolvedArguments(ArgsOrEmpty(step.arguments), s);
            var r := invoke(name, args);
            var body := ExecActivityStep(step, s, invoke);
            var o := ExecStep(step, all, s, invoke, fuel);
            && body.trace == [Invocation(step.id, name, args, step.resultVariable, r)]
            && Lookup(body.state, step.id) == ResultValue(r)
            && (Given(step.resultVariable) && step.resultVariable.value != step.id ==>
                  Lookup(body.state, step.resultVariable.value) == r.data)
            && (body.failure.Some? <==> !r.success)
            && (!r.success ==> o == body && o.failure == Some(ActivityFailed(name, r.error)))
            && (r.success ==> o == Then(body, FollowOptional(step.next, all, body.state, invoke, fuel - 1)))
  {
  }

  /** An activity step without `activityName` fails before calling anything or touching the state. */
  lemma MissingActivityNameFails(step: Step, all: seq<Step>, s: Record, invoke: Invoker, fuel: nat)
    requires step.stepType == Activity && !Given(step.activityName) && fuel > 0
    ensures ExecStep(step, all, s, invoke, fuel) == Outcome(s, [], Some(MissingActivityName(step.id)))
  {
  }

  /** A step whose type tag is none of the four kinds fails without running anything. */
  lemma UnknownStepTypeFails(step: Step, all: seq<Step>, s: Record, invoke: Invoker, fuel: nat)
    requires step.stepType.Unknown? && fuel > 0
    ensures ExecStep(step, all, s, invoke, fuel) == Outcome(s, [], Some(UnknownStepType(step.stepType.tag)))
  {
  }

  // ---------------------------------------------------------------------
  // Sequence steps
  // ---------------------------------------------------------------------

  /** A sequence step without children does nothing before its `next`. */
  lemma EmptySequenceIsNoOp(step: Step, all: seq<Step>, s: Record, invoke: Invoker, fuel: nat)
    requires step.steps.None? || step.steps.value == []
    ensures ExecSequenceStep(step, all, s, invoke, fuel) == Done(s)
  {
  }

  /** The ids that name a step. */
  function KnownIds(ids: seq<string>, all: seq<Step>): (known: seq<string>)
    ensures forall id :: id in known <==> id in ids && Find(all, id).Some?
  {
    if ids == [] then []
    else if Find(all, ids[0]).Some? then [ids[0]] + KnownIds(ids[1..], all)
    else KnownIds(ids[1..], all)
  }

  /** Unknown ids in a list of children are skipped silently: dropping them changes nothing. */
  lemma {:induction false} UnknownChildrenSkipped(ids: seq<string>, all: seq<Step>, s: Record, invoke: Invoker, fuel: nat)
    ensures RunInOrder(ids, all, s, invoke, fuel) == RunInOrder(KnownIds(ids, all), all, s, invoke, fuel)
    decreases |ids|
  {
    if ids != [] {
      var known := KnownIds(ids, all);
      if Find(all, ids[0]).Some? {
        assert known[0] == ids[0] && known[1..] == KnownIds(ids[1..], all);
        var first := RunIfFound(ids[0], all, s, invoke, fuel);
        if first.failure.None? {
          UnknownChildrenSkipped(ids[1..], all, first.state, invoke, fuel);
        }
      } else {
        UnknownChildrenSkipped(ids[1..], all, s, invoke, fuel);
      }
    }
  }

  /**
   * Children run in listed order: running `a + b` is running `a`, then, if
   * that did not fail, running `b` from the state `a` left.
   */
  lemma {:induction false} ChildrenRunInOrder(a: seq<string>, b: seq<string>, all: seq<Step>, s: Record, invoke: Invoker, fuel: nat)
    ensures var first := RunInOrder(a, all, s, invoke, fuel);
            RunInOrder(a + b, all, s, invoke, fuel) ==
              if first.failure.Some? then first else Then(first, RunInOrder(b, all, first.state, invoke, fuel))
    decreases |a|
  {
    if a == [] {
      assert a + b == b;
    } else {
      assert (a + b)[0] == a[0] && (a + b)[1..] == a[1..] + b;
      var head := RunIfFound(a[0], all, s, invoke, fuel);
      if head.failure.None? {
        ChildrenRunInOrder(a[1..], b, all, head.state, invoke, fuel);
        var rest := RunInOrder(a[1..], all, head.state, invoke, fuel);
        if rest.failure.None? {
          assert head.trace + (rest.trace + RunInOrder(b, all, rest.state, invoke, fuel).trace)
              == (head.trace + rest.trace) + RunInOrder(b, all, rest.state, invoke, fuel).trace;
        }
      }
    }
  }

  // ---------------------------------------------------------------------
  // Parallel steps
  // ---------------------------------------------------------------------

  /** `MissingBranch` finds the first id that names no step. */
  lemma {:induction false} FirstMissingBranch(ids: seq<string>, all: seq<Step>, i: nat)
    requires i < |ids| && Find(all, ids[i]).None?
    requires forall j :: 0 <= j < i ==> Find(all, ids[j]).Some?
    ensures MissingBranch(ids, all) == Some(ids[i])
  {
    if i > 0 {
      FirstMissingBranch(ids[1..], all, i - 1);
    }
  }

  /**
   * A parallel step with a branch id that names no step fails with the
   * first such id; no branch runs, the state is untouched, and `next` is
   * not followed.
   */
  lemma ParallelMissingBranchFails(step: Step, all: seq<Step>, s: Record, invoke: Invoker, fuel: nat, i: nat)
    requires step.stepType == Parallel && fuel > 0 && step.branches.Some?
    requires i < |step.branches.value| && Find(all, step.branches.value[i]).None?
    requires forall j :: 0 <= j < i ==> Find(all, step.branches.value[j]).Some?
    ensures ExecStep(step, all, s, invoke, fuel) == Outcome(s, [], Some(BranchNotFound(step.branches.value[i])))
  {
    FirstMissingBranch(step.branches.value, all, i);
  }

  /** With every branch present, a parallel step runs its branches in listed order, then its `next`. */
  lemma ParallelRunsBranchesInOrder(step: Step, all: seq<Step>, s: Record, invoke: Invoker, fuel: nat)
    requires step.stepType == Parallel && fuel > 0 && step.branches.Some?
    requires forall j :: 0 <= j < |step.branches.value| ==> Find(all, step.branches.value[j]).Some?
    ensures var body := RunInOrder(step.branches.value, all, s, invoke, fuel - 1);
            ExecStep(step, all, s, invoke, fuel) ==
              if body.failure.Some? then body
              else Then(body, FollowOptional(step.next, all, body.state, invoke, fuel - 1))
  {
  }

  /** A branch that is a succeeding activity step with no `next` completes with the activity's state. */
  lemma SucceedingBranch(a: Step, all: seq<Step>, s: Record, invoke: Invoker, fuel: nat)
    requires Find(all, a.id) == Some(a) && fuel > 0
    requires a.stepType == Activity && Given(a.activityName) && !Given(a.next)
    requires invoke(a.activityName.value, ResolvedArguments(ArgsOrEmpty(a.arguments), s)).success
    ensures var o := RunIfFound(a.id, all, s, invoke, fuel);
            o.state == ExecActivityStep(a, s, invoke).state && o.failure.None?
  {
    ActivityStepEffect(a, all, s, invoke, fuel);
  }

  /**
   * An activity step whose call succeeds and whose `next` is a second
   * activity step without `next`: both calls happen, in order, and the run
   * ends in the state the second one leaves.
   */
  lemma ChainOfTwoActivities(a: Step, b: Step, all: seq<Step>, s: Record, invoke: Invoker, fuel: nat)
    requires fuel >= 2 && a.next == Some(b.id) && b.id != "" && Find(all, b.id) == Some(b)
    requires a.stepType == Activity && Given(a.activityName)
    requires b.stepType == Activity && Given(b.activityName) && !Given(b.next)
    ensures var first := ExecActivityStep(a, s, invoke);
            var second := ExecActivityStep(b, first.state, invoke);
            var o := ExecStep(a, all, s, invoke, fuel);
            first.failure.None? && second.failure.None? ==>
              o.failure.None? && o.state == second.state && o.trace == first.trace + second.trace
  {
    var first := ExecActivityStep(a, s, invoke);
    var second := ExecActivityStep(b, first.state, invoke);
    if first.failure.None? && second.failure.None? {
      ActivityStepEffect(a, all, s, invoke, fuel);
      ActivityStepEffect(b, all, first.state, invoke, fuel - 1);
      assert FollowOptional(a.next, all, first.state, invoke, fuel - 1) == ExecStep(b, all, first.state, invoke, fuel - 1);
    }
  }

  /**
   * Two activity branches that both succeed have both written their
   * results when the branch run, which the parallel step awaits, completes.
   */
  lemma ParallelJoinsBothBranches(a: Step, b: Step, all: seq<Step>, s: Record, invoke: Invoker, fuel: nat)
    requires Find(all, a.id) == Some(a) && Find(all, b.id) == Some(b) && fuel > 0
    requires a.stepType == Activity && Given(a.activityName) && !Given(a.next)
    requires b.stepType == Activity && Given(b.activityName) && !Given(b.next)
    requires a.id != b.id && !(Given(b.resultVariable) && b.resultVariable.value == a.id)
    ensures var ra := invoke(a.activityName.value, ResolvedArguments(ArgsOrEmpty(a.arguments), s));
            var sa := ExecActivityStep(a, s, invoke).state;
            var rb := invoke(b.activityName.value, ResolvedArguments(ArgsOrEmpty(b.arguments), sa));
            var run := RunInOrder([a.id, b.id], all, s, invoke, fuel);
            ra.success && rb.success ==>
              && run.failure.None?
              && Lookup(run.state, a.id) == ResultValue(ra)
              && Lookup(run.state, b.id) == ResultValue(rb)
  {
    var ra := invoke(a.activityName.value, ResolvedArguments(ArgsOrEmpty(a.arguments), s));
    var sa := ExecActivityStep(a, s, invoke).state;
    var rb := invoke(b.activityName.value, ResolvedArguments(ArgsOrEmpty(b.arguments), sa));
    if ra.success && rb.success {
      SucceedingBranch(a, all, s, invoke, fuel);
      SucceedingBranch(b, all, sa, invoke, fuel);
      var second := RunIfFound(b.id, all, sa, invoke, fuel);
      var ids: seq<string> := [a.id, b.id];
      assert ids[1..] == [b.id];
      assert RunInOrder(ids[1..], all, sa, invoke, fuel) == Then(second, Done(second.state));
      assert Lookup(sa, a.id) == ResultValue(ra);
    }
  }

  /**
   * If the first branch's activity fails, the parallel step reports that
   * failure, whatever the other branch would have done.
   */
  lemma ParallelFailsWithFailingBranch(p: Step, a: Step, all: seq<Step>, s: Record, invoke: Invoker, fuel: nat)
    requires p.stepType == Parallel && p.branches.Some? && |p.branches.value| > 0 && fuel >= 2
    requires forall j :: 0 <= j < |p.branches.value| ==> Find(all, p.branches.value[j]).Some?
    requires Find(all, p.branches.value[0]) == Some(a)
    requires a.stepType == Activity && Given(a.activityName)
    ensures var r := invoke(a.activityName.value, ResolvedArguments(ArgsOrEmpty(a.arguments), s));
            !r.success ==>
              ExecStep(p, all, s, invoke, fuel).failure == Some(ActivityFailed(a.activityName.value, r.error))
  {
    ParallelRunsBranchesInOrder(p, all, s, invoke, fuel);
    ActivityStepEffect(a, all, s, invoke, fuel - 1);
  }

  // ---------------------------------------------------------------------
  // Condition steps
  // ---------------------------------------------------------------------

  /**
   * A condition step runs `onSuccess` when the condition holds and
   * `onFailure` otherwise (an absent or unknown target does nothing), and
   * then its own `next`.
   */
  lemma ConditionFollowsChosenBranch(step: Step, all: seq<Step>, s: Record, invoke: Invoker, fuel: nat)
    requires step.stepType == Condition && fuel > 0
    ensures var holds := EvaluateCondition(ArgsOrEmpty(step.arguments), s);
            var body := FollowOptional(if holds then step.onSuccess else step.onFailure, all, s, invoke, fuel - 1);
            ExecStep(step, all, s, invoke, fuel) ==
              if body.failure.Some? then body
              else Then(body, FollowOptional(step.next, all, body.state, invoke, fuel - 1))
  {
  }

  /** A missing `variable` or `operator`, or an operator outside the five, makes the condition false. */
  lemma ConditionFalseWhenIncomplete(args: Record, state: Record)
    requires !Truthy(Lookup(args, "variable")) || !Truthy(Lookup(args, "operator")) ||
             !(Lookup(args, "operator").Str? && Lookup(args, "operator").s in Operators)
    ensures !EvaluateCondition(args, state)
  {
  }

  /** With the same variable and value, `equals` and `notEquals` always disagree. */
  lemma EqualsNotEqualsComplementary(args: Record, state: Record)
    requires Truthy(Lookup(args, "variable"))
    ensures EvaluateCondition(args["operator" := Str("equals")], state) ==
            !EvaluateCondition(args["operator" := Str("notEquals")], state)
  {
    assert Lookup(args["operator" := Str("equals")], "variable") == Lookup(args, "variable");
    assert Lookup(args["operator" := Str("notEquals")], "variable") == Lookup(args, "variable");
  }

  /** `exists` holds exactly when the state has a defined value under the variable. */
  lemma ExistsIffDefined(args: Record, state: Record, variable: string)
    requires Lookup(args, "variable") == Str(variable) && variable != ""
    ensures EvaluateCondition(args["operator" := Str("exists")], state) <==> Lookup(state, variable) != Undefined
  {
    assert Lookup(args["operator" := Str("exists")], "variable") == Str(variable);
  }
}

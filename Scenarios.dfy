/**
 * Concrete runs of the interpreter against a registry: the activity proxy
 * is `executeActivity` over fixed registry contents.
 */
module WorkflowScenarios {
  import opened Wrappers
  import opened JsValues
  import opened WorkflowSchema
  import opened Registry
  import opened DslWorkflow
  import opened DslWorkflowProperties

  /** The proxy a worker with these registered activities gives the interpreter. */
  function Proxy(activities: map<string, Handler>): Invoker {
    (name, args) => InvokeRegistered(activities, name, args)
  }

  function ActivityStep(id: string, activityName: string, arguments: Record, resultVariable: Option<string>, next: Option<string>): Step {
    Step(id, Activity, id, Some(activityName), Some(arguments), resultVariable, next, None, None, None, None)
  }

  /**
   * Calling a name nobody registered fails the step with the registry's
   * "not found" message, and that failed result is stored under the step id.
   */
  lemma UnregisteredActivityFailsRun(step: Step, all: seq<Step>, s: Record, activities: map<string, Handler>, fuel: nat)
    requires step.stepType == Activity && Given(step.activityName) && fuel > 0
    requires step.activityName.value !in activities
    ensures var name := step.activityName.value;
            var failed := ActivityResult(false, Undefined, Some(NotFoundMessage(name)));
            var o := ExecStep(step, all, s, Proxy(activities), fuel);
            && o.failure == Some(ActivityFailed(name, Some(NotFoundMessage(name))))
            && Message(o.failure.value) == "Activity '" + name + "' failed: Activity '" + name + "' not found in registry"
            && Lookup(o.state, step.id) == ResultValue(failed)
  {
    ActivityStepEffect(step, all, s, Proxy(activities), fuel);
  }

  /** The `echo` activity: `{success: true, data: {msg: args.msg}}`. */
  function Echo(args: Record): HandlerOutcome {
    Returned(ActivityResult(true, Obj(map["msg" := Lookup(args, "msg")]), None))
  }

  /** `s1` echoes `${input1}` into `out`, then `s2` echoes `${out}`. */
  function EchoWorkflow(): WorkflowDefinition {
    WorkflowDefinition("echo", None, "1.0", "s1", [
      ActivityStep("s1", "echo", map["msg" := Str("${input1}")], Some("out"), Some("s2")),
      ActivityStep("s2", "echo", map["msg" := Str("${out}")], None, None)])
  }

  function EchoProxy(): Invoker {
    Proxy(map["echo" := Echo])
  }

  function HiInput(): Record {
    map["input1" := Str("hi")]
  }

  function FirstEcho(): ActivityResult {
    ActivityResult(true, Obj(map["msg" := Str("hi")]), None)
  }

  function SecondEcho(): ActivityResult {
    ActivityResult(true, Obj(map["msg" := Obj(map["msg" := Str("hi")])]), None)
  }

  lemma EchoFirstStep()
    ensures var s1 := EchoWorkflow().steps[0];
            ExecActivityStep(s1, HiInput(), EchoProxy()) ==
              Outcome(StoreResult(s1, HiInput(), FirstEcho()),
                      [Invocation("s1", "echo", map["msg" := Str("hi")], Some("out"), FirstEcho())], None)
  {
    var input := HiInput();
    ReferenceResolvesToCurrentValue("input1", input);
    assert "${" + "input1" + "}" == "${input1}";
    var args := ResolvedArguments(map["msg" := Str("${input1}")], input);
    assert args == map["msg" := Str("hi")];
  }

  lemma EchoSecondStep(s: Record)
    requires Lookup(s, "out") == Obj(map["msg" := Str("hi")])
    ensures var s2 := EchoWorkflow().steps[1];
            ExecActivityStep(s2, s, EchoProxy()) ==
              Outcome(StoreResult(s2, s, SecondEcho()),
                      [Invocation("s2", "echo", map["msg" := Obj(map["msg" := Str("hi")])], None, SecondEcho())], None)
  {
    ReferenceResolvesToCurrentValue("out", s);
    assert "${" + "out" + "}" == "${out}";
    var args := ResolvedArguments(map["msg" := Str("${out}")], s);
    assert args == map["msg" := Obj(map["msg" := Str("hi")])];
  }

  /** The run from `s1`: two successful calls, ending in the state both steps stored. */
  lemma EchoFirstRun(fuel: nat)
    requires fuel >= 2
    ensures var def := EchoWorkflow();
            var after1 := StoreResult(def.steps[0], HiInput(), FirstEcho());
            var o := ExecStep(def.steps[0], def.steps, HiInput(), EchoProxy(), fuel);
            o.failure.None? && o.state == StoreResult(def.steps[1], after1, SecondEcho()) && |o.trace| == 2
  {
    var def := EchoWorkflow();
    var s1 := def.steps[0];
    var s2 := def.steps[1];
    assert Find(def.steps, "s2") == Some(s2);
    EchoFirstStep();
    EchoSecondStep(StoreResult(s1, HiInput(), FirstEcho()));
    ChainOfTwoActivities(s1, s2, def.steps, HiInput(), EchoProxy(), fuel);
  }

  /**
   * The second step sees the value the first one stored: `out` is
   * `{msg: 'hi'}`, so `s2` echoes that object, and `s2.data.msg` is the
   * object `{msg: 'hi'}`.
   */
  lemma EchoScenario(fuel: nat)
    requires fuel >= 2
    ensures var o := Run(EchoWorkflow(), HiInput(), EchoProxy(), fuel);
            && o.failure.None?
            && Lookup(o.state, "out") == Obj(map["msg" := Str("hi")])
            && Lookup(o.state, "s1") == ResultValue(FirstEcho())
            && Lookup(o.state, "s2") == ResultValue(SecondEcho())
            && |o.trace| == 2
  {
    var def := EchoWorkflow();
    assert Find(def.steps, "s1") == Some(def.steps[0]);
    EchoFirstRun(fuel);
  }

  /** `count equals 5` holds in a state where `count` is 5 and fails where it is 4. */
  lemma EqualsConditionExample()
    ensures var args := map["variable" := Str("count"), "operator" := Str("equals"), "value" := Num(5)];
            EvaluateCondition(args, map["count" := Num(5)]) && !EvaluateCondition(args, map["count" := Num(4)])
  {
  }
}

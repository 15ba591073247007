/**
 * What survives laying a definition out in the editor and serializing the
 * graph back: the step list, every step's data, a non-empty root, `next`
 * links and condition targets. The layout also adds a `next` to `end` on
 * the last step and turns a parallel step into an activity step.
 */
module RoundTrip {
  import opened Wrappers
  import opened JsValues
  import opened WorkflowSchema
  import opened EditorGraph
  import opened WorkflowSerializer
  import opened WorkflowDeserializer

  /** `serializeWorkflow(deserializeWorkflow(def))`, name and description passed through. */
  function Reserialized(def: WorkflowDefinition): (r: WorkflowDefinition)
    ensures |r.steps| == |def.steps|
  {
    KeptNodesAreStepNodes(def);
    SerializeWorkflow(DeserializedNodes(def), DeserializedEdges(def), def.name, def.description)
  }

  /** No step uses the id of the start node. */
  predicate NoStartId(steps: seq<Step>) {
    forall i :: 0 <= i < |steps| ==> steps[i].id != "start"
  }

  // ---------------------------------------------------------------------
  // Which edges leave a step after the layout
  // ---------------------------------------------------------------------

  /** With unique ids, the step edges leaving a step's id are exactly that step's own edges. */
  lemma {:induction false} OutgoingStepEdges(steps: seq<Step>, k: nat)
    requires UniqueIds(steps) && k < |steps|
    ensures OutgoingEdges(AllStepEdges(steps), steps[k].id) == StepEdges(steps[k])
  {
    var n := |steps| - 1;
    var init := steps[..n];
    var id := steps[k].id;
    OutgoingEdgesConcat(AllStepEdges(init), StepEdges(steps[n]), id);
    StepEdgesLeaveStep(steps[n]);
    if k == n {
      StepEdgesLeaveSteps(init);
      forall e | e in AllStepEdges(init) ensures e.source != id {
        var i :| 0 <= i < |init| && init[i].id == e.source;
        assert steps[i] == init[i];
      }
      OutgoingEdgesNone(AllStepEdges(init), id);
      OutgoingEdgesAll(StepEdges(steps[n]), id);
    } else {
      assert UniqueIds(init);
      assert init[k] == steps[k];
      OutgoingStepEdges(init, k);
      OutgoingEdgesNone(StepEdges(steps[n]), id);
    }
  }

  /**
   * After the layout, the edges leaving step `k` are its own edges, plus
   * the edge to `end` when it is the last step.
   */
  lemma OutgoingAfterLayout(def: WorkflowDefinition, k: nat)
    requires UniqueIds(def.steps) && NoStartId(def.steps) && k < |def.steps|
    ensures OutgoingEdges(DeserializedEdges(def), def.steps[k].id) ==
              StepEdges(def.steps[k]) + (if k == |def.steps| - 1 then EndEdges(def.steps) else [])
  {
    var steps := def.steps;
    var id := steps[k].id;
    var root, body, tail := RootEdges(def), AllStepEdges(steps), EndEdges(steps);
    var own := StepEdges(steps[k]);
    var toEnd: seq<Edge> := if k == |steps| - 1 then tail else [];
    assert OutgoingEdges(root, id) == [] by {
      OutgoingEdgesNone(root, id);
    }
    assert OutgoingEdges(body, id) == own by {
      OutgoingStepEdges(steps, k);
    }
    assert OutgoingEdges(tail, id) == toEnd by {
      if k == |steps| - 1 {
        OutgoingEdgesAll(tail, id);
      } else {
        OutgoingEdgesNone(tail, id);
      }
    }
    assert OutgoingEdges(root + body, id) == own by {
      OutgoingEdgesConcat(root, body, id);
    }
    assert OutgoingEdges(root + body + tail, id) == own + toEnd by {
      OutgoingEdgesConcat(root + body, tail, id);
    }
  }

  // ---------------------------------------------------------------------
  // The step list and the root
  // ---------------------------------------------------------------------

  /** The filter keeps exactly the step nodes, in order. */
  lemma KeptNodesAreStepNodes(def: WorkflowDefinition)
    ensures StepNodes(DeserializedNodes(def)) == StepGraphNodes(def.steps)
  {
    var middle := StepGraphNodes(def.steps);
    var start := [StartGraphNode()];
    var end := [EndGraphNode(|def.steps|)];
    assert StepNodes(start) == [] by {
      assert start[1..] == [];
    }
    assert StepNodes(end) == [] by {
      assert end[1..] == [];
    }
    assert StepNodes(middle) == middle by {
      assert forall i :: 0 <= i < |middle| ==> IsStepNode(middle[i]);
      StepNodesKeepsStepNodes(middle);
    }
    assert StepNodes(start + middle) == middle by {
      StepNodesConcat(start, middle);
    }
    assert StepNodes(start + middle + end) == middle by {
      StepNodesConcat(start + middle, end);
    }
  }

  /** Each step comes back from its own node. */
  lemma ReserializedSteps(def: WorkflowDefinition)
    ensures var r := Reserialized(def);
            |r.steps| == |def.steps| &&
            forall i :: 0 <= i < |def.steps| ==> r.steps[i] == NodeToStep(StepGraphNode(def.steps[i], i), DeserializedEdges(def))
  {
    KeptNodesAreStepNodes(def);
  }

  /**
   * The round trip keeps the ordered list of step ids, and every step's
   * name, activity name, arguments and result variable.
   */
  lemma RoundTripKeepsStepData(def: WorkflowDefinition)
    ensures var r := Reserialized(def);
            && Ids(r.steps) == Ids(def.steps)
            && forall i :: 0 <= i < |def.steps| ==>
                 && r.steps[i].name == def.steps[i].name
                 && r.steps[i].activityName == def.steps[i].activityName
                 && r.steps[i].arguments == def.steps[i].arguments
                 && r.steps[i].resultVariable == def.steps[i].resultVariable
  {
    ReserializedSteps(def);
  }

  /** A non-empty root survives the round trip, and name, description and version come out as given and `1.0`. */
  lemma RoundTripKeepsRoot(def: WorkflowDefinition)
    requires def.root != ""
    ensures var r := Reserialized(def);
            r.root == def.root && r.name == def.name && r.description == def.description && r.version == "1.0"
  {
    var nodes := DeserializedNodes(def);
    var edges := DeserializedEdges(def);
    assert nodes[0] == StartGraphNode();
    assert StartNodeOf(nodes) == Some(StartGraphNode());
    assert edges[0].source == "start";
  }

  /** An empty root becomes the first step's id, or stays empty when there is no step. */
  lemma RoundTripFillsEmptyRoot(def: WorkflowDefinition)
    requires def.root == "" && NoStartId(def.steps)
    ensures Reserialized(def).root == if def.steps == [] then "" else def.steps[0].id
  {
    var nodes := DeserializedNodes(def);
    var edges := DeserializedEdges(def);
    assert nodes[0] == StartGraphNode();
    assert StartNodeOf(nodes) == Some(StartGraphNode());
    StepEdgesLeaveSteps(def.steps);
    assert edges == AllStepEdges(def.steps) + EndEdges(def.steps);
    forall e | e in edges ensures e.source != "start" {
      if e in AllStepEdges(def.steps) {
        var i :| 0 <= i < |def.steps| && def.steps[i].id == e.source;
      }
    }
    OutgoingEdgesNone(edges, "start");
    ReserializedSteps(def);
  }

  // ---------------------------------------------------------------------
  // Links
  // ---------------------------------------------------------------------

  /**
   * The last step, when it is not a condition step and has no truthy
   * `next`, `onSuccess` or `onFailure` and no branch, comes back as an
   * activity step whose `next` is `end`.
   */
  lemma RoundTripLinksLastStepToEnd(def: WorkflowDefinition)
    requires UniqueIds(def.steps) && NoStartId(def.steps) && def.steps != []
    requires var last := def.steps[|def.steps| - 1];
             && last.stepType != Condition
             && !Given(last.next) && !Given(last.onSuccess) && !Given(last.onFailure)
             && (last.branches.None? || last.branches == Some([]))
    ensures var r := Reserialized(def);
            r.steps[|r.steps| - 1].stepType == Activity && r.steps[|r.steps| - 1].next == Some("end")
  {
    var k := |def.steps| - 1;
    var last := def.steps[k];
    OutgoingAfterLayout(def, k);
    ReserializedSteps(def);
    assert StepEdges(last) == [];
  }

  /** A non-condition step's truthy `next` survives, and the step comes back as an activity step. */
  lemma RoundTripKeepsNext(def: WorkflowDefinition, k: nat)
    requires UniqueIds(def.steps) && NoStartId(def.steps) && k < |def.steps|
    requires def.steps[k].stepType != Condition && Given(def.steps[k].next)
    ensures var r := Reserialized(def);
            r.steps[k].next == def.steps[k].next && r.steps[k].stepType == Activity
  {
    OutgoingAfterLayout(def, k);
    ReserializedSteps(def);
  }

  /**
   * A parallel step without `next`, `onSuccess` or `onFailure` loses its
   * type: it comes back as an activity step whose `next` is its first
   * branch, and the other branches are gone.
   */
  lemma RoundTripCollapsesParallel(def: WorkflowDefinition, k: nat)
    requires UniqueIds(def.steps) && NoStartId(def.steps) && k < |def.steps|
    requires var step := def.steps[k];
             && step.stepType == Parallel && step.branches.Some? && |step.branches.value| > 0
             && !Given(step.next) && !Given(step.onSuccess) && !Given(step.onFailure)
    ensures var r := Reserialized(def);
            && r.steps[k].stepType == Activity
            && r.steps[k].next == Some(def.steps[k].branches.value[0])
            && r.steps[k].branches.None?
  {
    OutgoingAfterLayout(def, k);
    ReserializedSteps(def);
  }

  /** The edges after a step's `onFailure` edge carry no source handle. */
  predicate NoHandles(edges: seq<Edge>) {
    forall i :: 0 <= i < |edges| ==> edges[i].sourceHandle.None?
  }

  /** Only an `onSuccess` edge carries the `success` handle, and only an `onFailure` edge the `failure` one. */
  lemma HandlesOfStepEdges(step: Step)
    ensures LastWithHandle(NextEdges(step), "success", |NextEdges(step)|) == None
    ensures LastWithHandle(NextEdges(step), "failure", |NextEdges(step)|) == None
    ensures LastWithHandle(SuccessEdges(step), "success", |SuccessEdges(step)|) == if Given(step.onSuccess) then step.onSuccess else None
    ensures LastWithHandle(SuccessEdges(step), "failure", |SuccessEdges(step)|) == None
    ensures LastWithHandle(FailureEdges(step), "success", |FailureEdges(step)|) == None
    ensures LastWithHandle(FailureEdges(step), "failure", |FailureEdges(step)|) == if Given(step.onFailure) then step.onFailure else None
    ensures NoHandles(ForkEdges(step))
  {
    assert "success"[0] != "failure"[0];
  }

  /** Over `a + b + c + d`, the last target with a handle is found part by part from the back. */
  lemma LastWithHandleOfFour(a: seq<Edge>, b: seq<Edge>, c: seq<Edge>, d: seq<Edge>, handle: string)
    ensures var whole := a + b + c + d;
            LastWithHandle(whole, handle, |whole|) ==
              Override(Override(Override(LastWithHandle(a, handle, |a|), LastWithHandle(b, handle, |b|)),
                                LastWithHandle(c, handle, |c|)),
                       LastWithHandle(d, handle, |d|))
  {
    var ab := a + b;
    var abc := ab + c;
    var whole := abc + d;
    assert LastWithHandle(ab, handle, |ab|) == Override(LastWithHandle(a, handle, |a|), LastWithHandle(b, handle, |b|)) by {
      LastWithHandleJoin(a, b, handle);
    }
    assert LastWithHandle(abc, handle, |abc|) == Override(LastWithHandle(ab, handle, |ab|), LastWithHandle(c, handle, |c|)) by {
      LastWithHandleJoin(ab, c, handle);
    }
    assert LastWithHandle(whole, handle, |whole|) == Override(LastWithHandle(abc, handle, |abc|), LastWithHandle(d, handle, |d|)) by {
      LastWithHandleJoin(abc, d, handle);
    }
  }

  /** The targets the serializer reads off a laid-out condition step's edges. */
  lemma HandleTargetsOfLaidOutEdges(step: Step, rest: seq<Edge>)
    requires NoHandles(rest)
    ensures var linked := StepEdges(step) + rest;
            && LastWithHandle(linked, "success", |linked|) == (if Given(step.onSuccess) then step.onSuccess else None)
            && LastWithHandle(linked, "failure", |linked|) == (if Given(step.onFailure) then step.onFailure else None)
  {
    var tail := ForkEdges(step) + rest;
    assert StepEdges(step) + rest == NextEdges(step) + SuccessEdges(step) + FailureEdges(step) + tail;
    HandlesOfStepEdges(step);
    LastWithHandleNone(tail, "success");
    LastWithHandleNone(tail, "failure");
    LastWithHandleOfFour(NextEdges(step), SuccessEdges(step), FailureEdges(step), tail, "success");
    LastWithHandleOfFour(NextEdges(step), SuccessEdges(step), FailureEdges(step), tail, "failure");
  }

  /**
   * A condition step with a truthy target keeps its truthy targets (a
   * falsy one comes back absent) and its type; its `next` is dropped.
   */
  lemma RoundTripKeepsConditionTargets(def: WorkflowDefinition, k: nat)
    requires UniqueIds(def.steps) && NoStartId(def.steps) && k < |def.steps|
    requires def.steps[k].stepType == Condition
    requires Given(def.steps[k].onSuccess) || Given(def.steps[k].onFailure)
    ensures var r := Reserialized(def);
            var step := def.steps[k];
            && r.steps[k].stepType == Condition
            && r.steps[k].onSuccess == (if Given(step.onSuccess) then step.onSuccess else None)
            && r.steps[k].onFailure == (if Given(step.onFailure) then step.onFailure else None)
            && r.steps[k].next.None?
  {
    var step := def.steps[k];
    var rest := if k == |def.steps| - 1 then EndEdges(def.steps) else [];
    OutgoingAfterLayout(def, k);
    ReserializedSteps(def);
    HandleTargetsOfLaidOutEdges(step, rest);
    assert StepEdges(step) != [];
  }
}

/**
 * `deserializeWorkflow`: lays a workflow definition out as editor nodes
 * and edges. A start node, one node per step in a vertical column and an
 * end node; one edge per `next`, `onSuccess`, `onFailure` and branch.
 */
module WorkflowDeserializer {
  import opened Wrappers
  import opened JsValues
  import opened WorkflowSchema
  import opened EditorGraph

  // ---------------------------------------------------------------------
  // Nodes
  // ---------------------------------------------------------------------

  function StartGraphNode(): Node {
    Node("start", "startNode", Position(250, 50), NodeData("Start", None, None, None, StartNode))
  }

  /** The node of the step at position `index`; only `condition` keeps its kind, every other type becomes activity. */
  function StepGraphNode(step: Step, index: nat): Node {
    var isCondition := step.stepType == Condition;
    Node(step.id,
         if isCondition then "conditionNode" else "activityNode",
         Position(250, 150 + index * 120),
         NodeData(step.name, step.activityName, step.arguments, step.resultVariable,
                  if isCondition then ConditionNode else ActivityNode))
  }

  function EndGraphNode(stepCount: nat): Node {
    Node("end", "endNode", Position(250, 150 + stepCount * 120), NodeData("End", None, None, None, EndNode))
  }

  function StepGraphNodes(steps: seq<Step>): seq<Node> {
    seq(|steps|, i requires 0 <= i < |steps| => StepGraphNode(steps[i], i))
  }

  /** The nodes `deserializeWorkflow` returns. */
  function DeserializedNodes(def: WorkflowDefinition): seq<Node> {
    [StartGraphNode()] + StepGraphNodes(def.steps) + [EndGraphNode(|def.steps|)]
  }

  // ---------------------------------------------------------------------
  // Edges
  // ---------------------------------------------------------------------

  function EdgeId(source: string, target: string): string {
    source + "-" + target
  }

  function RootEdges(def: WorkflowDefinition): seq<Edge> {
    if def.root != "" then [PlainEdge("start-" + def.root, "start", def.root)] else []
  }

  function NextEdge(stepId: string, target: string): Edge {
    PlainEdge(EdgeId(stepId, target), stepId, target)
  }

  function SuccessEdge(stepId: string, target: string): Edge {
    Edge(EdgeId(stepId, target), stepId, target, Some("success"), Some(SuccessLabel),
         Some(EdgeStyle("#10b981", 2)), true, Some("smoothstep"))
  }

  function FailureEdge(stepId: string, target: string): Edge {
    Edge(EdgeId(stepId, target), stepId, target, Some("failure"), Some(FailureLabel),
         Some(EdgeStyle("#ef4444", 2)), true, Some("smoothstep"))
  }

  /** The edge to the branch at position `index`, labelled with its 1-based number. */
  function BranchEdge(stepId: string, target: string, index: nat): Edge {
    Edge(EdgeId(stepId, target), stepId, target, None, Some("branch " + NatToString(index + 1)), None, false, None)
  }

  function BranchEdges(stepId: string, branches: seq<string>): seq<Edge> {
    seq(|branches|, i requires 0 <= i < |branches| => BranchEdge(stepId, branches[i], i))
  }

  function NextEdges(step: Step): seq<Edge> {
    if Given(step.next) then [NextEdge(step.id, step.next.value)] else []
  }

  function SuccessEdges(step: Step): seq<Edge> {
    if Given(step.onSuccess) then [SuccessEdge(step.id, step.onSuccess.value)] else []
  }

  function FailureEdges(step: Step): seq<Edge> {
    if Given(step.onFailure) then [FailureEdge(step.id, step.onFailure.value)] else []
  }

  function ForkEdges(step: Step): seq<Edge> {
    if step.branches.Some? then BranchEdges(step.id, step.branches.value) else []
  }

  /** One step's edges: `next`, then `onSuccess`, then `onFailure`, each when truthy, then every branch. */
  function StepEdges(step: Step): seq<Edge> {
    NextEdges(step) + SuccessEdges(step) + FailureEdges(step) + ForkEdges(step)
  }

  /** The edges of all steps, step by step in order. */
  function AllStepEdges(steps: seq<Step>): seq<Edge> {
    if steps == [] then [] else AllStepEdges(steps[..|steps| - 1]) + StepEdges(steps[|steps| - 1])
  }

  /** `last → end`, when the last step has neither a truthy `next` nor a truthy `onSuccess`. */
  function EndEdges(steps: seq<Step>): seq<Edge> {
    if steps != [] && !Given(steps[|steps| - 1].next) && !Given(steps[|steps| - 1].onSuccess) then
      var last := steps[|steps| - 1];
      [PlainEdge(last.id + "-end", last.id, "end")]
    else []
  }

  /** The edges `deserializeWorkflow` returns. */
  function DeserializedEdges(def: WorkflowDefinition): seq<Edge> {
    RootEdges(def) + AllStepEdges(def.steps) + EndEdges(def.steps)
  }

  // ---------------------------------------------------------------------
  // The converter
  // ---------------------------------------------------------------------

  /** The `forEach` callback over the steps: pushes one step's edges. */
  method PushStepEdges(edges: seq<Edge>, step: Step) returns (pushed: seq<Edge>)
    ensures pushed == edges + StepEdges(step)
  {
    pushed := edges;
    if Given(step.next) {
      pushed := pushed + [NextEdge(step.id, step.next.value)];
    }
    assert pushed == edges + NextEdges(step);
    if Given(step.onSuccess) {
      pushed := pushed + [SuccessEdge(step.id, step.onSuccess.value)];
    }
    assert pushed == edges + NextEdges(step) + SuccessEdges(step);
    if Given(step.onFailure) {
      pushed := pushed + [FailureEdge(step.id, step.onFailure.value)];
    }
    ghost var linked := pushed;
    assert linked == edges + NextEdges(step) + SuccessEdges(step) + FailureEdges(step);
    if step.branches.Some? {
      pushed := PushBranchEdges(pushed, step.id, step.branches.value);
    }
    ghost var n, s, f, b := NextEdges(step), SuccessEdges(step), FailureEdges(step), ForkEdges(step);
    assert edges + (n + s) == edges + n + s by { ConcatAssociative(edges, n, s); }
    assert edges + (n + s + f) == edges + (n + s) + f by { ConcatAssociative(edges, n + s, f); }
    assert edges + (n + s + f + b) == edges + (n + s + f) + b by { ConcatAssociative(edges, n + s + f, b); }
  }

  /** The `branches.forEach` loop: one edge per branch, labelled with its index. */
  method PushBranchEdges(edges: seq<Edge>, stepId: string, branches: seq<string>) returns (pushed: seq<Edge>)
    ensures pushed == edges + BranchEdges(stepId, branches)
  {
    pushed := edges;
    var j := 0;
    while j < |branches|
      invariant 0 <= j <= |branches|
      invariant pushed == edges + BranchEdges(stepId, branches[..j])
    {
      assert BranchEdges(stepId, branches[..j + 1]) == BranchEdges(stepId, branches[..j]) + [BranchEdge(stepId, branches[j], j)];
      pushed := pushed + [BranchEdge(stepId, branches[j], j)];
      j := j + 1;
    }
    assert branches[..j] == branches;
  }

  /** `deserializeWorkflow`: pushes the nodes, then the edges, in the order described above. */
  method DeserializeWorkflow(def: WorkflowDefinition) returns (nodes: seq<Node>, edges: seq<Edge>)
    ensures nodes == DeserializedNodes(def)
    ensures edges == DeserializedEdges(def)
  {
    nodes := LayOutNodes(def.steps);
    edges := LinkSteps(def);
  }

  /** The node half of `deserializeWorkflow`: start, one node per step, end. */
  method LayOutNodes(steps: seq<Step>) returns (nodes: seq<Node>)
    ensures nodes == [StartGraphNode()] + StepGraphNodes(steps) + [EndGraphNode(|steps|)]
  {
    nodes := [StartGraphNode()];
    var i := 0;
    while i < |steps|
      invariant 0 <= i <= |steps|
      invariant nodes == [StartGraphNode()] + StepGraphNodes(steps[..i])
    {
      assert StepGraphNodes(steps[..i + 1]) == StepGraphNodes(steps[..i]) + [StepGraphNode(steps[i], i)];
      nodes := nodes + [StepGraphNode(steps[i], i)];
      i := i + 1;
    }
    assert steps[..i] == steps;
    nodes := nodes + [EndGraphNode(|steps|)];
  }

  /** The edge half of `deserializeWorkflow`: the root edge, every step's edges, the edge to `end`. */
  method LinkSteps(def: WorkflowDefinition) returns (edges: seq<Edge>)
    ensures edges == DeserializedEdges(def)
  {
    var steps := def.steps;
    edges := [];
    if def.root != "" {
      edges := edges + [PlainEdge("start-" + def.root, "start", def.root)];
    }
    assert edges == RootEdges(def) + AllStepEdges(steps[..0]);
    var i := 0;
    while i < |steps|
      invariant 0 <= i <= |steps|
      invariant edges == RootEdges(def) + AllStepEdges(steps[..i])
    {
      edges := PushStepEdges(edges, steps[i]);
      assert steps[..i + 1][..i] == steps[..i];
      ghost var done := AllStepEdges(steps[..i]);
      assert AllStepEdges(steps[..i + 1]) == done + StepEdges(steps[i]);
      ConcatAssociative(RootEdges(def), done, StepEdges(steps[i]));
      i := i + 1;
    }
    assert steps[..i] == steps;
    ghost var linked := edges;
    if |steps| > 0 {
      var last := steps[|steps| - 1];
      if !Given(last.next) && !Given(last.onSuccess) {
        edges := edges + [PlainEdge(last.id + "-end", last.id, "end")];
      }
    }
    assert edges == linked + EndEdges(steps);
  }

  // ---------------------------------------------------------------------
  // Properties of the layout
  // ---------------------------------------------------------------------

  /**
   * `start` first, one node per step in order and `end` last; the step at
   * position i sits at y = 150 + 120·i and the end node just below the
   * last step; a step node is a condition node exactly when its step is a
   * condition step.
   */
  lemma NodeLayout(def: WorkflowDefinition)
    ensures var nodes := DeserializedNodes(def);
            && |nodes| == |def.steps| + 2
            && nodes[0].id == "start" && nodes[0].data.stepType == StartNode
            && nodes[|nodes| - 1].id == "end" && nodes[|nodes| - 1].data.stepType == EndNode
            && nodes[|nodes| - 1].position.y == 150 + 120 * |def.steps|
            && forall i :: 0 <= i < |def.steps| ==>
                 && nodes[i + 1].id == def.steps[i].id
                 && nodes[i + 1].position == Position(250, 150 + 120 * i)
                 && (nodes[i + 1].data.stepType == ConditionNode <==> def.steps[i].stepType == Condition)
                 && (nodes[i + 1].nodeType == "conditionNode" <==> def.steps[i].stepType == Condition)
                 && nodes[i + 1].data.stepType in {ConditionNode, ActivityNode}
  {
    assert "conditionNode"[0] != "activityNode"[0];
  }

  /** The `start → root` edge is emitted first, and exactly when the root is non-empty. */
  lemma RootEdgeFirst(def: WorkflowDefinition)
    ensures var edges := DeserializedEdges(def);
            && (def.root != "" ==> |edges| > 0 && edges[0] == PlainEdge("start-" + def.root, "start", def.root))
            && (def.root == "" ==> edges == AllStepEdges(def.steps) + EndEdges(def.steps))
  {
  }

  /** Every edge of a step leaves from that step. */
  lemma StepEdgesLeaveStep(step: Step)
    ensures forall e :: e in StepEdges(step) ==> e.source == step.id
  {
    assert forall e :: e in ForkEdges(step) ==> e.source == step.id;
  }

  /** Every step edge leaves from a step of the definition. */
  lemma {:induction false} StepEdgesLeaveSteps(steps: seq<Step>)
    ensures forall e :: e in AllStepEdges(steps) ==> exists i :: 0 <= i < |steps| && steps[i].id == e.source
  {
    if steps != [] {
      var init := steps[..|steps| - 1];
      StepEdgesLeaveSteps(init);
      forall e | e in AllStepEdges(steps)
        ensures exists i :: 0 <= i < |steps| && steps[i].id == e.source
      {
        if e in AllStepEdges(init) {
          var i :| 0 <= i < |init| && init[i].id == e.source;
          assert steps[i] == init[i];
        } else {
          StepEdgesLeaveStep(steps[|steps| - 1]);
          assert steps[|steps| - 1].id == e.source;
        }
      }
    }
  }
}

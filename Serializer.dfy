/**
 * `serializeWorkflow`: turns the editor's nodes and edges into a workflow
 * definition. Every node other than start and end becomes one step, and a
 * node's outgoing edges decide its `next`, `branches` or condition targets.
 */
module WorkflowSerializer {
  import opened Wrappers
  import opened JsValues
  import opened WorkflowSchema
  import opened EditorGraph

  /** `edges.filter(e => e.source === id)`. */
  function OutgoingEdges(edges: seq<Edge>, id: string): seq<Edge> {
    if edges == [] then []
    else (if edges[0].source == id then [edges[0]] else []) + OutgoingEdges(edges[1..], id)
  }

  /** The filter keeps exactly the edges leaving `id`. */
  lemma {:induction false} OutgoingEdgesMembers(edges: seq<Edge>, id: string)
    ensures forall e :: e in OutgoingEdges(edges, id) <==> e in edges && e.source == id
  {
    if edges != [] {
      OutgoingEdgesMembers(edges[1..], id);
      assert edges == [edges[0]] + edges[1..];
    }
  }

  /** `edges.map(e => e.target)`. */
  function Targets(edges: seq<Edge>): (ts: seq<string>)
    ensures |ts| == |edges| && forall i :: 0 <= i < |edges| ==> ts[i] == edges[i].target
  {
    seq(|edges|, i requires 0 <= i < |edges| => edges[i].target)
  }

  // ---------------------------------------------------------------------
  // Condition targets
  // ---------------------------------------------------------------------

  /** Where a condition node's outgoing edges send the two outcomes. */
  datatype BranchTargets = BranchTargets(onSuccess: Option<string>, onFailure: Option<string>)

  /** Among the first `n` edges, the target of the last one with this source handle. */
  function LastWithHandle(edges: seq<Edge>, handle: string, n: nat): Option<string>
    requires n <= |edges|
  {
    if n == 0 then None
    else if edges[n - 1].sourceHandle == Some(handle) then Some(edges[n - 1].target)
    else LastWithHandle(edges, handle, n - 1)
  }

  /** `LastWithHandle` is absent exactly when no edge has the handle, and is otherwise the target of the last such edge. */
  lemma {:induction false} LastWithHandleIsLast(edges: seq<Edge>, handle: string, n: nat)
    requires n <= |edges|
    ensures var t := LastWithHandle(edges, handle, n);
            && (t.None? <==> forall i :: 0 <= i < n ==> edges[i].sourceHandle != Some(handle))
            && (t.Some? ==> exists i :: 0 <= i < n && edges[i].sourceHandle == Some(handle) && edges[i].target == t.value &&
                              forall j :: i < j < n ==> edges[j].sourceHandle != Some(handle))
  {
    if n > 0 && edges[n - 1].sourceHandle != Some(handle) {
      LastWithHandleIsLast(edges, handle, n - 1);
    }
  }

  /** In the fallback pass, edge `i` sets `onSuccess` when it has the success label or comes first. */
  predicate FallbackSuccess(edges: seq<Edge>, i: nat)
    requires i < |edges|
  {
    edges[i].labelText == Some(SuccessLabel) || i == 0
  }

  /** Otherwise it sets `onFailure` when it has the failure label or comes second. */
  predicate FallbackFailure(edges: seq<Edge>, i: nat)
    requires i < |edges|
  {
    !FallbackSuccess(edges, i) && (edges[i].labelText == Some(FailureLabel) || i == 1)
  }

  /** Whether the fallback pass assigns edge `i` to the outcome (`success` or not). */
  predicate FallbackPicks(edges: seq<Edge>, success: bool, i: nat)
    requires i < |edges|
  {
    if success then FallbackSuccess(edges, i) else FallbackFailure(edges, i)
  }

  /** Among the first `n` edges, the target of the last one the fallback pass assigns to this outcome. */
  function LastFallback(edges: seq<Edge>, success: bool, n: nat): Option<string>
    requires n <= |edges|
  {
    if n == 0 then None
    else if FallbackPicks(edges, success, n - 1) then Some(edges[n - 1].target)
    else LastFallback(edges, success, n - 1)
  }

  /** `LastFallback` is absent exactly when the pass assigns no edge to the outcome, and is otherwise the last one's target. */
  lemma {:induction false} LastFallbackIsLast(edges: seq<Edge>, success: bool, n: nat)
    requires n <= |edges|
    ensures var t := LastFallback(edges, success, n);
            && (t.None? <==> forall i :: 0 <= i < n ==> !FallbackPicks(edges, success, i))
            && (t.Some? ==> exists i :: 0 <= i < n && edges[i].target == t.value && FallbackPicks(edges, success, i) &&
                              forall j :: i < j < n ==> !FallbackPicks(edges, success, j))
  {
    if n > 0 && !FallbackPicks(edges, success, n - 1) {
      LastFallbackIsLast(edges, success, n - 1);
    }
  }

  /** A later assignment, if there was one, replaces an earlier value. */
  function Override(earlier: Option<string>, later: Option<string>): Option<string> {
    if later.Some? then later else earlier
  }

  /**
   * The condition targets: handles decide first, a later edge overriding an
   * earlier one; when neither target came out truthy, the fallback pass by
   * label or position runs over the same edges.
   */
  function ConditionTargets(out: seq<Edge>): BranchTargets {
    var byHandle := BranchTargets(LastWithHandle(out, "success", |out|), LastWithHandle(out, "failure", |out|));
    if Given(byHandle.onSuccess) || Given(byHandle.onFailure) then byHandle
    else BranchTargets(Override(byHandle.onSuccess, LastFallback(out, true, |out|)),
                       Override(byHandle.onFailure, LastFallback(out, false, |out|)))
  }

  /** The two `forEach` passes over a condition node's outgoing edges. */
  method AssignConditionTargets(out: seq<Edge>) returns (onSuccess: Option<string>, onFailure: Option<string>)
    ensures BranchTargets(onSuccess, onFailure) == ConditionTargets(out)
  {
    onSuccess := None;
    onFailure := None;
    var i := 0;
    while i < |out|
      invariant 0 <= i <= |out|
      invariant onSuccess == LastWithHandle(out, "success", i)
      invariant onFailure == LastWithHandle(out, "failure", i)
    {
      assert "success"[0] != "failure"[0];
      if out[i].sourceHandle == Some("success") {
        onSuccess := Some(out[i].target);
      } else if out[i].sourceHandle == Some("failure") {
        onFailure := Some(out[i].target);
      }
      i := i + 1;
    }
    if !Given(onSuccess) && !Given(onFailure) {
      ghost var handleSuccess, handleFailure := onSuccess, onFailure;
      i := 0;
      while i < |out|
        invariant 0 <= i <= |out|
        invariant onSuccess == Override(handleSuccess, LastFallback(out, true, i))
        invariant onFailure == Override(handleFailure, LastFallback(out, false, i))
      {
        if out[i].labelText == Some(SuccessLabel) || i == 0 {
          onSuccess := Some(out[i].target);
        } else if out[i].labelText == Some(FailureLabel) || i == 1 {
          onFailure := Some(out[i].target);
        }
        i := i + 1;
      }
    }
  }

  // ---------------------------------------------------------------------
  // How the edge filters compose
  // ---------------------------------------------------------------------

  /** Filtering a concatenation filters each part, keeping their order. */
  lemma {:induction false} OutgoingEdgesConcat(a: seq<Edge>, b: seq<Edge>, id: string)
    ensures OutgoingEdges(a + b, id) == OutgoingEdges(a, id) + OutgoingEdges(b, id)
  {
    if a == [] {
      assert a + b == b;
      assert OutgoingEdges(a, id) == [];
    } else {
      var head := if a[0].source == id then [a[0]] else [];
      assert OutgoingEdges(a, id) == head + OutgoingEdges(a[1..], id);
      assert (a + b)[0] == a[0] && (a + b)[1..] == a[1..] + b;
      assert OutgoingEdges(a + b, id) == head + OutgoingEdges(a[1..] + b, id);
      OutgoingEdgesConcat(a[1..], b, id);
      ConcatAssociative(head, OutgoingEdges(a[1..], id), OutgoingEdges(b, id));
    }
  }

  /** When every edge leaves `id`, the filter keeps them all. */
  lemma {:induction false} OutgoingEdgesAll(edges: seq<Edge>, id: string)
    requires forall e :: e in edges ==> e.source == id
    ensures OutgoingEdges(edges, id) == edges
  {
    if edges != [] {
      assert forall e :: e in edges[1..] ==> e in edges;
      OutgoingEdgesAll(edges[1..], id);
    }
  }

  /** When no edge leaves `id`, the filter keeps none. */
  lemma {:induction false} OutgoingEdgesNone(edges: seq<Edge>, id: string)
    requires forall e :: e in edges ==> e.source != id
    ensures OutgoingEdges(edges, id) == []
  {
    if edges != [] {
      assert forall e :: e in edges[1..] ==> e in edges;
      OutgoingEdgesNone(edges[1..], id);
    }
  }

  /** Up to `|a|` edges of `a + b` are those of `a`. */
  lemma {:induction false} LastWithHandlePrefix(a: seq<Edge>, b: seq<Edge>, handle: string, n: nat)
    requires n <= |a|
    ensures LastWithHandle(a + b, handle, n) == LastWithHandle(a, handle, n)
  {
    if n > 0 {
      assert (a + b)[n - 1] == a[n - 1];
      LastWithHandlePrefix(a, b, handle, n - 1);
    }
  }

  /** Over `a + b`, the last edge with the handle is the last in `b`, or failing that the last in `a`. */
  lemma {:induction false} LastWithHandleConcat(a: seq<Edge>, b: seq<Edge>, handle: string, n: nat)
    requires n <= |b|
    ensures LastWithHandle(a + b, handle, |a| + n) == Override(LastWithHandle(a, handle, |a|), LastWithHandle(b, handle, n))
  {
    if n == 0 {
      LastWithHandlePrefix(a, b, handle, |a|);
    } else {
      assert (a + b)[|a| + n - 1] == b[n - 1];
      LastWithHandleConcat(a, b, handle, n - 1);
    }
  }

  /** The whole-sequence form of `LastWithHandleConcat`. */
  lemma LastWithHandleJoin(a: seq<Edge>, b: seq<Edge>, handle: string)
    ensures LastWithHandle(a + b, handle, |a + b|) == Override(LastWithHandle(a, handle, |a|), LastWithHandle(b, handle, |b|))
  {
    LastWithHandleConcat(a, b, handle, |b|);
  }

  /** No edge with the handle, no target. */
  lemma LastWithHandleNone(edges: seq<Edge>, handle: string)
    requires forall i :: 0 <= i < |edges| ==> edges[i].sourceHandle != Some(handle)
    ensures LastWithHandle(edges, handle, |edges|) == None
  {
    LastWithHandleIsLast(edges, handle, |edges|);
  }

  // ---------------------------------------------------------------------
  // One node
  // ---------------------------------------------------------------------

  /**
   * The step a node becomes. Data fields are copied. With no outgoing edge,
   * the type is `condition` for a condition node and `activity` for every
   * other one, a parallel node included. With outgoing edges, a parallel
   * node branches to every target in edge order, a condition node takes
   * its condition targets, and any other node goes on to the first target.
   */
  function NodeToStep(node: Node, edges: seq<Edge>): (step: Step)
    ensures step.id == node.id && step.name == node.data.labelText
    ensures step.activityName == node.data.activityName && step.arguments == node.data.arguments
    ensures step.resultVariable == node.data.resultVariable && step.steps.None?
    ensures var out := OutgoingEdges(edges, node.id);
            && (out == [] ==>
                  && step.stepType == (if node.data.stepType == ConditionNode then Condition else Activity)
                  && step.next.None? && step.branches.None? && step.onSuccess.None? && step.onFailure.None?)
            && (out != [] && node.data.stepType == ParallelNode ==>
                  && step.stepType == Parallel && step.branches == Some(Targets(out))
                  && step.next.None? && step.onSuccess.None? && step.onFailure.None?)
            && (out != [] && node.data.stepType == ConditionNode ==>
                  && step.stepType == Condition && BranchTargets(step.onSuccess, step.onFailure) == ConditionTargets(out)
                  && step.next.None? && step.branches.None?)
            && (out != [] && node.data.stepType !in {ParallelNode, ConditionNode} ==>
                  && step.stepType == Activity && step.next == Some(out[0].target)
                  && step.branches.None? && step.onSuccess.None? && step.onFailure.None?)
  {
    var data := node.data;
    var out := OutgoingEdges(edges, node.id);
    var base := Step(node.id, if data.stepType == ConditionNode then Condition else Activity, data.labelText,
                     data.activityName, data.arguments, data.resultVariable, None, None, None, None, None);
    if out == [] then base
    else if data.stepType == ParallelNode then base.(stepType := Parallel, branches := Some(Targets(out)))
    else if data.stepType == ConditionNode then
      var targets := ConditionTargets(out);
      base.(onSuccess := targets.onSuccess, onFailure := targets.onFailure)
    else base.(next := Some(out[0].target))
  }

  /** The body of the `map` callback: builds the step and then sets its fields one by one. */
  method SerializeNode(node: Node, edges: seq<Edge>) returns (step: Step)
    ensures step == NodeToStep(node, edges)
  {
    var outgoing := OutgoingEdges(edges, node.id);
    step := Step(node.id, if node.data.stepType == ConditionNode then Condition else Activity, node.data.labelText,
                 node.data.activityName, node.data.arguments, node.data.resultVariable, None, None, None, None, None);
    if |outgoing| > 0 {
      if node.data.stepType == ParallelNode {
        step := step.(stepType := Parallel);
        step := step.(branches := Some(Targets(outgoing)));
      } else if node.data.stepType == ConditionNode {
        var onSuccess, onFailure := AssignConditionTargets(outgoing);
        step := step.(onSuccess := onSuccess);
        step := step.(onFailure := onFailure);
      } else {
        step := step.(next := Some(outgoing[0].target));
      }
    }
  }

  // ---------------------------------------------------------------------
  // The whole graph
  // ---------------------------------------------------------------------

  predicate IsStepNode(node: Node) {
    node.data.stepType != StartNode && node.data.stepType != EndNode
  }

  /** `nodes.filter(node => stepType is neither start nor end)`. */
  function StepNodes(nodes: seq<Node>): seq<Node> {
    if nodes == [] then []
    else (if IsStepNode(nodes[0]) then [nodes[0]] else []) + StepNodes(nodes[1..])
  }

  /** The filter keeps exactly the step nodes. */
  lemma {:induction false} StepNodesMembers(nodes: seq<Node>)
    ensures forall n :: n in StepNodes(nodes) <==> n in nodes && IsStepNode(n)
  {
    if nodes != [] {
      StepNodesMembers(nodes[1..]);
      assert nodes == [nodes[0]] + nodes[1..];
    }
  }

  /** Filtering a concatenation filters each part. */
  lemma {:induction false} StepNodesConcat(a: seq<Node>, b: seq<Node>)
    ensures StepNodes(a + b) == StepNodes(a) + StepNodes(b)
  {
    if a == [] {
      assert a + b == b;
      assert StepNodes(a) == [];
    } else {
      var head := if IsStepNode(a[0]) then [a[0]] else [];
      assert StepNodes(a) == head + StepNodes(a[1..]);
      assert (a + b)[0] == a[0] && (a + b)[1..] == a[1..] + b;
      assert StepNodes(a + b) == head + StepNodes(a[1..] + b);
      StepNodesConcat(a[1..], b);
      ConcatAssociative(head, StepNodes(a[1..]), StepNodes(b));
    }
  }

  /** Step nodes pass the filter unchanged. */
  lemma {:induction false} StepNodesKeepsStepNodes(nodes: seq<Node>)
    requires forall i :: 0 <= i < |nodes| ==> IsStepNode(nodes[i])
    ensures StepNodes(nodes) == nodes
  {
    if nodes != [] {
      StepNodesKeepsStepNodes(nodes[1..]);
    }
  }

  /** `nodes.find(n => n.data.stepType === 'start')`. */
  function StartNodeOf(nodes: seq<Node>): (start: Option<Node>)
    ensures start.None? <==> forall i :: 0 <= i < |nodes| ==> nodes[i].data.stepType != StartNode
    ensures start.Some? ==> exists i :: 0 <= i < |nodes| && nodes[i] == start.value && start.value.data.stepType == StartNode &&
                               forall j :: 0 <= j < i ==> nodes[j].data.stepType != StartNode
  {
    if nodes == [] then None
    else if nodes[0].data.stepType == StartNode then Some(nodes[0])
    else
      var r := StartNodeOf(nodes[1..]);
      if r.Some? then
        ghost var i :| 0 <= i < |nodes[1..]| && nodes[1..][i] == r.value && r.value.data.stepType == StartNode &&
                       forall j :: 0 <= j < i ==> nodes[1..][j].data.stepType != StartNode;
        assert nodes[i + 1] == r.value;
        r
      else r
  }

  /**
   * `startEdge?.target || (steps[0]?.id ?? '')`: the target of the first
   * edge leaving the start node when it is non-empty, else the first
   * step's id, else the empty string.
   */
  function RootId(nodes: seq<Node>, edges: seq<Edge>, steps: seq<Step>): (root: string)
    ensures var start := StartNodeOf(nodes);
            var fromStart := if start.Some? then OutgoingEdges(edges, start.value.id) else [];
            && (fromStart != [] && fromStart[0].target != "" ==> root == fromStart[0].target)
            && (!(fromStart != [] && fromStart[0].target != "") ==> root == if steps == [] then "" else steps[0].id)
  {
    var start := StartNodeOf(nodes);
    var fromStart := if start.Some? then OutgoingEdges(edges, start.value.id) else [];
    if fromStart != [] && fromStart[0].target != "" then fromStart[0].target
    else if steps == [] then ""
    else steps[0].id
  }

  /** `serializeWorkflow(nodes, edges, name, description)`. */
  function SerializeWorkflow(nodes: seq<Node>, edges: seq<Edge>, name: string, description: Option<string>): (def: WorkflowDefinition)
    ensures def.name == name && def.description == description && def.version == "1.0"
    ensures var kept := StepNodes(nodes);
            |def.steps| == |kept| && forall i :: 0 <= i < |kept| ==> def.steps[i] == NodeToStep(kept[i], edges)
    ensures def.root == RootId(nodes, edges, def.steps)
  {
    var kept := StepNodes(nodes);
    var steps := seq(|kept|, i requires 0 <= i < |kept| => NodeToStep(kept[i], edges));
    WorkflowDefinition(name, description, "1.0", RootId(nodes, edges, steps), steps)
  }
}

/**
 * The visual editor's graph: React Flow nodes carrying workflow data, and
 * the edges between them.
 */
module EditorGraph {
  import opened Wrappers
  import opened JsValues

  /** `WorkflowNodeData.stepType`. */
  datatype NodeStepType = StartNode | ActivityNode | EndNode | ConditionNode | ParallelNode

  datatype NodeData = NodeData(
    labelText: string,
    activityName: Option<string>,
    arguments: Option<Record>,
    resultVariable: Option<string>,
    stepType: NodeStepType)

  datatype Position = Position(x: int, y: int)

  /** A node; `nodeType` is React Flow's renderer name, such as `activityNode`. */
  datatype Node = Node(id: string, nodeType: string, position: Position, data: NodeData)

  datatype EdgeStyle = EdgeStyle(stroke: string, strokeWidth: int)

  /** An edge (`labelText` is its `label`); the optional fields are `None` when the edge object lacks them. */
  datatype Edge = Edge(
    id: string,
    source: string,
    target: string,
    sourceHandle: Option<string>,
    labelText: Option<string>,
    style: Option<EdgeStyle>,
    animated: bool,
    edgeType: Option<string>)

  /** An edge with only an id, a source and a target. */
  function PlainEdge(id: string, source: string, target: string): Edge {
    Edge(id, source, target, None, None, None, false, None)
  }

  const SuccessLabel: string := "\U{2713} Success"
  const FailureLabel: string := "\U{2717} Failure"
}

/**
 * The workflow definition language shared by the editor and the backend:
 * a workflow is a list of steps, one of which is the root; steps refer to
 * one another by id.
 */
module WorkflowSchema {
  import opened Wrappers
  import opened JsValues

  /**
   * The `type` tag of a step. A definition arrives as JSON, so a tag outside
   * the four known kinds is possible; `Unknown` carries it.
   */
  datatype StepType = Activity | Parallel | Sequence | Condition | Unknown(tag: string)

  datatype Step = Step(
    id: string,
    stepType: StepType,
    name: string,
    activityName: Option<string>,
    arguments: Option<Record>,
    resultVariable: Option<string>,
    next: Option<string>,
    onSuccess: Option<string>,
    onFailure: Option<string>,
    branches: Option<seq<string>>,
    steps: Option<seq<string>>)

  datatype WorkflowDefinition = WorkflowDefinition(
    name: string,
    description: Option<string>,
    version: string,
    root: string,
    steps: seq<Step>)

  /** What every activity handler returns; `data` is `Undefined` when the field is absent. */
  datatype ActivityResult = ActivityResult(success: bool, data: Value, error: Option<string>)

  /** The result as a JavaScript object, the form in which it is stored in the state. */
  function ResultValue(r: ActivityResult): (v: Value)
    ensures v.Obj? && Lookup(v.fields, "success") == Bool(r.success)
    ensures Lookup(v.fields, "data") == r.data
    ensures Lookup(v.fields, "error") == (if r.error.Some? then Str(r.error.value) else Undefined)
  {
    var base := map["success" := Bool(r.success)];
    var withData := if r.data == Undefined then base else base["data" := r.data];
    Obj(if r.error.Some? then withData["error" := Str(r.error.value)] else withData)
  }

  /** `steps.find(s => s.id === id)`: the first step carrying the id. */
  function Find(steps: seq<Step>, id: string): (r: Option<Step>)
    ensures r.None? <==> forall i :: 0 <= i < |steps| ==> steps[i].id != id
    ensures r.Some? ==> exists i :: 0 <= i < |steps| && steps[i] == r.value && r.value.id == id &&
                          forall j :: 0 <= j < i ==> steps[j].id != id
  {
    if steps == [] then None
    else if steps[0].id == id then Some(steps[0])
    else
      var r := Find(steps[1..], id);
      if r.Some? then
        ghost var i :| 0 <= i < |steps[1..]| && steps[1..][i] == r.value && r.value.id == id &&
                       forall j :: 0 <= j < i ==> steps[1..][j].id != id;
        assert steps[i + 1] == r.value;
        r
      else r
  }

  /** The ids of the steps, in order. */
  function Ids(steps: seq<Step>): (ids: seq<string>)
    ensures |ids| == |steps| && forall i :: 0 <= i < |steps| ==> ids[i] == steps[i].id
  {
    seq(|steps|, i requires 0 <= i < |steps| => steps[i].id)
  }

  /** The invariant of a well-formed definition: step ids are unique. */
  predicate UniqueIds(steps: seq<Step>) {
    forall i, j :: 0 <= i < j < |steps| ==> steps[i].id != steps[j].id
  }
}

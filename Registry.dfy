/**
 * The activity registry: a name-to-handler map filled at start-up, and the
 * generic executor through which the workflow interpreter reaches every
 * activity.
 */
module Registry {
  import opened Wrappers
  import opened JsValues
  import opened WorkflowSchema

  /** What a thrown value looks like to a `catch`: an `Error` instance with a message, or anything else. */
  datatype Thrown = ErrorInstance(message: string) | NonError

  /** How a handler call ends: it returns a result, or its promise rejects. */
  datatype HandlerOutcome = Returned(result: ActivityResult) | Threw(thrown: Thrown)

  /** An activity handler, `(args: Record<string, any>) => Promise<ActivityResult>`. */
  type Handler = Record -> HandlerOutcome

  /**
   * The registry object. `activities` is the JavaScript `Map`; `order` is its
   * key iteration order, which is the order of first insertion.
   */
  class ActivityRegistry {
    var activities: map<string, Handler>
    var order: seq<string>

    ghost predicate Valid()
      reads this
    {
      && (forall i, j :: 0 <= i < j < |order| ==> order[i] != order[j])
      && (forall n :: n in activities <==> n in order)
    }

    constructor ()
      ensures Valid() && activities == map[] && order == []
    {
      activities := map[];
      order := [];
    }

    /** `register(name, fn)`: sets the entry; an existing name keeps its place in the order. */
    method Register(name: string, fn: Handler)
      requires Valid()
      modifies this
      ensures Valid()
      ensures activities == old(activities)[name := fn]
      ensures order == if name in old(activities) then old(order) else old(order) + [name]
    {
      if name !in activities {
        order := order + [name];
      }
      activities := activities[name := fn];
    }

    /** `get(name)`: the handler, or `undefined`. */
    method Get(name: string) returns (fn: Option<Handler>)
      ensures fn.Some? <==> name in activities
      ensures fn.Some? ==> fn.value == activities[name]
    {
      if name in activities {
        fn := Some(activities[name]);
      } else {
        fn := None;
      }
    }

    /** `has(name)`. */
    method Has(name: string) returns (present: bool)
      ensures present <==> name in activities
    {
      present := name in activities;
    }

    /** `getAvailableActivities()`: every registered name exactly once, in insertion order. */
    method GetAvailableActivities() returns (names: seq<string>)
      requires Valid()
      ensures forall n :: n in names <==> n in activities
      ensures forall i, j :: 0 <= i < j < |names| ==> names[i] != names[j]
      ensures names == order
    {
      names := order;
    }
  }

  /** The message of the result for a name nobody registered. */
  function NotFoundMessage(activityName: string): string {
    "Activity '" + activityName + "' not found in registry"
  }

  /**
   * What `executeActivity(name, args)` resolves to against the given
   * registry contents. It never rejects: a missing name and a throwing
   * handler both become failed results.
   */
  function InvokeRegistered(activities: map<string, Handler>, activityName: string, args: Record): (r: ActivityResult)
    ensures activityName !in activities ==>
              r == ActivityResult(false, Undefined, Some(NotFoundMessage(activityName)))
    ensures activityName in activities && activities[activityName](args).Returned? ==>
              r == activities[activityName](args).result
    ensures activityName in activities && activities[activityName](args) == Threw(NonError) ==>
              r == ActivityResult(false, Undefined, Some("Unknown error"))
    ensures activityName in activities && activities[activityName](args).Threw? &&
            activities[activityName](args).thrown.ErrorInstance? ==>
              r == ActivityResult(false, Undefined, Some(activities[activityName](args).thrown.message))
  {
    if activityName !in activities then
      ActivityResult(false, Undefined, Some(NotFoundMessage(activityName)))
    else
      match activities[activityName](args)
      case Returned(result) => result
      case Threw(ErrorInstance(message)) => ActivityResult(false, Undefined, Some(message))
      case Threw(NonError) => ActivityResult(false, Undefined, Some("Unknown error"))
  }

  /** `executeActivity`: looks the name up in the registry and calls its handler. */
  method ExecuteActivity(registry: ActivityRegistry, activityName: string, args: Record)
    returns (result: ActivityResult)
    ensures result == InvokeRegistered(registry.activities, activityName, args)
  {
    var fn := registry.Get(activityName);
    if fn.None? {
      return ActivityResult(false, Undefined, Some(NotFoundMessage(activityName)));
    }
    var outcome := fn.value(args);
    match outcome
    case Returned(r) =>
      result := r;
    case Threw(thrown) =>
      var message := if thrown.ErrorInstance? then thrown.message else "Unknown error";
      result := ActivityResult(false, Undefined, Some(message));
  }
}

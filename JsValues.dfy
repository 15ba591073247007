/**
 * The JavaScript values that flow through a workflow run: workflow input,
 * step arguments, activity results and the execution state.
 * Numbers are restricted to integers.
 */
module JsValues {
  import opened Wrappers

  datatype Value =
    | Undefined
    | Null
    | Bool(b: bool)
    | Num(n: int)
    | Str(s: string)
    | Arr(elems: seq<Value>)
    | Obj(fields: map<string, Value>)

  /** A plain JavaScript object used as a record: `Record<string, any>`. */
  type Record = map<string, Value>

  /** Property read `r[k]`: a missing key reads as `undefined`. */
  function Lookup(r: Record, k: string): (v: Value)
    ensures k !in r ==> v == Undefined
    ensures k in r ==> v == r[k]
  {
    if k in r then r[k] else Undefined
  }

  /** JavaScript truthiness (`if (v)`, `!v`). */
  predicate Truthy(v: Value) {
    match v
    case Undefined => false
    case Null => false
    case Bool(b) => b
    case Num(n) => n != 0
    case Str(s) => s != ""
    case Arr(_) => true
    case Obj(_) => true
  }

  /** Truthiness of an optional string field such as `step.next`: absent and `''` are falsy. */
  predicate Given(o: Option<string>) {
    o.Some? && o.value != ""
  }

  /**
   * Strict equality `a === b`. Arrays and objects compare by reference; the
   * values compared by the interpreter come from separately deserialized
   * documents, so two composite values are never the same reference.
   */
  predicate StrictEquals(a: Value, b: Value) {
    match a
    case Arr(_) => false
    case Obj(_) => false
    case _ => a == b
  }

  /** The number a string of decimal digits spells, most significant digit first. */
  function DigitsValue(s: string): nat
    requires forall i :: 0 <= i < |s| ==> '0' <= s[i] <= '9'
  {
    if s == [] then 0 else DigitsValue(s[..|s| - 1]) * 10 + (s[|s| - 1] as int - '0' as int)
  }

  /** Decimal digits of a natural number, most significant first. */
  function NatToString(n: nat): (s: string)
    ensures |s| >= 1
    ensures forall i :: 0 <= i < |s| ==> '0' <= s[i] <= '9'
    ensures DigitsValue(s) == n
    ensures s[0] == '0' ==> n == 0 && |s| == 1
    decreases n
  {
    var d := [(('0' as int) + n % 10) as char];
    if n < 10 then d else NatToString(n / 10) + d
  }

  /** Decimal rendering of an integer, as `String(n)` does for integral numbers. */
  function IntToString(n: int): string {
    if n < 0 then "-" + NatToString(-n) else NatToString(n)
  }

  /** `String(v)`: the string conversion used by `String(...)` and template literals. */
  function ToJsString(v: Value): string
    decreases v, 1
  {
    match v
    case Undefined => "undefined"
    case Null => "null"
    case Bool(b) => if b then "true" else "false"
    case Num(n) => IntToString(n)
    case Str(s) => s
    case Obj(_) => "[object Object]"
    case Arr(elems) => JoinElements(v, elems)
  }

  /** `Array.prototype.join(',')`: `undefined` and `null` elements become empty. */
  function JoinElements(whole: Value, elems: seq<Value>): string
    requires forall e :: e in elems ==> e < whole
    decreases whole, 0, |elems|
  {
    if elems == [] then ""
    else
      assert elems[0] in elems;
      var first := if elems[0].Undefined? || elems[0].Null? then "" else ToJsString(elems[0]);
      if |elems| == 1 then first
      else
        assert forall e :: e in elems[1..] ==> e in elems;
        first + "," + JoinElements(whole, elems[1..])
  }
}

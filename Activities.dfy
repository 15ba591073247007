/**
 * The sample activities and their registration. Only the results the
 * handlers resolve to are modelled: their logging and timers have no
 * observable result.
 */
module ActivityImplementations {
  import opened Wrappers
  import opened JsValues
  import opened WorkflowSchema
  import opened Registry

  /** The names `registerActivities` installs, in registration order. */
  const SampleNames: seq<string> := ["sendEmail", "httpRequest", "transformData", "wait", "logMessage"]

  function UpperAscii(c: char): char {
    if 'a' <= c <= 'z' then (c as int - 32) as char else c
  }

  function LowerAscii(c: char): char {
    if 'A' <= c <= 'Z' then (c as int + 32) as char else c
  }

  /** `s.toUpperCase()` on ASCII letters. */
  function ToUpperCase(s: string): (r: string)
    ensures |r| == |s|
    ensures forall i :: 0 <= i < |s| ==>
              if 'a' <= s[i] <= 'z' then r[i] as int == s[i] as int - 32 else r[i] == s[i]
  {
    seq(|s|, i requires 0 <= i < |s| => UpperAscii(s[i]))
  }

  /** `s.toLowerCase()` on ASCII letters. */
  function ToLowerCase(s: string): (r: string)
    ensures |r| == |s|
    ensures forall i :: 0 <= i < |s| ==>
              if 'A' <= s[i] <= 'Z' then r[i] as int == s[i] as int + 32 else r[i] == s[i]
  {
    seq(|s|, i requires 0 <= i < |s| => LowerAscii(s[i]))
  }

  /** `s.split('').reverse().join('')`. */
  function Reverse(s: string): (r: string)
    ensures |r| == |s|
    ensures forall i :: 0 <= i < |s| ==> r[i] == s[|s| - 1 - i]
  {
    if s == [] then [] else Reverse(s[1..]) + [s[0]]
  }

  /** Reversing twice gives back the original string. */
  lemma ReverseInvolution(s: string)
    ensures Reverse(Reverse(s)) == s
  {
  }

  /** Case mapping is idempotent and each direction absorbs the other. */
  lemma CaseMappingIdempotent(s: string)
    ensures ToUpperCase(ToUpperCase(s)) == ToUpperCase(s)
    ensures ToLowerCase(ToLowerCase(s)) == ToLowerCase(s)
    ensures ToUpperCase(ToLowerCase(s)) == ToUpperCase(s)
    ensures ToLowerCase(ToUpperCase(s)) == ToLowerCase(s)
  {
  }

  function Succeeded(data: Value): ActivityResult {
    ActivityResult(true, data, None)
  }

  /** `transformData({input, operation})`. */
  function TransformData(args: Record): (r: ActivityResult)
    ensures var op := Lookup(args, "operation");
            var text := ToJsString(Lookup(args, "input"));
            && (op == Str("uppercase") ==> r == Succeeded(Obj(map["transformed" := Str(ToUpperCase(text))])))
            && (op == Str("lowercase") ==> r == Succeeded(Obj(map["transformed" := Str(ToLowerCase(text))])))
            && (op == Str("reverse") ==> r == Succeeded(Obj(map["transformed" := Str(Reverse(text))])))
            && (op !in {Str("uppercase"), Str("lowercase"), Str("reverse")} ==>
                  r == ActivityResult(false, Undefined, Some("Unknown operation: " + ToJsString(op))))
  {
    var input := Lookup(args, "input");
    var operation := Lookup(args, "operation");
    var transformed :=
      match operation
      case Str("uppercase") => Some(ToUpperCase(ToJsString(input)))
      case Str("lowercase") => Some(ToLowerCase(ToJsString(input)))
      case Str("reverse") => Some(Reverse(ToJsString(input)))
      case _ => None;
    if transformed.None? then
      ActivityResult(false, Undefined, Some("Unknown operation: " + ToJsString(operation)))
    else
      Succeeded(Obj(map["transformed" := Str(transformed.value)]))
  }

  /** `wait({seconds = 1})`: the delay itself is a timer and not modelled. */
  function Wait(args: Record): (r: ActivityResult)
    ensures r.success && r.data.Obj? && r.error.None?
    ensures Lookup(args, "seconds") == Undefined ==> Lookup(r.data.fields, "waited") == Num(1)
    ensures Lookup(args, "seconds") != Undefined ==> Lookup(r.data.fields, "waited") == args["seconds"]
  {
    var seconds := if Lookup(args, "seconds") == Undefined then Num(1) else args["seconds"];
    Succeeded(Obj(map["waited" := seconds]))
  }

  /** `logMessage({message, level})`. */
  function LogMessage(args: Record): (r: ActivityResult)
    ensures r.success && r.data.Obj? && Lookup(r.data.fields, "logged") == Bool(true)
  {
    Succeeded(Obj(map["logged" := Bool(true)]))
  }

  /** `httpRequest({url, method})`: the request is simulated and always answers 200. */
  function HttpRequest(args: Record): (r: ActivityResult)
    ensures r.success && r.data.Obj?
    ensures Lookup(r.data.fields, "statusCode") == Num(200)
    ensures Lookup(r.data.fields, "body") == Str("Success")
  {
    Succeeded(Obj(map["statusCode" := Num(200), "body" := Str("Success")]))
  }

  /** `sendEmail({to, subject, body})`; `now` is the clock reading `Date.now()`. */
  function SendEmail(args: Record, now: int): (r: ActivityResult)
    ensures r.success && r.data.Obj?
    ensures Lookup(r.data.fields, "messageId") == Str("msg-" + IntToString(now))
  {
    Succeeded(Obj(map["messageId" := Str("msg-" + IntToString(now))]))
  }

  function SendEmailHandler(now: int): Handler {
    args => Returned(SendEmail(args, now))
  }

  function HttpRequestHandler(args: Record): HandlerOutcome { Returned(HttpRequest(args)) }
  function TransformDataHandler(args: Record): HandlerOutcome { Returned(TransformData(args)) }
  function WaitHandler(args: Record): HandlerOutcome { Returned(Wait(args)) }
  function LogMessageHandler(args: Record): HandlerOutcome { Returned(LogMessage(args)) }

  /** The one-name contribution of a registration to the listing order. */
  function Enlisted(name: string, known: set<string>): seq<string> {
    if name in known then [] else [name]
  }

  /** The names of `names` that are not in `known`, in their order in `names`. */
  function NewNames(names: seq<string>, known: set<string>): (added: seq<string>)
    ensures forall n :: n in added <==> n in names && n !in known
  {
    if names == [] then []
    else Enlisted(names[0], known) + NewNames(names[1..], known)
  }

  /** With none of `names` known, every one of them is new. */
  lemma {:induction false} NewNamesNoneKnown(names: seq<string>, known: set<string>)
    requires forall n :: n in names ==> n !in known
    ensures NewNames(names, known) == names
  {
    if names != [] {
      NewNamesNoneKnown(names[1..], known);
    }
  }

  /** The handler map after the five registrations. */
  function WithSampleHandlers(activities: map<string, Handler>, now: int): map<string, Handler> {
    activities["sendEmail" := SendEmailHandler(now)]["httpRequest" := HttpRequestHandler]
      ["transformData" := TransformDataHandler]["wait" := WaitHandler]["logMessage" := LogMessageHandler]
  }

  /** Registering the five sample handlers adds exactly the sample names. */
  lemma SampleHandlersKeys(activities: map<string, Handler>, now: int)
    ensures WithSampleHandlers(activities, now).Keys == activities.Keys + set n | n in SampleNames
  {
  }

  /** The new sample names, spelled out one registration at a time. */
  lemma SampleNewNames(known: set<string>)
    ensures NewNames(SampleNames, known) ==
              Enlisted("sendEmail", known) + Enlisted("httpRequest", known) + Enlisted("transformData", known) +
              Enlisted("wait", known) + Enlisted("logMessage", known)
  {
    var e1, e2, e3, e4, e5 := Enlisted("sendEmail", known), Enlisted("httpRequest", known),
      Enlisted("transformData", known), Enlisted("wait", known), Enlisted("logMessage", known);
    var s4: seq<string> := ["logMessage"];
    var s3: seq<string> := ["wait"] + s4;
    var s2: seq<string> := ["transformData"] + s3;
    var s1: seq<string> := ["httpRequest"] + s2;
    var s0: seq<string> := ["sendEmail"] + s1;
    assert s0 == SampleNames;
    assert s4[1..] == [];
    assert NewNames(s4, known) == e5;
    assert s3[1..] == s4;
    assert NewNames(s3, known) == e4 + e5;
    assert s2[1..] == s3;
    assert NewNames(s2, known) == e3 + (e4 + e5);
    assert s1[1..] == s2;
    assert NewNames(s1, known) == e2 + (e3 + (e4 + e5));
    assert s0[1..] == s1;
    assert NewNames(s0, known) == e1 + (e2 + (e3 + (e4 + e5)));
    ConcatAssociative(e3, e4, e5);
    ConcatAssociative(e2, e3 + e4, e5);
    ConcatAssociative(e2, e3, e4);
    ConcatAssociative(e1, e2 + e3 + e4, e5);
    ConcatAssociative(e1, e2 + e3, e4);
    ConcatAssociative(e1, e2, e3);
  }

  /** The five sample names are pairwise different. */
  lemma SampleNamesDistinct()
    ensures "sendEmail" != "httpRequest" && "sendEmail" != "transformData" && "sendEmail" != "wait" && "sendEmail" != "logMessage"
    ensures "httpRequest" != "transformData" && "httpRequest" != "wait" && "httpRequest" != "logMessage"
    ensures "transformData" != "wait" && "transformData" != "logMessage" && "wait" != "logMessage"
  {
    assert |"sendEmail"| == 9 && |"httpRequest"| == 11 && |"transformData"| == 13;
    assert |"wait"| == 4 && |"logMessage"| == 10;
  }

  /**
   * Five `register` calls with pairwise different names append to the order
   * exactly those names the map did not hold before, in call order.
   */
  lemma FiveRegistrations(before: seq<string>, m: map<string, Handler>, a: string, b: string, c: string, d: string, e: string,
                          fa: Handler, fb: Handler, fc: Handler, fd: Handler)
    requires a != b && a != c && a != d && a != e && b != c && b != d && b != e && c != d && c != e && d != e
    ensures var m1 := m[a := fa];
            var m2 := m1[b := fb];
            var m3 := m2[c := fc];
            var m4 := m3[d := fd];
            var o1 := if a in m then before else before + [a];
            var o2 := if b in m1 then o1 else o1 + [b];
            var o3 := if c in m2 then o2 else o2 + [c];
            var o4 := if d in m3 then o3 else o3 + [d];
            var o5 := if e in m4 then o4 else o4 + [e];
            o5 == before + (Enlisted(a, m.Keys) + Enlisted(b, m.Keys) + Enlisted(c, m.Keys) +
                            Enlisted(d, m.Keys) + Enlisted(e, m.Keys))
  {
    var e1, e2, e3, e4, e5 := Enlisted(a, m.Keys), Enlisted(b, m.Keys), Enlisted(c, m.Keys), Enlisted(d, m.Keys), Enlisted(e, m.Keys);
    ConcatAssociative(before, e1, e2);
    ConcatAssociative(before, e1 + e2, e3);
    ConcatAssociative(before, e1 + e2 + e3, e4);
    ConcatAssociative(before, e1 + e2 + e3 + e4, e5);
  }

  /** The listing order after the five sample registrations, one `register` at a time. */
  lemma SampleRegistrationOrder(before: seq<string>, m: map<string, Handler>, now: int)
    ensures var m1 := m["sendEmail" := SendEmailHandler(now)];
            var m2 := m1["httpRequest" := HttpRequestHandler];
            var m3 := m2["transformData" := TransformDataHandler];
            var m4 := m3["wait" := WaitHandler];
            var o1 := if "sendEmail" in m then before else before + ["sendEmail"];
            var o2 := if "httpRequest" in m1 then o1 else o1 + ["httpRequest"];
            var o3 := if "transformData" in m2 then o2 else o2 + ["transformData"];
            var o4 := if "wait" in m3 then o3 else o3 + ["wait"];
            var o5 := if "logMessage" in m4 then o4 else o4 + ["logMessage"];
            o5 == before + NewNames(SampleNames, m.Keys)
  {
    SampleNamesDistinct();
    FiveRegistrations(before, m, "sendEmail", "httpRequest", "transformData", "wait", "logMessage",
                      SendEmailHandler(now), HttpRequestHandler, TransformDataHandler, WaitHandler);
    SampleNewNames(m.Keys);
  }

  /** `registerActivities()`: five `register` calls on the registry. */
  method RegisterActivities(registry: ActivityRegistry, now: int)
    requires registry.Valid()
    modifies registry
    ensures registry.Valid()
    ensures registry.activities == old(registry.activities)["sendEmail" := SendEmailHandler(now)]
              ["httpRequest" := HttpRequestHandler]["transformData" := TransformDataHandler]
              ["wait" := WaitHandler]["logMessage" := LogMessageHandler]
    ensures registry.activities.Keys == old(registry.activities).Keys + set n | n in SampleNames
    ensures registry.order == old(registry.order) + NewNames(SampleNames, old(registry.activities).Keys)
    ensures (forall n :: n in SampleNames ==> n !in old(registry.activities)) ==>
              registry.order == old(registry.order) + SampleNames
  {
    ghost var before, known := registry.order, registry.activities;
    registry.Register("sendEmail", SendEmailHandler(now));
    registry.Register("httpRequest", HttpRequestHandler);
    registry.Register("transformData", TransformDataHandler);
    registry.Register("wait", WaitHandler);
    registry.Register("logMessage", LogMessageHandler);
    SampleHandlersKeys(known, now);
    SampleRegistrationOrder(before, known, now);
    if forall n :: n in SampleNames ==> n !in known {
      NewNamesNoneKnown(SampleNames, known.Keys);
    }
  }

  /** A fresh registry lists exactly the five sample names, in registration order. */
  method FreshRegistryListsSampleNames(now: int) returns (names: seq<string>)
    ensures names == SampleNames
  {
    var registry := new ActivityRegistry();
    RegisterActivities(registry, now);
    names := registry.GetAvailableActivities();
  }
}

/** What a zod schema produces, and the zod building blocks both recipe
    schemas share: the type tests z.string() and z.number(), and z.optional(). */
module Schemas {
  import opened JsValues

  datatype Option<+T> = None | Some(value: T)

  /** One reported problem: the field it is about and its message. */
  datatype Issue<+K> = Issue(path: K, message: string)

  /** The outcome of one field's schema: the parsed value, or the messages of
      the checks that failed. */
  datatype Checked<+T> = Pass(value: T) | Fail(messages: seq<string>)

  /** The outcome of an object schema: the parsed object, or every issue of
      every failing field. */
  datatype Parsed<+T, +K> = Success(value: T) | Failure(issues: seq<Issue<K>>)

  /** The messages of one field's outcome, each attached to the field's key. */
  function IssuesAt<T, K>(path: K, c: Checked<T>): (issues: seq<Issue<K>>)
    ensures c.Pass? ==> issues == []
    ensures c.Fail? ==> |issues| == |c.messages|
    ensures forall i :: 0 <= i < |issues| ==> issues[i] == Issue(path, c.messages[i])
  {
    match c
    case Pass(_) => []
    case Fail(ms) => seq(|ms|, i requires 0 <= i < |ms| => Issue(path, ms[i]))
  }

  /** Whether some issue is about the field with this key. */
  predicate Reported<K(==)>(issues: seq<Issue<K>>, path: K) {
    exists i :: 0 <= i < |issues| && issues[i].path == path
  }

  /** The type name zod reports for a value it did not expect. */
  function ReceivedType(v: Value): (r: string)
    ensures r == "string" <==> v.Str?
    ensures r == "number" <==> v.Num? && !v.n.NaN?
    ensures r == "array" <==> v.Arr?
    ensures r == "object" <==> v.Obj?
  {
    match v
    case Undefined => "undefined"
    case Null => "null"
    case Bool(_) => "boolean"
    case Num(n) => if n.NaN? then "nan" else "number"
    case Str(_) => "string"
    case Arr(_) => "array"
    case Obj(_) => "object"
  }

  /** zod's default message for a value of the wrong type: "Required" when
      the value is missing. */
  function TypeMessage(expected: string, v: Value): (m: string)
    ensures m == "Required" <==> v.Undefined?
  {
    if v.Undefined? then "Required" else "Expected " + expected + ", received " + ReceivedType(v)
  }

  /** z.string(): accepts exactly the strings, unchanged. */
  function ExpectString(v: Value): (r: Checked<string>)
    ensures r.Pass? <==> v.Str?
    ensures r.Pass? ==> r.value == v.s
    ensures r.Fail? ==> r.messages == [TypeMessage("string", v)]
  {
    if v.Str? then Pass(v.s) else Fail([TypeMessage("string", v)])
  }

  /** z.number(): accepts exactly the numbers other than NaN, unchanged. */
  function ExpectNumber(v: Value): (r: Checked<Number>)
    ensures r.Pass? <==> v.Num? && !v.n.NaN?
    ensures r.Pass? ==> r.value == v.n
    ensures r.Fail? ==> r.messages == [TypeMessage("number", v)]
  {
    if v.Num? && !v.n.NaN? then Pass(v.n) else Fail([TypeMessage("number", v)])
  }

  /** z.optional(inner): undefined is accepted as absent; any other value
      must pass inner. */
  function Optional<T>(v: Value, inner: Value -> Checked<T>): (r: Checked<Option<T>>)
    ensures v.Undefined? ==> r == Pass(None)
    ensures !v.Undefined? ==> (r.Pass? <==> inner(v).Pass?)
    ensures !v.Undefined? && r.Pass? ==> r.value == Some(inner(v).value)
    ensures !v.Undefined? && r.Fail? ==> r.messages == inner(v).messages
  {
    if v.Undefined? then Pass(None)
    else match inner(v)
      case Pass(x) => Pass(Some(x))
      case Fail(ms) => Fail(ms)
  }
}

/** JavaScript values as the front end receives them in response bodies, with the parts of
    JavaScript's semantics the front end relies on: truthiness (`if (x)`, `x || y`),
    optional property access (`x?.key`), `Array.isArray` and `String(x)`. */
module Json {
  import opened Strings

  /** A JavaScript value. Numbers are integers here; `NaN` and fractions are not modelled. */
  datatype Json =
    | JUndefined
    | JNull
    | JBool(b: bool)
    | JNum(n: int)
    | JStr(s: string)
    | JArr(items: seq<Json>)
    | JObj(fields: map<string, Json>)

  /** JavaScript truthiness: `undefined`, `null`, `false`, `0` and `""` are falsy; every
      array and object is truthy. */
  predicate Truthy(j: Json) {
    match j
    case JUndefined => false
    case JNull => false
    case JBool(b) => b
    case JNum(n) => n != 0
    case JStr(s) => s != ""
    case JArr(_) => true
    case JObj(_) => true
  }

  /** `a || b` */
  function Or(a: Json, b: Json): (r: Json)
    ensures Truthy(a) ==> r == a
    ensures !Truthy(a) ==> r == b
  {
    if Truthy(a) then a else b
  }

  /** `j?.key`: the property of an object, `undefined` for a missing key and for anything
      that is not an object. */
  function Get(j: Json, key: string): (r: Json)
    ensures j.JObj? && key in j.fields ==> r == j.fields[key]
    ensures !(j.JObj? && key in j.fields) ==> r == JUndefined
  {
    if j.JObj? && key in j.fields then j.fields[key] else JUndefined
  }

  /** `String(j)`: the conversion JavaScript applies to a value used as a string. */
  function ToJsString(j: Json): string
    decreases j, 1
  {
    match j
    case JUndefined => "undefined"
    case JNull => "null"
    case JBool(b) => if b then "true" else "false"
    case JNum(n) => IntToString(n)
    case JStr(s) => s
    case JArr(items) => JoinElements(items, j)
    case JObj(_) => "[object Object]"
  }

  /** `Array.prototype.join(",")` as `String` applies it to an array: `null` and
      `undefined` elements become empty strings. */
  function JoinElements(items: seq<Json>, ghost whole: Json): string
    requires forall i :: 0 <= i < |items| ==> items[i] < whole
    decreases whole, 0, |items|
  {
    if |items| == 0 then ""
    else
      var head := if items[0].JNull? || items[0].JUndefined? then "" else ToJsString(items[0]);
      if |items| == 1 then head else head + "," + JoinElements(items[1..], whole)
  }

  /** The message the screens show for a failed request:
      `err.response?.data?.message || err.message || fallback`. */
  function ErrorMessage(err: Json, fallback: string): (m: Json)
    ensures Truthy(Get(Get(Get(err, "response"), "data"), "message")) ==> m == Get(Get(Get(err, "response"), "data"), "message")
    ensures !Truthy(Get(Get(Get(err, "response"), "data"), "message")) && Truthy(Get(err, "message")) ==> m == Get(err, "message")
    ensures !Truthy(Get(Get(Get(err, "response"), "data"), "message")) && !Truthy(Get(err, "message")) ==> m == JStr(fallback)
  {
    Or(Or(Get(Get(Get(err, "response"), "data"), "message"), Get(err, "message")), JStr(fallback))
  }

  /** An error thrown by the front end's own code: `new Error(message)`. */
  function ErrorObject(message: string): (e: Json)
    ensures Get(e, "message") == JStr(message)
  {
    JObj(map["message" := JStr(message)])
  }
}

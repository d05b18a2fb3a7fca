/**
 * JavaScript values as the frontend sees them: the JSON values `response.json()` can produce,
 * JavaScript truthiness, `typeof`, property reads, and the message of an `Error`.
 */
module JsValues {
  import opened Wrappers

  /** A parsed JSON value. Numbers are mathematical reals (JSON text has no NaN or Infinity). */
  datatype Json =
    | JNull
    | JBool(b: bool)
    | JNum(n: real)
    | JStr(s: string)
    | JArr(items: seq<Json>)
    | JObj(fields: map<string, Json>)

  /** JavaScript truthiness: null, false, 0 (and -0) and "" are falsy; every array and object is truthy. */
  predicate Truthy(v: Json)
  {
    match v
    case JNull => false
    case JBool(b) => b
    case JNum(n) => n != 0.0
    case JStr(s) => s != ""
    case JArr(_) => true
    case JObj(_) => true
  }

  /** Truthiness of a property read, where None stands for `undefined` (always falsy). */
  predicate TruthyOpt(v: Option<Json>)
  {
    v.Some? && Truthy(v.value)
  }

  /** The result of the `typeof` operator; note that null and arrays are both "object". */
  function Typeof(v: Json): string
  {
    match v
    case JNull => "object"
    case JBool(_) => "boolean"
    case JNum(_) => "number"
    case JStr(_) => "string"
    case JArr(_) => "object"
    case JObj(_) => "object"
  }

  /**
   * The property read `v[key]` for the named keys this application reads ("detail",
   * "Evaluating Score", ...). None is `undefined`. Only an object has such own properties; none
   * of these keys exists on the prototypes of arrays, strings, numbers or booleans. Reading a
   * property of null throws, so the caller must rule null out first.
   */
  function Prop(v: Json, key: string): (r: Option<Json>)
    requires v != JNull
    ensures r.Some? <==> v.JObj? && key in v.fields
    ensures r.Some? ==> r.value == v.fields[key]
  {
    match v
    case JObj(m) => if key in m then Some(m[key]) else None
    case _ => None
  }

  /** `Array.isArray` applied to a property read (false for `undefined`). */
  predicate IsArrayOpt(v: Option<Json>)
  {
    v.Some? && v.value.JArr?
  }

  /**
   * The `message` of a JavaScript `Error`. `new Error(x)` stores `String(x)`; a string is kept as
   * is (Text), any other value is kept as the value whose string conversion the message is.
   */
  datatype Msg = Text(text: string) | Stringified(source: Json)
  {
    /** True iff the message is the empty string, which is falsy in `err.message || ...`. */
    predicate IsEmpty()
    {
      match this
      case Text(t) => t == ""
      case Stringified(v) => StringOfIsEmpty(v)
    }
  }

  /** `new Error(x).message` for a JSON value x. */
  function ErrorMessageOf(v: Json): (m: Msg)
    ensures v.JStr? ==> m == Text(v.s)
    ensures m.IsEmpty() <==> StringOfIsEmpty(v)
  {
    if v.JStr? then Text(v.s) else Stringified(v)
  }

  /**
   * True iff `String(v) === ""`. null, booleans, numbers and objects never stringify to the empty
   * string ("null", "true", "0", "[object Object]"). An array stringifies to its elements joined by
   * ",", with null elements written as "": it is empty iff it has no element, or exactly one that is
   * null or itself stringifies to "".
   */
  predicate StringOfIsEmpty(v: Json)
  {
    match v
    case JStr(s) => s == ""
    case JArr(xs) => |xs| == 0 || (|xs| == 1 && (xs[0] == JNull || StringOfIsEmpty(xs[0])))
    case _ => false
  }
}

/**
 * The JavaScript values a route handler sees after `await request.json()`:
 * JSON values, `undefined` for a missing property, and the errors that can be
 * thrown, with the truthiness, `typeof` and destructuring rules the handlers'
 * guards depend on.
 */
module JsValues {
  import opened Wrappers

  /** A parsed JSON value. JSON has no NaN or infinities, so every number is a real. */
  datatype Json =
    | JNull
    | JBool(b: bool)
    | JNum(n: real)
    | JStr(s: string)
    | JArr(items: seq<Json>)
    | JObj(fields: map<string, Json>)

  /** A thrown value: an `Error` of some class with its message, or a thrown non-`Error`. */
  datatype Thrown =
    | SyntaxError(message: string)
    | TypeError(message: string)
    | OtherError(message: string)
    | NonError

  predicate IsErrorInstance(e: Thrown) {
    !e.NonError?
  }

  /** The outcome of `await request.json()`: the parsed body, or what it threw. */
  datatype BodyRead = Parsed(value: Json) | ReadThrew(error: Thrown)

  /** JavaScript truthiness of a property value (`None` is `undefined`). */
  predicate Truthy(v: Option<Json>) {
    match v
    case None => false
    case Some(JNull) => false
    case Some(JBool(b)) => b
    case Some(JNum(n)) => n != 0.0
    case Some(JStr(s)) => s != ""
    case Some(_) => true
  }

  /** `typeof` of a property value. */
  function TypeOf(v: Option<Json>): string {
    match v
    case None => "undefined"
    case Some(JBool(_)) => "boolean"
    case Some(JNum(_)) => "number"
    case Some(JStr(_)) => "string"
    case Some(_) => "object"
  }

  function StringOf(v: Option<Json>): string
    requires TypeOf(v) == "string"
  {
    v.value.s
  }

  function NumberOf(v: Option<Json>): real
    requires TypeOf(v) == "number"
  {
    v.value.n
  }

  function BoolOf(v: Option<Json>): bool
    requires TypeOf(v) == "boolean"
  {
    v.value.b
  }

  /**
   * How V8 names the value being destructured in its error message: an
   * awaited call such as `await request.json()` is `(intermediate value)`, a
   * variable is its own name.
   */
  const AwaitedValue: string := "(intermediate value)"

  /** The message of the `TypeError` the V8 engine raises for destructuring `null` held by `source`. */
  function NullDestructureMessage(source: string, key: string): string {
    "Cannot destructure property '" + key + "' of '" + source + "' as it is null."
  }

  /**
   * The value of property `key` in `const { key } = source`, where `body` is
   * the value of the expression `source`: destructuring `null` throws a
   * `TypeError` naming the first property and the expression; an object gives
   * its field or `undefined`; the other JSON values have none of the
   * properties the handlers read.
   */
  function Destructure(body: Json, source: string, key: string): Result<Option<Json>, Thrown> {
    match body
    case JNull => Err(TypeError(NullDestructureMessage(source, key)))
    case JObj(m) => Ok(if key in m then Some(m[key]) else None)
    case _ => Ok(None)
  }

  /** A truthy string is exactly a non-empty string, so `!x || typeof x !== 'string'` rejects exactly what is not a non-empty string. */
  lemma TruthyString(v: Option<Json>)
    ensures (Truthy(v) && TypeOf(v) == "string") <==> (v.Some? && v.value.JStr? && v.value.s != "")
  {
  }

  /** Only `null` makes destructuring throw. */
  lemma DestructureThrowsOnlyOnNull(body: Json, source: string, key: string)
    ensures Destructure(body, source, key).Err? <==> body == JNull
    ensures body == JNull ==>
      Destructure(body, source, key).error.message == "Cannot destructure property '" + key + "' of '" + source + "' as it is null."
    ensures body.JObj? ==> Destructure(body, source, key) == Ok(if key in body.fields then Some(body.fields[key]) else None)
  {
  }
}

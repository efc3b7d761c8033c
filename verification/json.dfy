/** Parsed JSON values as the program inspects them: field access on the result of
    `JSON.parse`, JavaScript truthiness, and conversion to a string in a template
    literal. Numbers are integers here (see the README). */
module Json {
  import opened Wrappers
  import opened Text

  datatype Json =
    | JNull
    | JBool(b: bool)
    | JNum(n: int)
    | JStr(s: string)
    | JArr(items: seq<Json>)
    | JObj(fields: map<string, Json>)

  /** JavaScript truthiness of a parsed value. */
  predicate Truthy(v: Json) {
    match v
    case JNull => false
    case JBool(b) => b
    case JNum(n) => n != 0
    case JStr(s) => s != ""
    case JArr(_) => true
    case JObj(_) => true
  }

  /** Truthiness of `v.key`, where a missing property (`undefined`) is falsy. */
  predicate TruthyField(v: Json, key: string) {
    match Field(v, key)
    case Some(x) => Truthy(x)
    case None => false
  }

  /** `v[key]` for a value that is not `null`: an object's own field, and `undefined`
      (here `None`) for every other value, since none of the property names the
      program reads exist on strings, numbers, booleans or arrays. */
  function Field(v: Json, key: string): (r: Option<Json>)
    ensures r.Some? ==> v.JObj? && key in v.fields && r.value == v.fields[key]
    ensures v.JObj? && key in v.fields ==> r.Some?
  {
    match v
    case JObj(fields) => if key in fields then Some(fields[key]) else None
    case _ => None
  }

  /** `v.key === expected` for a string `expected`. */
  predicate FieldIs(v: Json, key: string, expected: string) {
    Field(v, key) == Some(JStr(expected))
  }

  /** The text a template literal `${v}` produces: `String(v)`. An array joins its
      elements with commas, writing `null` elements as empty text. */
  function Render(v: Json): string {
    match v
    case JNull => "null"
    case JBool(b) => if b then "true" else "false"
    case JNum(n) => IntToString(n)
    case JStr(s) => s
    case JArr(items) => RenderItems(items)
    case JObj(_) => "[object Object]"
  }

  function RenderItems(items: seq<Json>): string
    decreases items
  {
    if |items| == 0 then ""
    else
      var head := if items[0].JNull? then "" else Render(items[0]);
      if |items| == 1 then head else head + "," + RenderItems(items[1..])
  }
}

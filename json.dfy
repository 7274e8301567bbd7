/**
 * JSON values as the browser scripts and the Python handlers see them after
 * parsing, with the two languages' notions of truthiness and of turning a value
 * into text. Numbers are integers (fractions are not modelled).
 */
module Json {
  import opened Wrappers
  import Numbers

  datatype Value =
    | JNull
    | JBool(b: bool)
    | JNum(n: int)
    | JStr(s: string)
    | JArr(items: seq<Value>)
    | JObj(fields: map<string, Value>)

  /** JavaScript truthiness; `None` stands for `undefined`. Empty arrays and objects are truthy. */
  predicate JsTruthy(v: Option<Value>) {
    match v
    case None => false
    case Some(JNull) => false
    case Some(JBool(b)) => b
    case Some(JNum(n)) => n != 0
    case Some(JStr(s)) => s != ""
    case Some(_) => true
  }

  /** Python truthiness: `None`, `False`, `0`, `''`, `[]` and `{}` are falsy. */
  predicate PyTruthy(v: Value) {
    match v
    case JNull => false
    case JBool(b) => b
    case JNum(n) => n != 0
    case JStr(s) => s != ""
    case JArr(items) => items != []
    case JObj(fields) => fields != map[]
  }

  /**
   * JavaScript property read `v.key` on a value that is not `null`: an object's
   * own field, otherwise `undefined` (arrays, strings, numbers and booleans
   * carry no property a JSON key can name here).
   */
  function Prop(v: Value, key: string): (r: Option<Value>)
    ensures r.Some? <==> v.JObj? && key in v.fields
  {
    if v.JObj? && key in v.fields then Some(v.fields[key]) else None
  }

  /** Python `d.get(key, default)` on a dict. */
  function PyGet(d: map<string, Value>, key: string, default: Value): (r: Value)
    ensures key in d ==> r == d[key]
    ensures key !in d ==> r == default
  {
    if key in d then d[key] else default
  }

  /**
   * JavaScript `String(v)`, which `localStorage.setItem` applies to the value it
   * stores: `undefined` and `null` become "undefined" and "null", arrays are
   * their elements' texts joined with ',' (null elements as ''), objects are
   * "[object Object]".
   */
  function JsString(v: Option<Value>): string
  {
    match v
    case None => "undefined"
    case Some(w) => ValueText(w)
  }

  function ValueText(v: Value): string
    decreases v
  {
    match v
    case JNull => "null"
    case JBool(b) => if b then "true" else "false"
    case JNum(n) => Numbers.IntToString(n)
    case JStr(s) => s
    case JArr(items) => JsJoin(items)
    case JObj(_) => "[object Object]"
  }

  /** `items.join(',')` as `String` of an array computes it. */
  function JsJoin(items: seq<Value>): string
    decreases items
  {
    if items == [] then ""
    else
      var first := if items[0] == JNull then "" else ValueText(items[0]);
      if |items| == 1 then first else first + "," + JsJoin(items[1..])
  }

  /**
   * Python `str(v)` as an f-string renders a scalar: strings as they are, `None`,
   * `True`, `False`, integers in decimal. Lists and dicts render as a fixed
   * placeholder (their repr is not modelled).
   */
  function PyStr(v: Value): string
  {
    match v
    case JNull => "None"
    case JBool(b) => if b then "True" else "False"
    case JNum(n) => Numbers.IntToString(n)
    case JStr(s) => s
    case JArr(_) => "[...]"
    case JObj(_) => "{...}"
  }

  /**
   * A JSON text codec (`JSON.parse` / `JSON.stringify`, `json.loads` /
   * `json.dumps`); parse None means the text is not JSON and parsing throws.
   */
  datatype Codec = Codec(parse: string -> Option<Value>, stringify: Value -> string)

  /** A codec that reads back what it writes, never writes an empty text, and reads "[]" as the empty array. */
  ghost predicate Lawful(codec: Codec) {
    codec.parse("[]") == Some(JArr([])) &&
    forall v :: codec.parse(codec.stringify(v)) == Some(v) && codec.stringify(v) != ""
  }
}

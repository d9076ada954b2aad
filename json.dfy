/** The JSON values that request and response bodies carry. */
module Json {
  import Numbers

  datatype Json =
    | JNull
    | JBool(b: bool)
    | JNum(n: int)
    | JStr(s: string)
    | JArr(items: seq<Json>)
    | JObj(fields: map<string, Json>)

  /** JavaScript truthiness of a JSON value: `null`, `false`, `0` and `""` are falsy. */
  predicate Truthy(j: Json) {
    match j
    case JNull => false
    case JBool(b) => b
    case JNum(n) => n != 0
    case JStr(s) => s != ""
    case _ => true
  }

  /** JavaScript's `String(value)` of a JSON value, as a template literal or a
      URL path built from the value produces it: numbers in decimal, an array
      as its elements joined with commas (a `null` element left empty), and
      every object as `[object Object]`. */
  function JsString(j: Json): string
    decreases j
  {
    match j
    case JNull => "null"
    case JBool(b) => if b then "true" else "false"
    case JNum(n) => Numbers.IntToString(n)
    case JStr(s) => s
    case JArr(items) =>
      JoinWith(seq(|items|, i requires 0 <= i < |items| => if items[i].JNull? then "" else JsString(items[i])), ",")
    case JObj(_) => "[object Object]"
  }

  function JoinWith(parts: seq<string>, sep: string): string {
    if parts == [] then ""
    else if |parts| == 1 then parts[0]
    else parts[0] + sep + JoinWith(parts[1..], sep)
  }
}

/**
 * The JSON tree that Gson parses request and response text into (JsonElement and its
 * subclasses). Numbers are integers; object members are looked up by name.
 */
module JsonModel {

  datatype Json =
    | JNull
    | JBool(b: bool)
    | JNumber(n: int)
    | JString(s: string)
    | JArray(items: seq<Json>)
    | JObject(members: map<string, Json>)

  /** JsonElement.isJsonPrimitive(): a boolean, a number or a string. */
  predicate IsPrimitive(j: Json) {
    j.JBool? || j.JNumber? || j.JString?
  }

  /** JsonPrimitive.getAsString(). */
  function AsString(j: Json): string
    requires IsPrimitive(j)
  {
    match j
    case JBool(b) => if b then "true" else "false"
    case JNumber(n) => IntToString(n)
    case JString(s) => s
  }

  function DigitChar(d: nat): char
    requires d < 10
  {
    "0123456789"[d]
  }

  function NatToString(n: nat): string {
    if n < 10 then [DigitChar(n)] else NatToString(n / 10) + [DigitChar(n % 10)]
  }

  function IntToString(i: int): string {
    if i < 0 then "-" + NatToString(-i) else NatToString(i)
  }
}

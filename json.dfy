/**
 * Decoded JSON values as Python's json module produces them: integers and floats are
 * distinct, objects are dicts keyed by strings.
 */
module JsonValues {

  datatype Json =
    | JNull
    | JBool(b: bool)
    | JInt(i: int)
    | JFloat(f: real)
    | JString(s: string)
    | JArray(items: seq<Json>)
    | JObject(fields: map<string, Json>)

  /** Python truthiness: None, False, zero, and empty strings, lists and dicts are false. */
  predicate Truthy(j: Json) {
    match j
    case JNull => false
    case JBool(b) => b
    case JInt(i) => i != 0
    case JFloat(f) => f != 0.0
    case JString(s) => s != []
    case JArray(items) => items != []
    case JObject(fields) => fields != map[]
  }

  /** type(value).__name__ of the Python value. */
  function TypeName(j: Json): string {
    match j
    case JNull => "NoneType"
    case JBool(_) => "bool"
    case JInt(_) => "int"
    case JFloat(_) => "float"
    case JString(_) => "str"
    case JArray(_) => "list"
    case JObject(_) => "dict"
  }
}

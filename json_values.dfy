/**
 * Decoded JSON values as Python's `json.loads` produces them, and Python truthiness of
 * such values. The decoder itself is foreign: it is passed around as a `Decoder`.
 */
module JsonValues {
  import opened Wrappers

  datatype Json =
    | JNull
    | JBool(b: bool)
    | JInt(i: int)
    | JFloat(f: real)
    | JString(s: string)
    | JArray(items: seq<Json>)
    | JObject(fields: map<string, Json>)

  /** `json.loads`: the value the text denotes, or None where it raises JSONDecodeError. */
  type Decoder = string -> Option<Json>

  /** `bool(v)` for a decoded value: None, False, 0, 0.0, "", [] and {} are false. */
  predicate Truthy(j: Json) {
    match j
    case JNull => false
    case JBool(b) => b
    case JInt(i) => i != 0
    case JFloat(f) => f != 0.0
    case JString(s) => s != ""
    case JArray(items) => items != []
    case JObject(fields) => fields != map[]
  }

  /** `d.get(key)` on a decoded object: None when the key is absent. */
  function Get(fields: map<string, Json>, key: string): Json {
    if key in fields then fields[key] else JNull
  }

  /** A missing key reads as None, which is falsy. */
  lemma MissingKeyFalsy(fields: map<string, Json>, key: string)
    requires key !in fields
    ensures !Truthy(Get(fields, key))
  {
  }
}

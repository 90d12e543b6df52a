/**
 * A JSON document as Go's encoding/json decodes it into `interface{}`: null,
 * booleans, numbers (kept as their text), strings, arrays and objects
 * (`map[string]interface{}`).
 */
module JsonValues {
  import opened Wrappers

  datatype Json =
    | JNull
    | JBool(b: bool)
    | JNumber(text: string)
    | JString(s: string)
    | JArray(items: seq<Json>)
    | JObject(fields: map<string, Json>)

  /**
   * What json.Unmarshal into a `map[string]interface{}` gives for a decoded
   * document: the object, a nil map (None) for `null`, the decode error of
   * unparsable text, or encoding/json's type error naming the kind of any
   * other value.
   */
  function DecodeObject(doc: Result<Json>): (r: Result<Option<map<string, Json>>>)
    ensures r.Ok? <==> doc.Ok? && (doc.value.JObject? || doc.value.JNull?)
    ensures r.Ok? && r.value.Some? ==> doc.value == JObject(r.value.value)
    ensures r == Ok(None) <==> doc == Ok(JNull)
    ensures doc.Err? ==> r == Err(doc.error)
    ensures doc.Ok? && !doc.value.JObject? && !doc.value.JNull? ==>
              r == Err("json: cannot unmarshal " + KindName(doc.value) + " into Go value of type map[string]interface {}")
  {
    match doc
    case Err(e) => Err(e)
    case Ok(JNull) => Ok(None)
    case Ok(JObject(m)) => Ok(Some(m))
    case Ok(v) => Err(CannotUnmarshal(v))
  }

  /** The name encoding/json gives the kind of a value in its type errors. */
  function KindName(v: Json): string {
    match v
    case JNull => "null"
    case JBool(_) => "bool"
    case JNumber(_) => "number"
    case JString(_) => "string"
    case JArray(_) => "array"
    case JObject(_) => "object"
  }

  /** The `*json.UnmarshalTypeError` text for a value stored into a `map[string]interface{}`. */
  function CannotUnmarshal(v: Json): string {
    "json: cannot unmarshal " + KindName(v) + " into Go value of type map[string]interface {}"
  }

  /** The object under `key` in `m`, when there is one (Go's `m[key].(map[string]interface{})`). */
  function ObjectAt(m: map<string, Json>, key: string): (r: Option<map<string, Json>>)
    ensures r.Some? <==> key in m && m[key].JObject?
    ensures r.Some? ==> m[key] == JObject(r.value)
  {
    if key in m && m[key].JObject? then Some(m[key].fields) else None
  }
}

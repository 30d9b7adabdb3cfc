/** The values Python's `json.loads` produces, with Python's truthiness and type names.
    The decoder itself is not modelled: callers receive it as a parameter. */
module Json {

  datatype Json =
    | JNull
    | JBool(b: bool)
    | JInt(i: int)
    | JFloat(f: real)
    | JString(s: string)
    | JArray(items: seq<Json>)
    | JObject(fields: map<string, Json>)

  /** Python's `bool(v)`: `None`, `False`, zero, and empty strings, lists and dicts are falsy. */
  predicate Truthy(v: Json) {
    match v
    case JNull => false
    case JBool(b) => b
    case JInt(i) => i != 0
    case JFloat(f) => f != 0.0
    case JString(s) => s != ""
    case JArray(items) => items != []
    case JObject(fields) => fields != map[]
  }

  /** The falsy values are exactly `None`, `False`, `0`, `0.0`, `""`, `[]` and `{}`. */
  lemma FalsyValues(v: Json)
    ensures !Truthy(v) <==> v in {JNull, JBool(false), JInt(0), JFloat(0.0), JString(""), JArray([]), JObject(map[])}
  {
  }

  /** `type(v).__name__`, as it appears in an AttributeError message. */
  function TypeName(v: Json): string {
    match v
    case JNull => "NoneType"
    case JBool(_) => "bool"
    case JInt(_) => "int"
    case JFloat(_) => "float"
    case JString(_) => "str"
    case JArray(_) => "list"
    case JObject(_) => "dict"
  }

  /** `obj.get(key)`: a missing key reads as `None`, exactly like a JSON `null`. */
  function Get(fields: map<string, Json>, key: string): (v: Json)
    ensures key !in fields ==> v == JNull
    ensures key in fields ==> v == fields[key]
  {
    if key in fields then fields[key] else JNull
  }
}

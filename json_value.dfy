/**
  A decoded JSON payload, as Python's `json` module hands it to the client:
  `None`, `bool`, `int`, `float`, `str`, `list` or `dict` (objects keyed by
  strings). Key order inside a `dict` never matters to the client, so objects
  are maps.
 */
module JsonValue {

  datatype Json =
    | JNull
    | JBool(b: bool)
    | JInt(n: int)
    | JFloat(x: real)
    | JStr(s: string)
    | JArr(items: seq<Json>)
    | JObj(fields: map<string, Json>)

  /**
    Python's truth value of a decoded payload, the test `if result:` applies:
    `None`, `False`, `0`, `0.0`, `""`, `[]` and `{}` are false, all else true.
   */
  predicate Truthy(j: Json) {
    match j
    case JNull => false
    case JBool(b) => b
    case JInt(n) => n != 0
    case JFloat(x) => x != 0.0
    case JStr(s) => s != []
    case JArr(items) => items != []
    case JObj(fields) => fields != map[]
  }

  /** The falsy payloads are exactly `None`, `False`, `0`, `0.0`, `""`, `[]` and `{}`. */
  lemma FalsyValues(j: Json)
    ensures !Truthy(j) <==> j in {JNull, JBool(false), JInt(0), JFloat(0.0), JStr(""), JArr([]), JObj(map[])}
  {
  }

  /** A payload the operations can reshape: a list or a dict (`isinstance(result, (list, dict))`). */
  predicate IsContainer(j: Json) {
    j.JArr? || j.JObj?
  }
}

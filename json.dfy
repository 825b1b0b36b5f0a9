/** Decoded JSON values, as Python's `json` module hands them to the panel.
    Numbers are integers: fractional JSON numbers are not part of this model. */
module Json {
  import opened Text

  datatype Json =
    | JNull
    | JBool(b: bool)
    | JInt(i: int)
    | JStr(s: string)
    | JArr(items: seq<Json>)
    | JObj(fields: map<string, Json>)

  /** Python truthiness of a decoded value (`if value:`). */
  predicate Truthy(j: Json) {
    match j
    case JNull => false
    case JBool(b) => b
    case JInt(i) => i != 0
    case JStr(s) => s != []
    case JArr(items) => items != []
    case JObj(fields) => fields != map[]
  }

  /** `d.get(key, default)` on a decoded object. */
  function Get(d: map<string, Json>, key: string, default: Json): (v: Json)
    ensures key in d ==> v == d[key]
    ensures key !in d ==> v == default
  {
    if key in d then d[key] else default
  }

  /** The index of the first of `keys` that `d` lacks: where a loop of
      `d[key]` lookups (or `key not in d` tests) over `keys` stops. */
  function FirstMissing(keys: seq<string>, d: map<string, Json>): (k: Option<nat>)
    ensures k.Some? ==> (k.value < |keys| && keys[k.value] !in d &&
      forall j :: 0 <= j < k.value ==> keys[j] in d)
    ensures k.None? ==> forall j :: 0 <= j < |keys| ==> keys[j] in d
  {
    if keys == [] then None
    else if keys[0] !in d then Some(0)
    else match FirstMissing(keys[1..], d)
      case None => None
      case Some(j) => Some(j + 1)
  }
}

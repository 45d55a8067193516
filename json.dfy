/** The values `json.loads` produces, the two library calls the parser makes
    (`json.loads`, `json.dumps(value, indent=2)`), and `_format_value`. */
module JsonValue {
  import opened Text

  /** A decoded JSON document. An object keeps its members in the order of
      the decoded dictionary; a float carries the text Python's `str()`
      gives it. */
  datatype Json =
    | JNull
    | JBool(b: bool)
    | JInt(i: int)
    | JFloat(repr: string)
    | JString(s: string)
    | JArray(items: seq<Json>)
    | JObject(members: seq<(string, Json)>)

  /** What a call of `json.loads` does: return a value, raise
      `JSONDecodeError`/`ValueError` (which the parser catches), or raise
      any other exception (which it lets escape). */
  datatype DecodeOutcome = Decoded(value: Json) | Malformed | Raised(message: string)

  /** The JSON library as the parser sees it: `loads` and `dumps` with
      `indent=2`. Their internals are not modelled. */
  datatype JsonLib = JsonLib(loads: string -> DecodeOutcome, dumps: Json -> string)

  /** `isinstance(value, (dict, list))`. */
  predicate IsComposite(v: Json) {
    v.JArray? || v.JObject?
  }

  /** Python's `str()` of a scalar JSON value. */
  function ScalarString(v: Json): (r: string)
    requires !IsComposite(v)
    ensures v.JString? ==> r == v.s
    ensures v.JNull? ==> r == "None"
    ensures v.JBool? ==> r == (if v.b then "True" else "False")
    ensures v.JInt? ==> r != [] && (r[0] == '-' <==> v.i < 0)
    ensures v.JInt? && v.i >= 0 ==> AllDigits(r) && DecimalValue(r) == v.i && (|r| > 1 ==> r[0] != '0')
    ensures v.JInt? && v.i < 0 ==> |r| >= 2 && AllDigits(r[1..]) && DecimalValue(r[1..]) == -v.i
                                   && (|r| > 2 ==> r[1] != '0')
  {
    match v
    case JNull => "None"
    case JBool(b) => if b then "True" else "False"
    case JInt(i) => IntToString(i)
    case JFloat(repr) => repr
    case JString(s) => s
  }

  /** `_format_value`: indented JSON text for an object or a list, the plain
      string form otherwise. */
  function FormatValue(v: Json, lib: JsonLib): (r: string)
    ensures IsComposite(v) ==> r == lib.dumps(v)
    ensures !IsComposite(v) ==> r == ScalarString(v)
    ensures v.JString? ==> r == v.s
  {
    if IsComposite(v) then lib.dumps(v) else ScalarString(v)
  }
}

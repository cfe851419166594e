/** The values `json.loads` produces, and Python's truthiness on them. */
module JsonValue {
  import opened Wrappers

  /** A decoded JSON text (RFC 8259): `null`, `true`/`false`, a number, a string,
      an array, or an object given as its members in document order. */
  datatype Json =
    | Null
    | Bool(b: bool)
    | Number(n: real)
    | String(s: string)
    | Array(items: seq<Json>)
    | Object(members: seq<(string, Json)>)

  /** What one `json.loads` call does: return a value, raise `JSONDecodeError`,
      or raise some other exception (a `ValueError` for an integer literal
      longer than the interpreter's digit limit, a `RecursionError` for very
      deep nesting). */
  datatype Decoded = Loaded(value: Json) | DecodeError | Escaped(cause: string)

  /** `json.loads`, on the text it is given. */
  type Parser = string -> Decoded

  /** Python's `bool(v)` for the value `json.loads` returned: `None`, `False`,
      zero, `""`, `[]` and `{}` are false, everything else is true. */
  predicate Truthy(v: Json) {
    match v
    case Null => false
    case Bool(b) => b
    case Number(n) => n != 0.0
    case String(s) => s != ""
    case Array(items) => items != []
    case Object(members) => members != []
  }

  /** A parser that follows RFC 8259 sections 2 and 4: a text whose first
      character is `{` can only decode to an object. */
  ghost predicate ObjectsFromBraces(parse: Parser) {
    forall t :: |t| > 0 && t[0] == '{' && parse(t).Loaded? ==> parse(t).value.Object?
  }
}

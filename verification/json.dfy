/**
 * JSON values as Python's `json` module produces them, and the parts of
 * Python's semantics the proxy relies on: truthiness (`if payload`) and
 * `str()` of a value.
 */
module Json {
  import opened Wrappers
  import opened Text

  /** A parsed JSON document; numbers are integers (see README). */
  datatype Value =
    | Null
    | Bool(b: bool)
    | Num(n: int)
    | Str(s: string)
    | Arr(items: seq<Value>)
    | Obj(fields: map<string, Value>)

  /**
   * The serialisation boundary, passed in rather than implemented. `loads`
   * is the proxy's own parser of request bodies: strict UTF-8 decoding, then
   * parsing, `None` on any failure. `dumps` serialises a value to UTF-8
   * bytes. `responseJson` is the HTTP client's parser of a response body,
   * which detects the encoding itself (a UTF-8 byte-order mark, UTF-16 or
   * UTF-32) and so may accept bodies that `loads` rejects; `None` when it
   * raises. `decode` gives the text of a response body.
   */
  datatype Codec = Codec(
    loads: Bytes -> Option<Value>,
    dumps: Value -> Bytes,
    responseJson: Bytes -> Option<Value>,
    decode: Bytes -> string)

  /** Python's truth value of a parsed document. */
  predicate Truthy(v: Value)
  {
    match v
    case Null => false
    case Bool(b) => b
    case Num(n) => n != 0
    case Str(s) => s != ""
    case Arr(items) => items != []
    case Obj(fields) => fields != map[]
  }

  /**
   * Python's `str(v)`. A list or an object is represented only by its opening
   * bracket: the one character of its text that a prefix test can see.
   */
  function PyStr(v: Value): string
  {
    match v
    case Null => "None"
    case Bool(b) => if b then "True" else "False"
    case Num(n) => DecimalString(n)
    case Str(s) => s
    case Arr(_) => "["
    case Obj(_) => "{"
  }
}

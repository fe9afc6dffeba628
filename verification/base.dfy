/** Value types shared by every part of the model: optional values, results
    that carry the exception a Python call would raise, the JSON values that
    files and API payloads hold, and text whose floating-point parts are kept
    symbolic. */
module Base {

  datatype Option<+T> = None | Some(value: T)
  {
    function GetOr(default: T): T
    {
      match this
      case Some(v) => v
      case None => default
    }
  }

  /** A Python call either returns a value or raises; `Err` names what it raises. */
  datatype Result<+T, +E> = Ok(value: T) | Err(error: E)

  /** A JSON document as `json.loads` produces it. Numbers keep their literal
      text, so that two documents are equal exactly when they print the same. */
  datatype Json =
    | JNull
    | JBool(b: bool)
    | JNum(literal: string)
    | JStr(s: string)
    | JArr(items: seq<Json>)
    | JObj(fields: map<string, Json>)

  /** A piece of produced text: literal characters, or a float that the source
      formats with `:.6f` (the formatting itself is not part of the model). */
  datatype Piece = Chars(s: string) | Fixed6(x: real)

  type Rendered = seq<Piece>

  function Max(a: int, b: int): int
  {
    if a < b then b else a
  }

  /** Python's `value or default` for an optional string: `None` and the empty
      string both fall back to `default`. */
  function OrElse(value: Option<string>, default: string): (r: string)
    ensures value.Some? && value.value != "" ==> r == value.value
    ensures value.None? || value.value == "" ==> r == default
  {
    if value.Some? && value.value != "" then value.value else default
  }
}

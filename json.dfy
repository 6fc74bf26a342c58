/**
 * JSON values as `json.loads` produces them, and the Python dictionaries the
 * program passes around. Dictionary key order is not modelled.
 */
module Json {

  datatype Json =
    | Null
    | Bool(b: bool)
    | Num(n: real)
    | Str(s: string)
    | Arr(items: seq<Json>)
    | Obj(fields: map<string, Json>)

  /** A Python `dict` with string keys, such as the one `generate_reflection` returns. */
  type Dict = map<string, Json>
}

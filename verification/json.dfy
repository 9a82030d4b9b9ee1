/**
 * The decoded JSON messages the MVR-xchange callbacks receive: a JSON value
 * and a message as the key-to-value object at its top level.
 */
module Json {

  /** JSON numbers are kept as integers; the callbacks never look at them. */
  datatype Value =
    | Null
    | Bool(b: bool)
    | Num(n: int)
    | Str(s: string)
    | Arr(items: seq<Value>)
    | Obj(fields: map<string, Value>)

  /** A decoded message (a Python `dict`). */
  type Message = map<string, Value>

  /** Python's `data.get(key, default)`. */
  function Get(data: Message, key: string, default: Value): (v: Value)
    ensures key in data ==> v == data[key]
    ensures key !in data ==> v == default
  {
    if key in data then data[key] else default
  }
}

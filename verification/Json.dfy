/** JSON values, as far as the gateway looks into requests and responses. */
module Json {
  import opened Common

  datatype Json =
    | Null
    | Bool(b: bool)
    | Num(n: int)
    | Frac(r: real)
    | Str(s: string)
    | Arr(items: seq<Json>)
    | Obj(fields: map<string, Json>)

  /** `Value::get` with a string index: nothing unless the value is an object holding the key. */
  function Get(j: Json, key: string): Option<Json> {
    if j.Obj? && key in j.fields then Some(j.fields[key]) else None
  }

  /** The object with one field set. */
  function Set(j: Json, key: string, v: Json): Json
    requires j.Obj?
  {
    Obj(j.fields[key := v])
  }
}

/** JSON values, as the payloads and the views of the API carry them. */
module Json {
  import opened Wrappers

  /** A number keeps its text, which `serde_json` derives from the value. */
  datatype Value =
    | Null
    | Bool(b: bool)
    | Num(value: real, text: string)
    | Str(s: string)
    | Arr(items: seq<Value>)
    | Obj(members: map<string, Value>)

  /** `Value::get`: a member of an object; `None` of anything else. */
  function Get(v: Value, name: string): Option<Value> {
    if v.Obj? && name in v.members then Some(v.members[name]) else None
  }

  /** `Value::as_f64`. */
  function AsNumber(v: Value): Option<real> {
    if v.Num? then Some(v.value) else None
  }

  function GetNumber(v: Value, name: string): Option<real> {
    match Get(v, name)
    case Some(n) => AsNumber(n)
    case None => None
  }
}

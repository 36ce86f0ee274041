/** JSON values, as far as the gateway inspects them */
module Json {
  import opened Options

  datatype Json =
    | Null
    | Bool(b: bool)
    | Number(n: int)
    | Text(s: string)
    | Array(items: seq<Json>)
    | Object(fields: map<string, Json>)

  type Fields = map<string, Json>

  function FieldOf(fields: Fields, key: string): Option<Json> {
    if key in fields then Some(fields[key]) else None
  }

  /** `Value::get(key)`: absent on anything but an object */
  function Get(v: Json, key: string): Option<Json> {
    if v.Object? then FieldOf(v.fields, key) else None
  }

  /** `Value::get(key).and_then(Value::as_str)` */
  function GetText(v: Json, key: string): Option<string> {
    var f := Get(v, key);
    if f.Some? && f.value.Text? then Some(f.value.s) else None
  }

  /** `Value::get(key).and_then(Value::as_array)` */
  function GetArray(v: Json, key: string): Option<seq<Json>> {
    var f := Get(v, key);
    if f.Some? && f.value.Array? then Some(f.value.items) else None
  }

  /** Insert the value, or remove the key when there is none */
  function SetField(fields: Fields, key: string, value: Option<Json>): Fields {
    if value.Some? then fields[key := value.value] else fields - {key}
  }
}

/** JSON values as Go holds them after decoding (`map[string]any`, `[]any`, strings, ...). */
module Json {

  datatype Json =
    | Null
    | Bool(b: bool)
    | Number(value: real)
    | Str(s: string)
    | Arr(items: seq<Json>)
    | Obj(fields: map<string, Json>)

  type Object = map<string, Json>

  /** The array under `key`, or nothing when the key is absent or holds another type. */
  function ArrayAt(o: Object, key: string): (r: seq<Json>)
    ensures r != [] ==> key in o && o[key] == Arr(r)
  {
    if key in o && o[key].Arr? then o[key].items else []
  }

  /** The string under `key`, or "" when the key is absent or holds another type. */
  function StringAt(o: Object, key: string): (r: string)
    ensures r != "" ==> key in o && o[key] == Str(r)
  {
    if key in o && o[key].Str? then o[key].s else ""
  }
}

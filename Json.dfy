/** Parsed JSON values, as `json.loads` returns them and `jsonify` sends them. */
module Json {

  /** Numbers are kept as integers: the model only moves them around. */
  datatype Json =
    | Null
    | Bool(b: bool)
    | Number(n: int)
    | Str(s: string)
    | Array(items: seq<Json>)
    | Object(fields: map<string, Json>)

  /** `d.get(key, [])` on a parsed object. */
  function GetOrEmpty(fields: map<string, Json>, key: string): (v: Json)
    ensures key in fields ==> v == fields[key]
    ensures key !in fields ==> v == Array([])
  {
    if key in fields then fields[key] else Array([])
  }
}

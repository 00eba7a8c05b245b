/** The values `json.loads` produces (floating-point numbers are not part of this model). */
module JsonValues {

  datatype Json =
    | Null
    | Bool(b: bool)
    | Int(i: int)
    | Str(s: string)
    | Array(items: seq<Json>)
    | Object(members: map<string, Json>)
}

/** JSON values as the notebook front-end config files hold them. A section
    document is a JSON object: a map from top-level keys to values. */
module Json {

  datatype Value =
    | Null
    | Bool(b: bool)
    | Number(n: int)
    | Str(s: string)
    | List(items: seq<Value>)
    | Object(fields: map<string, Value>)

  type Document = map<string, Value>
}

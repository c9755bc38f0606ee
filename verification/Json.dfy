/** The JSON values artifacts are dumped to and patched with. */
module Json {

  datatype Json =
    | Null
    | Bool(flag: bool)
    | Number(digits: string)
    | Text(text: string)
    | Array(items: seq<Json>)
    | Object(fields: map<string, Json>)
}

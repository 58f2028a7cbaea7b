/** An already-decoded JSON document, as Godot's `Json.Parse` hands it over.
    Godot 4 decodes every JSON number as a double, so there is one numeric
    case and integers are recovered by truncation. */
module Json {

  datatype Json =
    | JNull
    | JBool(b: bool)
    | JNum(n: real)
    | JStr(s: string)
    | JArr(items: seq<Json>)
    | JObj(fields: map<string, Json>)
}

/** JSON values as Python's `json` module and the extractor hand them over. */
module JsonValue {

  /** Numbers are kept as integers: the core only moves them around. */
  datatype Json =
    | JNull
    | JBool(b: bool)
    | JNum(n: int)
    | JStr(str: string)
    | JArr(items: seq<Json>)
    | JObj(fields: map<string, Json>)
}

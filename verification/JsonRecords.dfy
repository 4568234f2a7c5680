/** JSON values, as far as node inputs and outputs are built from them. */
module JsonRecords {
  datatype Json =
    | JNull
    | JBool(b: bool)
    | JNumber(n: real)
    | JString(s: string)
    | JArray(items: seq<Json>)
    | JObject(fields: map<string, Json>)

  type Record = map<string, Json>
}

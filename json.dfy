/** JSON values, as fastjson's JSONObject/JSONArray and JavaScript hold them. */
module JsonValues {

  datatype Json =
    | JNull
    | JBool(b: bool)
    | JInt(i: int)
    | JStr(s: string)
    | JArr(items: seq<Json>)
    | JObj(members: map<string, Json>)

  /** A JSON object: fastjson's JSONObject, whose `put` is map update. */
  type JsonObject = map<string, Json>
}

/**
 * The already-parsed JSON values that the handlers of the server receive in a
 * request body, with JavaScript's notion of truthiness.
 */
module Json {

  /** A parsed JSON value; `JUndefined` stands for a property that is absent. */
  datatype Json =
    | JUndefined
    | JNull
    | JBool(b: bool)
    | JNum(n: int)
    | JStr(s: string)
    | JArr(items: seq<Json>)
    | JObj(fields: seq<(string, Json)>)

  /**
   * JavaScript truthiness: `undefined`, `null`, `false`, `0` and the empty string
   * are falsy; every array and every object (even an empty one) is truthy.
   */
  function Truthy(v: Json): (b: bool)
    ensures !b <==> v in {JUndefined, JNull, JBool(false), JNum(0), JStr("")}
  {
    match v
    case JUndefined => false
    case JNull => false
    case JBool(b) => b
    case JNum(n) => n != 0
    case JStr(s) => s != ""
    case JArr(_) => true
    case JObj(_) => true
  }
}

/**
 * Plain JavaScript values as they appear in the machine's extended state,
 * in event payloads and in the settings object. Objects are finite maps from
 * property names to values, so a value may nest other values.
 */
module Values {

  datatype Value =
    | Undefined
    | Null
    | Bool(b: bool)
    | Num(n: int)
    | Str(s: string)
    | Obj(fields: map<string, Value>)

  /**
   * JavaScript truthiness, restricted to the values above (no NaN, no -0):
   * the falsy ones are exactly undefined, null, false, 0 and "".
   */
  predicate Truthy(v: Value)
    ensures !Truthy(v) <==> v in {Undefined, Null, Bool(false), Num(0), Str("")}
  {
    match v
    case Undefined => false
    case Null => false
    case Bool(b) => b
    case Num(n) => n != 0
    case Str(s) => s != ""
    case Obj(_) => true
  }
}

/** JSON values as request bodies and audit details carry them, and zod's view of an object field. */
module Json {
  import opened Wrappers

  /** A parsed JSON value. JSON has no NaN or infinity, so every number is finite. */
  datatype Json =
    | JNull
    | JBool(b: bool)
    | JNum(n: real)
    | JStr(s: string)
    | JArr(elems: seq<Json>)
    | JObj(fields: map<string, Json>)

  /**
   * One field of a zod-parsed object: missing (`undefined`), explicitly `null`,
   * or a validated value.
   */
  datatype Field<+T> = Absent | Null | Present(value: T) {

    /** `field ?? default`: both `undefined` and `null` give the default. */
    function OrElse(default: T): T {
      match this
      case Present(v) => v
      case _ => default
    }

    /** `field ?? null`, as stored in a nullable column. */
    function ToOption(): Option<T> {
      match this
      case Present(v) => Some(v)
      case _ => None
    }
  }

  /** True when the value is an integer (zod's `.int()`). */
  predicate IsInteger(x: real) {
    x.Floor as real == x
  }
}

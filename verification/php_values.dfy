/** PHP values as the component sees them, and PHP's notion of truthiness. */
module PhpValues {

  /**
   * A PHP value. Floats and resources are not modelled, and arrays are
   * modelled as lists (no string keys). Within these values, PHP's `===`
   * is equality here (objects compare by handle).
   */
  datatype Value =
    | Null
    | Bool(b: bool)
    | Int(i: int)
    | Str(s: string)
    | Arr(items: seq<Value>)
    | Obj(handle: nat)

  /** How PHP converts a value to a boolean in `if ($v)`. */
  predicate Truthy(v: Value) {
    match v
    case Null => false
    case Bool(b) => b
    case Int(i) => i != 0
    case Str(s) => s != "" && s != "0"
    case Arr(items) => |items| > 0
    case Obj(_) => true
  }
}

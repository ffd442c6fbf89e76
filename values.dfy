/**
 * The argument values a caller passes to an endpoint. Only the Python type
 * matters to the checks, and only `str()` of a value ends up in a URL.
 */
module Values {
  import PyStr

  /**
   * A Python value by type: `int`, `bool` (a subclass of `int`), `float`,
   * `str`, or any other object. A float or other object carries the text
   * `str()` gives for it.
   */
  datatype Value =
    | Int(i: int)
    | Bool(b: bool)
    | Float(text: string)
    | Str(s: string)
    | Other(text: string)

  /** `isinstance(v, int)`: true of booleans as well. */
  predicate IsInt(v: Value) {
    v.Int? || v.Bool?
  }

  /** `str(v)`. */
  function Render(v: Value): string {
    match v
    case Int(i) => PyStr.DecimalString(i)
    case Bool(b) => if b then "True" else "False"
    case Float(text) => text
    case Str(s) => s
    case Other(text) => text
  }
}

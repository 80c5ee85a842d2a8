/** The loosely typed scalars the dashboard reads out of a quote snapshot,
    and the "N/A"-or-value shape every formatter returns. */
module Values {

  /** A Python scalar as it can appear in a quote snapshot. Floats are exact
      reals: NaN and the infinities are not modelled. */
  datatype Value =
    | Absent                 // Python `None`
    | Bool(b: bool)
    | Int(i: int)
    | Float(x: real)
    | Str(s: string)         // text, `str` or `bytes`, that `float()` parses
    // an object of another type that `float()` converts to `x` through
    // `__float__` or `__index__` (`Decimal`, `Fraction`, a numpy scalar, ...)
    | FloatLike(x: real)
    // an object that `float()` refuses with `TypeError` (a list, a dict, ...)
    | Other

  /** `isinstance(v, (int, float))`. In Python `bool` is a subclass of
      `int`, so booleans pass this test. */
  predicate IsIntOrFloat(v: Value) {
    v.Bool? || v.Int? || v.Float?
  }

  /** The numeric value of an int, float or bool, as Python's arithmetic
      sees it (`True` behaves as 1, `False` as 0). */
  function Numeric(v: Value): real
    requires IsIntOrFloat(v)
  {
    match v
    case Bool(b) => if b then 1.0 else 0.0
    case Int(i) => i as real
    case Float(x) => x
  }

  datatype Option<T> = None | Some(value: T)

  /** A table cell before rendering: either the literal "N/A" or a value. */
  datatype Display<T> = NA | Shown(value: T)
}

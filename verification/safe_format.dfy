/** `safe_format`: converts a value with Python's `float()` and renders it
    with two decimals, falling back to "N/A" when the conversion raises
    `TypeError` or `ValueError`. The model returns the converted number; the
    decimal rendering is not modelled. */
module SafeFormat {
  import opened Values
  import Magnitude

  /** The outcome of Python's `float(value)`. */
  datatype Conversion = Converted(x: real) | TypeError | ValueError

  /** `float(value)`. Parsing the text of a string is Python's own decimal
      parser, given here as `parse`: `None` stands for the `ValueError` it
      raises on text that is not a number. */
  function PyFloat(v: Value, parse: string -> Option<real>): (r: Conversion)
    ensures r.TypeError? <==> v.Absent? || v.Other?
    ensures r.ValueError? <==> v.Str? && parse(v.s).None?
    ensures IsIntOrFloat(v) ==> r == Converted(Numeric(v))
    ensures v.FloatLike? ==> r == Converted(v.x)
    ensures v.Str? && parse(v.s).Some? ==> r == Converted(parse(v.s).value)
  {
    match v
    case Absent => TypeError
    case Other => TypeError
    case Str(s) => if parse(s).Some? then Converted(parse(s).value) else ValueError
    case FloatLike(x) => Converted(x)
    case _ => Converted(Numeric(v))
  }

  /** `safe_format(value)`: both conversion errors become "N/A"; nothing
      else is caught. */
  function SafeFormat(v: Value, parse: string -> Option<real>): (r: Display<real>)
    ensures r.NA? <==> v.Absent? || v.Other? || (v.Str? && parse(v.s).None?)
    ensures r.Shown? ==> PyFloat(v, parse) == Converted(r.value)
  {
    match PyFloat(v, parse)
    case Converted(x) => Shown(x)
    case TypeError => NA
    case ValueError => NA
  }

  /** An absent value is "N/A" whatever the string parser does. */
  lemma AbsentIsNotAvailable(parse: string -> Option<real>)
    ensures SafeFormat(Absent, parse) == NA
  {
  }

  /** Where `format_value` shows a scaled amount, `safe_format` shows the
      unscaled number it came from. Where `format_value` says "N/A",
      `safe_format` agrees for None and unconvertible objects, but still
      shows the number of an object `float()` converts. */
  lemma AgreesWithFormatValue(v: Value, parse: string -> Option<real>)
    ensures Magnitude.FormatValue(v).Shown? ==>
      SafeFormat(v, parse)
      == Shown(Magnitude.FormatValue(v).value.value * Magnitude.Pow1000(Magnitude.FormatValue(v).value.index))
    ensures v.Absent? || v.Other? ==> Magnitude.FormatValue(v) == NA && SafeFormat(v, parse) == NA
    ensures v.FloatLike? ==> Magnitude.FormatValue(v) == NA && SafeFormat(v, parse) == Shown(v.x)
  {
    if IsIntOrFloat(v) {
      Magnitude.FormatValueProduct(v);
    }
  }

  /** The two formatters differ on numeric text: `format_value` rejects
      every string, `safe_format` accepts one its parser reads. */
  lemma NumericTextOnlyInSafeFormat(s: string, parse: string -> Option<real>)
    requires parse(s).Some?
    ensures Magnitude.FormatValue(Str(s)) == NA
    ensures SafeFormat(Str(s), parse) == Shown(parse(s).value)
  {
  }

  /** `safe_format(3)` shows 3, `safe_format("3.14159")` shows the parsed
      number, and `safe_format(None)` is "N/A". */
  lemma Examples(parse: string -> Option<real>)
    requires parse("3.14159") == Some(3.14159)
    ensures SafeFormat(Int(3), parse) == Shown(3.0)
    ensures SafeFormat(Str("3.14159"), parse) == Shown(3.14159)
    ensures SafeFormat(Absent, parse) == NA
  {
  }
}

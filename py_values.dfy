/** The untyped values that flow through the job client: values read from a
    job's YAML configuration (and written into the scheduler payload), the
    exceptions the client raises, and a result type for "returns or raises". */
module PyValues {
  import opened Strings

  datatype Option<+T> = None | Some(value: T)

  /** A configuration value as the YAML loader produces it. `Opaque` stands
      for any other value (a float, a mapping, ...) and carries the text
      Python's `str()` gives for it. */
  datatype Value =
    | Null
    | Bool(b: bool)
    | Int(n: int)
    | Str(s: string)
    | List(items: seq<Value>)
    | Opaque(text: string)

  /** The exceptions raised by the client code. `TypeError` is raised by
      library code on a value of the wrong type; it records that value. */
  datatype Exception =
    | TypeError(culprit: Value)
    | ValueError(message: string)
    | InvalidChronosConfigError(message: string)
    | ChronosNotConfigured(message: string)

  /** A call that either returns a value or raises. */
  datatype Result<+T> = Ok(value: T) | Raise(error: Exception)

  /** Python 2 `int` is a machine word; a YAML integer outside this range
      loads as a `long`, which is not an instance of `int`. PyYAML's integer
      constructor builds a negative integer as `-1 * int(digits)`, and the
      digits of -2^63 alone already make a `long`, which the sign leaves a
      `long`: so the lowest configured `int` is -(2^63 - 1), not -2^63. */
  const PyIntMin: int := -0x7FFF_FFFF_FFFF_FFFF
  const PyIntMax: int := 0x7FFF_FFFF_FFFF_FFFF

  /** `isinstance(v, int)` under Python 2: `bool` is a subclass of `int`. */
  function IsPyInt(v: Value): (isInt: bool)
    ensures v.Bool? ==> isInt
    ensures v.Int? ==> (isInt <==> PyIntMin <= v.n <= PyIntMax)
    ensures isInt ==> v.Bool? || v.Int?
  {
    v.Bool? || (v.Int? && PyIntMin <= v.n <= PyIntMax)
  }

  /** `'%s' % v`: the text Python's `str()` gives for the value. Strings
      inside a list are shown quoted, as `repr` does; escapes inside them
      are not rendered. */
  function Show(v: Value): (text: string)
    ensures v.Null? ==> text == "None"
    ensures v.Bool? ==> text == (if v.b then "True" else "False")
    ensures v.Str? ==> text == v.s
    ensures v.Int? ==> text == Decimal(v.n)
    ensures v.List? ==> |text| >= 2 && text[0] == '[' && text[|text| - 1] == ']'
    decreases v, 1
  {
    match v
    case Null => "None"
    case Bool(b) => if b then "True" else "False"
    case Int(n) => Decimal(n)
    case Str(s) => s
    case List(items) => "[" + ShowItems(v, 0) + "]"
    case Opaque(text) => text
  }

  /** The items of list `l` from index `i` on, as `repr`s joined by ", ". */
  function ShowItems(l: Value, i: nat): string
    requires l.List? && i <= |l.items|
    decreases l, 0, |l.items| - i
  {
    if i == |l.items| then ""
    else
      var x := l.items[i];
      var shown := if x.Str? then "'" + x.s + "'" else Show(x);
      shown + (if i + 1 == |l.items| then "" else ", " + ShowItems(l, i + 1))
  }
}

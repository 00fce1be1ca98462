/** The length units the editors offer and their millimetre factors
    (the `UNITS` table shared by the piece list and the preset library). */
module Units {

  datatype Unit = Mm | Cm | M | In

  /** Millimetres per unit. */
  function Factor(u: Unit): (f: real)
    ensures f > 0.0
    ensures u == Mm ==> f == 1.0
  {
    match u
    case Mm => 1.0
    case Cm => 10.0
    case M => 1000.0
    case In => 25.4
  }

  /** `convertDimension`: through millimetres, from one unit to another. */
  function Convert(value: real, from: Unit, to: Unit): (r: real)
    ensures r * Factor(to) == value * Factor(from)
  {
    value * Factor(from) / Factor(to)
  }

  /** Converting to the same unit is the identity. */
  lemma ConvertSameUnit(value: real, u: Unit)
    ensures Convert(value, u, u) == value
  {
  }

  /** Converting there and back returns the original value. */
  lemma ConvertRoundTrip(value: real, a: Unit, b: Unit)
    ensures Convert(Convert(value, a, b), b, a) == value
  {
    var mid := Convert(value, a, b);
    assert mid * Factor(b) == value * Factor(a);
  }

  /** Conversions compose: a to b then b to c is a to c. */
  lemma ConvertCompose(value: real, a: Unit, b: Unit, c: Unit)
    ensures Convert(Convert(value, a, b), b, c) == Convert(value, a, c)
  {
    var mid := Convert(value, a, b);
    assert mid * Factor(b) == value * Factor(a);
  }

  /** Conversion preserves sign: non-negative lengths stay non-negative. */
  lemma ConvertNonNegative(value: real, a: Unit, b: Unit)
    requires value >= 0.0
    ensures Convert(value, a, b) >= 0.0
  {
  }
}

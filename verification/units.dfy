/**
 * Mass-unit conversion (`CalibrationData.convert_unit`). Every conversion
 * pivots through grams; an unrecognised source unit is read as grams and an
 * unrecognised target unit returns the gram value unchanged. Nothing raises.
 */
module Units {
  import opened Common

  const GramsPerKilogram: real := 1000.0
  const GramsPerOunce: real := 28.3495
  const GramsPerPound: real := 453.592
  const OuncesPerGram: real := 0.03527396195
  const PoundsPerGram: real := 0.00220462262

  predicate IsPound(u: string) {
    u == "lb" || u == "lbs"
  }

  /** The units `convert_unit` recognises; any other string is passed through. */
  predicate IsKnownUnit(u: string) {
    u == "g" || u == "kg" || u == "oz" || IsPound(u)
  }

  /** First half of the pivot: the value expressed in grams. */
  function ToGrams(value: real, fromUnit: string): (g: real)
    ensures !IsKnownUnit(fromUnit) ==> g == value
    ensures fromUnit == "g" ==> g == value
    ensures fromUnit == "kg" ==> g == value * 1000.0
    ensures fromUnit == "oz" ==> g == value * 28.3495
    ensures IsPound(fromUnit) ==> g == value * 453.592
  {
    if fromUnit == "kg" then value * GramsPerKilogram
    else if fromUnit == "oz" then value * GramsPerOunce
    else if IsPound(fromUnit) then value * GramsPerPound
    else value
  }

  /** Second half of the pivot: a gram value expressed in the target unit. */
  function FromGrams(grams: real, toUnit: string): (v: real)
    ensures !IsKnownUnit(toUnit) ==> v == grams
    ensures toUnit == "g" ==> v == grams
    ensures toUnit == "kg" ==> v * 1000.0 == grams
    ensures toUnit == "oz" ==> v == grams * 0.03527396195
    ensures IsPound(toUnit) ==> v == grams * 0.00220462262
  {
    if toUnit == "g" then grams
    else if toUnit == "kg" then grams / GramsPerKilogram
    else if toUnit == "oz" then grams * OuncesPerGram
    else if IsPound(toUnit) then grams * PoundsPerGram
    else grams
  }

  /** Multiplicative factor of a conversion into grams. */
  function GramFactor(u: string): (f: real)
    ensures 0.0 < f
  {
    if u == "kg" then GramsPerKilogram
    else if u == "oz" then GramsPerOunce
    else if IsPound(u) then GramsPerPound
    else 1.0
  }

  /** Multiplicative factor of a conversion out of grams. */
  function UnitFactor(u: string): (f: real)
    ensures 0.0 < f
  {
    if u == "g" then 1.0
    else if u == "kg" then 1.0 / GramsPerKilogram
    else if u == "oz" then OuncesPerGram
    else if IsPound(u) then PoundsPerGram
    else 1.0
  }

  /**
   * `convert_unit(value, from_unit, to_unit)`: multiplication by a positive
   * constant that depends only on the two unit names, so it preserves sign
   * and order. Grams and unrecognised units are the identity in either
   * position.
   */
  function ConvertUnit(value: real, fromUnit: string, toUnit: string): (r: real)
    ensures r == value * GramFactor(fromUnit) * UnitFactor(toUnit)
    ensures !IsKnownUnit(fromUnit) ==> r == FromGrams(value, toUnit)
    ensures !IsKnownUnit(toUnit) ==> r == ToGrams(value, fromUnit)
    ensures (fromUnit == "g" || !IsKnownUnit(fromUnit)) && (toUnit == "g" || !IsKnownUnit(toUnit)) ==> r == value
  {
    FromGrams(ToGrams(value, fromUnit), toUnit)
  }

  lemma ConvertMonotone(a: real, b: real, fromUnit: string, toUnit: string)
    requires a <= b
    ensures ConvertUnit(a, fromUnit, toUnit) <= ConvertUnit(b, fromUnit, toUnit)
  {
    var f := GramFactor(fromUnit) * UnitFactor(toUnit);
    assert a * f <= b * f;
  }

  /** "lb" and "lbs" are the same unit in both positions. */
  lemma PoundAliases(value: real, u: string)
    ensures ConvertUnit(value, "lb", u) == ConvertUnit(value, "lbs", u)
    ensures ConvertUnit(value, u, "lb") == ConvertUnit(value, u, "lbs")
  {
  }

  /**
   * Round trip through any unit and back to grams: exact for g, kg and
   * unknown units, and within one part per million for ounces and pounds
   * (the two factors are rounded reciprocals).
   */
  lemma RoundTripFromGrams(x: real, u: string)
    ensures u == "kg" || u == "g" || !IsKnownUnit(u) ==> ConvertUnit(ConvertUnit(x, "g", u), u, "g") == x
    ensures Abs(ConvertUnit(ConvertUnit(x, "g", u), u, "g") - x) <= Abs(x) / 1000000.0
  {
    var y := ConvertUnit(ConvertUnit(x, "g", u), u, "g");
    if u == "oz" {
      assert y == x * (0.03527396195 * 28.3495);
    } else if IsPound(u) {
      assert y == x * (0.00220462262 * 453.592);
    }
  }

  /** The same bound for the round trip that starts in the other unit. */
  lemma RoundTripToGrams(x: real, u: string)
    ensures u == "kg" || u == "g" || !IsKnownUnit(u) ==> ConvertUnit(ConvertUnit(x, u, "g"), "g", u) == x
    ensures Abs(ConvertUnit(ConvertUnit(x, u, "g"), "g", u) - x) <= Abs(x) / 1000000.0
  {
    var y := ConvertUnit(ConvertUnit(x, u, "g"), "g", u);
    if u == "oz" {
      assert y == x * (28.3495 * 0.03527396195);
    } else if IsPound(u) {
      assert y == x * (453.592 * 0.00220462262);
    }
  }
}

/** Unit normalisation for shipping: weights to kilograms, lengths to
    centimetres, with BigDecimal's HALF_UP rounding to a fixed scale. */
module Units {
  import opened Wrappers
  import opened Text
  import opened Catalog

  /** k is the integer nearest to y, with ties rounded away from zero: k is
      at most half from y, and on a tie it lies above a non-negative y and
      below a negative one. For y = x * 10^n this is the unscaled value of
      BigDecimal.setScale(n, RoundingMode.HALF_UP) applied to x. */
  ghost predicate RoundsHalfUp(y: real, k: int) {
    var d := k as real - y;
    && -0.5 <= d <= 0.5
    && (d == 0.5 ==> y >= 0.0)
    && (d == -0.5 ==> y < 0.0)
  }

  /** Rounding half-up to an integer. */
  function HalfUpUnits(y: real): (k: int)
    ensures RoundsHalfUp(y, k)
  {
    if y >= 0.0 then (y + 0.5).Floor else -((-y + 0.5).Floor)
  }

  /** At most one integer rounds y half-up, so HalfUpUnits is the only function
      meeting its contract. */
  lemma HalfUpUnitsUnique(y: real, k: int)
    requires RoundsHalfUp(y, k)
    ensures k == HalfUpUnits(y)
  {
    var j := HalfUpUnits(y);
    assert -1.0 <= (k - j) as real <= 1.0;
  }

  /** convertWeightToKg: 0 for a missing weight, value or unit; otherwise by
      lower-cased unit: kg unchanged, g divided by 1000 and lb multiplied by
      0.453592, both rounded to 3 places; any other unit passes the value through. */
  function ConvertWeightToKg(w: Option<Weight>): real {
    match w
    case None => 0.0
    case Some(Weight(value, unit)) =>
      if value.None? || unit.None? then 0.0
      else
        var v, u := value.value, ToLower(unit.value);
        if u == "kg" then v
        else if u == "g" then HalfUpUnits(v / 1000.0 * 1000.0) as real / 1000.0
        else if u == "lb" then HalfUpUnits(v * 0.453592 * 1000.0) as real / 1000.0
        else v
  }

  /** convertDimensionToCm: 0 for a missing value or unit; otherwise by
      lower-cased unit: cm unchanged, mm divided by 10 and inch multiplied by
      2.54, both rounded to 2 places; any other unit passes the value through. */
  function ConvertDimensionToCm(value: Option<real>, unit: Option<string>): real {
    if value.None? || unit.None? then 0.0
    else
      var v, u := value.value, ToLower(unit.value);
      if u == "cm" then v
      else if u == "mm" then HalfUpUnits(v / 10.0 * 100.0) as real / 100.0
      else if u == "inch" then HalfUpUnits(v * 2.54 * 100.0) as real / 100.0
      else v
  }

  /** x is a whole number of units of 1/p, and that number rounds y half-up. */
  ghost predicate AtScale(x: real, p: real, y: real) {
    x * p == (x * p).Floor as real && RoundsHalfUp(y, (x * p).Floor)
  }

  /** What convertWeightToKg returns: 0 without a value or unit; the value
      for kg and for unknown units; for g and lb the exact weight in kg rounded
      half-up to a whole number of grams, so within half a gram of it. */
  lemma WeightToKgCases(w: Option<Weight>)
    ensures w.None? || w.value.value.None? || w.value.unit.None? ==> ConvertWeightToKg(w) == 0.0
    ensures w.Some? && w.value.value.Some? && w.value.unit.Some? ==>
      var kg, v, u := ConvertWeightToKg(w), w.value.value.value, ToLower(w.value.unit.value);
      && (u == "kg" ==> kg == v)
      && (u == "g" ==> AtScale(kg, 1000.0, v / 1000.0 * 1000.0) && -0.0005 <= kg - v / 1000.0 <= 0.0005)
      && (u == "lb" ==> AtScale(kg, 1000.0, v * 0.453592 * 1000.0) && -0.0005 <= kg - v * 0.453592 <= 0.0005)
      && (u != "kg" && u != "g" && u != "lb" ==> kg == v)
  {
    if w.Some? && w.value.value.Some? && w.value.unit.Some? {
      var v, u := w.value.value.value, ToLower(w.value.unit.value);
      if u == "g" {
        RoundingTo3(v / 1000.0);
      } else if u == "lb" {
        RoundingTo3(v * 0.453592);
      }
    }
  }

  /** What convertDimensionToCm returns: 0 without a value or unit; the
      value for cm and for unknown units; for mm and inch the exact length in
      cm rounded half-up to a whole number of hundredths, so within half a
      hundredth of it. */
  lemma DimensionToCmCases(value: Option<real>, unit: Option<string>)
    ensures value.None? || unit.None? ==> ConvertDimensionToCm(value, unit) == 0.0
    ensures value.Some? && unit.Some? ==>
      var cm, v, u := ConvertDimensionToCm(value, unit), value.value, ToLower(unit.value);
      && (u == "cm" ==> cm == v)
      && (u == "mm" ==> AtScale(cm, 100.0, v / 10.0 * 100.0) && -0.005 <= cm - v / 10.0 <= 0.005)
      && (u == "inch" ==> AtScale(cm, 100.0, v * 2.54 * 100.0) && -0.005 <= cm - v * 2.54 <= 0.005)
      && (u != "cm" && u != "mm" && u != "inch" ==> cm == v)
  {
    if value.Some? && unit.Some? {
      var v, u := value.value, ToLower(unit.value);
      if u == "mm" {
        RoundingTo2(v / 10.0);
      } else if u == "inch" {
        RoundingTo2(v * 2.54);
      }
    }
  }

  /** Rounding x to 3 places: a whole number of thousandths that rounds
      x * 1000, within half a thousandth of x. */
  lemma RoundingTo3(x: real)
    ensures var r := HalfUpUnits(x * 1000.0) as real / 1000.0;
      AtScale(r, 1000.0, x * 1000.0) && -0.0005 <= r - x <= 0.0005
  {
    var k := HalfUpUnits(x * 1000.0);
    assert (k as real / 1000.0 * 1000.0).Floor == k;
  }

  /** Rounding x to 2 places: a whole number of hundredths that rounds
      x * 100, within half a hundredth of x. */
  lemma RoundingTo2(x: real)
    ensures var r := HalfUpUnits(x * 100.0) as real / 100.0;
      AtScale(r, 100.0, x * 100.0) && -0.005 <= r - x <= 0.005
  {
    var k := HalfUpUnits(x * 100.0);
    assert (k as real / 100.0 * 100.0).Floor == k;
  }

  /** Upper-case unit names are accepted: 1500 "G" is 1.5 kg. */
  lemma GramsInUpperCase()
    ensures ConvertWeightToKg(Some(Weight(Some(1500.0), Some("G")))) == 1.5
  {
    assert ToLower("G") == "g";
    HalfUpUnitsUnique(1500.0, 1500);
  }

  /** Half a hundredth rounds up: 0.05 mm is 0.01 cm, not 0.00; and
      1 lb is 0.454 kg. */
  lemma HalfUpExamples()
    ensures ConvertDimensionToCm(Some(0.05), Some("mm")) == 0.01
    ensures ConvertWeightToKg(Some(Weight(Some(1.0), Some("lb")))) == 0.454
  {
    assert ToLower("mm") == "mm";
    HalfUpUnitsUnique(0.5, 1);
    assert ToLower("lb") == "lb";
    HalfUpUnitsUnique(453.592, 454);
  }
}

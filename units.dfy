/** The unit-reconciliation rule of a Renpho sensor: which unit the sensor
    reports for a (preferred unit, native unit) pair, and which transform it
    applies to a value read from the coordinator before storing it. */
module Units {
  import opened Wrappers

  /** Units are plain strings. The values of the integration's constants
      `MASS_KILOGRAMS` and `MASS_POUNDS` are assumed to be "kg" and "lb";
      the model relies only on their being distinct and non-empty. */
  type UnitTag = string

  const MassKilograms: UnitTag := "kg"
  const MassPounds: UnitTag := "lb"

  /** Pounds per kilogram. */
  const KgToLbs: real := 2.2046226218

  // ---------------------------------------------------------------------
  // Python's `and` / `or`, which return one of their operands
  // ---------------------------------------------------------------------

  /** The two kinds of operand that occur in the guard of the last branch. */
  datatype PyValue = PyBool(b: bool) | PyStr(s: string)

  /** Python truthiness: `False` and the empty string are falsy. */
  predicate Truthy(v: PyValue) {
    match v
    case PyBool(b) => b
    case PyStr(s) => s != ""
  }

  /** `a or b`: the first operand if it is truthy, otherwise the second. */
  function PyOr(a: PyValue, b: PyValue): (r: PyValue)
    ensures Truthy(r) <==> Truthy(a) || Truthy(b)
    ensures r == a || r == b
  {
    if Truthy(a) then a else b
  }

  /** `a and b`: the first operand if it is falsy, otherwise the second. */
  function PyAnd(a: PyValue, b: PyValue): (r: PyValue)
    ensures Truthy(r) <==> Truthy(a) && Truthy(b)
    ensures r == a || r == b
  {
    if Truthy(a) then b else a
  }

  /** The condition of the last `elif` of `unit_of_measurement` and `unit`,
      `pref == MASS_KILOGRAMS or MASS_POUNDS and native != MASS_KILOGRAMS or MASS_POUNDS`,
      grouped as Python groups it: `and` binds tighter than `or`, and `or`
      associates to the left. Its last operand is the constant `MASS_POUNDS`,
      a non-empty string, so the condition holds for every pair of units. */
  function FallbackGuard(pref: UnitTag, native: UnitTag): (g: PyValue)
    ensures Truthy(g)
  {
    PyOr(
      PyOr(PyBool(pref == MassKilograms),
           PyAnd(PyStr(MassPounds), PyBool(native != MassKilograms))),
      PyStr(MassPounds))
  }

  // ---------------------------------------------------------------------
  // The reported unit
  // ---------------------------------------------------------------------

  /** The unit the sensor reports, branch for branch as the property is
      written; a Python property that falls off the end returns `None`.
      Because the last guard always holds, the result is never `None`: it is
      pounds for a kilogram sensor whose user prefers pounds, and the native
      unit for every other pair. */
  function ReportedUnit(pref: UnitTag, native: UnitTag): (r: Option<UnitTag>)
    ensures r.Some?
    ensures pref == MassPounds && native == MassKilograms ==> r == Some(MassPounds)
    ensures pref == MassKilograms && native == MassKilograms ==> r == Some(MassKilograms)
    ensures pref == MassPounds && native == MassPounds ==> r == Some(MassPounds)
    ensures !(pref == MassPounds && native == MassKilograms) ==> r == Some(native)
  {
    if pref == MassPounds && native == MassKilograms then Some(MassPounds)
    else if pref == MassKilograms && native == MassKilograms then Some(MassKilograms)
    else if pref == MassPounds && native == MassPounds then Some(MassPounds)
    else if Truthy(FallbackGuard(pref, native)) then Some(native)
    else None
  }

  // ---------------------------------------------------------------------
  // Rounding to two decimals
  // ---------------------------------------------------------------------

  /** A real that is a whole number of hundredths. */
  predicate IsHundredths(x: real) {
    (x * 100.0).Floor as real == x * 100.0
  }

  /** `round(x, 2)` on the exact value of `x`: the nearest hundredth, and on a
      tie the hundredth whose count is even, as Python rounds. */
  function RoundHundredths(x: real): (r: real)
    ensures IsHundredths(r)
    ensures -0.005 <= r - x <= 0.005
    ensures IsHundredths(x) ==> r == x
  {
    var y := x * 100.0;
    var f := y.Floor;
    var d := y - f as real;
    var n := if d < 0.5 then f
             else if d > 0.5 then f + 1
             else if f % 2 == 0 then f
             else f + 1;
    assert (n as real / 100.0) * 100.0 == n as real;
    n as real / 100.0
  }

  /** Rounding a rounded value changes nothing. */
  lemma RoundHundredthsIdempotent(x: real)
    ensures RoundHundredths(RoundHundredths(x)) == RoundHundredths(x)
  {
  }

  /** Ties go to the even hundredth: 70.005 rounds down, 70.015 rounds up. */
  lemma RoundHundredthsTies()
    ensures RoundHundredths(70.005) == 70.0
    ensures RoundHundredths(70.015) == 70.02
  {
  }

  // ---------------------------------------------------------------------
  // The value transform
  // ---------------------------------------------------------------------

  /** The three branches of the state update for a present value. */
  datatype Transformation = ToPounds | RoundOnly | PassThrough

  /** Which transform the state update applies for a unit pair. A value is
      converted to pounds exactly when the reported unit differs from the
      native one, and rounded without conversion exactly when kilograms are
      both preferred and native; every other pair, including every non-mass
      unit, passes its value through. */
  function SelectTransform(pref: UnitTag, native: UnitTag): (t: Transformation)
    ensures t == ToPounds <==> ReportedUnit(pref, native) != Some(native)
    ensures t != PassThrough ==> native == MassKilograms && ReportedUnit(pref, native).Some?
    ensures native != MassKilograms && native != MassPounds ==> t == PassThrough
    ensures t == RoundOnly <==> pref == MassKilograms && native == MassKilograms
    ensures t == RoundOnly ==> ReportedUnit(pref, native) == Some(MassKilograms)
  {
    if pref == MassPounds && native == MassKilograms then ToPounds
    else if pref == MassKilograms && native == MassKilograms then RoundOnly
    else PassThrough
  }

  /** Applies a transform to a metric value. A converted value lies within
      half a hundredth of the exact number of pounds, a rounded one within
      half a hundredth of the reading, and both are whole hundredths. */
  function ApplyTransform(t: Transformation, v: real): (r: real)
    ensures t == ToPounds ==> -0.005 <= r - v * KgToLbs <= 0.005 && IsHundredths(r)
    ensures t == RoundOnly ==> -0.005 <= r - v <= 0.005 && IsHundredths(r)
    ensures t == PassThrough ==> r == v
  {
    match t
    case ToPounds => RoundHundredths(v * KgToLbs)
    case RoundOnly => RoundHundredths(v)
    case PassThrough => v
  }

  /** The value the sensor stores for a present metric value `v`: a
      kilogram reading shown in pounds is converted and rounded, a kilogram
      reading shown in kilograms is rounded, and every other value is stored
      as read. */
  function DisplayValue(pref: UnitTag, native: UnitTag, v: real): (r: real)
    ensures pref == MassPounds && native == MassKilograms ==> r == RoundHundredths(v * KgToLbs)
    ensures pref == MassKilograms && native == MassKilograms ==> r == RoundHundredths(v)
    ensures !(native == MassKilograms && (pref == MassPounds || pref == MassKilograms)) ==> r == v
  {
    ApplyTransform(SelectTransform(pref, native), v)
  }

  /** The mass, in kilograms, that a value in the given unit stands for;
      values in any unit other than pounds are taken at face value. */
  function MassInKilograms(x: real, unit: UnitTag): real {
    if unit == MassPounds then x / KgToLbs else x
  }

  /** The stored value and the reported unit never disagree: read in the
      reported unit, the stored value stands for the same mass as the
      reading in its native unit, up to the rounding to hundredths. */
  lemma DisplayAgreesWithUnit(pref: UnitTag, native: UnitTag, v: real)
    ensures var shown := DisplayValue(pref, native, v);
            var unit := ReportedUnit(pref, native).value;
            -0.005 <= MassInKilograms(shown, unit) - MassInKilograms(v, native) <= 0.005
  {
  }

  /** Applying the rule again to a value it did not convert leaves it as it
      is: a rounded kilogram value stays rounded, a passed-through value stays
      the same. */
  lemma DisplayValueIdempotent(pref: UnitTag, native: UnitTag, v: real)
    requires ReportedUnit(pref, native) == Some(native)
    ensures DisplayValue(pref, native, DisplayValue(pref, native, v)) == DisplayValue(pref, native, v)
  {
  }

  /** Worked cases of the rule: 70 kg shown in pounds is 154.32, 70.005 kg
      shown in kilograms is 70.0 (a tie, rounded to the even hundredth),
      150 lb shown in pounds is 150, a pound sensor whose user prefers
      kilograms keeps its value, and so does a non-mass sensor. */
  lemma DisplayValueExamples()
    ensures DisplayValue(MassPounds, MassKilograms, 70.0) == 154.32
    ensures DisplayValue(MassKilograms, MassKilograms, 70.005) == 70.0
    ensures DisplayValue(MassPounds, MassPounds, 150.0) == 150.0
    ensures DisplayValue(MassKilograms, MassPounds, 150.0) == 150.0
    ensures DisplayValue(MassPounds, "%", 21.5) == 21.5
  {
  }
}

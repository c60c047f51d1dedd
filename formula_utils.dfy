/**
 * The arithmetic helpers of notebooks/formula_utils.py: the two-point line,
 * the 0/1 threshold masks, the Alphasense AD formula and the MICS polynomial.
 * Floats are modelled as `real`; a numpy mask of `True`/`False` written into
 * `np.zeros` is an array of 1.0/0.0.
 */
module FormulaUtils {
  import opened Wrappers


  function Abs(x: real): real { if x < 0.0 then -x else x }

  /** 1.0 for true, 0.0 for false, as numpy stores a bool in a float array. */
  function Bit(b: bool): real { if b then 1.0 else 0.0 }

  // ---------------------------------------------------------------- lines

  /**
   * `LINE_COEFF`: slope `a` and intercept `b` of the line through
   * (x1, y1) and (x2, y2). Python raises ZeroDivisionError when x1 == x2.
   */
  function LineCoeff(x1: real, x2: real, y1: real, y2: real): (ab: (real, real))
    requires x1 != x2
    ensures ab.0 * x1 + ab.1 == y1
    ensures ab.0 * x2 + ab.1 == y2
  {
    var a := (y2 - y1) / (x2 - x1);
    assert a * (x2 - x1) == y2 - y1;
    (a, y1 - a * x1)
  }

  /** `LINE`: the comprehension `[i*a+b for i in x]`. */
  function Line(x: seq<real>, a: real, b: real): (y: seq<real>)
    ensures |y| == |x|
  {
    seq(|x|, i requires 0 <= i < |x| => x[i] * a + b)
  }

  /** Evaluating `LINE` at the two defining abscissae gives back the two ordinates. */
  lemma LineThroughBothPoints(x1: real, x2: real, y1: real, y2: real)
    requires x1 != x2
    ensures var ab := LineCoeff(x1, x2, y1, y2); Line([x1, x2], ab.0, ab.1) == [y1, y2]
  {
    var ab := LineCoeff(x1, x2, y1, y2);
    var y := Line([x1, x2], ab.0, ab.1);
    assert y[0] == y1 && y[1] == y2;
  }

  /** `LINE` maps every abscissa through the same affine function, position by position. */
  lemma LineIsAffine(x: seq<real>, a: real, b: real, i: nat)
    requires i < |x|
    ensures Line(x, a, b)[i] == a * x[i] + b
  {
  }

  /** Two lines through the same two distinct points have the same coefficients. */
  lemma LineCoeffUnique(x1: real, x2: real, y1: real, y2: real, a: real, b: real)
    requires x1 != x2
    requires a * x1 + b == y1 && a * x2 + b == y2
    ensures LineCoeff(x1, x2, y1, y2) == (a, b)
  {
    var ab := LineCoeff(x1, x2, y1, y2);
    assert ab.0 * (x2 - x1) == a * (x2 - x1);
    CancelFactor(ab.0, a, x2 - x1);
  }

  lemma CancelFactor(p: real, q: real, k: real)
    requires k != 0.0 && p * k == q * k
    ensures p == q
  {
    assert (p - q) * k == 0.0;
  }

  // ---------------------------------------------------------------- threshold masks

  /** `greater`: 1.0 exactly where `y[i] > val`. */
  method Greater(y: seq<real>, val: real) returns (result: array<real>)
    ensures result.Length == |y|
    ensures forall i :: 0 <= i < |y| ==> result[i] == Bit(y[i] > val)
  {
    result := new real[|y|];
    for i := 0 to |y|
      invariant forall k :: 0 <= k < i ==> result[k] == Bit(y[k] > val)
    {
      if y[i] > val { result[i] := 1.0; } else { result[i] := 0.0; }
    }
  }

  /** `greaterequal`: 0.0 where `y[i] < val`, 1.0 elsewhere, i.e. one minus `lower`. */
  method GreaterEqual(y: seq<real>, val: real) returns (result: array<real>)
    ensures result.Length == |y|
    ensures forall i :: 0 <= i < |y| ==> result[i] == Bit(y[i] >= val)
    ensures forall i :: 0 <= i < |y| ==> result[i] == 1.0 - Bit(y[i] < val)
  {
    result := new real[|y|];
    for i := 0 to |y|
      invariant forall k :: 0 <= k < i ==> result[k] == Bit(y[k] >= val)
    {
      if y[i] < val { result[i] := 0.0; } else { result[i] := 1.0; }
    }
  }

  /** `lower`: 1.0 exactly where `y[i] < val`. */
  method Lower(y: seq<real>, val: real) returns (result: array<real>)
    ensures result.Length == |y|
    ensures forall i :: 0 <= i < |y| ==> result[i] == Bit(y[i] < val)
  {
    result := new real[|y|];
    for i := 0 to |y|
      invariant forall k :: 0 <= k < i ==> result[k] == Bit(y[k] < val)
    {
      if y[i] < val { result[i] := 1.0; } else { result[i] := 0.0; }
    }
  }

  /** `lowerequal`: 0.0 where `y[i] > val`, 1.0 elsewhere, i.e. one minus `greater`. */
  method LowerEqual(y: seq<real>, val: real) returns (result: array<real>)
    ensures result.Length == |y|
    ensures forall i :: 0 <= i < |y| ==> result[i] == Bit(y[i] <= val)
    ensures forall i :: 0 <= i < |y| ==> result[i] == 1.0 - Bit(y[i] > val)
  {
    result := new real[|y|];
    for i := 0 to |y|
      invariant forall k :: 0 <= k < i ==> result[k] == Bit(y[k] <= val)
    {
      if y[i] > val { result[i] := 0.0; } else { result[i] := 1.0; }
    }
  }

  // ---------------------------------------------------------------- AD_FORMULA

  const FactorWE: real := 6.39
  const FactorAE: real := 6.35

  /** Python truthiness of an integer. */
  function Truthy(n: int): bool { n != 0 }

  /** Working electrode minus the zero-current-scaled auxiliary electrode. */
  function Corrected(we: real, ae: real, i0we: real, i0ae: real): real
    requires i0ae != 0.0
  {
    FactorWE * we - i0we / i0ae * (FactorAE * ae)
  }

  /** Multiplies by 1000 when the unit is "ppb". */
  function ScaleTo(unit: string, x: real): real {
    if unit == "ppb" then x * 1000.0 else x
  }

  /**
   * `AD_FORMULA`, statement by statement: the first test is
   * `SensorType == 1 or 2`, which Python reads as `(SensorType == 1) or 2`,
   * so its branch runs for every sensor type; the SensorType 3 branch then
   * overwrites the result for "ppb"/"ppm" second units and scales it again.
   */
  function AdFormula(we: real, ae: real, sensorType: int, i0we: real, i0ae: real,
                     sensitivity1: real, sensitivity2: real, aux: real,
                     unit1: string, unit2: string): (result: real)
    requires i0ae != 0.0 && sensitivity1 != 0.0
    // the first branch is taken whatever the sensor type
    ensures sensorType != 3 ==>
      result == ScaleTo(unit1, Corrected(we, ae, i0we, i0ae) / Abs(sensitivity1))
    // sensor type 3: the auxiliary term, divided by the SIGNED first sensitivity
    ensures sensorType == 3 && unit2 == "ppb" ==>
      result == ScaleTo(unit1, (Corrected(we, ae, i0we, i0ae) - aux * sensitivity2 / 1000.0) / sensitivity1)
    ensures sensorType == 3 && unit2 == "ppm" ==>
      result == ScaleTo(unit1, (Corrected(we, ae, i0we, i0ae) - aux * sensitivity2) / sensitivity1)
    // sensor type 3 with another second unit keeps the first value and scales it twice
    ensures sensorType == 3 && unit2 != "ppb" && unit2 != "ppm" ==>
      result == ScaleTo(unit1, ScaleTo(unit1, Corrected(we, ae, i0we, i0ae) / Abs(sensitivity1)))
  {
    var first :=
      if sensorType == 1 || Truthy(2) then
        var r := (FactorWE * we - i0we / i0ae * (FactorAE * ae)) / Abs(sensitivity1);
        if unit1 == "ppb" then r * 1000.0 else r
      else 0.0;
    if sensorType == 3 then
      var second :=
        if unit2 == "ppm" then (FactorWE * we - i0we / i0ae * (FactorAE * ae) - aux * sensitivity2) / sensitivity1
        else if unit2 == "ppb" then (FactorWE * we - i0we / i0ae * (FactorAE * ae) - aux * sensitivity2 / 1000.0) / sensitivity1
        else first;
      if unit1 == "ppb" then second * 1000.0 else second
    else first
  }

  /** Any two sensor types other than 3 give the same AD_FORMULA value. */
  lemma AdFormulaIgnoresSensorType(we: real, ae: real, t1: int, t2: int, i0we: real, i0ae: real,
                                   s1: real, s2: real, aux: real, unit1: string, unit2: string)
    requires i0ae != 0.0 && s1 != 0.0
    requires t1 != 3 && t2 != 3
    ensures AdFormula(we, ae, t1, i0we, i0ae, s1, s2, aux, unit1, unit2)
         == AdFormula(we, ae, t2, i0we, i0ae, s1, s2, aux, unit1, unit2)
  {
  }

  /**
   * A sensor type that is neither 1, 2 nor 3 still gets the CO/NO2 value,
   * and a type-3 sensor with an unknown second unit gets it scaled twice.
   */
  lemma AdFormulaAcceptsAnyType()
    ensures AdFormula(1.0, 0.0, 7, 0.0, 1.0, 1.0, 0.0, 0.0, "ppm", "ppm") == 6.39
    ensures AdFormula(1.0, 0.0, 3, 0.0, 1.0, 1.0, 0.0, 0.0, "ppb", "") == 6390000.0
  {
  }

  /**
   * `AD_FORMULA` with the first test read as `SensorType in (1, 2)`: types
   * 1 and 2 use the CO/NO2 formula, type 3 the O3 formula for a "ppb" or
   * "ppm" second unit; any other input leaves `result` unbound, which
   * raises.
   */
  function AdFormulaIntended(we: real, ae: real, sensorType: int, i0we: real, i0ae: real,
                             sensitivity1: real, sensitivity2: real, aux: real,
                             unit1: string, unit2: string): (result: Option<real>)
    requires i0ae != 0.0 && sensitivity1 != 0.0
  {
    if sensorType == 1 || sensorType == 2 then
      Some(ScaleTo(unit1, Corrected(we, ae, i0we, i0ae) / Abs(sensitivity1)))
    else if sensorType == 3 && unit2 == "ppb" then
      Some(ScaleTo(unit1, (Corrected(we, ae, i0we, i0ae) - aux * sensitivity2 / 1000.0) / sensitivity1))
    else if sensorType == 3 && unit2 == "ppm" then
      Some(ScaleTo(unit1, (Corrected(we, ae, i0we, i0ae) - aux * sensitivity2) / sensitivity1))
    else None
  }

  /**
   * The intended formula gives a value exactly for types 1 and 2 and for
   * type 3 with a known second unit, and there it agrees with the formula
   * as written: every unit factor is applied once.
   */
  lemma AdFormulaIntendedAgrees(we: real, ae: real, sensorType: int, i0we: real, i0ae: real,
                                s1: real, s2: real, aux: real, unit1: string, unit2: string)
    requires i0ae != 0.0 && s1 != 0.0
    ensures AdFormulaIntended(we, ae, sensorType, i0we, i0ae, s1, s2, aux, unit1, unit2).Some? <==>
            sensorType == 1 || sensorType == 2 || (sensorType == 3 && (unit2 == "ppb" || unit2 == "ppm"))
    ensures AdFormulaIntended(we, ae, sensorType, i0we, i0ae, s1, s2, aux, unit1, unit2).Some? ==>
            AdFormulaIntended(we, ae, sensorType, i0we, i0ae, s1, s2, aux, unit1, unit2).value ==
            AdFormula(we, ae, sensorType, i0we, i0ae, s1, s2, aux, unit1, unit2)
  {
  }

  // ---------------------------------------------------------------- MICS_FORMULA

  /** The value a MICS channel contributes: its reciprocal for an "Inverse" channel. */
  function Transformed(sensorType: string, sensor: real): real
    requires sensorType == "Inverse" ==> sensor != 0.0
  {
    if sensorType == "Inverse" then 1.0 / sensor else sensor
  }

  /** The quadratic calibration polynomial in the three transformed channels. */
  function MicsPolynomial(intercept: real, b: real, c: real, d: real, e: real, f: real, g: real,
                          s0: real, s1: real, s2: real): real
  {
    intercept + b * s0 + c * s0 * s0 + d * s1 + e * s1 * s1 + f * s2 + g * s2 * s2
  }

  /**
   * `MICS_FORMULA`: each "Inverse" entry is replaced in place by its
   * reciprocal before the polynomial is evaluated. `Sens` aliases `Sensor`,
   * but entry i is read before it is written and no other entry reads it,
   * so one array models both names.
   */
  method MicsFormula(sensor1Type: string, sensor1: real, sensor2Type: string, sensor2: real,
                     sensor3Type: string, sensor3: real,
                     intercept: real, b: real, c: real, d: real, e: real, f: real, g: real)
    returns (result: real)
    requires sensor1Type == "Inverse" ==> sensor1 != 0.0
    requires sensor2Type == "Inverse" ==> sensor2 != 0.0
    requires sensor3Type == "Inverse" ==> sensor3 != 0.0
    ensures result == MicsPolynomial(intercept, b, c, d, e, f, g,
                                     Transformed(sensor1Type, sensor1),
                                     Transformed(sensor2Type, sensor2),
                                     Transformed(sensor3Type, sensor3))
  {
    var sensorType := [sensor1Type, sensor2Type, sensor3Type];
    var sens := new real[3];
    sens[0], sens[1], sens[2] := sensor1, sensor2, sensor3;
    ghost var original := sens[..];
    for i := 0 to 3
      invariant forall k :: 0 <= k < i ==> sens[k] == Transformed(sensorType[k], original[k])
      invariant forall k :: i <= k < 3 ==> sens[k] == original[k]
    {
      if sensorType[i] == "Inverse" {
        sens[i] := 1.0 / sens[i];
      }
    }
    var x0, x1, x2 := sens[0], sens[1], sens[2];
    assert x0 == Transformed(sensor1Type, sensor1);
    assert x1 == Transformed(sensor2Type, sensor2);
    assert x2 == Transformed(sensor3Type, sensor3);
    result := MicsPolynomial(intercept, b, c, d, e, f, g, x0, x1, x2);
  }

  /**
   * The shape of the calibration the source suggests beside the formula: one
   * "Inverse" channel with only B and C set gives a quadratic in the
   * reciprocal of the reading, whatever the other two readings are.
   */
  lemma MicsSingleInverse(intercept: real, b: real, c: real, x: real, s1: real, s2: real)
    requires x != 0.0
    ensures MicsPolynomial(intercept, b, c, 0.0, 0.0, 0.0, 0.0, Transformed("Inverse", x), s1, s2)
         == intercept + b / x + c / (x * x)
  {
  }

  /** With every channel coefficient zero the MICS formula is its intercept. */
  lemma MicsInterceptOnly(intercept: real, s0: real, s1: real, s2: real)
    ensures MicsPolynomial(intercept, 0.0, 0.0, 0.0, 0.0, 0.0, 0.0, s0, s1, s2) == intercept
  {
  }
}

/**
 * The calibration constants, calibration records, unit look-up tables and
 * concentration formulas of notebooks/pollutant_cal_utils.py.
 */
module Concentration {
  import opened Wrappers
  import FormulaUtils

  /** The AlphaDelta PCB gain `factorPCB`. */
  const FactorPCB: real := 6.36

  /** The assumed background concentrations, in ppm for CO and ppb for NO2 and OX. */
  const BackgroundCO: real := 0.2
  const BackgroundNO2: real := 8.0
  const BackgroundOX: real := 40.0

  /** The pollutants the alphasense formulas know. */
  datatype AlphaGas = CO | NO2 | O3

  /** The pollutant a tuple names, if the alphasense formulas know it. */
  function ParseAlphaGas(name: string): (g: Option<AlphaGas>)
    ensures g == Some(CO) <==> name == "CO"
    ensures g == Some(NO2) <==> name == "NO2"
    ensures g == Some(O3) <==> name == "O3"
  {
    if name == "CO" then Some(CO)
    else if name == "NO2" then Some(NO2)
    else if name == "O3" then Some(O3)
    else None
  }

  /** The row of `alpha_calData` for one sensor. */
  datatype AlphaCalibration = AlphaCalibration(
    sensitivity1: real, sensitivity2: real,
    target1: string, target2: string,
    zeroCurrent: real, auxZeroCurrent: real)

  /** The calibration row yields finite numbers: no division by a zero current or sensitivity. */
  predicate UsableAlpha(c: AlphaCalibration) {
    c.auxZeroCurrent != 0.0 && c.sensitivity1 != 0.0
  }

  /** `nWA`: the zero current of the working electrode over that of the auxiliary one. */
  function ZeroCurrentRatio(c: AlphaCalibration): real
    requires UsableAlpha(c)
  {
    c.zeroCurrent / c.auxZeroCurrent
  }

  /** `alphaUnitsFactorsLUT`: pollutant, factor from ppm to target 1, factor from ppm to target 2. */
  const AlphaUnitsLUT: seq<(string, real, real)> :=
    [("CO", 1.0, 0.0), ("NO2", 1000.0, 0.0), ("O3", 1000.0, 1000.0)]

  /** The factors the look-up loop leaves behind after scanning `lut`: the last matching entry's. */
  function ScanAlphaUnits(lut: seq<(string, real, real)>, pollutant: string, previous: Option<(real, real)>): Option<(real, real)>
  {
    if |lut| == 0 then previous
    else
      var last := lut[|lut| - 1];
      var before := ScanAlphaUnits(lut[..|lut| - 1], pollutant, previous);
      if last.0 == pollutant then Some((last.1, last.2)) else before
  }

  /** What scanning the whole table leaves: the listed pollutants' factors, or `previous` for any other. */
  lemma AlphaUnitsLookup(pollutant: string, previous: Option<(real, real)>)
    ensures ScanAlphaUnits(AlphaUnitsLUT, pollutant, previous) ==
            if pollutant == "CO" then Some((1.0, 0.0))
            else if pollutant == "NO2" then Some((1000.0, 0.0))
            else if pollutant == "O3" then Some((1000.0, 1000.0))
            else previous
  {
    ghost var l1 := AlphaUnitsLUT[..1];
    ghost var l2 := AlphaUnitsLUT[..2];
    assert l1[..0] == [] && l2[..1] == l1 && AlphaUnitsLUT[..2] == l2;
    assert ScanAlphaUnits(l1, pollutant, previous) == if pollutant == "CO" then Some((1.0, 0.0)) else previous;
    assert ScanAlphaUnits(l2, pollutant, previous) ==
      if pollutant == "NO2" then Some((1000.0, 0.0)) else ScanAlphaUnits(l1, pollutant, previous);
    assert "CO" != "O3" by { assert "CO"[0] != "O3"[0]; }
  }

  /**
   * The unit look-up loop: every entry whose pollutant matches overwrites
   * `factor_unit_1` and `factor_unit_2`; with no match the factors keep the
   * values they had (from an earlier tuple, or none).
   */
  method AlphaUnitFactors(pollutant: string, previous: Option<(real, real)>) returns (factors: Option<(real, real)>)
    ensures factors == ScanAlphaUnits(AlphaUnitsLUT, pollutant, previous)
    ensures pollutant == "CO" ==> factors == Some((1.0, 0.0))
    ensures pollutant == "NO2" ==> factors == Some((1000.0, 0.0))
    ensures pollutant == "O3" ==> factors == Some((1000.0, 1000.0))
    ensures pollutant != "CO" && pollutant != "NO2" && pollutant != "O3" ==> factors == previous
  {
    factors := previous;
    for i := 0 to |AlphaUnitsLUT|
      invariant factors == ScanAlphaUnits(AlphaUnitsLUT[..i], pollutant, previous)
    {
      assert AlphaUnitsLUT[..i + 1][..i] == AlphaUnitsLUT[..i];
      var item := AlphaUnitsLUT[i];
      if pollutant == item.0 {
        factors := Some((item.1, item.2));
      }
    }
    assert AlphaUnitsLUT[..3] == AlphaUnitsLUT;
    AlphaUnitsLookup(pollutant, previous);
  }

  /**
   * The alphasense concentration from the corrected working-electrode
   * signal: the working electrode minus the day's baseline (baseline
   * method) or minus nWA times the auxiliary electrode (classic method).
   * Ozone also subtracts the NO2 concentration already computed, scaled by
   * the sensor's second sensitivity.
   */
  function AlphaConcentration(gas: AlphaGas, c: AlphaCalibration, f1: real, f2: real,
                              corrected: real, no2: real): real
    requires c.sensitivity1 != 0.0 && (gas == O3 ==> f2 != 0.0)
  {
    var s1 := FormulaUtils.Abs(c.sensitivity1);
    match gas
    case CO => BackgroundCO + f1 * FactorPCB * corrected / s1
    case NO2 => BackgroundNO2 + f1 * FactorPCB * corrected / s1
    case O3 => BackgroundOX + f1 * (FactorPCB * corrected - no2 / f2 * FormulaUtils.Abs(c.sensitivity2)) / s1
  }

  /** A balanced signal (nothing above the zero offset) gives exactly the background concentration. */
  lemma BalancedSignalGivesBackground(gas: AlphaGas, c: AlphaCalibration, f1: real, f2: real, no2: real)
    requires c.sensitivity1 != 0.0 && (gas == O3 ==> f2 != 0.0)
    requires gas == O3 ==> no2 == 0.0
    ensures AlphaConcentration(gas, c, f1, f2, 0.0, no2) ==
            match gas case CO => BackgroundCO case NO2 => BackgroundNO2 case O3 => BackgroundOX
  {
  }

  /** The classic NO2 formula on W = 300, A = 50, nWA = 0.9, S1 = -400 and the ppb factor gives 4062.5. */
  lemma ClassicNO2Example(c: AlphaCalibration)
    requires c.sensitivity1 == -400.0
    ensures AlphaConcentration(NO2, c, 1000.0, 0.0, 300.0 - 0.9 * 50.0, 0.0) == 4062.5
  {
  }

  /** The pollutants the MICS formulas know. */
  datatype MicsGas = MicsCO | MicsNO2

  /** The MICS pollutant a tuple names, if the formulas know it. */
  function ParseMicsGas(name: string): (g: Option<MicsGas>)
    ensures g == Some(MicsCO) <==> name == "CO"
    ensures g == Some(MicsNO2) <==> name == "NO2"
  {
    if name == "CO" then Some(MicsCO)
    else if name == "NO2" then Some(MicsNO2)
    else None
  }

  /** `indexPollutant`: which of the two MICS elements a pollutant is read from. */
  function MicsElement(g: MicsGas): nat {
    match g case MicsCO => 1 case MicsNO2 => 2
  }

  /** The row of `mics_calData` for one sensor: one sensitivity, target and zero-air resistance per element. */
  datatype MicsCalibration = MicsCalibration(
    sensitivity1: real, sensitivity2: real,
    target1: string, target2: string,
    zeroAirResistance1: real, zeroAirResistance2: real)

  /** The three calibration values `calculatePollutantsMICS` reads for element 1 or 2. */
  datatype MicsElementData = MicsElementData(sensitivity: real, target: string, zeroAirResistance: real)

  function MicsElementOf(c: MicsCalibration, index: nat): (e: MicsElementData)
    requires index == 1 || index == 2
    ensures index == 1 ==> e == MicsElementData(c.sensitivity1, c.target1, c.zeroAirResistance1)
    ensures index == 2 ==> e == MicsElementData(c.sensitivity2, c.target2, c.zeroAirResistance2)
  {
    if index == 1 then MicsElementData(c.sensitivity1, c.target1, c.zeroAirResistance1)
    else MicsElementData(c.sensitivity2, c.target2, c.zeroAirResistance2)
  }

  /** The calibration row yields finite numbers: no division by a zero sensitivity. */
  predicate UsableMics(c: MicsCalibration) {
    c.sensitivity1 != 0.0 && c.sensitivity2 != 0.0
  }

  /** `micsUnitsFactorsLUT`: pollutant and factor from ppm to the target unit. */
  const MicsUnitsLUT: seq<(string, real)> := [("CO", 1.0), ("NO2", 1000.0)]

  /** The factor the look-up loop leaves behind after scanning `lut`. */
  function ScanMicsUnits(lut: seq<(string, real)>, pollutant: string, previous: Option<real>): Option<real>
  {
    if |lut| == 0 then previous
    else
      var last := lut[|lut| - 1];
      var before := ScanMicsUnits(lut[..|lut| - 1], pollutant, previous);
      if last.0 == pollutant then Some(last.1) else before
  }

  /** What scanning the whole MICS table leaves: the listed pollutants' factor, or `previous`. */
  lemma MicsUnitsLookup(pollutant: string, previous: Option<real>)
    ensures ScanMicsUnits(MicsUnitsLUT, pollutant, previous) ==
            if pollutant == "CO" then Some(1.0)
            else if pollutant == "NO2" then Some(1000.0)
            else previous
  {
    ghost var l1 := MicsUnitsLUT[..1];
    assert l1[..0] == [] && MicsUnitsLUT[..1] == l1;
    assert ScanMicsUnits(l1, pollutant, previous) == if pollutant == "CO" then Some(1.0) else previous;
  }

  /** The MICS unit look-up loop: a matching entry overwrites `factor_unit`; otherwise it keeps its value. */
  method MicsUnitFactor(pollutant: string, previous: Option<real>) returns (factor: Option<real>)
    ensures factor == ScanMicsUnits(MicsUnitsLUT, pollutant, previous)
    ensures pollutant == "CO" ==> factor == Some(1.0)
    ensures pollutant == "NO2" ==> factor == Some(1000.0)
    ensures pollutant != "CO" && pollutant != "NO2" ==> factor == previous
  {
    factor := previous;
    for i := 0 to |MicsUnitsLUT|
      invariant factor == ScanMicsUnits(MicsUnitsLUT[..i], pollutant, previous)
    {
      assert MicsUnitsLUT[..i + 1][..i] == MicsUnitsLUT[..i];
      var item := MicsUnitsLUT[i];
      if pollutant == item.0 {
        factor := Some(item.1);
      }
    }
    assert MicsUnitsLUT[..2] == MicsUnitsLUT;
    MicsUnitsLookup(pollutant, previous);
  }

  /**
   * The MICS concentration: the resistance minus the day's baseline minus
   * the zero-air resistance, in target units per unit of (signed)
   * sensitivity, on top of the background.
   */
  function MicsConcentration(gas: MicsGas, e: MicsElementData, factor: real, resistance: real, baseline: real): real
    requires e.sensitivity != 0.0
  {
    var withoutBackground := factor * (resistance - baseline - e.zeroAirResistance) / e.sensitivity;
    match gas
    case MicsCO => BackgroundCO + withoutBackground
    case MicsNO2 => BackgroundNO2 + withoutBackground
  }

  /** A resistance that sits exactly at baseline plus zero-air resistance gives the background concentration. */
  lemma MicsAtZeroAirGivesBackground(gas: MicsGas, e: MicsElementData, factor: real, baseline: real)
    requires e.sensitivity != 0.0
    ensures MicsConcentration(gas, e, factor, baseline + e.zeroAirResistance, baseline) ==
            match gas case MicsCO => BackgroundCO case MicsNO2 => BackgroundNO2
  {
  }
}

/**
 * The day loop of the baseline method, shared by `calculatePollutantsAlpha`
 * and `calculatePollutantsMICS` in notebooks/pollutant_cal_utils.py: for
 * each day, trim the frame to the day widened by the overlap, compute a
 * baseline for that stretch (`calculateBaselineDay`), trim back to the day,
 * fill the gaps with 0, compute the concentration, merge it into the result
 * with `combine_first`, and append a diagnostics row.
 */
module DailyBaseline {
  import opened Wrappers
  import opened Numerics
  import opened TimeIndex
  import opened Frames
  import opened DaySegmentation
  import opened RegressionSelection
  import opened Diagnostics
  import opened Concentration

  /** The parameters the day loop shares across days. */
  datatype Settings = Settings(deltas: seq<nat>, kind: Regression, overlapHours: nat, num: Routines)

  /** Candidate half-widths the rolling minimum accepts on any non-empty day. */
  predicate ValidDeltas(deltas: seq<nat>) {
    |deltas| > 0 && forall k :: 0 <= k < |deltas| ==> deltas[k] >= 1
  }

  /**
   * The sensor being calibrated, with everything the loop reads from the
   * calibration data, the unit table and the tuple.
   */
  datatype Sensor =
    | Electrochemical(gas: AlphaGas, cal: AlphaCalibration, f1: real, f2: real, slot: nat,
                      baseliner: Channel, suffix: string)
    | Resistive(mics: MicsGas, element: MicsElementData, factor: real, name: string,
                baseliner: Channel, suffix: string)

  /** The sensor's formulas divide by non-zero numbers only. */
  predicate UsableSensor(s: Sensor) {
    match s
    case Electrochemical(gas, cal, _, f2, _, _, _) => cal.sensitivity1 != 0.0 && (gas == O3 ==> f2 != 0.0)
    case Resistive(_, element, _, _, _, _) => element.sensitivity != 0.0
  }

  /** The channel whose baseline is computed: the working electrode or the MICS resistance. */
  function Baselined(s: Sensor): Channel {
    match s
    case Electrochemical(_, _, _, _, slot, _, _) => Working(slot)
    case Resistive(_, _, _, name, _, _) => Resistance(name)
  }

  function Temp(s: Sensor): Channel {
    if s.Electrochemical? then Temperature(AuxBoard) else Temperature(UrbanBoard)
  }

  function Hum(s: Sensor): Channel {
    if s.Electrochemical? then Humidity(AuxBoard) else Humidity(UrbanBoard)
  }

  function GasName(s: Sensor): string {
    match s
    case Electrochemical(gas, _, _, _, _, _, _) => (match gas case CO => "CO" case NO2 => "NO2" case O3 => "O3")
    case Resistive(mics, _, _, _, _, _) => (match mics case MicsCO => "CO" case MicsNO2 => "NO2")
  }

  /** `pollutant_column`. */
  function Column(s: Sensor): Channel {
    Concentration(GasName(s), s.suffix)
  }

  /** `pollutant_column_2`: the NO2 column ozone is corrected with. */
  function NO2Column(s: Sensor): Channel {
    Concentration("NO2", s.suffix)
  }

  /** The two channels `calculateBaselineDay` reads before `createBaselines` runs. */
  function BaselineInputs(s: Sensor): set<Channel> {
    {Baselined(s), s.baseliner}
  }

  /** The channels a day with data reads. */
  function NeededChannels(s: Sensor): set<Channel> {
    match s
    case Electrochemical(gas, _, _, _, slot, baseliner, _) =>
      {Working(slot), Auxiliary(slot), Temp(s), Hum(s), baseliner} + (if gas == O3 then {NO2Column(s)} else {})
    case Resistive(_, _, _, name, baseliner, _) => {Resistance(name), Temp(s), Hum(s), baseliner}
  }

  /**
   * The sensor's formula on the baselined reading, its baseline and (for
   * ozone) the NO2 concentration.
   */
  function SensorFormula(s: Sensor, reading: real, base: real, no2: real): real
    requires UsableSensor(s)
  {
    match s
    case Electrochemical(gas, cal, f1, f2, _, _, _) => AlphaConcentration(gas, cal, f1, f2, reading - base, no2)
    case Resistive(mics, element, factor, _, _, _) => MicsConcentration(mics, element, factor, reading, base)
  }

  /** The concentration of one row of the day's gap-filled frame; NaN when an input is. */
  function ConcentrationOfRow(s: Sensor, row: Row): Option<real>
    requires UsableSensor(s)
  {
    var b := Baselined(s);
    if b !in row || BaselineOf(b) !in row then None
    else if s.Electrochemical? && s.gas == O3 && NO2Column(s) !in row then None
    else
      var no2 := if NO2Column(s) in row then row[NO2Column(s)] else 0.0;
      Some(SensorFormula(s, row[b], row[BaselineOf(b)], no2))
  }

  /** `dataframeTrim[pollutant_column] = <formula>`. */
  function WithConcentration(f: Frame, s: Sensor): (g: Frame)
    requires UsableSensor(s)
    ensures g.columns == f.columns + {Column(s)} && g.rows.Keys == f.rows.Keys
    ensures forall t :: t in f.rows ==> Cell(g, t, Column(s)) == ConcentrationOfRow(s, f.rows[t])
    ensures forall t, d {:trigger Cell(g, t, d)} :: d != Column(s) ==> Cell(g, t, d) == Cell(f, t, d)
  {
    MapColumn(f, Column(s), row => ConcentrationOfRow(s, row))
  }

  /** The rows of the frame in the day's window widened by the overlap. */
  function OverlapTrim(index: set<int>, cfg: Settings, frame: Frame, day: nat): (trim: Frame)
    requires index != {}
    ensures trim == Between(frame, OverlapStart(index, day, cfg.overlapHours), OverlapEnd(index, day, cfg.overlapHours))
  {
    Between(frame, OverlapStart(index, day, cfg.overlapHours), OverlapEnd(index, day, cfg.overlapHours))
  }

  /** The baseline `createBaselines` fits for the day's stretch. */
  function DayBaseline(s: Sensor, trim: Frame, cfg: Settings): (b: seq<real>)
    requires ValidDeltas(cfg.deltas)
    ensures |b| == |trim.rows|
  {
    BaselineProxy(Values(trim, Baselined(s)), Values(trim, s.baseliner), cfg.deltas, cfg.kind, cfg.num)
  }

  /** The half-width index `createBaselines` selects for the day's stretch. */
  function DayIndexMax(s: Sensor, trim: Frame, cfg: Settings): nat
    requires ValidDeltas(cfg.deltas)
  {
    SelectedIndex(Values(trim, Baselined(s)), Values(trim, s.baseliner), cfg.deltas, cfg.num)
  }

  /** The number of fields `calculateBaselineDay` returns as metadata. */
  function CorrWidth(s: Sensor): nat {
    if s.Electrochemical? then 9 else 1
  }

  /** The metadata `calculateBaselineDay` returns for the day's stretch. */
  function DayCorr(s: Sensor, trim: Frame, cfg: Settings, baseline: seq<real>): (corr: seq<Stat>)
    requires ValidDeltas(cfg.deltas) && |baseline| == |trim.rows|
    ensures |corr| == CorrWidth(s)
    ensures s.Electrochemical? ==>
      var aux := Values(trim, Auxiliary(s.slot));
      var fit := cfg.num.linregress(baseline, aux);
      && corr[..5] == [Num(fit.slope), Num(fit.intercept), Num(fit.r), Num(fit.p), Num(fit.stdErr)]
      && corr[5] == DeltaMean(baseline, aux)
      && corr[6] == RatioMeanAsWritten(baseline, aux)
      && corr[7] == Index(DayIndexMax(s, trim, cfg))
      && corr[8] == Flag(fit.slope > 0.0 && fit.r > ValidityThreshold)
    ensures s.Resistive? ==> corr == [Index(DayIndexMax(s, trim, cfg))]
  {
    match s
    case Electrochemical(_, _, _, _, slot, _, _) =>
      var aux := Values(trim, Auxiliary(slot));
      AlphaBaselineCorr(cfg.num.linregress(baseline, aux), baseline, aux, DayIndexMax(s, trim, cfg))
    case Resistive(_, _, _, _, _, _) =>
      MicsBaselineCorr(DayIndexMax(s, trim, cfg))
  }

  /**
   * `calculateBaselineDay`: the baseline of the baselined channel regressed
   * on the baseliner, and the metadata for the sensor type.
   */
  method CalculateBaselineDay(trim: Frame, s: Sensor, cfg: Settings) returns (baseline: seq<real>, corr: seq<Stat>)
    requires ValidDeltas(cfg.deltas)
    ensures baseline == DayBaseline(s, trim, cfg)
    ensures corr == DayCorr(s, trim, cfg, baseline)
  {
    var data := Values(trim, Baselined(s));
    var covariate := Values(trim, s.baseliner);
    var indexMax;
    baseline, indexMax := CreateBaselines(data, covariate, cfg.deltas, cfg.kind, cfg.num);
    match s {
      case Electrochemical(_, _, _, _, slot, _, _) =>
        var aux := Values(trim, Auxiliary(slot));
        var fit := cfg.num.linregress(baseline, aux);
        corr := [Num(fit.slope), Num(fit.intercept), Num(fit.r), Num(fit.p), Num(fit.stdErr),
                 DeltaMean(baseline, aux), RatioMeanAsWritten(baseline, aux), Index(indexMax)];
        var valid := fit.slope > 0.0 && fit.r > ValidityThreshold;
        corr := corr + [Flag(valid)];
      case Resistive(_, _, _, _, _, _) =>
        corr := [Index(indexMax)];
    }
  }

  /**
   * The day's own window of the stretch with its baseline column and the
   * gaps filled with 0 (`fillna(0)`).
   */
  function FilledWindow(s: Sensor, index: set<int>, trim: Frame, day: nat, baseline: seq<real>): (g: Frame)
    requires index != {} && |baseline| == |trim.rows|
    ensures forall t :: t in g.rows <==> t in trim.rows && InNonOverlap(FindDates(index), day, t)
  {
    var d := FindDates(index);
    var withBaseline := SetColumn(trim, BaselineOf(Baselined(s)), baseline);
    FillNa(Between(withBaseline, NonOverlapStart(d, day), NonOverlapEnd(d, day)), 0.0)
  }

  /** The day's own window with the concentration added. */
  function OwnWindow(s: Sensor, index: set<int>, trim: Frame, day: nat, baseline: seq<real>): (g: Frame)
    requires index != {} && UsableSensor(s) && |baseline| == |trim.rows|
    ensures forall t :: t in g.rows <==> t in trim.rows && InNonOverlap(FindDates(index), day, t)
  {
    WithConcentration(FilledWindow(s, index, trim, day, baseline), s)
  }

  /** The day's result, with the baseline fitted on the stretch. */
  function DayResult(s: Sensor, cfg: Settings, index: set<int>, trim: Frame, day: nat): Frame
    requires index != {} && ValidDeltas(cfg.deltas) && UsableSensor(s)
  {
    OwnWindow(s, index, trim, day, DayBaseline(s, trim, cfg))
  }

  /**
   * The six metrics of a day: r² (NaN, because no reference is read), the
   * mean and standard deviation of temperature and humidity, and the mean
   * concentration.
   */
  function DayMetrics(out: Frame, temp: Channel, hum: Channel, pollutant: Channel, num: Routines): seq<Stat> {
    var t, h := Values(out, temp), Values(out, hum);
    [Squared(Missing), Mean(t), StdDev(t, num), Mean(h), StdDev(h, num), Mean(Values(out, pollutant))]
  }

  /** The metrics of a day with data, on the sensor's channels. */
  function Metrics(s: Sensor, cfg: Settings, out: Frame): seq<Stat> {
    DayMetrics(out, Temp(s), Hum(s), Column(s), cfg.num)
  }

  /** The diagnostics row of a day with data. */
  function DayRow(s: Sensor, cfg: Settings, trim: Frame, out: Frame): seq<Stat>
    requires ValidDeltas(cfg.deltas)
  {
    Metrics(s, cfg, out) + DayCorr(s, trim, cfg, DayBaseline(s, trim, cfg))
  }

  /** One pass of the day loop on the result frame. */
  function FrameStep(s: Sensor, cfg: Settings, index: set<int>, frame: Frame, day: nat): Frame
    requires index != {} && ValidDeltas(cfg.deltas) && UsableSensor(s)
  {
    var trim := OverlapTrim(index, cfg, frame, day);
    if |trim.rows| == 0 then frame else CombineFirst(frame, DayResult(s, cfg, index, trim, day))
  }

  /** The diagnostics row one pass appends: ten NaNs when the stretch has no rows. */
  function RowOfDay(s: Sensor, cfg: Settings, index: set<int>, frame: Frame, day: nat): (row: seq<Stat>)
    requires index != {} && ValidDeltas(cfg.deltas) && UsableSensor(s)
    ensures row == NanRow() || |row| == 6 + CorrWidth(s)
  {
    var trim := OverlapTrim(index, cfg, frame, day);
    if |trim.rows| == 0 then NanRow() else DayRow(s, cfg, trim, DayResult(s, cfg, index, trim, day))
  }

  /** The pass of the day loop as a value. */
  function Pass(s: Sensor, cfg: Settings, index: set<int>): (Frame, nat) -> Frame
    requires index != {} && ValidDeltas(cfg.deltas) && UsableSensor(s)
  {
    (f: Frame, day: nat) => FrameStep(s, cfg, index, f, day)
  }

  /** The frame after running `pass` for days `0 .. n-1`, each pass reading what the earlier ones left. */
  function Iterate(pass: (Frame, nat) -> Frame, frame: Frame, n: nat): Frame {
    if n == 0 then frame else pass(Iterate(pass, frame, n - 1), n - 1)
  }

  /** The result frame after the first `n` days. */
  function FrameAfter(s: Sensor, cfg: Settings, index: set<int>, frame: Frame, n: nat): Frame
    requires index != {} && ValidDeltas(cfg.deltas) && UsableSensor(s)
  {
    Iterate(Pass(s, cfg, index), frame, n)
  }

  /** The diagnostics rows of the first `n` days. */
  function RowsAfter(s: Sensor, cfg: Settings, index: set<int>, frame: Frame, n: nat): (rows: seq<seq<Stat>>)
    requires index != {} && ValidDeltas(cfg.deltas) && UsableSensor(s)
    ensures |rows| == n && RowsShaped(rows, 6 + CorrWidth(s))
  {
    if n == 0 then []
    else
      var before := RowsAfter(s, cfg, index, frame, n - 1);
      var row := RowOfDay(s, cfg, index, FrameAfter(s, cfg, index, frame, n - 1), n - 1);
      RowsShapedAppend(before, row, 6 + CorrWidth(s));
      before + [row]
  }

  /** One pass of the day loop, as the source runs it. */
  method ProcessDay(frame: Frame, index: set<int>, s: Sensor, cfg: Settings, day: nat)
    returns (frame': Frame, row: seq<Stat>)
    requires index != {} && ValidDeltas(cfg.deltas) && UsableSensor(s)
    ensures frame' == FrameStep(s, cfg, index, frame, day)
    ensures row == RowOfDay(s, cfg, index, frame, day)
  {
    var trim := OverlapTrim(index, cfg, frame, day);
    if |trim.rows| == 0 {
      frame', row := frame, NanRow();
    } else {
      var baseline, corrTrim := CalculateBaselineDay(trim, s, cfg);
      var out := OwnWindow(s, index, trim, day, baseline);
      frame' := CombineFirst(frame, out);
      var m := Metrics(s, cfg, out);
      row := AssembleDayRow(corrTrim, m[0], m[1], m[2], m[3], m[4], m[5]);
      assert m == [m[0], m[1], m[2], m[3], m[4], m[5]];
    }
  }

  /**
   * The day loop: one pass per whole day `findDates` counts on the original
   * index; each pass reads the result frame as the earlier passes left it.
   */
  method BaselineDays(frame: Frame, index: set<int>, s: Sensor, cfg: Settings)
    returns (result: Frame, rows: seq<seq<Stat>>)
    requires index != {} && ValidDeltas(cfg.deltas) && UsableSensor(s)
    ensures result == FrameAfter(s, cfg, index, frame, FindDates(index).rangeDays)
    ensures rows == RowsAfter(s, cfg, index, frame, FindDates(index).rangeDays)
  {
    result := frame;
    rows := [];
    for day := 0 to FindDates(index).rangeDays
      invariant result == FrameAfter(s, cfg, index, frame, day)
      invariant rows == RowsAfter(s, cfg, index, frame, day)
    {
      var row;
      result, row := ProcessDay(result, index, s, cfg, day);
      rows := rows + [row];
    }
  }

  // ---------------------------------------------------------------------
  // What the loop guarantees.
  // ---------------------------------------------------------------------

  /** A loop of passes that each keep timestamp `t` (or its absence) keeps it. */
  lemma {:induction false} IterateKeepsTimestamp(pass: (Frame, nat) -> Frame, frame: Frame, n: nat, t: int)
    requires forall f: Frame, day: nat :: t in pass(f, day).rows <==> t in f.rows
    ensures t in Iterate(pass, frame, n).rows <==> t in frame.rows
  {
    if n > 0 {
      IterateKeepsTimestamp(pass, frame, n - 1, t);
    }
  }

  /** A loop of passes that never overwrite a number in cell `(t, c)` leaves that number. */
  lemma {:induction false} IterateKeepsCell(pass: (Frame, nat) -> Frame, frame: Frame, n: nat, t: int, c: Channel)
    requires forall f: Frame, day: nat :: Cell(f, t, c).Some? ==> Cell(pass(f, day), t, c) == Cell(f, t, c)
    requires Cell(frame, t, c).Some?
    ensures Cell(Iterate(pass, frame, n), t, c) == Cell(frame, t, c)
  {
    if n > 0 {
      IterateKeepsCell(pass, frame, n - 1, t, c);
    }
  }

  /** A loop of passes that each keep the columns they find keeps the columns it started with. */
  lemma {:induction false} IterateKeepsColumns(pass: (Frame, nat) -> Frame, frame: Frame, n: nat)
    requires forall f: Frame, day: nat :: f.columns <= pass(f, day).columns
    ensures frame.columns <= Iterate(pass, frame, n).columns
  {
    if n > 0 {
      IterateKeepsColumns(pass, frame, n - 1);
    }
  }

  /** Passes `lo .. hi-1` that leave cell `(t, c)` alone leave it as pass `lo` found it. */
  lemma {:induction false} IterateFrozen(pass: (Frame, nat) -> Frame, frame: Frame, lo: nat, hi: nat, t: int, c: Channel)
    requires lo <= hi
    requires forall f: Frame, day: nat :: lo <= day < hi ==> Cell(pass(f, day), t, c) == Cell(f, t, c)
    ensures Cell(Iterate(pass, frame, hi), t, c) == Cell(Iterate(pass, frame, lo), t, c)
  {
    if lo < hi {
      IterateFrozen(pass, frame, lo, hi - 1, t, c);
    }
  }

  /**
   * When only pass `day` may change cell `(t, c)`, the cell after `n > day`
   * passes is what pass `day` wrote on the frame the earlier passes left.
   */
  lemma IterateStitched(pass: (Frame, nat) -> Frame, frame: Frame, day: nat, n: nat, t: int, c: Channel)
    requires day < n
    requires forall f: Frame, k: nat :: k < n && k != day ==> Cell(pass(f, k), t, c) == Cell(f, t, c)
    ensures Cell(Iterate(pass, frame, day), t, c) == Cell(frame, t, c)
    ensures Cell(Iterate(pass, frame, n), t, c) == Cell(pass(Iterate(pass, frame, day), day), t, c)
  {
    IterateFrozen(pass, frame, 0, day, t, c);
    IterateFrozen(pass, frame, day + 1, n, t, c);
  }

  /** A pass changes no cell of a timestamp outside the day's own window. */
  lemma StepLeavesOtherTimestamps(s: Sensor, cfg: Settings, index: set<int>, frame: Frame, day: nat, t: int, c: Channel)
    requires index != {} && ValidDeltas(cfg.deltas) && UsableSensor(s)
    requires !InNonOverlap(FindDates(index), day, t)
    ensures Cell(FrameStep(s, cfg, index, frame, day), t, c) == Cell(frame, t, c)
  {
    var trim := OverlapTrim(index, cfg, frame, day);
    if |trim.rows| > 0 {
      var out := DayResult(s, cfg, index, trim, day);
      assert t !in out.rows;
      CombineFirstOutside(frame, out, t, c);
    }
  }

  /** A pass never overwrites a cell that already holds a number. */
  lemma StepKeepsCells(s: Sensor, cfg: Settings, index: set<int>, frame: Frame, day: nat, t: int, c: Channel)
    requires index != {} && ValidDeltas(cfg.deltas) && UsableSensor(s)
    requires Cell(frame, t, c).Some?
    ensures Cell(FrameStep(s, cfg, index, frame, day), t, c) == Cell(frame, t, c)
  {
  }

  /** A pass neither adds nor drops a timestamp. */
  lemma StepKeepsTimestamp(s: Sensor, cfg: Settings, index: set<int>, frame: Frame, day: nat, t: int)
    requires index != {} && ValidDeltas(cfg.deltas) && UsableSensor(s)
    ensures t in FrameStep(s, cfg, index, frame, day).rows <==> t in frame.rows
  {
    var trim := OverlapTrim(index, cfg, frame, day);
    if |trim.rows| > 0 {
      var out := DayResult(s, cfg, index, trim, day);
      assert t in out.rows ==> t in trim.rows;
    }
  }

  /**
   * The pass of a day writes, at a timestamp of its window whose
   * concentration is still NaN, the concentration it computed from the
   * stretch around the day.
   */
  lemma OwnPassWrites(s: Sensor, cfg: Settings, index: set<int>, frame: Frame, day: nat, t: int)
    requires index != {} && ValidDeltas(cfg.deltas) && UsableSensor(s)
    requires day < FindDates(index).rangeDays && InNonOverlap(FindDates(index), day, t)
    requires t in frame.rows && Cell(frame, t, Column(s)).None?
    ensures var trim := OverlapTrim(index, cfg, frame, day);
            t in trim.rows &&
            Cell(FrameStep(s, cfg, index, frame, day), t, Column(s)) == Cell(DayResult(s, cfg, index, trim, day), t, Column(s))
  {
    OverlapContainsWindow(index, day, cfg.overlapHours, t);
  }

  /** The loop neither adds nor drops a timestamp: the result keeps the index it started from. */
  lemma FrameAfterKeepsTimestamps(s: Sensor, cfg: Settings, index: set<int>, frame: Frame, n: nat, t: int)
    requires index != {} && ValidDeltas(cfg.deltas) && UsableSensor(s)
    ensures t in FrameAfter(s, cfg, index, frame, n).rows <==> t in frame.rows
  {
    forall f: Frame, day: nat
      ensures t in Pass(s, cfg, index)(f, day).rows <==> t in f.rows
    {
      StepKeepsTimestamp(s, cfg, index, f, day, t);
    }
    IterateKeepsTimestamp(Pass(s, cfg, index), frame, n, t);
  }

  /** The loop drops no column. */
  lemma FrameAfterKeepsColumns(s: Sensor, cfg: Settings, index: set<int>, frame: Frame, n: nat)
    requires index != {} && ValidDeltas(cfg.deltas) && UsableSensor(s)
    ensures frame.columns <= FrameAfter(s, cfg, index, frame, n).columns
  {
    forall f: Frame, day: nat
      ensures f.columns <= Pass(s, cfg, index)(f, day).columns
    {
    }
    IterateKeepsColumns(Pass(s, cfg, index), frame, n);
  }

  /** The loop never overwrites a cell that already holds a number. */
  lemma FrameAfterKeepsCells(s: Sensor, cfg: Settings, index: set<int>, frame: Frame, n: nat, t: int, c: Channel)
    requires index != {} && ValidDeltas(cfg.deltas) && UsableSensor(s)
    requires Cell(frame, t, c).Some?
    ensures Cell(FrameAfter(s, cfg, index, frame, n), t, c) == Cell(frame, t, c)
  {
    forall f: Frame, day: nat | Cell(f, t, c).Some?
      ensures Cell(Pass(s, cfg, index)(f, day), t, c) == Cell(f, t, c)
    {
      StepKeepsCells(s, cfg, index, f, day, t, c);
    }
    IterateKeepsCell(Pass(s, cfg, index), frame, n, t, c);
  }

  /** The passes of the other days leave the cells of a timestamp in `day`'s window alone. */
  lemma OtherPassesLeaveWindow(s: Sensor, cfg: Settings, index: set<int>, t: int, c: Channel, day: nat)
    requires index != {} && ValidDeltas(cfg.deltas) && UsableSensor(s)
    requires day < FindDates(index).rangeDays
    requires InNonOverlap(FindDates(index), day, t)
    ensures forall f: Frame, k: nat :: k < FindDates(index).rangeDays && k != day ==>
              Cell(Pass(s, cfg, index)(f, k), t, c) == Cell(f, t, c)
  {
    forall f: Frame, k: nat | k < FindDates(index).rangeDays && k != day
      ensures Cell(Pass(s, cfg, index)(f, k), t, c) == Cell(f, t, c)
    {
      WindowOfTimestampUnique(index, day, k, t);
      StepLeavesOtherTimestamps(s, cfg, index, f, k, t, c);
    }
  }

  /** Each row is ten NaNs or `width` fields. */
  ghost predicate RowsShaped(rows: seq<seq<Stat>>, width: nat) {
    forall k :: 0 <= k < |rows| ==> rows[k] == NanRow() || |rows[k]| == width
  }

  lemma RowsShapedAppend(rows: seq<seq<Stat>>, row: seq<Stat>, width: nat)
    requires RowsShaped(rows, width) && (row == NanRow() || |row| == width)
    ensures RowsShaped(rows + [row], width)
  {
    assert forall k :: 0 <= k < |rows| ==> (rows + [row])[k] == rows[k];
  }

  /**
   * At a timestamp of the day's window, the gap-filled frame holds each
   * reading of the stretch, 0 where the reading is missing.
   */
  lemma FilledWindowReading(s: Sensor, index: set<int>, trim: Frame, day: nat, baseline: seq<real>, t: int, c: Channel)
    requires index != {} && |baseline| == |trim.rows|
    requires t in trim.rows && InNonOverlap(FindDates(index), day, t)
    requires c in trim.columns && c != BaselineOf(Baselined(s))
    ensures Cell(FilledWindow(s, index, trim, day, baseline), t, c) == Some(Cell(trim, t, c).GetOr(0.0))
  {
    var d := FindDates(index);
    var withBaseline := SetColumn(trim, BaselineOf(Baselined(s)), baseline);
    BetweenCell(withBaseline, NonOverlapStart(d, day), NonOverlapEnd(d, day), t, c);
  }

  /**
   * At the i-th timestamp of the stretch, when it lies in the day's window,
   * the gap-filled frame holds the i-th baseline value.
   */
  lemma FilledWindowBaseline(s: Sensor, index: set<int>, trim: Frame, day: nat, baseline: seq<real>, i: nat)
    requires index != {} && |baseline| == |trim.rows|
    requires i < |trim.rows| && InNonOverlap(FindDates(index), day, Timestamps(trim)[i])
    ensures Cell(FilledWindow(s, index, trim, day, baseline), Timestamps(trim)[i], BaselineOf(Baselined(s))) == Some(baseline[i])
  {
    var d := FindDates(index);
    var t := Timestamps(trim)[i];
    var withBaseline := SetColumn(trim, BaselineOf(Baselined(s)), baseline);
    BetweenCell(withBaseline, NonOverlapStart(d, day), NonOverlapEnd(d, day), t, BaselineOf(Baselined(s)));
  }

  /** The formula applies wherever the row holds the reading, its baseline and the NO2 it needs. */
  lemma ConcentrationOfFullRow(s: Sensor, row: Row)
    requires UsableSensor(s)
    requires Baselined(s) in row && BaselineOf(Baselined(s)) in row
    requires s.Electrochemical? && s.gas == O3 ==> NO2Column(s) in row
    ensures ConcentrationOfRow(s, row) ==
            Some(SensorFormula(s, row[Baselined(s)], row[BaselineOf(Baselined(s))],
                               if s.Electrochemical? && s.gas == O3 then row[NO2Column(s)] else 0.0))
  {
    if s.Electrochemical? && s.gas != O3 {
      var b := Baselined(s);
      var no2 := if NO2Column(s) in row then row[NO2Column(s)] else 0.0;
      assert SensorFormula(s, row[b], row[BaselineOf(b)], no2) == SensorFormula(s, row[b], row[BaselineOf(b)], 0.0);
    }
  }

  /**
   * The concentration a day's pass writes at a timestamp of its window is
   * the sensor's formula on that timestamp's readings (a missing reading is
   * 0) and the baseline value fitted for that position of the stretch.
   */
  lemma OwnWindowConcentration(s: Sensor, index: set<int>, trim: Frame, day: nat, baseline: seq<real>, i: nat)
    requires index != {} && UsableSensor(s) && |baseline| == |trim.rows|
    requires i < |trim.rows| && InNonOverlap(FindDates(index), day, Timestamps(trim)[i])
    requires NeededChannels(s) <= trim.columns
    ensures var t := Timestamps(trim)[i];
            var no2 := if s.Electrochemical? && s.gas == O3 then Cell(trim, t, NO2Column(s)).GetOr(0.0) else 0.0;
            Cell(OwnWindow(s, index, trim, day, baseline), t, Column(s)) ==
            Some(SensorFormula(s, Cell(trim, t, Baselined(s)).GetOr(0.0), baseline[i], no2))
  {
    var t := Timestamps(trim)[i];
    var g := FilledWindow(s, index, trim, day, baseline);
    FilledWindowReading(s, index, trim, day, baseline, t, Baselined(s));
    FilledWindowBaseline(s, index, trim, day, baseline, i);
    if s.Electrochemical? && s.gas == O3 {
      FilledWindowReading(s, index, trim, day, baseline, t, NO2Column(s));
    }
    assert t in g.rows;
    ConcentrationOfFullRow(s, g.rows[t]);
  }
}

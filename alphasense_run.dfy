/**
 * `calculatePollutantsAlpha` of notebooks/pollutant_cal_utils.py: for each
 * tuple (pollutant, sensor, method, baseline type, slot) in order, look the
 * sensor up, return `None` on a mismatched target or an ozone sensor with
 * no NO2 column yet, pick the unit factors, then compute the concentration
 * with the baseline method (day by day) or the classic method (whole frame
 * at once), build the metadata table, filter the new column and file the
 * table under the pollutant. Local variables that a tuple does not set keep
 * the value an earlier tuple left, and the model carries them along.
 */
module AlphasenseRun {
  import opened Wrappers
  import opened TimeIndex
  import opened Frames
  import opened DaySegmentation
  import opened Diagnostics
  import opened Concentration
  import opened DailyBaseline
  import opened CalibrationRun

  datatype AlphaTuple = AlphaTuple(pollutant: string, sensorId: string, calibration: CalibrationMethod, slot: nat)

  /**
   * The arguments the model reads. `filterSmoothing` is `_filterExpSmoothing`,
   * which the source accepts and never reads.
   */
  datatype Options = Options(append: string, cfg: Settings, filterSmoothing: real)

  /** The locals one tuple can leave to the next: `baseliner`, `factor_unit_*`, `CorrParams`, `CorrParamsDF`. */
  datatype Carried = Carried(baseliner: Option<Channel>, factors: Option<(real, real)>,
                             corrParams: Option<seq<seq<Stat>>>, table: Option<Table>)

  /** `dataframeResult`, `CorrParamsDict` and the carried locals between two tuples. */
  datatype Progress = Progress(frame: Frame, metadata: map<string, Table>, carried: Carried)

  /** A tuple either hands its progress to the next one or ends the call. */
  datatype Step = Continue(next: Progress) | Abort | Raise(failure: Failure)

  /** Every calibration row divides by non-zero numbers only. */
  predicate UsableCalibrations(cal: map<string, AlphaCalibration>) {
    forall id :: id in cal ==> UsableAlpha(cal[id])
  }

  /** The progress before the first tuple: a copy of the input, no metadata, no locals bound. */
  function Start(dataframe: Frame): Progress {
    Progress(dataframe, map[], Carried(None, None, None, None))
  }

  /** The baseliner the `if`/`elif` chain picks; an unknown type keeps the earlier one. */
  function AlphaBaseliner(baselineType: string, slot: nat, previous: Option<Channel>): Option<Channel> {
    if baselineType == "single_temp" then Some(Temperature(AuxBoard))
    else if baselineType == "single_hum" then Some(Humidity(AuxBoard))
    else if baselineType == "single_aux" then Some(Auxiliary(slot))
    else previous
  }

  /** The end of a tuple as a step. */
  function FinishStep(frame: Frame, pollutant: string, append: string, carried: Carried,
                      metadata: map<string, Table>): Step
  {
    match Finish(frame, pollutant, append, carried.table, metadata)
    case Fail(e) => Raise(e)
    case Ok((g, m)) => Continue(Progress(g, m, carried))
  }

  /** The baseline method: the day loop, its table with fifteen labels, then the filter. */
  function BaselineStep(c: AlphaCalibration, gas: AlphaGas, f: (real, real), slot: nat, baselineType: string,
                        pollutant: string, index: set<int>, append: string, cfg: Settings,
                        frame: Frame, metadata: map<string, Table>, carried: Carried): Step
    requires index != {} && UsableAlpha(c) && (gas == O3 ==> f.1 != 0.0)
  {
    var baseliner := AlphaBaseliner(baselineType, slot, carried.baseliner);
    var sensor := if baseliner.Some? then Some(Electrochemical(gas, c, f.0, f.1, slot, baseliner.value, append)) else None;
    var d := FindDates(index);
    match DayLoop(sensor, cfg, index, frame, carried.corrParams)
    case Fail(e) => Raise(e)
    case Ok((g, rows)) =>
      match Tabulate(rows, AlphaLabels(), DayLabels(d, d.rangeDays))
      case Fail(e) => Raise(e)
      case Ok(table) =>
        FinishStep(g, pollutant, append, carried.(baseliner := baseliner, corrParams := rows, table := Some(table)), metadata)
  }

  /** The classic concentration of one row: the working electrode corrected by nWA times the auxiliary one. */
  function ClassicConcentrationOfRow(gas: AlphaGas, c: AlphaCalibration, f: (real, real), slot: nat,
                                     append: string, row: Row): Option<real>
    requires UsableAlpha(c) && (gas == O3 ==> f.1 != 0.0)
  {
    var w, a, no2 := Working(slot), Auxiliary(slot), PollutantColumn("NO2", append);
    if w !in row || a !in row then None
    else if gas == O3 && no2 !in row then None
    else Some(AlphaConcentration(gas, c, f.0, f.1, row[w] - ZeroCurrentRatio(c) * row[a],
                                 if gas == O3 then row[no2] else 0.0))
  }

  /** The diagnostics row of one day of the classic method, on the day's window with gaps read as 0. */
  function ClassicRow(frame: Frame, d: DateRange, day: nat, column: Channel, num: Numerics.Routines): seq<Stat> {
    DayMetrics(Between(frame, NonOverlapStart(d, day), NonOverlapEnd(d, day)),
               Temperature(AuxBoard), Humidity(AuxBoard), column, num)
  }

  /** The diagnostics rows of the first `n` days of the classic method. */
  function ClassicRows(frame: Frame, d: DateRange, n: nat, column: Channel, num: Numerics.Routines): seq<seq<Stat>> {
    if n == 0 then [] else ClassicRows(frame, d, n - 1, column, num) + [ClassicRow(frame, d, n - 1, column, num)]
  }

  /** The classic method: the whole column at once, then one row of metrics per day, then the filter. */
  function ClassicStep(c: AlphaCalibration, gas: AlphaGas, f: (real, real), slot: nat, pollutant: string,
                       append: string, num: Numerics.Routines, frame: Frame, metadata: map<string, Table>,
                       carried: Carried): Step
    requires UsableAlpha(c) && (gas == O3 ==> f.1 != 0.0)
  {
    if Working(slot) !in frame.columns || Auxiliary(slot) !in frame.columns then Raise(MissingColumn)
    else
      var column := PollutantColumn(pollutant, append);
      var g := MapColumn(frame, column, row => ClassicConcentrationOfRow(gas, c, f, slot, append, row));
      ClassicMetadataStep(g, pollutant, append, num, metadata, carried)
  }

  /** The classic method once the column is computed: dates from the frame, one row per day, table, filter. */
  function ClassicMetadataStep(g: Frame, pollutant: string, append: string, num: Numerics.Routines,
                               metadata: map<string, Table>, carried: Carried): Step
  {
    if g.rows.Keys == {} then Raise(EmptyIndex)
    else
      var column := PollutantColumn(pollutant, append);
      var d := FindDates(g.rows.Keys);
      var rows :=
        if d.rangeDays == 0 then Ok(carried.corrParams)
        else if Temperature(AuxBoard) !in g.columns || Humidity(AuxBoard) !in g.columns then Fail(MissingColumn)
        else Ok(Some(ClassicRows(g, d, d.rangeDays, column, num)));
      match rows
      case Fail(e) => Raise(e)
      case Ok(rows) =>
        match Tabulate(rows, ClassicLabels(), DayLabels(d, d.rangeDays))
        case Fail(e) => Raise(e)
        case Ok(table) => FinishStep(g, pollutant, append, carried.(corrParams := rows, table := Some(table)), metadata)
  }

  /** One iteration of the tuple loop. */
  function AlphaStep(cal: map<string, AlphaCalibration>, index: set<int>, opts: Options, p: Progress, tup: AlphaTuple): Step
    requires UsableCalibrations(cal)
  {
    if tup.sensorId !in cal then Raise(UnknownSensor)
    else
      var c := cal[tup.sensorId];
      if c.target1 != tup.pollutant then Abort
      else if tup.pollutant == "O3" && PollutantColumn("NO2", opts.append) !in p.frame.columns then Abort
      else
        var factors := ScanAlphaUnits(AlphaUnitsLUT, tup.pollutant, p.carried.factors);
        var carried := p.carried.(factors := factors);
        if index == {} then Raise(EmptyIndex)
        else if tup.calibration.OtherMethod? then FinishStep(p.frame, tup.pollutant, opts.append, carried, p.metadata)
        else
          var gas := ParseAlphaGas(tup.pollutant);
          if gas.None? then Raise(UnknownPollutant)
          else
            AlphaUnitsLookup(tup.pollutant, p.carried.factors);
            if tup.calibration.Classic? then
              ClassicStep(c, gas.value, factors.value, tup.slot, tup.pollutant, opts.append, opts.cfg.num,
                          p.frame, p.metadata, carried)
            else
              BaselineStep(c, gas.value, factors.value, tup.slot, tup.calibration.baselineType, tup.pollutant, index,
                           opts.append, opts.cfg, p.frame, p.metadata, carried)
  }

  /** The tuple loop from `p` over `tuples`: the first tuple that ends the call decides the outcome. */
  function AlphaRun(cal: map<string, AlphaCalibration>, index: set<int>, opts: Options, p: Progress,
                    tuples: seq<AlphaTuple>): Outcome
    requires UsableCalibrations(cal)
    decreases |tuples|
  {
    if |tuples| == 0 then Completed(p.frame, p.metadata)
    else
      match AlphaStep(cal, index, opts, p, tuples[0])
      case Abort => Aborted
      case Raise(e) => Crashed(e)
      case Continue(next) => AlphaRun(cal, index, opts, next, tuples[1..])
  }

  // ---------------------------------------------------------------------
  // The loops as the source runs them.
  // ---------------------------------------------------------------------

  /** The day loop of the classic method: one row of metrics appended per day. */
  method ClassicDays(frame: Frame, d: DateRange, n: nat, column: Channel, num: Numerics.Routines)
    returns (rows: seq<seq<Stat>>)
    ensures rows == ClassicRows(frame, d, n, column, num)
  {
    rows := [];
    for day := 0 to n
      invariant rows == ClassicRows(frame, d, day, column, num)
    {
      var trim := Between(frame, NonOverlapStart(d, day), NonOverlapEnd(d, day));
      rows := rows + [DayMetrics(trim, Temperature(AuxBoard), Humidity(AuxBoard), column, num)];
    }
  }

  method BaselineTuple(c: AlphaCalibration, gas: AlphaGas, f: (real, real), slot: nat, baselineType: string,
                       pollutant: string, index: set<int>, append: string, cfg: Settings,
                       frame: Frame, metadata: map<string, Table>, carried: Carried) returns (step: Step)
    requires index != {} && UsableAlpha(c) && (gas == O3 ==> f.1 != 0.0)
    ensures step == BaselineStep(c, gas, f, slot, baselineType, pollutant, index, append, cfg, frame, metadata, carried)
  {
    var baseliner := AlphaBaseliner(baselineType, slot, carried.baseliner);
    var sensor := if baseliner.Some? then Some(Electrochemical(gas, c, f.0, f.1, slot, baseliner.value, append)) else None;
    var d := FindDates(index);
    var loop := RunDayLoop(sensor, cfg, index, frame, carried.corrParams);
    if loop.Fail? {
      return Raise(loop.failure);
    }
    var (g, rows) := loop.value;
    var table := Tabulate(rows, AlphaLabels(), DayLabels(d, d.rangeDays));
    if table.Fail? {
      return Raise(table.failure);
    }
    var carried' := carried.(baseliner := baseliner, corrParams := rows, table := Some(table.value));
    var finish := FinishTuple(g, pollutant, append, carried'.table, metadata);
    step := if finish.Fail? then Raise(finish.failure) else Continue(Progress(finish.value.0, finish.value.1, carried'));
  }

  method ClassicTuple(c: AlphaCalibration, gas: AlphaGas, f: (real, real), slot: nat, pollutant: string,
                      append: string, num: Numerics.Routines, frame: Frame, metadata: map<string, Table>,
                      carried: Carried) returns (step: Step)
    requires UsableAlpha(c) && (gas == O3 ==> f.1 != 0.0)
    ensures step == ClassicStep(c, gas, f, slot, pollutant, append, num, frame, metadata, carried)
  {
    if Working(slot) !in frame.columns || Auxiliary(slot) !in frame.columns {
      return Raise(MissingColumn);
    }
    var column := PollutantColumn(pollutant, append);
    var g := MapColumn(frame, column, row => ClassicConcentrationOfRow(gas, c, f, slot, append, row));
    step := ClassicMetadataTuple(g, pollutant, append, num, metadata, carried);
  }

  method ClassicMetadataTuple(g: Frame, pollutant: string, append: string, num: Numerics.Routines,
                              metadata: map<string, Table>, carried: Carried) returns (step: Step)
    ensures step == ClassicMetadataStep(g, pollutant, append, num, metadata, carried)
  {
    if g.rows.Keys == {} {
      return Raise(EmptyIndex);
    }
    var column := PollutantColumn(pollutant, append);
    var d := FindDates(g.rows.Keys);
    var rows := carried.corrParams;
    if d.rangeDays > 0 {
      if Temperature(AuxBoard) !in g.columns || Humidity(AuxBoard) !in g.columns {
        return Raise(MissingColumn);
      }
      var dayRows := ClassicDays(g, d, d.rangeDays, column, num);
      rows := Some(dayRows);
    }
    var table := Tabulate(rows, ClassicLabels(), DayLabels(d, d.rangeDays));
    if table.Fail? {
      return Raise(table.failure);
    }
    var carried' := carried.(corrParams := rows, table := Some(table.value));
    var finish := FinishTuple(g, pollutant, append, carried'.table, metadata);
    step := if finish.Fail? then Raise(finish.failure) else Continue(Progress(finish.value.0, finish.value.1, carried'));
  }

  /** One iteration of the tuple loop, as the source runs it. */
  method ProcessAlphaTuple(cal: map<string, AlphaCalibration>, index: set<int>, opts: Options, p: Progress,
                           tup: AlphaTuple) returns (step: Step)
    requires UsableCalibrations(cal)
    ensures step == AlphaStep(cal, index, opts, p, tup)
  {
    if tup.sensorId !in cal {
      return Raise(UnknownSensor);
    }
    var c := cal[tup.sensorId];
    if c.target1 != tup.pollutant {
      return Abort;
    }
    if tup.pollutant == "O3" && PollutantColumn("NO2", opts.append) !in p.frame.columns {
      return Abort;
    }
    var factors := AlphaUnitFactors(tup.pollutant, p.carried.factors);
    var carried := p.carried.(factors := factors);
    if index == {} {
      return Raise(EmptyIndex);
    }
    if tup.calibration.OtherMethod? {
      var finish := FinishTuple(p.frame, tup.pollutant, opts.append, carried.table, p.metadata);
      return if finish.Fail? then Raise(finish.failure) else Continue(Progress(finish.value.0, finish.value.1, carried));
    }
    var gas := ParseAlphaGas(tup.pollutant);
    if gas.None? {
      return Raise(UnknownPollutant);
    }
    AlphaUnitsLookup(tup.pollutant, p.carried.factors);
    if tup.calibration.Classic? {
      step := ClassicTuple(c, gas.value, factors.value, tup.slot, tup.pollutant, opts.append, opts.cfg.num,
                           p.frame, p.metadata, carried);
    } else {
      step := BaselineTuple(c, gas.value, factors.value, tup.slot, tup.calibration.baselineType, tup.pollutant, index,
                            opts.append, opts.cfg, p.frame, p.metadata, carried);
    }
  }

  /**
   * `calculatePollutantsAlpha`: the tuple loop over a copy of the input
   * frame, dates always taken from the input's own index.
   */
  method CalculatePollutantsAlpha(cal: map<string, AlphaCalibration>, dataframe: Frame, tuples: seq<AlphaTuple>,
                                  opts: Options) returns (outcome: Outcome)
    requires UsableCalibrations(cal)
    ensures outcome == AlphaRun(cal, dataframe.rows.Keys, opts, Start(dataframe), tuples)
  {
    var index := dataframe.rows.Keys;
    var p := Start(dataframe);
    for i := 0 to |tuples|
      invariant AlphaRun(cal, index, opts, Start(dataframe), tuples) == AlphaRun(cal, index, opts, p, tuples[i..])
    {
      assert tuples[i..][1..] == tuples[i + 1..];
      var step := ProcessAlphaTuple(cal, index, opts, p, tuples[i]);
      if step.Abort? {
        return Aborted;
      } else if step.Raise? {
        return Crashed(step.failure);
      }
      p := step.next;
    }
    outcome := Completed(p.frame, p.metadata);
  }

  // ---------------------------------------------------------------------
  // What a call guarantees.
  // ---------------------------------------------------------------------

  /** What a tuple that hands on its progress has done to the frame and the metadata. */
  ghost predicate Grown(p: Progress, q: Progress, pollutant: string, append: string) {
    (forall t :: t in q.frame.rows <==> t in p.frame.rows) &&
    p.frame.columns <= q.frame.columns &&
    Filtered(PollutantColumn(pollutant, append)) in q.frame.columns &&
    q.metadata.Keys == p.metadata.Keys + {pollutant}
  }

  lemma FinishStepGrows(p: Progress, frame: Frame, pollutant: string, append: string, carried: Carried)
    requires (forall t :: t in frame.rows <==> t in p.frame.rows) && p.frame.columns <= frame.columns
    requires FinishStep(frame, pollutant, append, carried, p.metadata).Continue?
    ensures Grown(p, FinishStep(frame, pollutant, append, carried, p.metadata).next, pollutant, append)
  {
    FinishGrows(frame, pollutant, append, carried.table, p.metadata);
  }

  lemma BaselineStepGrows(p: Progress, c: AlphaCalibration, gas: AlphaGas, f: (real, real), slot: nat,
                          baselineType: string, pollutant: string, index: set<int>, append: string, cfg: Settings,
                          carried: Carried)
    requires index != {} && UsableAlpha(c) && (gas == O3 ==> f.1 != 0.0)
    requires BaselineStep(c, gas, f, slot, baselineType, pollutant, index, append, cfg, p.frame, p.metadata, carried).Continue?
    ensures Grown(p, BaselineStep(c, gas, f, slot, baselineType, pollutant, index, append, cfg, p.frame, p.metadata, carried).next,
                  pollutant, append)
  {
    var baseliner := AlphaBaseliner(baselineType, slot, carried.baseliner);
    var sensor := if baseliner.Some? then Some(Electrochemical(gas, c, f.0, f.1, slot, baseliner.value, append)) else None;
    var d := FindDates(index);
    DayLoopKeeps(sensor, cfg, index, p.frame, carried.corrParams);
    var (g, rows) := DayLoop(sensor, cfg, index, p.frame, carried.corrParams).value;
    var table := Tabulate(rows, AlphaLabels(), DayLabels(d, d.rangeDays)).value;
    FinishStepGrows(p, g, pollutant, append, carried.(baseliner := baseliner, corrParams := rows, table := Some(table)));
  }

  lemma ClassicMetadataStepGrows(p: Progress, g: Frame, pollutant: string, append: string, num: Numerics.Routines, carried: Carried)
    requires (forall t :: t in g.rows <==> t in p.frame.rows) && p.frame.columns <= g.columns
    requires ClassicMetadataStep(g, pollutant, append, num, p.metadata, carried).Continue?
    ensures Grown(p, ClassicMetadataStep(g, pollutant, append, num, p.metadata, carried).next, pollutant, append)
  {
    var column := PollutantColumn(pollutant, append);
    var d := FindDates(g.rows.Keys);
    var rows := if d.rangeDays == 0 then carried.corrParams else Some(ClassicRows(g, d, d.rangeDays, column, num));
    var table := Tabulate(rows, ClassicLabels(), DayLabels(d, d.rangeDays)).value;
    FinishStepGrows(p, g, pollutant, append, carried.(corrParams := rows, table := Some(table)));
  }

  lemma ClassicStepGrows(p: Progress, c: AlphaCalibration, gas: AlphaGas, f: (real, real), slot: nat, pollutant: string,
                         append: string, num: Numerics.Routines, carried: Carried)
    requires UsableAlpha(c) && (gas == O3 ==> f.1 != 0.0)
    requires ClassicStep(c, gas, f, slot, pollutant, append, num, p.frame, p.metadata, carried).Continue?
    ensures Grown(p, ClassicStep(c, gas, f, slot, pollutant, append, num, p.frame, p.metadata, carried).next, pollutant, append)
  {
    var column := PollutantColumn(pollutant, append);
    var g := MapColumn(p.frame, column, row => ClassicConcentrationOfRow(gas, c, f, slot, append, row));
    ClassicMetadataStepGrows(p, g, pollutant, append, num, carried);
  }

  /**
   * A tuple that does not end the call keeps the index, drops no column,
   * adds the filter column of its pollutant and files its pollutant's table.
   */
  lemma AlphaStepGrows(cal: map<string, AlphaCalibration>, index: set<int>, opts: Options, p: Progress, tup: AlphaTuple)
    requires UsableCalibrations(cal)
    requires AlphaStep(cal, index, opts, p, tup).Continue?
    ensures Grown(p, AlphaStep(cal, index, opts, p, tup).next, tup.pollutant, opts.append)
  {
    var c := cal[tup.sensorId];
    var factors := ScanAlphaUnits(AlphaUnitsLUT, tup.pollutant, p.carried.factors);
    var carried := p.carried.(factors := factors);
    if tup.calibration.OtherMethod? {
      FinishStepGrows(p, p.frame, tup.pollutant, opts.append, carried);
    } else {
      var gas := ParseAlphaGas(tup.pollutant).value;
      AlphaUnitsLookup(tup.pollutant, p.carried.factors);
      if tup.calibration.Classic? {
        ClassicStepGrows(p, c, gas, factors.value, tup.slot, tup.pollutant, opts.append, opts.cfg.num, carried);
      } else {
        BaselineStepGrows(p, c, gas, factors.value, tup.slot, tup.calibration.baselineType, tup.pollutant, index,
                          opts.append, opts.cfg, carried);
      }
    }
  }

  /**
   * What a returned call holds relative to its starting progress: the same
   * index, no column dropped, and for every tuple the filter column of its
   * pollutant and an entry in the metadata.
   */
  ghost predicate Covers(p: Progress, o: Outcome, tuples: seq<AlphaTuple>, append: string)
    requires o.Completed?
  {
    (forall t :: t in o.frame.rows <==> t in p.frame.rows) &&
    p.frame.columns <= o.frame.columns && p.metadata.Keys <= o.metadata.Keys &&
    forall k :: 0 <= k < |tuples| ==>
      tuples[k].pollutant in o.metadata && Filtered(PollutantColumn(tuples[k].pollutant, append)) in o.frame.columns
  }

  /** A call that returns covers every tuple it was given. */
  lemma {:induction false} AlphaRunCovers(cal: map<string, AlphaCalibration>, index: set<int>, opts: Options, p: Progress,
                                          tuples: seq<AlphaTuple>)
    requires UsableCalibrations(cal)
    requires AlphaRun(cal, index, opts, p, tuples).Completed?
    ensures Covers(p, AlphaRun(cal, index, opts, p, tuples), tuples, opts.append)
    decreases |tuples|
  {
    if |tuples| > 0 {
      var o := AlphaRun(cal, index, opts, p, tuples);
      var step := AlphaStep(cal, index, opts, p, tuples[0]);
      assert step.Continue?;
      var next := step.next;
      assert o == AlphaRun(cal, index, opts, next, tuples[1..]);
      AlphaStepGrows(cal, index, opts, p, tuples[0]);
      AlphaRunCovers(cal, index, opts, next, tuples[1..]);
      assert Grown(p, next, tuples[0].pollutant, opts.append);
      assert Covers(next, o, tuples[1..], opts.append);
      forall k | 1 <= k < |tuples|
        ensures tuples[k] == tuples[1..][k - 1]
      {
      }
    }
  }

  /** Once a tuple ends the call, the tuples after it do not matter: nothing later is computed. */
  lemma {:induction false} StoppedRunIgnoresLaterTuples(cal: map<string, AlphaCalibration>, index: set<int>, opts: Options,
                                                        p: Progress, tuples: seq<AlphaTuple>, later: seq<AlphaTuple>)
    requires UsableCalibrations(cal)
    requires !AlphaRun(cal, index, opts, p, tuples).Completed?
    ensures AlphaRun(cal, index, opts, p, tuples + later) == AlphaRun(cal, index, opts, p, tuples)
    decreases |tuples|
  {
    assert (tuples + later)[0] == tuples[0];
    assert (tuples + later)[1..] == tuples[1..] + later;
    var step := AlphaStep(cal, index, opts, p, tuples[0]);
    if step.Continue? {
      StoppedRunIgnoresLaterTuples(cal, index, opts, step.next, tuples[1..], later);
    }
  }

  /** A sensor whose first target is not the tuple's pollutant makes the call return `None`. */
  lemma MismatchedTargetAborts(cal: map<string, AlphaCalibration>, index: set<int>, opts: Options, p: Progress,
                               tuples: seq<AlphaTuple>)
    requires UsableCalibrations(cal)
    requires |tuples| > 0 && tuples[0].sensorId in cal && cal[tuples[0].sensorId].target1 != tuples[0].pollutant
    ensures AlphaRun(cal, index, opts, p, tuples) == Aborted
  {
  }

  /**
   * An ozone tuple reached before any NO2 column exists makes the call
   * return `None`, whatever follows it.
   */
  lemma OzoneBeforeNitrogenAborts(cal: map<string, AlphaCalibration>, index: set<int>, opts: Options, p: Progress,
                                  tuples: seq<AlphaTuple>)
    requires UsableCalibrations(cal)
    requires |tuples| > 0 && tuples[0].pollutant == "O3" && tuples[0].sensorId in cal
    requires cal[tuples[0].sensorId].target1 == "O3"
    requires PollutantColumn("NO2", opts.append) !in p.frame.columns
    ensures AlphaRun(cal, index, opts, p, tuples) == Aborted
  {
  }

  /**
   * `_deltas` is read only by the baseline method: a call whose tuples all
   * use another method has the same outcome whatever the deltas, an empty
   * list included.
   */
  lemma {:induction false} NonBaselineRunIgnoresDeltas(cal: map<string, AlphaCalibration>, index: set<int>, opts: Options,
                                                       p: Progress, tuples: seq<AlphaTuple>, deltas: seq<nat>)
    requires UsableCalibrations(cal)
    requires forall k :: 0 <= k < |tuples| ==> !tuples[k].calibration.BaselineMethod?
    ensures AlphaRun(cal, index, opts.(cfg := opts.cfg.(deltas := deltas)), p, tuples) == AlphaRun(cal, index, opts, p, tuples)
    decreases |tuples|
  {
    if |tuples| > 0 {
      var step := AlphaStep(cal, index, opts, p, tuples[0]);
      assert AlphaStep(cal, index, opts.(cfg := opts.cfg.(deltas := deltas)), p, tuples[0]) == step;
      if step.Continue? {
        NonBaselineRunIgnoresDeltas(cal, index, opts, step.next, tuples[1..], deltas);
      }
    }
  }

  /** The tuple loop never reads `_filterExpSmoothing`. */
  lemma {:induction false} AlphaRunIgnoresFilterArgument(cal: map<string, AlphaCalibration>, index: set<int>, opts: Options,
                                                         p: Progress, tuples: seq<AlphaTuple>, alpha: real)
    requires UsableCalibrations(cal)
    ensures AlphaRun(cal, index, opts.(filterSmoothing := alpha), p, tuples) == AlphaRun(cal, index, opts, p, tuples)
    decreases |tuples|
  {
    if |tuples| > 0 {
      var step := AlphaStep(cal, index, opts, p, tuples[0]);
      assert AlphaStep(cal, index, opts.(filterSmoothing := alpha), p, tuples[0]) == step;
      if step.Continue? {
        AlphaRunIgnoresFilterArgument(cal, index, opts, step.next, tuples[1..], alpha);
      }
    }
  }

  /**
   * Where the working electrode reads exactly nWA times the auxiliary one,
   * the classic CO and NO2 concentrations are their background values.
   */
  lemma ClassicAtBalanceGivesBackground(gas: AlphaGas, c: AlphaCalibration, f: (real, real), slot: nat,
                                        append: string, row: Row)
    requires UsableAlpha(c) && gas != O3
    requires Working(slot) in row && Auxiliary(slot) in row
    requires row[Working(slot)] == ZeroCurrentRatio(c) * row[Auxiliary(slot)]
    ensures ClassicConcentrationOfRow(gas, c, f, slot, append, row) ==
            Some(if gas == CO then BackgroundCO else BackgroundNO2)
  {
    var corrected := row[Working(slot)] - ZeroCurrentRatio(c) * row[Auxiliary(slot)];
    assert corrected == 0.0;
    assert ClassicConcentrationOfRow(gas, c, f, slot, append, row).Some?;
    assert ClassicConcentrationOfRow(gas, c, f, slot, append, row).value == AlphaConcentration(gas, c, f.0, f.1, corrected, 0.0);
    assert ClassicConcentrationOfRow(gas, c, f, slot, append, row) == Some(AlphaConcentration(gas, c, f.0, f.1, corrected, 0.0));
    BalancedSignalGivesBackground(gas, c, f.0, f.1, 0.0);
  }

  /**
   * Rows of ten NaNs or fifteen fields make a table exactly when at least
   * one day had data; each row is then padded to the fifteen labels. The
   * rows of the day loop have this shape by the contract of `RowsAfter`.
   */
  lemma AlphaTableNeedsOneDay(rows: seq<seq<Stat>>, days: seq<int>)
    requires |rows| == |days| > 0 && RowsShaped(rows, |AlphaLabels()|)
    ensures BuildTable(rows, AlphaLabels(), days).Some? <==> exists k :: 0 <= k < |rows| && |rows[k]| == |AlphaLabels()|
  {
    var w := Widest(rows);
    if exists k :: 0 <= k < |rows| && |rows[k]| == |AlphaLabels()| {
      assert w == |AlphaLabels()|;
    }
  }
}

/**
 * `calculatePollutantsMICS` of notebooks/pollutant_cal_utils.py: for each
 * tuple (pollutant, sensor serial number, method, baseline type) in order,
 * pick the sensing element from the pollutant, look the sensor's element
 * up, return `None` on a mismatched target, pick the unit factor, then
 * (baseline method only) run the day loop and build the seven-label table,
 * and finally filter the pollutant column and file the table under the
 * pollutant. As in the alphasense variant, locals that a tuple does not set
 * keep what an earlier tuple left, and the model carries them along.
 */
module MicsRun {
  import opened Wrappers
  import opened TimeIndex
  import opened Frames
  import opened DaySegmentation
  import opened Diagnostics
  import opened Concentration
  import opened DailyBaseline
  import opened CalibrationRun

  datatype MicsTuple = MicsTuple(pollutant: string, sensorSN: string, calibration: CalibrationMethod)

  /**
   * The arguments the model reads. `filterSmoothing` is `_filterExpSmoothing`:
   * the filter uses the module constant instead.
   */
  datatype Options = Options(append: string, cfg: Settings, filterSmoothing: real)

  /** The locals one tuple can leave to the next: `indexPollutant`, `factor_unit`, `baseliner`, `CorrParams`, `CorrParamsDF`. */
  datatype Carried = Carried(element: Option<MicsGas>, factor: Option<real>, baseliner: Option<Channel>,
                             corrParams: Option<seq<seq<Stat>>>, table: Option<Table>)

  /** `dataframeResult`, `CorrParamsDict` and the carried locals between two tuples. */
  datatype Progress = Progress(frame: Frame, metadata: map<string, Table>, carried: Carried)

  /** A tuple either hands its progress to the next one or ends the call. */
  datatype Step = Continue(next: Progress) | Abort | Raise(failure: Failure)

  /** Every sensor's two elements have non-zero sensitivities. */
  predicate UsableCalibrations(cal: map<string, MicsCalibration>) {
    forall sn :: sn in cal ==> UsableMics(cal[sn])
  }

  /** The progress before the first tuple: a copy of the input, no metadata, no locals bound. */
  function Start(dataframe: Frame): Progress {
    Progress(dataframe, map[], Carried(None, None, None, None, None))
  }

  /** `indexPollutant`: element 1 for CO, element 2 for NO2; any other pollutant keeps the earlier one. */
  function ElementFor(pollutant: string, previous: Option<MicsGas>): Option<MicsGas> {
    if pollutant == "CO" then Some(MicsCO)
    else if pollutant == "NO2" then Some(MicsNO2)
    else previous
  }

  /** The baseliner the `if`/`elif` pair picks from the urban board; an unknown type keeps the earlier one. */
  function MicsBaseliner(baselineType: string, previous: Option<Channel>): Option<Channel> {
    if baselineType == "single_temp" then Some(Temperature(UrbanBoard))
    else if baselineType == "single_rel_hum" then Some(Humidity(UrbanBoard))
    else previous
  }

  /** The end of a tuple as a step. */
  function FinishStep(frame: Frame, pollutant: string, append: string, carried: Carried,
                      metadata: map<string, Table>): Step
  {
    match Finish(frame, pollutant, append, carried.table, metadata)
    case Fail(e) => Raise(e)
    case Ok((g, m)) => Continue(Progress(g, m, carried))
  }

  /** The baseline method: the day loop on the MICS resistance, its table with seven labels, then the filter. */
  function BaselineStep(gas: MicsGas, e: MicsElementData, factor: real, baselineType: string, pollutant: string,
                        index: set<int>, append: string, cfg: Settings,
                        frame: Frame, metadata: map<string, Table>, carried: Carried): Step
    requires index != {} && e.sensitivity != 0.0
  {
    var baseliner := MicsBaseliner(baselineType, carried.baseliner);
    var sensor := if baseliner.Some? then Some(Resistive(gas, e, factor, pollutant, baseliner.value, append)) else None;
    var d := FindDates(index);
    match DayLoop(sensor, cfg, index, frame, carried.corrParams)
    case Fail(f) => Raise(f)
    case Ok((g, rows)) =>
      match Tabulate(rows, MicsLabels(), DayLabels(d, d.rangeDays))
      case Fail(f) => Raise(f)
      case Ok(table) =>
        FinishStep(g, pollutant, append, carried.(baseliner := baseliner, corrParams := rows, table := Some(table)), metadata)
  }

  /** One iteration of the tuple loop. */
  function MicsStep(cal: map<string, MicsCalibration>, index: set<int>, opts: Options, p: Progress, tup: MicsTuple): Step
    requires UsableCalibrations(cal)
  {
    var element := ElementFor(tup.pollutant, p.carried.element);
    if element.None? then Raise(UnboundName)
    else if tup.sensorSN !in cal then Raise(UnknownSensor)
    else
      var e := MicsElementOf(cal[tup.sensorSN], MicsElement(element.value));
      if e.target != tup.pollutant then Abort
      else
        var factor := ScanMicsUnits(MicsUnitsLUT, tup.pollutant, p.carried.factor);
        var carried := p.carried.(element := element, factor := factor);
        if index == {} then Raise(EmptyIndex)
        else if !tup.calibration.BaselineMethod? then FinishStep(p.frame, tup.pollutant, opts.append, carried, p.metadata)
        else
          var gas := ParseMicsGas(tup.pollutant);
          if gas.None? then Raise(UnknownPollutant)
          else
            MicsUnitsLookup(tup.pollutant, p.carried.factor);
            BaselineStep(gas.value, e, factor.value, tup.calibration.baselineType, tup.pollutant, index,
                         opts.append, opts.cfg, p.frame, p.metadata, carried)
  }

  /** The tuple loop from `p` over `tuples`: the first tuple that ends the call decides the outcome. */
  function MicsRun(cal: map<string, MicsCalibration>, index: set<int>, opts: Options, p: Progress,
                   tuples: seq<MicsTuple>): Outcome
    requires UsableCalibrations(cal)
    decreases |tuples|
  {
    if |tuples| == 0 then Completed(p.frame, p.metadata)
    else
      match MicsStep(cal, index, opts, p, tuples[0])
      case Abort => Aborted
      case Raise(f) => Crashed(f)
      case Continue(next) => MicsRun(cal, index, opts, next, tuples[1..])
  }

  // ---------------------------------------------------------------------
  // The loops as the source runs them.
  // ---------------------------------------------------------------------

  method BaselineTuple(gas: MicsGas, e: MicsElementData, factor: real, baselineType: string, pollutant: string,
                       index: set<int>, append: string, cfg: Settings,
                       frame: Frame, metadata: map<string, Table>, carried: Carried) returns (step: Step)
    requires index != {} && e.sensitivity != 0.0
    ensures step == BaselineStep(gas, e, factor, baselineType, pollutant, index, append, cfg, frame, metadata, carried)
  {
    var baseliner := MicsBaseliner(baselineType, carried.baseliner);
    var sensor := if baseliner.Some? then Some(Resistive(gas, e, factor, pollutant, baseliner.value, append)) else None;
    var d := FindDates(index);
    var loop := RunDayLoop(sensor, cfg, index, frame, carried.corrParams);
    if loop.Fail? {
      return Raise(loop.failure);
    }
    var (g, rows) := loop.value;
    var table := Tabulate(rows, MicsLabels(), DayLabels(d, d.rangeDays));
    if table.Fail? {
      return Raise(table.failure);
    }
    var carried' := carried.(baseliner := baseliner, corrParams := rows, table := Some(table.value));
    var finish := FinishTuple(g, pollutant, append, carried'.table, metadata);
    step := if finish.Fail? then Raise(finish.failure) else Continue(Progress(finish.value.0, finish.value.1, carried'));
  }

  method ProcessMicsTuple(cal: map<string, MicsCalibration>, index: set<int>, opts: Options, p: Progress,
                          tup: MicsTuple) returns (step: Step)
    requires UsableCalibrations(cal)
    ensures step == MicsStep(cal, index, opts, p, tup)
  {
    var element := p.carried.element;
    if tup.pollutant == "CO" {
      element := Some(MicsCO);
    } else if tup.pollutant == "NO2" {
      element := Some(MicsNO2);
    }
    if element.None? {
      return Raise(UnboundName);
    }
    if tup.sensorSN !in cal {
      return Raise(UnknownSensor);
    }
    var e := MicsElementOf(cal[tup.sensorSN], MicsElement(element.value));
    if e.target != tup.pollutant {
      return Abort;
    }
    var factor := MicsUnitFactor(tup.pollutant, p.carried.factor);
    var carried := p.carried.(element := element, factor := factor);
    if index == {} {
      return Raise(EmptyIndex);
    }
    if !tup.calibration.BaselineMethod? {
      var finish := FinishTuple(p.frame, tup.pollutant, opts.append, carried.table, p.metadata);
      return if finish.Fail? then Raise(finish.failure) else Continue(Progress(finish.value.0, finish.value.1, carried));
    }
    var gas := ParseMicsGas(tup.pollutant);
    if gas.None? {
      return Raise(UnknownPollutant);
    }
    step := BaselineTuple(gas.value, e, factor.value, tup.calibration.baselineType, tup.pollutant, index,
                          opts.append, opts.cfg, p.frame, p.metadata, carried);
  }

  /**
   * `calculatePollutantsMICS`: the tuple loop over a copy of the input
   * frame, dates always taken from the input's own index.
   */
  method CalculatePollutantsMics(cal: map<string, MicsCalibration>, dataframe: Frame, tuples: seq<MicsTuple>,
                                 opts: Options) returns (outcome: Outcome)
    requires UsableCalibrations(cal)
    ensures outcome == MicsRun(cal, dataframe.rows.Keys, opts, Start(dataframe), tuples)
  {
    var index := dataframe.rows.Keys;
    var p := Start(dataframe);
    for i := 0 to |tuples|
      invariant MicsRun(cal, index, opts, Start(dataframe), tuples) == MicsRun(cal, index, opts, p, tuples[i..])
    {
      assert tuples[i..][1..] == tuples[i + 1..];
      var step := ProcessMicsTuple(cal, index, opts, p, tuples[i]);
      if step.Abort? {
        return Aborted;
      } else if step.Raise? {
        return Crashed(step.failure);
      }
      p := step.next;
    }
    outcome := Completed(p.frame, p.metadata);
  }

  // ---------------------------------------------------------------------
  // What a call guarantees.
  // ---------------------------------------------------------------------

  /** What a tuple that hands on its progress has done to the frame and the metadata. */
  ghost predicate Grown(p: Progress, q: Progress, pollutant: string, append: string) {
    (forall t :: t in q.frame.rows <==> t in p.frame.rows) &&
    p.frame.columns <= q.frame.columns &&
    Filtered(PollutantColumn(pollutant, append)) in q.frame.columns &&
    q.metadata.Keys == p.metadata.Keys + {pollutant}
  }

  lemma FinishStepGrows(p: Progress, frame: Frame, pollutant: string, append: string, carried: Carried)
    requires (forall t :: t in frame.rows <==> t in p.frame.rows) && p.frame.columns <= frame.columns
    requires FinishStep(frame, pollutant, append, carried, p.metadata).Continue?
    ensures Grown(p, FinishStep(frame, pollutant, append, carried, p.metadata).next, pollutant, append)
  {
    FinishGrows(frame, pollutant, append, carried.table, p.metadata);
  }

  lemma BaselineStepGrows(p: Progress, gas: MicsGas, e: MicsElementData, factor: real, baselineType: string,
                          pollutant: string, index: set<int>, append: string, cfg: Settings, carried: Carried)
    requires index != {} && e.sensitivity != 0.0
    requires BaselineStep(gas, e, factor, baselineType, pollutant, index, append, cfg, p.frame, p.metadata, carried).Continue?
    ensures Grown(p, BaselineStep(gas, e, factor, baselineType, pollutant, index, append, cfg, p.frame, p.metadata, carried).next,
                  pollutant, append)
  {
    var baseliner := MicsBaseliner(baselineType, carried.baseliner);
    var sensor := if baseliner.Some? then Some(Resistive(gas, e, factor, pollutant, baseliner.value, append)) else None;
    var d := FindDates(index);
    DayLoopKeeps(sensor, cfg, index, p.frame, carried.corrParams);
    var (g, rows) := DayLoop(sensor, cfg, index, p.frame, carried.corrParams).value;
    var table := Tabulate(rows, MicsLabels(), DayLabels(d, d.rangeDays)).value;
    FinishStepGrows(p, g, pollutant, append, carried.(baseliner := baseliner, corrParams := rows, table := Some(table)));
  }

  /**
   * A tuple that does not end the call keeps the index, drops no column,
   * adds the filter column of its pollutant and files its pollutant's table.
   */
  lemma MicsStepGrows(cal: map<string, MicsCalibration>, index: set<int>, opts: Options, p: Progress, tup: MicsTuple)
    requires UsableCalibrations(cal)
    requires MicsStep(cal, index, opts, p, tup).Continue?
    ensures Grown(p, MicsStep(cal, index, opts, p, tup).next, tup.pollutant, opts.append)
  {
    var element := ElementFor(tup.pollutant, p.carried.element);
    var e := MicsElementOf(cal[tup.sensorSN], MicsElement(element.value));
    var factor := ScanMicsUnits(MicsUnitsLUT, tup.pollutant, p.carried.factor);
    var carried := p.carried.(element := element, factor := factor);
    if !tup.calibration.BaselineMethod? {
      FinishStepGrows(p, p.frame, tup.pollutant, opts.append, carried);
    } else {
      var gas := ParseMicsGas(tup.pollutant).value;
      MicsUnitsLookup(tup.pollutant, p.carried.factor);
      BaselineStepGrows(p, gas, e, factor.value, tup.calibration.baselineType, tup.pollutant, index,
                        opts.append, opts.cfg, carried);
    }
  }

  /**
   * What a returned call holds relative to its starting progress: the same
   * index, no column dropped, and for every tuple the filter column of its
   * pollutant and an entry in the metadata.
   */
  ghost predicate Covers(p: Progress, o: Outcome, tuples: seq<MicsTuple>, append: string)
    requires o.Completed?
  {
    (forall t :: t in o.frame.rows <==> t in p.frame.rows) &&
    p.frame.columns <= o.frame.columns && p.metadata.Keys <= o.metadata.Keys &&
    forall k :: 0 <= k < |tuples| ==>
      tuples[k].pollutant in o.metadata && Filtered(PollutantColumn(tuples[k].pollutant, append)) in o.frame.columns
  }

  /** A call that returns covers every tuple it was given. */
  lemma {:induction false} MicsRunCovers(cal: map<string, MicsCalibration>, index: set<int>, opts: Options, p: Progress,
                                         tuples: seq<MicsTuple>)
    requires UsableCalibrations(cal)
    requires MicsRun(cal, index, opts, p, tuples).Completed?
    ensures Covers(p, MicsRun(cal, index, opts, p, tuples), tuples, opts.append)
    decreases |tuples|
  {
    if |tuples| > 0 {
      var o := MicsRun(cal, index, opts, p, tuples);
      var step := MicsStep(cal, index, opts, p, tuples[0]);
      assert step.Continue?;
      var next := step.next;
      assert o == MicsRun(cal, index, opts, next, tuples[1..]);
      MicsStepGrows(cal, index, opts, p, tuples[0]);
      MicsRunCovers(cal, index, opts, next, tuples[1..]);
      assert Grown(p, next, tuples[0].pollutant, opts.append);
      assert Covers(next, o, tuples[1..], opts.append);
      forall k | 1 <= k < |tuples|
        ensures tuples[k] == tuples[1..][k - 1]
      {
      }
    }
  }

  /** Once a tuple ends the call, the tuples after it do not matter: nothing later is computed. */
  lemma {:induction false} StoppedRunIgnoresLaterTuples(cal: map<string, MicsCalibration>, index: set<int>, opts: Options,
                                                        p: Progress, tuples: seq<MicsTuple>, later: seq<MicsTuple>)
    requires UsableCalibrations(cal)
    requires !MicsRun(cal, index, opts, p, tuples).Completed?
    ensures MicsRun(cal, index, opts, p, tuples + later) == MicsRun(cal, index, opts, p, tuples)
    decreases |tuples|
  {
    assert (tuples + later)[0] == tuples[0];
    assert (tuples + later)[1..] == tuples[1..] + later;
    var step := MicsStep(cal, index, opts, p, tuples[0]);
    if step.Continue? {
      StoppedRunIgnoresLaterTuples(cal, index, opts, step.next, tuples[1..], later);
    }
  }

  /**
   * A CO or NO2 tuple whose sensor's element for that pollutant targets
   * something else makes the call return `None`.
   */
  lemma MismatchedTargetAborts(cal: map<string, MicsCalibration>, index: set<int>, opts: Options, p: Progress,
                               tuples: seq<MicsTuple>)
    requires UsableCalibrations(cal)
    requires |tuples| > 0 && tuples[0].sensorSN in cal
    requires (tuples[0].pollutant == "CO" && cal[tuples[0].sensorSN].target1 != "CO") ||
             (tuples[0].pollutant == "NO2" && cal[tuples[0].sensorSN].target2 != "NO2")
    ensures MicsRun(cal, index, opts, p, tuples) == Aborted
  {
  }

  /**
   * A first tuple naming neither CO nor NO2 leaves `indexPollutant` unbound
   * and the call raises before it looks at the sensor.
   */
  lemma FirstOtherPollutantRaises(cal: map<string, MicsCalibration>, dataframe: Frame, opts: Options,
                                  tuples: seq<MicsTuple>)
    requires UsableCalibrations(cal)
    requires |tuples| > 0 && tuples[0].pollutant != "CO" && tuples[0].pollutant != "NO2"
    ensures MicsRun(cal, dataframe.rows.Keys, opts, Start(dataframe), tuples) == Crashed(UnboundName)
  {
  }

  /**
   * `_deltas` is read only by the baseline method: a call whose tuples all
   * use another method has the same outcome whatever the deltas, an empty
   * list included.
   */
  lemma {:induction false} NonBaselineRunIgnoresDeltas(cal: map<string, MicsCalibration>, index: set<int>, opts: Options,
                                                       p: Progress, tuples: seq<MicsTuple>, deltas: seq<nat>)
    requires UsableCalibrations(cal)
    requires forall k :: 0 <= k < |tuples| ==> !tuples[k].calibration.BaselineMethod?
    ensures MicsRun(cal, index, opts.(cfg := opts.cfg.(deltas := deltas)), p, tuples) == MicsRun(cal, index, opts, p, tuples)
    decreases |tuples|
  {
    if |tuples| > 0 {
      var step := MicsStep(cal, index, opts, p, tuples[0]);
      assert MicsStep(cal, index, opts.(cfg := opts.cfg.(deltas := deltas)), p, tuples[0]) == step;
      if step.Continue? {
        NonBaselineRunIgnoresDeltas(cal, index, opts, step.next, tuples[1..], deltas);
      }
    }
  }

  /** The tuple loop never reads `_filterExpSmoothing`. */
  lemma {:induction false} MicsRunIgnoresFilterArgument(cal: map<string, MicsCalibration>, index: set<int>, opts: Options,
                                                        p: Progress, tuples: seq<MicsTuple>, alpha: real)
    requires UsableCalibrations(cal)
    ensures MicsRun(cal, index, opts.(filterSmoothing := alpha), p, tuples) == MicsRun(cal, index, opts, p, tuples)
    decreases |tuples|
  {
    if |tuples| > 0 {
      var step := MicsStep(cal, index, opts, p, tuples[0]);
      assert MicsStep(cal, index, opts.(filterSmoothing := alpha), p, tuples[0]) == step;
      if step.Continue? {
        MicsRunIgnoresFilterArgument(cal, index, opts, step.next, tuples[1..], alpha);
      }
    }
  }

  /**
   * Rows of ten NaNs or seven fields make a table exactly when no day is
   * missing: a single day without data gives a ten-field row the seven
   * labels cannot hold. The rows of the day loop have this shape by the
   * contract of `RowsAfter`.
   */
  lemma MicsTableNeedsEveryDay(rows: seq<seq<Stat>>, days: seq<int>)
    requires |rows| == |days| > 0 && RowsShaped(rows, |MicsLabels()|)
    ensures BuildTable(rows, MicsLabels(), days).Some? <==> forall k :: 0 <= k < |rows| ==> rows[k] != NanRow()
  {
    var w := Widest(rows);
    if forall k :: 0 <= k < |rows| ==> rows[k] != NanRow() {
      assert forall k :: 0 <= k < |rows| ==> |rows[k]| == |MicsLabels()|;
    } else {
      var k :| 0 <= k < |rows| && rows[k] == NanRow();
      assert |rows[k]| == 10;
    }
  }
}

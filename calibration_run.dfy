/**
 * What `calculatePollutantsAlpha` and `calculatePollutantsMICS` in
 * notebooks/pollutant_cal_utils.py share around the day loop: how a call
 * ends, whether any day of the loop finds data, the metadata table built
 * from the diagnostics rows, and the smoothing filter applied to the new
 * concentration column.
 */
module CalibrationRun {
  import opened Wrappers
  import opened TimeIndex
  import opened Frames
  import opened DaySegmentation
  import opened Diagnostics
  import opened Smoothing
  import opened DailyBaseline

  /** The third and fourth fields of a tuple: `'classic'`, `'baseline'` with its type, or any other name. */
  datatype CalibrationMethod = Classic | BaselineMethod(baselineType: string) | OtherMethod(name: string)

  /** Why a call raises instead of returning. */
  datatype Failure =
    | UnknownSensor        // KeyError: the calibration table has no row for the sensor
    | UnboundName          // NameError: a variable that neither this tuple nor an earlier one has set
    | MissingColumn        // KeyError: a channel the frame does not hold
    | UnknownPollutant     // the formulas have no branch for the pollutant, so its column is never written
    | EmptyIndex           // `findDates` or `exponential_smoothing` on a frame without rows
    | ColumnCountMismatch  // `pd.DataFrame`: the rows do not have as many fields as there are labels
    | EmptySequence        // ValueError: `min` of an empty chunk (a zero delta) or `max` of no correlations (no delta)

  /** A call returns the frame and the metadata per pollutant, returns `None`, or raises. */
  datatype Outcome = Completed(frame: Frame, metadata: map<string, Table>) | Aborted | Crashed(failure: Failure)

  /** A value, or the failure that prevents it. */
  datatype Result<T> = Ok(value: T) | Fail(failure: Failure)

  /** The column `<pollutant>_<append>` a tuple writes. */
  function PollutantColumn(pollutant: string, append: string): Channel {
    Concentration(pollutant, append)
  }

  /** Whether the stretch of some day of the loop holds a row of the frame (whose index is `keys`). */
  predicate SomeDayHasData(keys: set<int>, index: set<int>, overlapHours: nat)
    requires index != {}
  {
    exists day: nat, t :: day < FindDates(index).rangeDays && t in keys && InOverlap(index, day, overlapHours, t)
  }

  /** The rows a loop appends when no day has data: ten NaNs per day. */
  function NanRows(n: nat): (rows: seq<seq<Stat>>)
    ensures |rows| == n && forall k :: 0 <= k < n ==> rows[k] == NanRow()
  {
    seq(n, _ => NanRow())
  }

  /** The table's index: the midnight opening each day of the loop. */
  function DayLabels(d: DateRange, n: nat): (days: seq<int>)
    ensures |days| == n && forall k :: 0 <= k < n ==> days[k] == DayStart(d, k)
  {
    seq(n, k requires 0 <= k => DayStart(d, k))
  }

  /**
   * `CorrParamsDF = pd.DataFrame(CorrParams, ...)`: the list must be bound
   * and its rows must fit the labels.
   */
  function Tabulate(corrParams: Option<seq<seq<Stat>>>, labels: seq<string>, days: seq<int>): (r: Result<Table>)
    ensures r.Ok? <==> corrParams.Some? && BuildTable(corrParams.value, labels, days).Some?
    ensures r.Ok? ==> r.value == BuildTable(corrParams.value, labels, days).value
    ensures corrParams.None? ==> r == Fail(UnboundName)
  {
    if corrParams.None? then Fail(UnboundName)
    else
      var table := BuildTable(corrParams.value, labels, days);
      if table.None? then Fail(ColumnCountMismatch) else Ok(table.value)
  }

  /** The frame with `<column>_filter`, the exponentially smoothed column (gaps read as 0). */
  function FilterFrame(frame: Frame, column: Channel): Frame
    requires |frame.rows| > 0
  {
    SetColumn(frame, Filtered(column), Smoothed(Values(frame, column), FilterExpSmoothing))
  }

  /** `dataframeResult[pollutant_column + '_filter'] = exponential_smoothing(...)`. */
  method FilterColumn(frame: Frame, column: Channel) returns (g: Frame)
    requires |frame.rows| > 0
    ensures g == FilterFrame(frame, column)
  {
    var smoothed := ExponentialSmoothing(Values(frame, column), FilterExpSmoothing);
    g := SetColumn(frame, Filtered(column), smoothed);
  }

  /**
   * The end of every tuple: filter the concentration column and store the
   * metadata table under the pollutant. The column must exist and the
   * table must be bound (it may be one an earlier tuple built).
   */
  function Finish(frame: Frame, pollutant: string, append: string, table: Option<Table>,
                  metadata: map<string, Table>): (r: Result<(Frame, map<string, Table>)>)
  {
    var column := PollutantColumn(pollutant, append);
    if column !in frame.columns then Fail(MissingColumn)
    else if table.None? then Fail(UnboundName)
    else if |frame.rows| == 0 then Fail(EmptyIndex)
    else Ok((FilterFrame(frame, column), metadata[pollutant := table.value]))
  }

  /** `Finish`, as the source runs it. */
  method FinishTuple(frame: Frame, pollutant: string, append: string, table: Option<Table>,
                     metadata: map<string, Table>) returns (r: Result<(Frame, map<string, Table>)>)
    ensures r == Finish(frame, pollutant, append, table, metadata)
  {
    var column := PollutantColumn(pollutant, append);
    if column !in frame.columns {
      return Fail(MissingColumn);
    }
    if table.None? {
      return Fail(UnboundName);
    }
    if |frame.rows| == 0 {
      return Fail(EmptyIndex);
    }
    var filtered := FilterColumn(frame, column);
    r := Ok((filtered, metadata[pollutant := table.value]));
  }

  /**
   * The day loop of the baseline method as far as the call is concerned:
   * the frame it leaves and the `CorrParams` list it leaves bound. With no
   * day (`range(0)`) the list keeps whatever an earlier tuple bound; when no
   * day's stretch holds a row, nothing is read and every day appends ten
   * NaNs; otherwise the first day with data raises, in the order the
   * source meets them: on an unbound baseliner (`sensor` is `None`), on a
   * missing baselined or baseliner channel, on deltas the rolling minimum
   * or `findMax` cannot take, and on any other missing channel.
   */
  function DayLoop(sensor: Option<Sensor>, cfg: Settings, index: set<int>, frame: Frame,
                   carriedRows: Option<seq<seq<Stat>>>): Result<(Frame, Option<seq<seq<Stat>>>)>
    requires index != {}
    requires sensor.Some? ==> UsableSensor(sensor.value)
  {
    var n := FindDates(index).rangeDays;
    if n == 0 then Ok((frame, carriedRows))
    else if !SomeDayHasData(frame.rows.Keys, index, cfg.overlapHours) then Ok((frame, Some(NanRows(n))))
    else if sensor.None? then Fail(UnboundName)
    else if !(BaselineInputs(sensor.value) <= frame.columns) then Fail(MissingColumn)
    else if !ValidDeltas(cfg.deltas) then Fail(EmptySequence)
    else if !(NeededChannels(sensor.value) <= frame.columns) then Fail(MissingColumn)
    else Ok((FrameAfter(sensor.value, cfg, index, frame, n), Some(RowsAfter(sensor.value, cfg, index, frame, n))))
  }

  /** `DayLoop`, running the loop itself when a day has data to read. */
  method RunDayLoop(sensor: Option<Sensor>, cfg: Settings, index: set<int>, frame: Frame,
                    carriedRows: Option<seq<seq<Stat>>>) returns (r: Result<(Frame, Option<seq<seq<Stat>>>)>)
    requires index != {}
    requires sensor.Some? ==> UsableSensor(sensor.value)
    ensures r == DayLoop(sensor, cfg, index, frame, carriedRows)
  {
    var n := FindDates(index).rangeDays;
    if n == 0 {
      return Ok((frame, carriedRows));
    }
    if !SomeDayHasData(frame.rows.Keys, index, cfg.overlapHours) {
      return Ok((frame, Some(NanRows(n))));
    }
    if sensor.None? {
      return Fail(UnboundName);
    }
    if !(BaselineInputs(sensor.value) <= frame.columns) {
      return Fail(MissingColumn);
    }
    if !ValidDeltas(cfg.deltas) {
      return Fail(EmptySequence);
    }
    if !(NeededChannels(sensor.value) <= frame.columns) {
      return Fail(MissingColumn);
    }
    var result, rows := BaselineDays(frame, index, sensor.value, cfg);
    r := Ok((result, Some(rows)));
  }

  // ---------------------------------------------------------------------
  // What the shared steps guarantee.
  // ---------------------------------------------------------------------

  /**
   * The filter column holds the smoothed concentration column, the
   * concentration column itself is unchanged, and no row is added or
   * dropped.
   */
  lemma FilterFrameSmooths(frame: Frame, column: Channel)
    requires |frame.rows| > 0
    ensures FilterFrame(frame, column).rows.Keys == frame.rows.Keys
    ensures FilterFrame(frame, column).columns == frame.columns + {Filtered(column)}
    ensures Values(FilterFrame(frame, column), Filtered(column)) == Smoothed(Values(frame, column), FilterExpSmoothing)
    ensures Values(FilterFrame(frame, column), column) == Values(frame, column)
  {
    var g := FilterFrame(frame, column);
    assert Timestamps(g) == Timestamps(frame);
    assert column != Filtered(column);
  }

  /**
   * Every filtered value lies between the least and the greatest value of
   * the concentration column (gaps counting as 0).
   */
  lemma FilterStaysWithinColumn(frame: Frame, column: Channel, lo: real, hi: real)
    requires |frame.rows| > 0
    requires forall i :: 0 <= i < |frame.rows| ==> lo <= Values(frame, column)[i] <= hi
    ensures forall i :: 0 <= i < |frame.rows| ==> lo <= Values(FilterFrame(frame, column), Filtered(column))[i] <= hi
  {
    FilterFrameSmooths(frame, column);
    SmoothedWithinBounds(Values(frame, column), FilterExpSmoothing, lo, hi);
  }

  /** Finishing keeps the index and the columns, adds the filter column and files the table under the pollutant. */
  lemma FinishGrows(frame: Frame, pollutant: string, append: string, table: Option<Table>, metadata: map<string, Table>)
    requires Finish(frame, pollutant, append, table, metadata).Ok?
    ensures var (g, m) := Finish(frame, pollutant, append, table, metadata).value;
            g.rows.Keys == frame.rows.Keys &&
            frame.columns <= g.columns &&
            PollutantColumn(pollutant, append) in g.columns && Filtered(PollutantColumn(pollutant, append)) in g.columns &&
            m == metadata[pollutant := table.value]
  {
    FilterFrameSmooths(frame, PollutantColumn(pollutant, append));
  }

  /** A pass whose stretch holds no row of the frame changes nothing and appends ten NaNs. */
  lemma EmptyPass(s: Sensor, cfg: Settings, index: set<int>, frame: Frame, day: nat)
    requires index != {} && ValidDeltas(cfg.deltas) && UsableSensor(s)
    requires day < FindDates(index).rangeDays
    requires !SomeDayHasData(frame.rows.Keys, index, cfg.overlapHours)
    ensures FrameStep(s, cfg, index, frame, day) == frame
    ensures RowOfDay(s, cfg, index, frame, day) == NanRow()
  {
    var trim := OverlapTrim(index, cfg, frame, day);
    assert forall t :: t in trim.rows ==> t in frame.rows && InOverlap(index, day, cfg.overlapHours, t);
    assert trim.rows.Keys == {};
  }

  /**
   * When no day's stretch holds a row, the loop leaves the frame as it was
   * and appends ten NaNs per day, whatever the sensor: which is why the
   * source can reach the end of such a loop without reading a channel.
   */
  lemma {:induction false} NoDataLoopIsIdle(s: Sensor, cfg: Settings, index: set<int>, frame: Frame, n: nat)
    requires index != {} && ValidDeltas(cfg.deltas) && UsableSensor(s)
    requires n <= FindDates(index).rangeDays
    requires !SomeDayHasData(frame.rows.Keys, index, cfg.overlapHours)
    ensures FrameAfter(s, cfg, index, frame, n) == frame
    ensures RowsAfter(s, cfg, index, frame, n) == NanRows(n)
  {
    if n > 0 {
      NoDataLoopIsIdle(s, cfg, index, frame, n - 1);
      EmptyPass(s, cfg, index, frame, n - 1);
      assert NanRows(n) == NanRows(n - 1) + [NanRow()];
    }
  }

  /**
   * The first day with data hands the deltas to `createBaselines`: once the
   * baseliner is bound and its two channels exist, an empty list (`max` of
   * no correlations) or a zero delta (`min` of an empty chunk) raises.
   */
  lemma BadDeltasRaise(s: Sensor, cfg: Settings, index: set<int>, frame: Frame, carriedRows: Option<seq<seq<Stat>>>)
    requires index != {} && UsableSensor(s)
    requires SomeDayHasData(frame.rows.Keys, index, cfg.overlapHours)
    requires BaselineInputs(s) <= frame.columns && !ValidDeltas(cfg.deltas)
    ensures DayLoop(Some(s), cfg, index, frame, carriedRows) == Fail(EmptySequence)
  {
  }

  /** Without a day that has data the loop never reads the deltas, whatever they are. */
  lemma DayLoopWithoutDataIgnoresDeltas(sensor: Option<Sensor>, cfg: Settings, index: set<int>, frame: Frame,
                                        carriedRows: Option<seq<seq<Stat>>>, deltas: seq<nat>)
    requires index != {} && (sensor.Some? ==> UsableSensor(sensor.value))
    requires !SomeDayHasData(frame.rows.Keys, index, cfg.overlapHours)
    ensures DayLoop(sensor, cfg.(deltas := deltas), index, frame, carriedRows) == DayLoop(sensor, cfg, index, frame, carriedRows)
  {
  }

  /**
   * Skipping the loop when no day has data is sound: for a known sensor the
   * loop itself leaves the same frame and the same rows.
   */
  lemma DayLoopSkipAgrees(s: Sensor, cfg: Settings, index: set<int>, frame: Frame, carriedRows: Option<seq<seq<Stat>>>)
    requires index != {} && ValidDeltas(cfg.deltas) && UsableSensor(s)
    requires FindDates(index).rangeDays > 0 && !SomeDayHasData(frame.rows.Keys, index, cfg.overlapHours)
    ensures var n := FindDates(index).rangeDays;
            DayLoop(Some(s), cfg, index, frame, carriedRows) ==
            Ok((FrameAfter(s, cfg, index, frame, n), Some(RowsAfter(s, cfg, index, frame, n))))
  {
    NoDataLoopIsIdle(s, cfg, index, frame, FindDates(index).rangeDays);
  }

  /** The loop keeps the index and the columns of the frame it is given. */
  lemma DayLoopKeeps(sensor: Option<Sensor>, cfg: Settings, index: set<int>, frame: Frame,
                     carriedRows: Option<seq<seq<Stat>>>)
    requires index != {}
    requires sensor.Some? ==> UsableSensor(sensor.value)
    requires DayLoop(sensor, cfg, index, frame, carriedRows).Ok?
    ensures var g := DayLoop(sensor, cfg, index, frame, carriedRows).value.0;
            (forall t :: t in g.rows <==> t in frame.rows) && frame.columns <= g.columns
  {
    var n := FindDates(index).rangeDays;
    if n > 0 && SomeDayHasData(frame.rows.Keys, index, cfg.overlapHours) {
      forall t {
        FrameAfterKeepsTimestamps(sensor.value, cfg, index, frame, n, t);
      }
      FrameAfterKeepsColumns(sensor.value, cfg, index, frame, n);
    }
  }

  /** Labels that are not ten cannot hold a table whose every row is the ten-NaN row. */
  lemma AllEmptyDaysRejected(rows: seq<seq<Stat>>, labels: seq<string>, days: seq<int>)
    requires |rows| > 0 && |labels| != 10
    requires forall k :: 0 <= k < |rows| ==> rows[k] == NanRow()
    ensures BuildTable(rows, labels, days).None?
  {
  }

  /** Fewer than ten labels cannot hold a table with a ten-NaN row anywhere. */
  lemma EmptyDayRejectedByShortLabels(rows: seq<seq<Stat>>, labels: seq<string>, days: seq<int>, k: nat)
    requires k < |rows| && rows[k] == NanRow() && |labels| < 10
    ensures BuildTable(rows, labels, days).None?
  {
  }
}

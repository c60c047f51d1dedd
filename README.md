# Smart Citizen pollutant calibration, modelled in Dafny

This project models the gas-sensor calibration core of the Smart Citizen
data framework. It covers notebooks/pollutant_cal_utils.py and the helpers in
notebooks/formula_utils.py:

- how an Alphasense electrochemical sensor or a MICS metal-oxide sensor turns
  a raw signal into a pollutant concentration;
- the day-by-day baseline correction;
- the per-day statistics tables filed as metadata.

## Module layout

- `FormulaUtils`: the `formula_utils.py` helpers.
  - `LINE_COEFF` and `LINE`.
  - The four 0/1 threshold masks.
  - `AD_FORMULA`, with the finding below.
  - `MICS_FORMULA`.
- `RollingMinimum`: `ExtractBaseline`, the rolling minimum over a window of
  `delta` samples.
- `RegressionSelection`: `findMax` and the selection logic of
  `createBaselines`. For each delta it picks the first delta whose baseline
  correlates best with the baseliner. It then fits the linear, the
  exponential or the better of the two.
- `Smoothing`: `exponential_smoothing`.
- `TimeIndex`, `DaySegmentation`: a frame's timestamp set, and `findDates`
  with the per-day overlap and non-overlap windows that both pipelines
  compute.
- `Frames`: the pandas operations the pipelines use. Each is a function on
  a frame of rows keyed by timestamp: trim, `fillna`, `combine_first`,
  assigning a column. An absent cell stands for NaN.
- `Diagnostics`: the statistics of `calculateBaselineDay`.
  - The alphasense regression tuple with its `valid` flag.
  - The MICS `[indexMax]`.
  - The day-row assembly by `insert`.
  - The NaN row for a day without data.
  - The `pd.DataFrame` construction that fails when the widest row does not
    match the labels.
- `Concentration`: the calibration records, the unit look-up tables and the
  two concentration formulas.
- `DailyBaseline`: one pass of the day loop and the whole loop. The day loop
  trims to the overlap window, runs `calculateBaselineDay`, trims back to
  the day's own window, computes the pollutant and `combine_first`s it into
  the result.
- `CalibrationRun`: what both pipelines share: the day loop with its early
  failures, the table, the filter column, and filing the table under the
  pollutant.
- `AlphasenseRun`, `MicsRun`: `calculatePollutantsAlpha` and
  `calculatePollutantsMICS`.
  - A tuple either continues, returns `None` early (`Aborted`), or raises
    (`Crashed`). Among the raises is the `ValueError` of `createBaselines`
    on the first day with data when the delta list is empty or holds a 0
    (`EmptySequence`).
  - Locals that a tuple does not assign keep the value an earlier tuple
    left. The model carries them in a `Carried` record, so a later tuple
    that relies on them behaves as in Python.

## Conventions

- Floats are `real`.
- Time is an integer count of hours; a day is 24.
- Calibration tables (`alpha_calData`, `mics_calData`) are parameters: maps
  from sensor id to calibration record.
- The numerical routines of scipy/numpy the code calls are given as
  uninterpreted parameters (`Routines`) of which only shapes are known:
  - `linregress`;
  - the fit of the exponential baseline;
  - `np.log`;
  - `np.exp`.

## Model

| member | source | states |
|---|---|---|
| FormulaUtils.LineCoeff | notebooks/formula_utils.py:41-44 | the slope and intercept it returns put both given points on the line |
| FormulaUtils.LineThroughBothPoints | notebooks/formula_utils.py:41-48 | `LINE` with the coefficients of `LINE_COEFF` maps x1 to y1 and x2 to y2 |
| FormulaUtils.LineCoeffUnique | notebooks/formula_utils.py:41-44 | any line through the two points has exactly the coefficients `LINE_COEFF` returns |
| FormulaUtils.LineIsAffine | notebooks/formula_utils.py:46-48 | `LINE` applies the same affine map a·x+b at every position |
| FormulaUtils.Line | notebooks/formula_utils.py:46-48 | the output has one value per abscissa |
| FormulaUtils.Greater | notebooks/formula_utils.py:63-68 | a fresh array of the input's length, 1 exactly where y[i] > val and 0 elsewhere |
| FormulaUtils.GreaterEqual | notebooks/formula_utils.py:70-75 | 1 exactly where y[i] >= val; it is the complement of the strict lower mask |
| FormulaUtils.Lower | notebooks/formula_utils.py:77-82 | 1 exactly where y[i] < val and 0 elsewhere |
| FormulaUtils.LowerEqual | notebooks/formula_utils.py:84-89 | 1 exactly where y[i] <= val; it is the complement of the strict greater mask |
| FormulaUtils.AdFormula | notebooks/formula_utils.py:8-39 | the code as written: any sensor type other than 3 gets the CO/NO2 value (scaled by 1000 for ppb); type 3 gets the auxiliary-corrected O3 value divided by the signed first sensitivity; type 3 with an unknown second unit gets the first value scaled twice |
| FormulaUtils.AdFormulaIgnoresSensorType | notebooks/formula_utils.py:17 | two sensor types other than 3 always give the same result, so the test at line 17 selects nothing |
| FormulaUtils.AdFormulaAcceptsAnyType | notebooks/formula_utils.py:17-38 | concrete inputs: sensor type 7 gets a value, and a type-3 sensor with an empty second unit and ppb first unit gets the value times 1000·1000 |
| FormulaUtils.AdFormulaIntendedAgrees | notebooks/formula_utils.py:8-39 | the intended formula has a value exactly for types 1 and 2, and for type 3 with a ppb/ppm second unit; where it has one, it equals the formula as written |
| FormulaUtils.MicsFormula | notebooks/formula_utils.py:50-61 | the result is the MICS polynomial of the three transformed readings; an "Inverse" reading is replaced by its reciprocal before the polynomial is evaluated (`Sens` aliases `Sensor`, but each entry is read before it is written, so the aliasing changes nothing) |
| FormulaUtils.MicsSingleInverse | notebooks/formula_utils.py:50-61 | the calibration shape suggested at :60 (one "Inverse" channel, only B and C set) is intercept + B/x + C/x² in the reading x, whatever the other two readings are |
| FormulaUtils.MicsInterceptOnly | notebooks/formula_utils.py:50-61 | with every coefficient zero the polynomial is the intercept, whatever the readings |
| RollingMinimum.SeqMin | notebooks/pollutant_cal_utils.py:71 | the minimum is one of the chunk's values and bounds every value from below |
| RollingMinimum.Window | notebooks/pollutant_cal_utils.py:67-70 | for delta >= 1 the chunk of sample n is never empty |
| RollingMinimum.Baseline | notebooks/pollutant_cal_utils.py:55-73 | one baseline value per sample |
| RollingMinimum.ExtractBaseline | notebooks/pollutant_cal_utils.py:55-73 | the loop fills a fresh array whose contents are the rolling minimum over [n-delta, n+delta) clipped to the data |
| RollingMinimum.BaselineIsSample | notebooks/pollutant_cal_utils.py:66-71 | each baseline value is at most the sample itself and equals some sample in its window |
| RollingMinimum.ZeroDeltaEmptyWindow | notebooks/pollutant_cal_utils.py:67-70 | a delta of 0 gives an empty chunk, where `min` would raise |
| RollingMinimum.WiderWindowNotHigher | notebooks/pollutant_cal_utils.py:66-71 | widening the window never raises the baseline |
| RollingMinimum.HalfOpenExample | notebooks/pollutant_cal_utils.py:67-70 | a worked example showing the window is half-open on the right |
| RegressionSelection.MaxOf | notebooks/pollutant_cal_utils.py:81 | the maximum is a member of the list and bounds every element |
| RegressionSelection.IndexOf | notebooks/pollutant_cal_utils.py:82 | `list.index` returns the first position holding the value |
| RegressionSelection.FindMax | notebooks/pollutant_cal_utils.py:75-85 | the value is the list's maximum, the index holds it, and every earlier element is strictly smaller |
| RegressionSelection.FindMaxFirstIndex | notebooks/pollutant_cal_utils.py:75-85 | conversely, a position that holds the maximum with only smaller values before it is the index `findMax` returns |
| RegressionSelection.ProxySeries | notebooks/pollutant_cal_utils.py:134-160 | the regressed baseline has one value per baseliner sample, each the chosen fit applied to that sample |
| RegressionSelection.PickBest | notebooks/pollutant_cal_utils.py:153-160 | 'best' keeps the linear fit exactly when its r is strictly greater than the exponential one's |
| RegressionSelection.ChooseProxy | notebooks/pollutant_cal_utils.py:135-160 | 'linear' fits the best delta's baseline linearly, 'exponential' fits its logarithm, and 'best' picks between the two |
| RegressionSelection.BestTieIsExponential | notebooks/pollutant_cal_utils.py:153-160 | on a tie in r, 'best' takes the exponential fit |
| RegressionSelection.Pearsons | notebooks/pollutant_cal_utils.py:125-128 | one correlation per delta |
| RegressionSelection.SelectedIndex | notebooks/pollutant_cal_utils.py:131 | the chosen index addresses a delta |
| RegressionSelection.SelectedIsFirstBest | notebooks/pollutant_cal_utils.py:125-131 | the chosen delta's correlation is at least every other one's and strictly above every earlier one's |
| RegressionSelection.BaselineProxy | notebooks/pollutant_cal_utils.py:134-160 | the returned baseline has one value per sample |
| RegressionSelection.BaselinesPerDelta | notebooks/pollutant_cal_utils.py:125-128 | the loop computes, for each delta in order, the rolling-minimum baseline and its correlation with the baseliner |
| RegressionSelection.CreateBaselines | notebooks/pollutant_cal_utils.py:103-195 | it returns the index of the first best-correlated delta and the baseline regressed with the requested kind on that delta |
| Smoothing.Smoothed | notebooks/pollutant_cal_utils.py:87-98 | the smoothed series is as long as the input |
| Smoothing.ExponentialSmoothing | notebooks/pollutant_cal_utils.py:87-98 | the loop's list is the recursively defined smoothed series |
| Smoothing.SmoothedFirst | notebooks/pollutant_cal_utils.py:95 | the first value is kept unchanged |
| Smoothing.SmoothedStep | notebooks/pollutant_cal_utils.py:96-97 | each later value is alpha times the sample plus (1 - alpha) times the previous output |
| Smoothing.SmoothedPrefix | notebooks/pollutant_cal_utils.py:95-98 | smoothing a prefix gives the prefix of the smoothed series (the filter is causal) |
| Smoothing.SmoothedIdentity | notebooks/pollutant_cal_utils.py:95-98 | alpha = 1 returns the series itself |
| Smoothing.SmoothedWithinBounds | notebooks/pollutant_cal_utils.py:95-98 | for alpha in [0, 1] the output stays within any bounds of the input |
| TimeIndex.SetMin | notebooks/pollutant_cal_utils.py:397-398 | `index.min()` is a member of the index and below every timestamp |
| TimeIndex.SetMax | notebooks/pollutant_cal_utils.py:397-399 | `index.max()` is a member of the index and above every timestamp |
| DaySegmentation.FindDates | notebooks/pollutant_cal_utils.py:389-401 | the first midnight at or after the first sample, the last midnight at or before the last, and the number of whole days between the two samples |
| DaySegmentation.NonOverlapOrdered | notebooks/pollutant_cal_utils.py:516-517 | the day's own window starts at the day's midnight and spans at most one day |
| DaySegmentation.ConsecutiveWindowsAdjacent | notebooks/pollutant_cal_utils.py:516-517 | one day's own window ends where the next one starts |
| DaySegmentation.WindowsDisjoint | notebooks/pollutant_cal_utils.py:516-550 | own windows of different days do not overlap |
| DaySegmentation.WindowOfTimestampUnique | notebooks/pollutant_cal_utils.py:549-550 | a timestamp lies in the own window of at most one day |
| DaySegmentation.WindowsCover | notebooks/pollutant_cal_utils.py:509-550 | a timestamp lies in some day's own window exactly when it lies after the first midnight and up to the last window's end |
| DaySegmentation.FirstSampleNeverCovered | notebooks/pollutant_cal_utils.py:516-549 | the first sample lies at or before the first midnight and own windows are open on the left, so no day's pass computes its concentration |
| DaySegmentation.OverlapWindowIntegerForm | notebooks/pollutant_cal_utils.py:512-513 | the overlap window's end simplifies to the day's end plus the overlap hours, clipped to the last sample |
| DaySegmentation.OverlapContainsWindow | notebooks/pollutant_cal_utils.py:512-517 | a timestamp in the day's own window is in its overlap window too |
| Frames.Between | notebooks/pollutant_cal_utils.py:525-526 | the trim keeps the columns and exactly the rows with lo < t <= hi, unchanged |
| Frames.BetweenCell | notebooks/pollutant_cal_utils.py:525-526 | inside the bounds a cell reads as in the untrimmed frame |
| Frames.FillNa | notebooks/pollutant_cal_utils.py:549-550 | the same rows and columns; every cell that was NaN now holds the fill value and every other cell is kept |
| Frames.CombineFirst | notebooks/pollutant_cal_utils.py:562 | the union of rows and columns; a cell present in the caller wins, otherwise the argument's cell is taken |
| Frames.CombineFirstOutside | notebooks/pollutant_cal_utils.py:562 | rows the argument does not have are left as they were |
| Frames.Values | notebooks/pollutant_cal_utils.py:717 | the column's values in index order, NaN read as 0 |
| Frames.SetColumn | notebooks/pollutant_cal_utils.py:717 | the new column holds the given values in index order, and every other cell is unchanged |
| Frames.MapColumn | notebooks/pollutant_cal_utils.py:643-648 | a column computed row by row; every other cell is unchanged |
| Diagnostics.Mean | notebooks/pollutant_cal_utils.py:584-588 | NaN for no values, otherwise the sum divided by the count |
| Diagnostics.StdDev | notebooks/pollutant_cal_utils.py:585-587 | NaN with fewer than two values (the sample standard deviation) |
| Diagnostics.Squared | notebooks/pollutant_cal_utils.py:591 | the square of a number is a non-negative number, and NaN stays NaN |
| Diagnostics.DeltaMeanIsDifferenceOfMeans | notebooks/pollutant_cal_utils.py:297-300 | the mean of the N×N broadcast difference equals the mean of the baseline minus the mean of the auxiliary |
| Diagnostics.RatioMeanOfProportional | notebooks/pollutant_cal_utils.py:298-301 | the element-wise ratio mean of a baseline proportional to the auxiliary is the factor |
| Diagnostics.RatioBroadcastDiffers | notebooks/pollutant_cal_utils.py:298-301 | on concrete inputs the mean of the N×N broadcast ratio is not the element-wise ratio mean |
| Diagnostics.AlphaBaselineCorr | notebooks/pollutant_cal_utils.py:288-309 | nine entries: the five regression values, the broadcast delta mean and the broadcast ratio mean as the code computes them (see Findings), the chosen index, and `valid`, which is true exactly when slope > 0 and r > 0.3 |
| Diagnostics.MicsBaselineCorr | notebooks/pollutant_cal_utils.py:379-384 | the single entry `indexMax` |
| Diagnostics.Insert | notebooks/pollutant_cal_utils.py:590-597 | `list.insert` puts the value at the position, shifts the rest, and appends past the end |
| Diagnostics.AssembleDayRow | notebooks/pollutant_cal_utils.py:590-597 | the six inserts give r², the temperature mean and deviation, the humidity mean and deviation, and the pollutant mean, followed by `calculateBaselineDay`'s tuple |
| Diagnostics.NanRow | notebooks/pollutant_cal_utils.py:538-541 | a day without data contributes ten NaNs |
| Diagnostics.Widest | notebooks/pollutant_cal_utils.py:617 | the widest row's length: every row fits, one row attains it |
| Diagnostics.Pad | notebooks/pollutant_cal_utils.py:617 | a shorter row is padded with NaN to the column count |
| Diagnostics.BuildTable | notebooks/pollutant_cal_utils.py:617 | the frame is built exactly when there is one row per day label and the widest row has as many fields as there are labels; it then keeps each row, NaN-padded |
| Concentration.ParseAlphaGas | notebooks/pollutant_cal_utils.py:553-559 | exactly "CO", "NO2" and "O3" name a gas the formulas handle |
| Concentration.AlphaUnitsLookup | notebooks/pollutant_cal_utils.py:482-486 | the look-up gives (1, 0) for CO, (1000, 0) for NO2, (1000, 1000) for O3, and keeps the previous factors for any other pollutant |
| Concentration.AlphaUnitFactors | notebooks/pollutant_cal_utils.py:482-486 | the loop over the table returns exactly those factors |
| Concentration.BalancedSignalGivesBackground | notebooks/pollutant_cal_utils.py:553-559 | a working signal equal to its baseline (and no NO2 for O3) gives exactly the background concentration |
| Concentration.ClassicNO2Example | notebooks/pollutant_cal_utils.py:646 | a worked NO2 value: the PCB factor and the absolute sensitivity are applied as written |
| Concentration.ParseMicsGas | notebooks/pollutant_cal_utils.py:818-821 | exactly "CO" and "NO2" select a MICS element |
| Concentration.MicsElementOf | notebooks/pollutant_cal_utils.py:823-825 | element 1 reads the calibration's first sensitivity, target and zero-air resistance, and element 2 the second |
| Concentration.MicsUnitsLookup | notebooks/pollutant_cal_utils.py:838-840 | the look-up gives 1 for CO, 1000 for NO2, and keeps the previous factor otherwise |
| Concentration.MicsUnitFactor | notebooks/pollutant_cal_utils.py:838-840 | the loop over the table returns exactly that factor |
| Concentration.MicsAtZeroAirGivesBackground | notebooks/pollutant_cal_utils.py:907-912 | a resistance of baseline plus zero-air resistance gives exactly the background concentration |
| DailyBaseline.WithConcentration | notebooks/pollutant_cal_utils.py:553-559 | adds the pollutant column computed from each row (MICS: :907-912) and leaves every other cell alone |
| DailyBaseline.OverlapTrim | notebooks/pollutant_cal_utils.py:512-526 | the day's trim is the frame restricted to the overlap window |
| DailyBaseline.DayBaseline | notebooks/pollutant_cal_utils.py:265 | one baseline value per trimmed row |
| DailyBaseline.DayCorr | notebooks/pollutant_cal_utils.py:288-384 | for an Alphasense sensor (:288-309): the fit of the auxiliary electrode on the baseline, the broadcast delta and ratio means, the chosen delta index and the validity flag; for a MICS sensor (:379-384): only the chosen delta index |
| DailyBaseline.CalculateBaselineDay | notebooks/pollutant_cal_utils.py:235-387 | it returns `createBaselines`' baseline of the baselined channel against the baseliner, and the sensor's statistics on it |
| DailyBaseline.FilledWindow | notebooks/pollutant_cal_utils.py:546-550 | the trim back to the day's own window keeps exactly the trimmed rows inside it |
| DailyBaseline.FilledWindowReading | notebooks/pollutant_cal_utils.py:549-550 | inside the own window a reading is its value, NaN filled with 0 |
| DailyBaseline.FilledWindowBaseline | notebooks/pollutant_cal_utils.py:546-550 | the baseline column holds the day's baseline at the row's position |
| DailyBaseline.OwnWindow | notebooks/pollutant_cal_utils.py:546-559 | the window with the pollutant added has exactly the own window's rows |
| DailyBaseline.ConcentrationOfFullRow | notebooks/pollutant_cal_utils.py:553-559 | a row with the signal, the baseline (and NO2 for O3) gets the sensor's formula of those values |
| DailyBaseline.OwnWindowConcentration | notebooks/pollutant_cal_utils.py:546-559 | inside the own window the pollutant is the formula of the filled signal, the day's baseline and the filled NO2 |
| DailyBaseline.RowOfDay | notebooks/pollutant_cal_utils.py:533-598 | a day's row is the NaN row or has six fields plus the sensor's statistics |
| DailyBaseline.RowsAfter | notebooks/pollutant_cal_utils.py:509-598 | one row per day, each the NaN row or of the sensor's full width |
| DailyBaseline.ProcessDay | notebooks/pollutant_cal_utils.py:509-598 | one pass of the day loop gives the specified next frame and row |
| DailyBaseline.BaselineDays | notebooks/pollutant_cal_utils.py:509-598 | the loop over all `range_days` days gives the specified frame and rows |
| DailyBaseline.StepLeavesOtherTimestamps | notebooks/pollutant_cal_utils.py:549-562 | a day's pass changes no cell outside the day's own window |
| DailyBaseline.StepKeepsCells | notebooks/pollutant_cal_utils.py:562 | `combine_first` never overwrites a cell the result already holds |
| DailyBaseline.StepKeepsTimestamp | notebooks/pollutant_cal_utils.py:525-562 | a pass adds and removes no timestamp |
| DailyBaseline.OwnPassWrites | notebooks/pollutant_cal_utils.py:546-562 | an empty cell of the day's window gets the value the day's computation gives it |
| DailyBaseline.FrameAfterKeepsTimestamps | notebooks/pollutant_cal_utils.py:509-562 | the whole loop keeps the timestamp set |
| DailyBaseline.FrameAfterKeepsColumns | notebooks/pollutant_cal_utils.py:509-562 | the whole loop only adds columns |
| DailyBaseline.FrameAfterKeepsCells | notebooks/pollutant_cal_utils.py:509-562 | the whole loop never changes a cell that held a value |
| DailyBaseline.OtherPassesLeaveWindow | notebooks/pollutant_cal_utils.py:509-562 | every other day's pass leaves a day's own-window cells alone |
| CalibrationRun.NanRows | notebooks/pollutant_cal_utils.py:533-541 | n days without data give n NaN rows |
| CalibrationRun.DayLabels | notebooks/pollutant_cal_utils.py:617 | one label per day, the midnight that many days after the first one |
| CalibrationRun.Tabulate | notebooks/pollutant_cal_utils.py:617 | it fails with an unbound name when no row list exists; otherwise it builds the table exactly when `pd.DataFrame` would |
| CalibrationRun.FilterColumn | notebooks/pollutant_cal_utils.py:717 | the loop adds the filter column as specified |
| CalibrationRun.FilterFrameSmooths | notebooks/pollutant_cal_utils.py:717 | the filter column is the exponential smoothing (alpha 0.2) of the pollutant column, NaN read as 0; the pollutant column and the index are kept |
| CalibrationRun.FilterStaysWithinColumn | notebooks/pollutant_cal_utils.py:717 | the filtered values stay within any bounds of the pollutant column |
| CalibrationRun.FinishTuple | notebooks/pollutant_cal_utils.py:717-720 | filtering and filing the table give the specified frame and metadata |
| CalibrationRun.FinishGrows | notebooks/pollutant_cal_utils.py:717-720 | a finished tuple keeps the index, adds the pollutant and filter columns, and files its table under the pollutant |
| CalibrationRun.RunDayLoop | notebooks/pollutant_cal_utils.py:498-617 | the loop with its failures gives the specified outcome, including the `ValueError` that an empty delta list or a zero delta raises on the first day with data |
| CalibrationRun.BadDeltasRaise | notebooks/pollutant_cal_utils.py:60-82 | once the baseliner and its two channels exist, an empty delta list (`max` of no correlations, :81) or a zero delta (`min` of an empty chunk, :71) makes the first day with data raise |
| CalibrationRun.DayLoopWithoutDataIgnoresDeltas | notebooks/pollutant_cal_utils.py:509-541 | when no day has data the deltas are never read, so any list, even an empty one, gives the same outcome |
| CalibrationRun.DayLoopKeeps | notebooks/pollutant_cal_utils.py:509-562 | a day loop that completes keeps the index and only adds columns |
| CalibrationRun.EmptyPass | notebooks/pollutant_cal_utils.py:533-541 | a day without data leaves the frame unchanged and contributes the NaN row |
| CalibrationRun.NoDataLoopIsIdle | notebooks/pollutant_cal_utils.py:509-541 | when no day has data, the loop leaves the frame as it was and yields only NaN rows |
| CalibrationRun.DayLoopSkipAgrees | notebooks/pollutant_cal_utils.py:509-541 | when no day has data, the day loop agrees with the full loop without needing the sensor's channels |
| CalibrationRun.AllEmptyDaysRejected | notebooks/pollutant_cal_utils.py:538-617 | when every day is empty, the table fails unless there are exactly ten labels |
| CalibrationRun.EmptyDayRejectedByShortLabels | notebooks/pollutant_cal_utils.py:538-541 | one empty day makes a table with fewer than ten labels fail |
| AlphasenseRun.ClassicDays | notebooks/pollutant_cal_utils.py:654-696 | the classic day loop gives the specified rows |
| AlphasenseRun.BaselineTuple | notebooks/pollutant_cal_utils.py:498-617 | the baseline branch gives the specified step |
| AlphasenseRun.ClassicTuple | notebooks/pollutant_cal_utils.py:638-706 | the classic branch gives the specified step |
| AlphasenseRun.ClassicMetadataTuple | notebooks/pollutant_cal_utils.py:651-720 | the statistics and filing of the classic branch give the specified step |
| AlphasenseRun.ProcessAlphaTuple | notebooks/pollutant_cal_utils.py:445-720 | one loop iteration gives the specified step: continue, return early, or raise |
| AlphasenseRun.CalculatePollutantsAlpha | notebooks/pollutant_cal_utils.py:405-769 | the whole function gives the fold of the tuple steps over the copied frame |
| AlphasenseRun.FinishStepGrows | notebooks/pollutant_cal_utils.py:717-720 | the finishing step keeps the index, only adds columns, adds the filter column and files the pollutant |
| AlphasenseRun.BaselineStepGrows | notebooks/pollutant_cal_utils.py:498-720 | a baseline tuple that continues keeps the index, adds the filter column and files the pollutant |
| AlphasenseRun.ClassicMetadataStepGrows | notebooks/pollutant_cal_utils.py:651-720 | likewise for the classic statistics and filing |
| AlphasenseRun.ClassicStepGrows | notebooks/pollutant_cal_utils.py:638-720 | likewise for a classic tuple |
| AlphasenseRun.AlphaStepGrows | notebooks/pollutant_cal_utils.py:445-720 | any tuple that continues keeps the index, only adds columns, adds its filter column and files its pollutant |
| AlphasenseRun.AlphaRunCovers | notebooks/pollutant_cal_utils.py:441-769 | a completed call keeps the index and has a filter column and a metadata entry for every tuple's pollutant |
| AlphasenseRun.StoppedRunIgnoresLaterTuples | notebooks/pollutant_cal_utils.py:462-479 | once a tuple returns or raises, later tuples change nothing |
| AlphasenseRun.MismatchedTargetAborts | notebooks/pollutant_cal_utils.py:462-464 | a first tuple whose sensor's first target is not the pollutant returns `None` |
| AlphasenseRun.OzoneBeforeNitrogenAborts | notebooks/pollutant_cal_utils.py:473-479 | an O3 tuple when the NO2 column is not there returns `None` |
| AlphasenseRun.NonBaselineRunIgnoresDeltas | notebooks/pollutant_cal_utils.py:405-720 | `_deltas` reaches only `calculateBaselineDay` (:546): a call without baseline-method tuples has the same outcome for every delta list |
| AlphasenseRun.AlphaRunIgnoresFilterArgument | notebooks/pollutant_cal_utils.py:717 | the `_filterExpSmoothing` argument has no effect on the result |
| AlphasenseRun.ClassicAtBalanceGivesBackground | notebooks/pollutant_cal_utils.py:643-646 | a working signal equal to nWA times the auxiliary gives the CO or NO2 background |
| AlphasenseRun.AlphaTableNeedsOneDay | notebooks/pollutant_cal_utils.py:533-617 | the fifteen-label table exists exactly when at least one day had data |
| MicsRun.BaselineTuple | notebooks/pollutant_cal_utils.py:852-963 | the baseline branch gives the specified step |
| MicsRun.ProcessMicsTuple | notebooks/pollutant_cal_utils.py:807-981 | one loop iteration gives the specified step |
| MicsRun.CalculatePollutantsMics | notebooks/pollutant_cal_utils.py:771-981 | the whole function gives the fold of the tuple steps over the copied frame |
| MicsRun.FinishStepGrows | notebooks/pollutant_cal_utils.py:978-981 | the finishing step keeps the index, adds the filter column and files the pollutant |
| MicsRun.BaselineStepGrows | notebooks/pollutant_cal_utils.py:852-981 | a baseline tuple that continues does the same |
| MicsRun.MicsStepGrows | notebooks/pollutant_cal_utils.py:807-981 | any tuple that continues does the same |
| MicsRun.MicsRunCovers | notebooks/pollutant_cal_utils.py:803-981 | a completed call keeps the index and has a filter column and a metadata entry for every tuple's pollutant |
| MicsRun.StoppedRunIgnoresLaterTuples | notebooks/pollutant_cal_utils.py:827-829 | once a tuple returns or raises, later tuples change nothing |
| MicsRun.MismatchedTargetAborts | notebooks/pollutant_cal_utils.py:818-829 | a CO (NO2) first tuple whose sensor's first (second) target differs returns `None` |
| MicsRun.FirstOtherPollutantRaises | notebooks/pollutant_cal_utils.py:818-823 | a first tuple for a pollutant other than CO and NO2 raises, as `indexPollutant` is unbound |
| MicsRun.NonBaselineRunIgnoresDeltas | notebooks/pollutant_cal_utils.py:771-980 | `_deltas` reaches only `calculateBaselineDay` (:900): a call without baseline-method tuples has the same outcome for every delta list |
| MicsRun.MicsRunIgnoresFilterArgument | notebooks/pollutant_cal_utils.py:978 | the `_filterExpSmoothing` argument has no effect on the result |
| MicsRun.MicsTableNeedsEveryDay | notebooks/pollutant_cal_utils.py:887-963 | the seven-label table exists exactly when no day was without data |

## Left out

- Plots, `print`/`display` output and the `_verbose`, `_plots*` flags: output only.
- The `getCalData` loading and the `CHANNEL_NAME` look-ups are outside the model. Calibration tables are parameters and channels are constructors.
- The reference branch (`_refAvail`): it reads `ref_append`, which is never defined, so the model takes `_refAvail` false. r² is then NaN in every row.
- `decompose`, `SMOOTH`, `exponential_func`'s curve fit, and `_trydecomp` (which `calculateBaselineDay` never reads).
- `linregress`, `np.log` and `np.exp` are uninterpreted `Routines` parameters. Only their shapes are modelled.
- Floating point is modelled as real arithmetic: no rounding, no inf.
  - The calibration values and the formula arguments are assumed to be floats. Under Python 2, `/` between two ints floors: `I0WE/I0AE` in `AD_FORMULA` (formula_utils.py:22-35), `nWA` from integer `Zero Current` and `Aux Zero Current` (pollutant_cal_utils.py:460), and `1/Sensor[i]` in `MICS_FORMULA` (formula_utils.py:56). Integer calibration entries or readings would give truncated results that the model does not reproduce.
  - NaN is an absent cell or a `Missing` statistic.
  - Division by a zero sensitivity or zero current is excluded by the calibration predicates `UsableAlpha`/`UsableMics` instead of producing inf.
- Timestamps finer than an hour are not modelled: time is whole hours, which keeps the day arithmetic exact.
- Day labels are the integer midnight timestamps, not `strftime('%Y-%m-%d')` strings.
- AlphasenseRun.AlphaStep / MicsRun.MicsStep: a pollutant outside the formulas' list raises `UnknownPollutant` in the baseline branch. Python would only raise when the pollutant column is first read. So a run whose column already exists, or that has no days, is modelled more strictly than the source.
- The whole-dataset averages at pollutant_cal_utils.py:620-623 are never used afterwards.
- `from formula_utils import maxer, miner` (pollutant_cal_utils.py:403): `formula_utils.py` defines neither name, so importing the module raises `ImportError`. The model assumes the module loads, as if that line were absent; nothing else reads the two names.
- Values: the overlap trim and the regressions read NaN cells as 0, which is what the following `fillna(0)` gives. The regressions over a trim that still holds NaN are not modelled.
- The two `fillna(0)` calls at :549-550 are modelled as one trim followed by one fill.
- `calculatePollutantsMICS` matches `'single_rel_hum'` (:857) where its docstring says `'single_hum'`. The model follows the code.
- Where the documented behaviour and the code disagree, the model follows the code:
  - `ExtractBaseline`'s window is half-open;
  - `range_days` counts whole days between the first and last raw sample;
  - the first sample lies before every own window.

## Findings

| source | as written | input that shows it | evidently intended | confidence | as-written member | corrected member |
|---|---|---|---|---|---|---|
| notebooks/pollutant_cal_utils.py:297-301 | `data_baseline` is an N×1 frame and `_dataFrame[alphaA].values` a vector, so the ratio broadcasts to N×N and `np.mean` averages every baseline/auxiliary pair | baseline [1, 2], auxiliary [1, 2]: the mean is 1.125 instead of 1 | the mean of the element-wise ratio; the statistics tables keep the broadcast mean the code computes (`RatioMeanAsWritten`), and the element-wise mean `RatioMean` is defined and proved beside it | not executed | Diagnostics.RatioBroadcastDiffers | Diagnostics.RatioMeanOfProportional |
| notebooks/formula_utils.py:17 | `SensorType == 1 or 2` is always true, so every sensor type gets the CO/NO2 value, and a type-3 sensor whose second unit is neither ppb nor ppm is scaled twice | sensor type 7 gets a value; type 3 with first unit "ppb" and second unit "" gives 6 390 000 instead of raising | `SensorType in (1, 2)` | not executed | FormulaUtils.AdFormulaAcceptsAnyType | FormulaUtils.AdFormulaIntendedAgrees |

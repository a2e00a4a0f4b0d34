# Satellite pass scanner: a verified model

This project models the sequential core of a satellite pass predictor.

The centre is the threshold pass scanner. It takes a time-ordered series of
elevation samples for one ground station and reports discrete passes. Each
pass has an AOS (acquisition of signal, the upward threshold crossing), the
time of peak elevation, an LOS (loss of signal, the downward crossing) and the
peak elevation. A crossing time is found by clamped linear interpolation
between the two samples around it. The scanner comes in two forms:

- The batch scanner (`detect_passes` with `_interp_time`) exists in three
  identical copies. It is modelled once, as the reference function
  `PassDetection.Passes`, a two-state machine folded over consecutive sample
  pairs. `PassDetection.DetectPasses` is the loop the source writes, with a
  boolean flag, an optional AOS and a sentinel peak, and is proved to compute
  `Passes`.
- The streaming scanner is the `PassDetector` class. Its methods update the
  object's fields in place. It is modelled as a Dafny class whose methods are
  specified by the value functions `Updated` and `Finalized`.

The two forms differ at the start of a window. The batch scanner opens a pass
at the first sample only when the first two samples are both above the
threshold. The streaming scanner opens one on the first sample alone.
`ScannerAgreement.StreamingMatchesBatch` proves the two scanners otherwise
report the same passes.

Around the scanner sit smaller cores:

- the sample-time grid (`datetime_range`);
- TLE (two-line element set) text handling:
  - `load_tle`, which strips lines, drops blank and `#` lines, and validates;
  - `extract_tle_parameters`, which reads fixed-column fields;
  - `compute_time_since_epoch`, which applies the two-digit-year pivot and
    computes hours since the epoch;
- the `ResidualStats` accumulator;
- the pass output records (`passes_to_dict`, `num_passes`, and the summary
  list of the visualisation entry point).

Representations:

- Scanner times are real seconds on a common axis. Elevations are real degrees.
- Grid times are whole microseconds, as `datetime` stores them.
- Epochs are real seconds since `datetime.min` (0001-01-01).
- Python's `int()` and `float()` are modelled for ASCII digits. This covers
  surrounding whitespace, a sign, single underscores between digits, a
  decimal point and an exponent. The whitespace they skip is their own:
  every character `str.isspace` accepts except the separators
  U+001C-U+001F, which `str.strip` removes but `int()` and `float()`
  reject.

Quirks of the source that the model keeps and proves:

- **Batch and streaming differ at the start of a window.** A first sample
  above the threshold followed by one at or below it gives a pass in the
  streaming scanner and none in the batch scanner. The lemmas are
  `ScannerAgreement.LoneFirstSampleAboveThenBelow` and
  `PassProperties.FirstSampleAloneIsDropped`.
- **Eccentricity can exceed 1.** The eccentricity columns are read as
  `float("0." + field)`, which also accepts an exponent. Columns holding
  `1e5` therefore read as 10000.0 (`TleFields.ExponentEccentricityExceedsOne`),
  although the implied-point format is meant to give a value in [0, 1).
  `TleFields.DigitEccentricityIsFraction` proves that all-digit columns do
  give a value in [0, 1).
- **An untimed first sample loses its AOS.** If the first `update` of a
  streaming detector has no timestamp, no previous time is recorded, so the
  next update is treated as the first sample again. A pass that was already
  open is then reported with no AOS (`StreamingProperties.UntimedFirstSampleLosesAos`).

## Model

| member | source | states |
|---|---|---|
| PassDetection.Clamp01 | src/core/pass_detector.py:40 | the clamp `max(0.0, min(1.0, frac))` lies in [0, 1] and leaves a fraction already in [0, 1] unchanged |
| PassDetection.InterpTime | src/core/pass_detector.py:31-40 | level samples (y1 == y0) give t0 with no division |
| PassDetection.InterpTimeWithin | satcore/pass_detector.py:16-21 | for t0 <= t1 the interpolated time never leaves [t0, t1]: no extrapolation |
| PassDetection.InterpTimeOnChord | satcore/pass_detector.py:16-21 | a level between the samples gives the point on the chord, a level beyond either sample is clamped to that end, and a strict crossing with t0 < t1 lies strictly inside (t0, t1) |
| PassDetection.Step | src/core/pass_detector.py:64-89 | one sample pair completes at most one pass, and completes one exactly when a pass is open and the pair crosses downward; the completed pass keeps the open pass's AOS and leaves the scanner idle |
| PassDetection.ScanUpTo | src/core/pass_detector.py:64-89 | after k samples at most k - 1 passes have been completed: at most one per sample pair |
| PassDetection.Close | src/core/pass_detector.py:91-92 | a pass still open at the end is reported once, with its AOS and peak and the last timestamp as LOS; an idle scanner adds nothing |
| PassDetection.Passes | src/core/pass_detector.py:54-94 | the batch scan never reports more passes than there are samples |
| PassDetection.DetectPasses | src/core/pass_detector.py:43-94 | the loop over the flag, optional AOS and sentinel peak computes the reference scan `Passes`; empty or mismatched input gives [] |
| PassProperties.StateFollowsLastSample | src/core/pass_detector.py:68-89 | after at least one pair, the scanner is in a pass exactly when the last sample is above the threshold, so the both-above branch can only fire on the first pair |
| PassProperties.QuietWhileBelow | satcore/pass_detector.py:36-61 | while no sample rises above the threshold, an idle scanner stays idle and reports nothing |
| PassProperties.NoPassWithoutLaterSampleAbove | src/core/pass_detector.py:64-92 | if no sample after the first is above the threshold there is no pass; this covers fewer than two samples and a lone first sample above |
| PassProperties.ScanInvariantHolds | src/core/pass_detector.py:64-89 | for nondecreasing times every pass so far is well formed and chronological, and an open pass starts after all of them |
| PassProperties.PassesWellFormed | src/core/pass_detector.py:64-92 | for nondecreasing times every pass has AOS <= peak time <= LOS within the window and a peak above the threshold, and each LOS is no later than the next AOS |
| PassProperties.OpenPassIsReported | src/core/pass_detector.py:79-92 | an open pass either stays open with the same AOS or is the next pass reported, with that AOS |
| PassProperties.StartingAboveGivesAosAtFirstSample | satcore/pass_detector.py:46-50 | two first samples above the threshold give a first pass whose AOS is exactly times[0] |
| PassProperties.PrefixScan | src/core/pass_detector.py:64-66 | the scan over the first k samples does not depend on later samples |
| PassProperties.ScanRestartsBelow | v1_0_basic_pass_predictor/src/pass_detector.py:74-80 | once idle after a sample, the scanner continues exactly as a fresh scan started at that sample: the downward crossing resets all pass state |
| PassProperties.ResetAtSampleBelow | satcore/pass_detector.py:55-61 | a sample at or below the threshold splits the series: the passes are those up to it followed by those from it on |
| PassProperties.FirstSampleAloneIsDropped | src/core/pass_detector.py:74-78 | a first sample above the threshold followed by one at or below opens no pass: the result is that of the series without the first sample |
| PassProperties.PeakIndex | v1_0_basic_pass_predictor/src/pass_detector.py:69-71 | the index of the earliest maximum of a run, as kept by an update only on a strictly greater elevation |
| PassProperties.InsideExcursion | v1_0_basic_pass_predictor/src/pass_detector.py:56-71 | inside a run of samples above the threshold, the scanner holds the run's AOS and its earliest maximum and has reported nothing |
| PassProperties.SingleExcursion | satcore/pass_detector.py:41-64 | one run above the threshold is exactly one pass: AOS at the upward crossing, or times[0] when the run starts the window with two samples; peak at the earliest maximum; LOS at the downward crossing, or times[-1] when the run reaches the end |
| StreamingDetection.Initial | v1_2_synthetic_deviation/src/pass_detector.py:23-31 | a fresh detector has no passes, is not in a pass and has no previous time |
| StreamingDetection.EffectiveTime | v1_2_synthetic_deviation/src/pass_detector.py:41-43 | a given timestamp is used as it is; an omitted one after a timed sample becomes a later time; there is no time only when neither is known |
| StreamingDetection.Updated | v1_2_synthetic_deviation/src/pass_detector.py:33-87 | an update keeps the threshold and the earlier passes, records the sample's elevation and effective time, and adds at most one pass, only when a pass was open, the new sample is at or below the threshold, and the pass is then closed |
| StreamingDetection.Finalized | v1_2_synthetic_deviation/src/pass_detector.py:89-98 | finalize keeps the earlier passes and adds exactly one when a pass with an AOS is open, starting at that AOS and ending at the previous sample's time; afterwards no pass with an AOS is open |
| StreamingDetection.PassDetector.constructor | v1_2_synthetic_deviation/src/pass_detector.py:23-31 | the constructor's fields are `Initial(threshold)` |
| StreamingDetection.PassDetector.Update | v1_2_synthetic_deviation/src/pass_detector.py:33-87 | the in-place update leaves the fields equal to `Updated(old fields, elevation, time)` |
| StreamingDetection.PassDetector.Finalize | v1_2_synthetic_deviation/src/pass_detector.py:89-98 | the in-place finalize leaves the fields equal to `Finalized(old fields)` |
| StreamingDetection.PassDetector.GetPasses | v1_2_synthetic_deviation/src/pass_detector.py:100-103 | finalizes in place and returns the resulting pass list |
| StreamingProperties.InitialConsistent | v1_2_synthetic_deviation/src/pass_detector.py:23-31 | a fresh detector meets the detector invariant |
| StreamingProperties.UpdateKeepsConsistent | v1_2_synthetic_deviation/src/pass_detector.py:33-87 | every update keeps the invariant (idle means no pass state; an open pass has a peak above the threshold; every reported pass has an end and a peak above the threshold), keeps earlier passes, and adds exactly one pass on a downward crossing after the first sample |
| StreamingProperties.PeakOnlyRises | v1_2_synthetic_deviation/src/pass_detector.py:66-68 | inside a pass the peak never falls, and it changes only to a strictly greater elevation, together with that sample's time |
| StreamingProperties.FirstUpdateOpensOnItsOwn | v1_2_synthetic_deviation/src/pass_detector.py:45-54 | the first update records the sample and opens a pass exactly when it is above the threshold, with AOS = peak time = its time |
| StreamingProperties.LaterUpdateRecordsSample | v1_2_synthetic_deviation/src/pass_detector.py:41-43 | after the first sample, an update stores its elevation and its time, and an omitted time becomes the previous time plus 60 s |
| StreamingProperties.UpwardCrossingOpens | v1_2_synthetic_deviation/src/pass_detector.py:57-63 | an upward crossing opens a pass with AOS interpolated inside the sample interval and peak (t, elevation), reporting nothing |
| StreamingProperties.DownwardCrossingCloses | v1_2_synthetic_deviation/src/pass_detector.py:71-84 | a downward crossing appends exactly one pass, carrying the AOS, peak time and peak, with LOS inside the interval, and clears the pass state |
| StreamingProperties.FinalizeReportsOpenPass | v1_2_synthetic_deviation/src/pass_detector.py:89-103 | finalize appends the open pass (ending at the previous time) only when it has an AOS; a second finalize or get_passes adds nothing |
| StreamingProperties.UntimedFirstSampleLosesAos | v1_2_synthetic_deviation/src/pass_detector.py:41-54 | a first update without a time leaves no previous time, so a pass opened by it is later reported with no AOS and no peak time |
| ScannerAgreement.UpdateMirrorsStep | v1_2_synthetic_deviation/src/pass_detector.py:56-87 | one timestamped update performs the batch scanner's step on the same pair |
| ScannerAgreement.FirstPairSimulated | v1_2_synthetic_deviation/src/pass_detector.py:45-54 | after two samples the detector holds the batch scan state, plus the pass opened by a lone first sample above the threshold |
| ScannerAgreement.FedSimulatesScan | v1_2_synthetic_deviation/src/pass_detector.py:33-87 | after any number of timestamped samples the detector holds the batch scan state |
| ScannerAgreement.StreamingMatchesBatch | v1_2_synthetic_deviation/src/pass_detector.py:33-103 | fed the same timestamped samples and finalized, the streaming scanner reports the batch passes, preceded by the lone-first-sample pass when there is one |
| ScannerAgreement.ShortWindowsMatch | v1_2_synthetic_deviation/src/pass_detector.py:45-54 | the same agreement for windows of zero or one sample |
| ScannerAgreement.LongWindowsMatch | v1_2_synthetic_deviation/src/pass_detector.py:89-98 | the same agreement for windows of two samples or more, including the pass still open at the end |
| ScannerAgreement.AgreeUnlessLoneFirstSample | src/core/pass_detector.py:74-78 | the two scanners agree exactly when the window does not start with a lone sample above the threshold |
| ScannerAgreement.LoneFirstSampleAboveThenBelow | v1_2_synthetic_deviation/src/pass_detector.py:45-54 | above then at or below: the streaming scanner reports a pass starting at the first time, the batch scanner none |
| ScannerAgreement.FinalizeIdempotent | v1_2_synthetic_deviation/src/pass_detector.py:89-103 | finalizing twice equals finalizing once, and finalize adds at most one pass |
| ScannerExamples.Minutes | tests/test_pass_detector.py:11 | sample times one minute apart, in seconds |
| ScannerExamples.InterpolatedCrossings | tests/test_pass_detector.py:78-91 | the interpolation series gives one pass, with AOS at 30 s inside (0, 60) and LOS at 210 s inside (180, 240) |
| ScannerExamples.SimplePass | tests/test_pass_detector.py:7-17 | the single-pass series gives exactly one pass with peak 22 |
| ScannerExamples.NoPasses | tests/test_pass_detector.py:20-28 | the series below the threshold gives no pass |
| ScannerExamples.TwoPasses | tests/test_pass_detector.py:31-49 | two excursions of different heights (peaks 12 and 20) give two passes in order, each with its own crossings and its own peak |
| ScannerExamples.StartsAbove | tests/test_pass_detector.py:52-62 | a series starting above the threshold gives one pass with AOS times[0] and peak 20 |
| ScannerExamples.EndsAbove | tests/test_pass_detector.py:65-75 | a series still above the threshold at the end gives one pass with LOS times[-1] and peak 35 |
| ScannerExamples.EmptyOrMismatched | tests/test_pass_detector.py:94-107 | empty input and mismatched lengths give no pass |
| TimeGrid.RoundHalfEven | main.py:98 | the step `timedelta(seconds=s)` is the nearest microsecond count, ties going to the even one |
| TimeGrid.RoundHalfEvenOfWhole | main.py:98 | a step that is a whole number of microseconds is taken exactly |
| TimeGrid.StepMicroseconds | main.py:98 | `timedelta(seconds=step_seconds)` holds the step within half a microsecond, and any step above half a microsecond is at least one microsecond |
| TimeGrid.DatetimeRange | main.py:94-102 | empty when start > end; otherwise starts at start, every element <= end, consecutive elements one step apart, and the last plus a step is past end; the loop needs a positive step when start <= end |
| TimeGrid.GridIncreasing | main.py:98-101 | with a positive step the grid is strictly increasing |
| TimeGrid.GridDetermined | main.py:94-102 | the grid's contract determines it: two sequences meeting it are equal |
| TimeGrid.GridFeedsScanner | main.py:94-102 | a grid with a positive step, in seconds, is nondecreasing, which is what the scanners' properties require |
| PassOutput.PassesToDict | main.py:123-137 | one record per pass, in input order, numbered 1..n, with AOS, TCA and LOS from the same pass's start, peak and end times, duration in minutes equal to (end - start) / 60, and the given prediction type |
| PassOutput.NumPasses | main.py:166 | `num_passes` is zero exactly when no pass was found; PassesToDict proves it equals the number of records written |
| PassOutput.RecordsOfScannedPasses | main.py:123-137 | for well-formed chronological passes the record numbers increase, durations are not negative, and each LOS is no later than the next AOS |
| PassOutput.Summaries | v1_1_visualization/src/main.py:99-107 | one summary per pass, in order, mapping start, peak and end times and the peak elevation |
| PassOutput.SummariesOfDetectedPasses | v1_1_visualization/src/main.py:99-107 | the summary of the batch scanner's passes over nondecreasing times is chronological, with start <= peak time <= end and a peak above the threshold |
| TleLoader.StripStart | satcore/tle_loader.py:25 | removes exactly the leading whitespace |
| TleLoader.IsSpace | satcore/tle_loader.py:25 | space, tab, newline and carriage return are whitespace for `strip`; digits, ASCII letters, '.', '+', '-' and '#' are not |
| TleLoader.StripEnd | satcore/tle_loader.py:25 | removes exactly the trailing whitespace |
| TleLoader.Strip | satcore/tle_loader.py:25 | every stripped line has no leading or trailing whitespace |
| TleLoader.StripTrimmed | satcore/tle_loader.py:25 | stripping leaves an already stripped line unchanged |
| TleLoader.StripIdempotent | satcore/tle_loader.py:25 | stripping twice is stripping once |
| TleLoader.StripEmptyIffBlank | satcore/tle_loader.py:25-27 | a line strips to empty exactly when it is all whitespace, so blank lines are the ones dropped |
| TleLoader.StripTerminatedLine | satcore/tle_loader.py:24-25 | a line read with its newline strips back to the line |
| TleLoader.StripKeepsFirst | satcore/tle_loader.py:24-25 | stripping a line that does not begin with whitespace keeps its first character |
| TleLoader.StripStartSkipsSpace | satcore/tle_loader.py:25 | leading whitespace makes no difference to the stripped text |
| TleLoader.ContentLines | satcore/tle_loader.py:24-27 | the kept lines are stripped, non-empty and not comments, and no more numerous than the raw lines |
| TleLoader.ContentLinesAppend | v1_1_visualization/src/tle_loader.py:6-7 | filtering a concatenation is concatenating the filtered parts |
| TleLoader.LoadTle | satcore/tle_loader.py:9-39 | fewer than three content lines is exactly the too-few-lines error; on success the name is content, all three are stripped, and line 1 and line 2 start with "1 " and "2 "; its partners are WrittenTleLoadsBack (a written valid TLE loads back unchanged) and TrailingLinesIgnored (lines after the first three content lines do not matter) |
| TleLoader.ShortFileRejected | tests/test_tle_loader.py:54-60 | a file of fewer than three lines is rejected for too few lines |
| TleLoader.SameContentSameOutcome | v1_1_visualization/src/tle_loader.py:7-15 | only the content lines matter |
| TleLoader.SkippedLineIgnored | tests/test_tle_loader.py:23-51 | inserting a blank or comment line anywhere does not change the result |
| TleLoader.TrailingLinesIgnored | satcore/tle_loader.py:34 | lines after the first three content lines are ignored |
| TleLoader.Written | tests/test_tle_loader.py:7-20 | a file written line by line holds each line followed by a newline |
| TleLoader.WrittenLineKept | satcore/tle_loader.py:24-27 | a written content line is kept as it was written |
| TleLoader.WrittenContentReadsBack | satcore/tle_loader.py:24-27 | written content lines read back as themselves |
| TleLoader.WrittenTleLoadsBack | tests/test_tle_loader.py:7-20 | a written valid TLE loads back as the same name, line 1 and line 2 |
| NumberParsing.DigitValue | v2_0_ai_correction/src/pipeline.py:37-43 | a digit's value is below 10 |
| NumberParsing.Pow10 | v2_0_ai_correction/src/pipeline.py:37 | powers of ten are positive |
| NumberParsing.DigitsValue | v2_0_ai_correction/src/pipeline.py:37 | n digits denote a number below 10^n |
| NumberParsing.Unseparated | v2_0_ai_correction/src/pipeline.py:37-43 | removing digit-group underscores leaves only digits, and leaves pure digits unchanged |
| NumberParsing.IndexOfEither | v2_0_ai_correction/src/pipeline.py:38-43 | finds the first exponent marker, or the end of the text |
| NumberParsing.Scaled | v2_0_ai_correction/src/pipeline.py:38-43 | scaling by a power of ten keeps a non-negative mantissa non-negative |
| NumberParsing.ParseMantissa | v2_0_ai_correction/src/pipeline.py:38-43 | a parsed unsigned mantissa is not negative |
| NumberParsing.Fraction | v2_0_ai_correction/src/pipeline.py:42 | digits after a decimal point denote a value in [0, 1) |
| NumberParsing.MantissaValue | v2_0_ai_correction/src/pipeline.py:38-43 | whole and fractional digits give a non-negative value |
| NumberParsing.ParseDecimal | v2_0_ai_correction/src/pipeline.py:38-43 | text without a leading minus never parses to a negative value |
| NumberParsing.ParseUnsigned | v2_0_ai_correction/src/pipeline.py:38-43 | an unsigned decimal with optional exponent parses to a non-negative value |
| NumberParsing.ParseInt | v2_0_ai_correction/src/pipeline.py:37 | `int()` gives a number only for text that is not blank once stripped of number whitespace, and a negative number only when that stripped text starts with '-' |
| NumberParsing.ParseFloat | v2_0_ai_correction/src/pipeline.py:38-43 | `float()` gives a number only for text that is not blank once stripped of number whitespace, and a negative number only when that stripped text starts with '-' |
| NumberParsing.NumberSpace | v2_0_ai_correction/src/pipeline.py:37-43 | the whitespace `int()` and `float()` skip is exactly `str.isspace` whitespace other than U+001C-U+001F |
| NumberParsing.StripNumber | v2_0_ai_correction/src/pipeline.py:37-43 | the text `int()` and `float()` read has no number whitespace at either end |
| NumberParsing.StripNumberTrimmed | v2_0_ai_correction/src/pipeline.py:37-43 | text without number whitespace at its ends is read as it is |
| NumberParsing.StripNumberStartSkipsSpace | v2_0_ai_correction/src/pipeline.py:41 | leading number whitespace makes no difference to what is read |
| NumberParsing.StripNumberAgrees | v2_0_ai_correction/src/pipeline.py:37-43 | on text without U+001C-U+001F, `int()` and `float()` strip exactly what `str.strip` does |
| NumberParsing.LeadingSeparatorControlRejected | v2_0_ai_correction/src/pipeline.py:37 | `str.strip` removes a leading U+001C from "\x1c5", but `int()` rejects that text |
| NumberParsing.TrailingSeparatorControlRejected | v2_0_ai_correction/src/pipeline.py:38 | `str.strip` removes a trailing U+001F from "5\x1f", but `float()` rejects that text |
| NumberParsing.DecimalStringValue | v2_0_ai_correction/src/pipeline.py:37 | the value `DigitsValue` gives a digit string agrees with an independent printer of naturals (Python's `str(n)`, `DecimalString`): the text of n reads back as n |
| NumberParsing.ParseIntOfSignedDigits | v2_0_ai_correction/src/pipeline.py:37 | `int()` reads an optionally signed digit string as the number those digits denote, with that sign |
| NumberParsing.DigitColumnValue | v2_0_ai_correction/src/pipeline.py:37 | `int()` reads a column of digits as the number they denote, leading zeros included |
| NumberParsing.PointedDecimal | v2_0_ai_correction/src/pipeline.py:38-43 | `float()` reads digits, a point and digits (underscores allowed between digits) as the whole part plus the fraction the digits after the point denote |
| NumberParsing.PaddedPointedDecimal | v2_0_ai_correction/src/pipeline.py:41 | the same with leading number whitespace, as in a right-aligned column |
| NumberParsing.ImpliedPointFraction | v2_0_ai_correction/src/pipeline.py:42 | "0." followed by digits parses to the fraction those digits denote |
| NumberParsing.ImpliedPointWithExponent | v2_0_ai_correction/src/pipeline.py:42 | "0." followed by "1e5" parses to 10000.0 |
| TleFields.Slice | v2_0_ai_correction/src/pipeline.py:37-43 | Python slicing with bounds past the end cut to the length, never an error |
| TleFields.ReadEccentricity | v2_0_ai_correction/src/pipeline.py:42 | the eccentricity read with an implied "0." is never negative |
| TleFields.ExtractTleParameters | v2_0_ai_correction/src/pipeline.py:23-56 | all five reads (`int(line1[18:20])`, `float(line1[20:32])`, `float(line2[8:16])`, `float("0." + line2[26:33])`, `float(line2[52:63])`) succeed and the result is inclination, eccentricity and mean motion as read; any read fails and the result is the defaults (97.0, 0.0005, 15.0); either way the eccentricity is not negative |
| TleFields.EmptyTextIsNoNumber | v2_0_ai_correction/src/pipeline.py:50 | empty text is not a number for `int()` or `float()` |
| TleFields.ShortLine2GivesDefaults | v2_0_ai_correction/src/pipeline.py:43-56 | a line 2 too short to reach the mean-motion columns gives the defaults |
| TleFields.ShortLine1GivesDefaults | v2_0_ai_correction/src/pipeline.py:37-38 | a line 1 too short to reach the epoch columns gives the defaults, although those fields are otherwise unused |
| TleFields.DigitEccentricityIsFraction | v2_0_ai_correction/src/pipeline.py:42 | all-digit eccentricity columns give the defaults or the fraction those digits denote, in [0, 1) |
| TleFields.ExponentEccentricityExceedsOne | v2_0_ai_correction/src/pipeline.py:42 | eccentricity columns "1e5" read as 10000.0, outside [0, 1) |
| TleFields.IssParameters | v2_0_ai_correction/src/pipeline.py:36-49 | lines whose columns hold the ISS test element set's "08", "264.51782528", " 51.6416", "0006703" and "15.72125391" give inclination 51.6416, eccentricity 0.0006703 and mean motion 15.72125391 |
| TleFields.FullYear | v2_0_ai_correction/src/pipeline.py:74-78 | a two-digit year becomes a year in 1957-2056 with the same last two digits |
| TleFields.FullYearPivot | v2_0_ai_correction/src/pipeline.py:74-78 | two-digit years map one-to-one onto 1957-2056, keeping the last two digits |
| TleFields.DaysBeforeNextYear | v2_0_ai_correction/src/pipeline.py:81 | in the Gregorian calendar a year has 366 days when leap and 365 otherwise |
| TleFields.DaysBeforeYear | v2_0_ai_correction/src/pipeline.py:81 | the days from 1 January of year 1 to 1 January of year y are between 365 and 366 per elapsed year |
| TleFields.NewYear | v2_0_ai_correction/src/pipeline.py:81 | `datetime(year, 1, 1)` in seconds since `datetime.min` is not negative, and is zero exactly for year 1 |
| TleFields.DateTimeDaysSpanAllYears | v2_0_ai_correction/src/pipeline.py:81 | the datetime range holds years 1 to 9999 |
| TleFields.EpochOf | v2_0_ai_correction/src/pipeline.py:81 | an epoch that can be built lies in the datetime range |
| TleFields.TleEpoch | v2_0_ai_correction/src/pipeline.py:71-81 | an epoch read from line 1 lies in the datetime range |
| TleFields.NewYearIsDateTime | v2_0_ai_correction/src/pipeline.py:81 | 1 January of years 1 to 9999 is a representable datetime |
| TleFields.DayOneIsNewYear | v2_0_ai_correction/src/pipeline.py:81 | epoch day 1.0 is midnight on 1 January of the pivoted year |
| TleFields.DayAfterLastIsNextNewYear | v2_0_ai_correction/src/pipeline.py:81 | the day after the last day of the year (367 in a leap year, 366 otherwise) is 1 January of the next year |
| TleFields.NextDayIsOneDayLater | v2_0_ai_correction/src/pipeline.py:81 | one more day in the day field moves the epoch exactly 24 hours later |
| TleFields.HoursSinceEpoch | v2_0_ai_correction/src/pipeline.py:59-87 | 0.0 when the epoch cannot be built; otherwise epoch + hours * 3600 s is the current time, and hours are negative exactly when the current time precedes the epoch |
| Residuals.Minimum | v1_2_synthetic_deviation/src/residuals.py:53 | the minimum is one of the values and no value is below it |
| Residuals.Maximum | v1_2_synthetic_deviation/src/residuals.py:54 | the maximum is one of the values and no value is above it |
| Residuals.RepeatedIsProduct | v1_2_synthetic_deviation/src/residuals.py:51 | adding x to itself n times gives n * x |
| Residuals.SumWithin | v1_2_synthetic_deviation/src/residuals.py:51 | n values within [lo, hi] sum to between n * lo and n * hi |
| Residuals.QuotientWithin | v1_2_synthetic_deviation/src/residuals.py:51 | a sum between n * lo and n * hi, divided by n, lies in [lo, hi] |
| Residuals.AverageWithinExtremes | v1_2_synthetic_deviation/src/residuals.py:51-54 | the sum over the count lies between the minimum and the maximum |
| Residuals.Mean | v1_2_synthetic_deviation/src/residuals.py:51 | |xs| copies of the mean add up to the sum of the list, and the mean lies between the minimum and the maximum |
| Residuals.QuotientRepeats | v1_2_synthetic_deviation/src/residuals.py:51 | n copies of s / n add up to s |
| Residuals.StatsOf | v1_2_synthetic_deviation/src/residuals.py:49-56 | min and max are values of the list bounding all of it, the mean times the count is the list's sum, and min <= mean <= max |
| Residuals.MeanOfEqualValues | v1_2_synthetic_deviation/src/residuals.py:51 | the mean of equal values is that value |
| Residuals.MinimumAfterAppend | v1_2_synthetic_deviation/src/residuals.py:32-35 | appending a value lowers the minimum to it when smaller, otherwise keeps it |
| Residuals.MaximumAfterAppend | v1_2_synthetic_deviation/src/residuals.py:32-35 | appending a value raises the maximum to it when larger, otherwise keeps it |
| Residuals.ResidualStats.constructor | v1_2_synthetic_deviation/src/residuals.py:16-22 | all lists empty and the count 0 |
| Residuals.ResidualStats.AddPassResidual | v1_2_synthetic_deviation/src/residuals.py:24-36 | each error is appended to its own list, the count grows by one, the timing list is untouched, and the count still equals every list's length |
| Residuals.ResidualStats.ComputeStats | v1_2_synthetic_deviation/src/residuals.py:38-64 | the count is reported; every field is empty exactly when there are no passes; otherwise each field is `StatsOf` its own error list (position, AOS, LOS, peak elevation), so its mean is that list's sum over the count and its min and max bound the list; nothing is modified |

## Left out

- The file read of `load_tle` is not modelled: the loader takes the file's lines, each with its newline. `str.strip` is modelled on every character `str.isspace` accepts.
- `int()` and `float()` are modelled for ASCII digits only. `inf`, `nan`, `infinity` and non-ASCII digits are left out.
- Floating point is not modelled: interpolated times, durations and means are exact real arithmetic.
- The microsecond rounding of `timedelta * float` in `_interp_time` is not modelled. The grid step, `timedelta(seconds=s)`, is rounded.
- TleFields.EpochOf: `timedelta(days=epoch_day - 1)` rounds the fractional day to whole microseconds; the model adds `(day - 1) * 86400` seconds exactly.
- TimeGrid.StepMicroseconds: `timedelta(seconds=step_seconds)` raises `OverflowError` for a step beyond about 10^9 days; the model rounds any step.
- Times are plain numbers. The time-zone awareness of `datetime` is left out. This includes the `TypeError` that subtracting a naive epoch from an aware current time raises; it would be caught and give 0.0.
- TleFields.EpochOf: the float overflow that a huge day count causes inside `timedelta` is covered only by the day-range check.
- The `std` and `median` entries of `compute_stats` are left out (square roots and sorting over floats). `round()` in the output records and `isoformat()` are left out too.
- Other metadata fields of `create_output_metadata` (station, times, generated-at stamp) are left out; only `num_passes` is modelled.
- Ground-station geometry, SGP4 propagation, frame conversion, the ML correction, the deviation model, plotting and the CLI are left out: they are trigonometric float work, foreign libraries, randomness or I/O. Elevations enter the model as given values.
- TimeGrid.DatetimeRange: `t += step` raises `OverflowError` once `t` would pass `datetime.max`; the model's integers have no upper limit, so it returns the grid where Python raises.
- StreamingDetection.PassDetector.GetPasses: `get_passes` returns the detector's own list, so a later update that closes a pass also grows the list the caller holds; the model returns the list as a value, and that aliasing is not modelled.
- ScannerAgreement.StreamingMatchesBatch: the agreement is stated for samples that each carry a timestamp. Untimed updates are modelled by `Updated` and covered by their own lemmas.
- ScannerExamples.TwoPasses: it uses a five-sample series with two excursions instead of the 22-sample series of the unit test. The general lemmas `SingleExcursion` and `ResetAtSampleBelow` cover series of that shape.
- The unit tests compare `datetime` values; ScannerExamples states them in seconds from the first sample.

# RFI chamber capture driver, modelled in Dafny

This project models the decision-making core of `capture_data.py`, the script
that drives one capture campaign in the RFI chamber. It covers:

- the centre-frequency sweep of `Measurement.get_centre_frequencies`;
- the channelisation arithmetic of `Executor.run_measurement`: FFT length rounded
  to a power of two and capped at 2^28, spectra to accumulate, actual resolution,
  actual integration time and total channel count;
- the spectrum-analyser adapter: classifying the `:SYST:ERR:ALL?` reply, and the
  order of writes and queries on the instrument channel, with dry-run suppression;
- the receiver status monitor `MKRECVStdoutHandler`: the warm-up counter and the
  slot-loss check of a `STAT` line;
- the receiver template choice of `Spectrometer.record` and its warm-up count of 4;
- the JSON header of `write_header`: the fixed fields, in insertion order, then
  the configured extra fields overwriting them, plus the scan id and file names;
- the sweep loop of `run_measurement`: break on an out-of-range frequency, header
  before recording, shared file stem. Also the catch-and-continue loop of
  `run_all_measurements`.

Frequencies, times and levels are exact reals (Hz, seconds). Python's text
handling (`int()`, `str.split`, `str.strip`, `str(int)`) is modelled in `Text`
for ASCII. The instrument, the clock, the file system and the recording chain
are not run: what they answer in one measurement is collected in a `Bench`
value that the operations take as a parameter. The instrument channel is a
trace of events held by the `SpectrumAnalyserInterface` object.

Modules, one per file: `Wrappers` (Option/Result), `Seqs` (sequence
concatenation facts), `Text`, `FrequencySweep`, `Channelisation`, `Analyser`,
`StatMonitor`, `Spectrometer`, `Header`, `Executor`.

In four places the code does not do what one might expect, and the model
follows the code:

- **Resolution.** One might expect the actual resolution never to exceed the
  requested one. The code truncates `channel_bandwidth / resolution` before
  rounding up, so the actual resolution can be coarser, by up to a factor of two
  (`Channelisation.ActualResolutionWithinFactorTwo`,
  `Channelisation.ActualResolutionCanExceedRequest`).
- **FFT length of zero.** One might expect a raw FFT length of 0 to round to
  the next power of two, 1. The code maps it to 2.
- **Accumulation count.** One might expect the count to be at least 1 always.
  The code gives 0 for a zero integration time; at least 1 is guaranteed only
  for a positive one (and, given the unit problem under "## Findings", only
  for an integration time configured in seconds).
- **Last band.** One might expect every band to start below `end`. The code stops
  only once a step's upper edge is strictly above `end`, so a band a whole number
  of steps wide gets one more band starting exactly at `end`
  (`FrequencySweep.WholeBandAddsStepAtEnd`).

## Model

| member | source | states |
|---|---|---|
| Text.StripLeft | capture_data.py:361 | `lstrip(chars)` returns a suffix of the input; every dropped character is in the set; the result is empty or starts outside the set. |
| Text.StripRight | capture_data.py:361 | `rstrip(chars)` returns a prefix; every dropped character is in the set; the result is empty or ends outside the set. |
| Text.Strip | capture_data.py:361 | `strip(chars)` returns a contiguous slice of its input. Every character dropped before it and after it is in the set, and the slice is empty or begins and ends outside the set. |
| Text.StripLeftAppend | capture_data.py:361 | Appending text after a character that `lstrip` keeps does not change what `lstrip` drops. |
| Text.StripRightAppend | capture_data.py:361 | `rstrip` on text ending outside the set, followed by characters of the set, drops exactly those characters. |
| Text.StripOfAppended | capture_data.py:361 | `(s + x).strip(chars)` is `s.lstrip(chars)` when `x` is made of set characters and `s` ends outside the set. |
| Text.TrimRight | capture_data.py:169 | Trailing whitespace, which `int()` ignores, is exactly what is dropped. |
| Text.IntToString | capture_data.py:461-465 | `str(timestamp)` is non-empty, ends in a digit and is all digits apart from a leading minus sign. |
| Text.DigitsValueOfNatToString | capture_data.py:461-465 | The decimal digits of `n` have the value `n`. |
| Text.ParseInt | capture_data.py:169 | `int()` accepts a string exactly when, once trimmed, it is at least one digit after at most one `+` or `-`. Its value is then the digits' decimal value, negated after a `-`. A blank string raises. |
| Text.TrimOfUnspaced | capture_data.py:169 | A string without whitespace is unchanged by the trimming `int()` does. |
| Text.ParseIntOfPlusZero | capture_data.py:169 | `int("+0") == 0`. |
| Text.ParseIntOfLeadingZeros | capture_data.py:169 | `int("007") == 7`. |
| Text.ParseIntOfPadded | capture_data.py:169 | `int(" 5 ") == 5`. |
| Text.ParseIntOfIntToString | capture_data.py:169 | `int(str(i)) == i` for every integer, negative ones included. |
| Text.BeforeFirst | capture_data.py:169 | `split(",")[0]` is a prefix without a comma, followed by a comma when it is shorter than the input, and the whole input when there is no comma. |
| Text.AfterLast | capture_data.py:361 | `split("/")[-1]` is a suffix without a slash, preceded by a slash when it is shorter than the input. |
| Text.AfterLastOfJoin | capture_data.py:361 | The last `/` component of `prefix + "/" + name` is `name` when `name` has no slash. |
| Text.Fields | capture_data.py:121 | `split()` yields only non-empty fields free of whitespace. |
| Text.FieldsOfSpaced | capture_data.py:121 | `split()` of whitespace-free words, each followed by its own non-empty run of any whitespace, then a rest, gives the words back and then the rest's fields. |
| Text.FieldsOfLine | capture_data.py:121 | `split()` of such words with any leading and trailing whitespace is exactly the words. |
| FrequencySweep.CentreFrequencies | capture_data.py:223-233 | The `while True` loop returns exactly the sweep `Centres(start, end, bandwidth)`, for any positive bandwidth. |
| FrequencySweep.SweepLengthIsSmallest | capture_data.py:228-233 | The number of centres is the least n ≥ 1 whose upper edge `start + n*bw` lies above `end`. |
| FrequencySweep.SweepSteps | capture_data.py:224-232 | The sweep is non-empty and starts at `start + bw/2`; each later centre is exactly one bandwidth above the one before. |
| FrequencySweep.SweepIncreasing | capture_data.py:226-232 | Centres strictly increase. |
| FrequencySweep.SweepUpperEdges | capture_data.py:228-233 | Every band but the last ends at or below `end`; the last ends above it. |
| FrequencySweep.SweepLowerEdges | capture_data.py:223-233 | No band starts below `start`; every band after the first starts at or below `end`. |
| FrequencySweep.SweepCoversBand | capture_data.py:223-233 | Every frequency in `[start, end]` lies within half a bandwidth of some centre. |
| FrequencySweep.WholeBandAddsStepAtEnd | capture_data.py:228-233 | From 0 to 80 in steps of 40 the centres are 20, 60, 100; the last band starts at `end`. |
| Channelisation.BitLen | capture_data.py:419 | `bit_length` is zero only for zero; otherwise `2^(b-1) <= m < 2^b`. |
| Channelisation.BitLength | capture_data.py:419 | Python's `int.bit_length()` is zero only for zero; otherwise `2^(b-1) <= abs(n) < 2^b`. |
| Channelisation.Trunc | capture_data.py:416-417 | `int(x)` truncates toward zero: the result has the sign of x and lies less than 1 from it, on the zero side. |
| Channelisation.FftLength | capture_data.py:416-419 | The FFT length before the cap is a power of two. When the channel is at least one resolution wide, it is the least power of two at or above `floor(channel_bandwidth / resolution)`. |
| Channelisation.RoundUpPowerOfTwo | capture_data.py:419 | `2**((n-1).bit_length())` is a power of two: at least n and less than 2n for n ≥ 1, and 2 for n = 0. |
| Channelisation.RoundUpIsSmallest | capture_data.py:419 | No power of two that is at least n lies below the rounded length. |
| Channelisation.Ceil | capture_data.py:434 | `np.ceil(x)` is the integer c with `c - 1 < x <= c`. |
| Channelisation.Pow2Of28 | capture_data.py:17 | `MAX_FFT_LENGTH` is 2^28. |
| Channelisation.PlanChannels | capture_data.py:413-440 | On success the FFT length is a power of two in [1, 2^28] and the total channel count is `first_stage_nchans * fft_length`. A zero divisor is the only cause of `NonFiniteLength`. |
| Channelisation.Accumulation | capture_data.py:429-440 | The FFT splits each first-stage channel into `fft_length` channels of the actual resolution. The actual integration time is `naccumulate` spectra of that resolution. The total channel count is `first_stage_nchans * fft_length`. |
| Channelisation.PlanRejectsIff | capture_data.py:416-423 | With positive inputs, the plan is rejected exactly when `floor(channel_bandwidth / resolution)` exceeds 2^28. |
| Channelisation.AccumulationCoversIntegrationTime | capture_data.py:429-440 | For an integration time in seconds, `naccumulate` is the least count whose duration covers the request. The actual integration time is at least the request and under one spectrum longer; a positive request gives at least one spectrum. |
| Channelisation.PlanCoversIntegrationTime | capture_data.py:413-440 | The same guarantees, for an integration time in seconds, for any plan the arithmetic accepts. |
| Channelisation.NaccumulateAsWritten | capture_data.py:434-435 | The count as written, with the ceiling taken before the unit is decomposed: for non-negative inputs it is a non-negative whole number no greater than the ceiling scaled to seconds. |
| Channelisation.NaccumulateAsWrittenInSeconds | capture_data.py:434-435 | With the integration time configured in seconds, the count as written is the ceiling of `integration_time * actual_resolution`. |
| Channelisation.NaccumulateAsWrittenFallsShort | capture_data.py:434-435 | 500 ms at a 1 Hz resolution gives 0 spectra as written, while covering half a second takes 1. |
| Channelisation.ActualResolutionWithinFactorTwo | capture_data.py:416-429 | When the first-stage channel is at least as wide as the requested resolution, the actual resolution is within a factor of two of it, either way. |
| Channelisation.ActualResolutionCanExceedRequest | capture_data.py:416-429 | 9 Hz channels at a requested 2 Hz give an FFT length of 4 and an actual resolution of 2.25 Hz. |
| Analyser.ErrorCode | capture_data.py:168-169 | The code of a reply without a comma is `int()` of the whole reply. A reply whose first comma-separated part is blank has no code. |
| Analyser.CheckErrorStatus | capture_data.py:167-178 | `check_error` returns exactly when the code before the first comma is 0, raises out-of-range exactly when it is -222, and raises an analyser fault for any other parsable code. |
| Analyser.SignedZeroIsNoError | capture_data.py:167-178 | The reply `+0,"No error"` is classified as no error. |
| Analyser.CheckErrorStatusOfReply | capture_data.py:167-178 | An error reply is classified by its code alone, whatever its message holds, commas included. |
| Analyser.Writes | capture_data.py:185-187 | The writes of `send_commands`: none in passive mode, otherwise one per command, in list order. |
| Analyser.SpectrumAnalyserInterface.constructor | capture_data.py:157-161 | A new interface has the given dry-run mode and an empty trace. |
| Analyser.SpectrumAnalyserInterface.SendCommand | capture_data.py:180-183 | A command is appended to the trace unless the interface is passive. |
| Analyser.SpectrumAnalyserInterface.CheckError | capture_data.py:167-178 | Exactly one error query is made, and the reply is classified by `CheckErrorStatus`. |
| Analyser.SpectrumAnalyserInterface.SendCommands | capture_data.py:185-188 | The trace gains the command writes in order (none when passive), then exactly one error query. |
| Analyser.SpectrumAnalyserInterface.Get | capture_data.py:190-205 | A numeric query is sent, in passive mode too, and its answer is returned. |
| Analyser.SpectrumAnalyserInterface.SetCentreFrequency | capture_data.py:196-198 | The tuning write (suppressed when passive) and then one error query are appended; the verdict is the classification of the reply. |
| StatMonitor.IsStatLine | capture_data.py:134 | A line is a status line exactly when its first four bytes are the ASCII codes of `STAT`. |
| StatMonitor.LossFraction | capture_data.py:124-128 | The fraction of slots lost is zero exactly when filled equals total. |
| StatMonitor.ParseStatText | capture_data.py:119-128 | `parse_stat_line` survives exactly when `split()` gives at least four fields, fields 1 and 3 parse as integers, and the total is non-zero or equals the filled count. It warns only when the two parsed counts differ, and then the lost fraction is non-zero. |
| StatMonitor.ParseStatLine | capture_data.py:119-128 | On the bytes of a line: fewer than four fields crash the reader, and a warning carries two different counts and a non-zero lost fraction. |
| StatMonitor.StatTextFields | capture_data.py:121 | `split()` of a status line, with any whitespace after each field, gives the marker, total, third field and filled count, then the rest. |
| StatMonitor.ParseStatTextOfStatLine | capture_data.py:120-128 | A well-formed status line, with any spacing, warns exactly when total and filled differ; a zero total with slots filled crashes the reader. |
| StatMonitor.Step | capture_data.py:134-139 | The counter drops by one on each status line and on nothing else. Non-status lines are ignored. A status line is discarded exactly while the dropped counter is positive, and parsed otherwise. |
| StatMonitor.Outcomes | capture_data.py:130-139 | A run yields at most one outcome per line read. It covers every line unless it stops at a crash, and then the crash is its last outcome. |
| StatMonitor.OutcomeOfLine | capture_data.py:130-139 | Non-status lines are ignored. The k-th status line is discarded while k < nskip and parsed from k = nskip on. Only the last outcome can be a crash. |
| StatMonitor.MkrecvStdoutHandler.constructor | capture_data.py:116-118 | The counter starts at the given `nskip`. |
| StatMonitor.MkrecvStdoutHandler.ProcessLine | capture_data.py:134-139 | Only a status line decrements the counter; it is skipped while the new counter is positive, and parsed otherwise. |
| StatMonitor.MkrecvStdoutHandler.Run | capture_data.py:130-139 | The loop's outcomes are `Outcomes(nskip, lines)`, and the counter drops by the number of status lines it consumed. |
| Spectrometer.Record | capture_data.py:270-325 | `record` picks the passthrough template exactly for one input channel, hands its arguments on unchanged, and gives the spectrometer and the monitor the same warm-up count. |
| Spectrometer.ReceiverModeFor | capture_data.py:273-278 | The passthrough template is chosen exactly when `input_nchans == 1`, PFB otherwise. |
| Spectrometer.WarmUpDiscardsThree | capture_data.py:249 | With the monitor started at 4, the first three status lines of a recording are discarded and every later one is parsed. |
| Header.Put | capture_data.py:367 | After `d[key] = value` the key holds the value. |
| Header.PutKeys | capture_data.py:367 | An assignment keeps the keys in their order; a new key is appended at the end. |
| Header.PutGetOther | capture_data.py:367 | An assignment leaves every other key's value unchanged. |
| Header.OverlayGet | capture_data.py:366-367 | After the merge, a key holds the value of the last extra field naming it, or its fixed value when none does. |
| Header.OverlayKeys | capture_data.py:366-367 | The merge keeps every fixed key in place, appends new keys after them and never repeats a key. |
| Header.MergeExtraFields | capture_data.py:366-367 | The merge loop applies the configured fields as assignments, in order. |
| Header.FixedEntries | capture_data.py:351-364 | The literal has twelve entries; the repeated centre and bandwidth entries repeat the same values; the scan id and name entries carry the given id and tag. |
| Header.HeaderFor | capture_data.py:349-367 | The header holds the ten fixed keys first and in order, and no key twice. A configured field wins over the literal. Unless a configured field replaces it, the scan id is the one of the header file's name. |
| Header.FixedHeader | capture_data.py:351-365 | The literal yields ten keys in order of first appearance, each with its last value. The repeated centre and bandwidth entries change nothing. |
| Header.FileNamesShareStem | capture_data.py:466-467 | A data file name never equals a header file name; equal names of one kind mean equal stems. |
| Header.ScanName | capture_data.py:461-465 | A scan name is the tag, `_`, the frequency label, `_` and the timestamp in decimal, each at its own position. |
| Header.ScanNameReadsBack | capture_data.py:461-465 | The text after the tag and label of a scan name reads back with `int()` as the timestamp. |
| Header.Stem | capture_data.py:461-465 | A step's stem lies inside the output directory. Its last path component is the scan name when the tag and label hold no slash. |
| Header.ScanNameHasNoSlash | capture_data.py:461-465 | A scan name built from slash-free tag and label has no slash. |
| Header.ScanNameShape | capture_data.py:461-465 | A scan name is non-empty, has no slash and ends in a digit of the timestamp. |
| Header.BaseOfHeaderFile | capture_data.py:361 | The last path component of a header file name is its scan name plus `.rfi`. |
| Header.ScanIdAsWritten | capture_data.py:361 | The scan id as written is a slice of the last path component with no slash. Only `.`, `r`, `f` and `i` characters are dropped before and after it, and it is empty or begins and ends outside them. |
| Header.ScanIdAsWrittenOfHeaderFile | capture_data.py:361 | Of a step's header file, the scan id as written is the scan name with its leading `.`, `r`, `f` and `i` characters dropped. |
| Header.StripOfSuffixed | capture_data.py:361 | `(name + ".rfi").strip(".rfi")` is `name.lstrip(".rfi")` for a name ending in a digit. |
| Header.ScanId | capture_data.py:361 | The (corrected) scan id never contains a slash. |
| Header.ScanIdOfHeaderFile | capture_data.py:361 | The corrected scan id of a step's header file is its scan name. |
| Header.StripAgreesIff | capture_data.py:361 | `(name + ".rfi").strip(".rfi") == name` exactly when the name does not start with `.`, `r`, `f` or `i`. |
| Header.ScanIdAsWrittenAgreesIff | capture_data.py:361 | The scan id as written is the scan name exactly when the name does not start with one of `.`, `r`, `f`, `i`. |
| Header.ScanIdAsWrittenLosesTagStart | capture_data.py:361 | For the tag `fridge`, label `1.5` and timestamp 7, the scan id as written is `dge_1.5_7`, not the scan name; the corrected one is the scan name. |
| Header.StripLeftOfFridge | capture_data.py:361 | `"fridge_1.5_7".lstrip(".rfi")` is `dge_1.5_7`. |
| Executor.Sweep | capture_data.py:446-473 | The loop writes at most two files per remaining centre, exactly two when every step completes. A step that ends it early is one of the remaining ones. |
| Executor.Measure | capture_data.py:371-473 | Every measurement begins with its preparation exchanges. A preparation error ends it as `PrepareFailed`. No file is written unless preparation, the output directory and the plan all succeed. |
| Executor.FirstUnfinished | capture_data.py:447-471 | Returns the first step from k on that does not both tune cleanly and record, or the sweep length if every step does. |
| Executor.SweepOutcome | capture_data.py:447-471 | The sweep ends as its first unfinished step decides, having written two files per successful step plus the header of a step whose recording failed. |
| Executor.SweepOutputs | capture_data.py:447-471 | The files written are, for each step in sweep order, its header and then its recording. |
| Executor.OutOfRangeStopsSweep | capture_data.py:451-456 | If step n is out of range, every earlier step completed, header first, and nothing is written for step n or later. |
| Executor.SweepCompletes | capture_data.py:446-473 | A sweep completes exactly when every step succeeds, and then it writes two files per centre. |
| Executor.OutputDir | capture_data.py:387 | The output directory is the output path, `/`, the run stamp and a trailing `/`. The stamp is the last directory of it when it has no slash. |
| Executor.StemText | capture_data.py:461-465 | A step's stem text lies inside its output directory, and its last path component is the scan name when the tag and label hold no slash. |
| Executor.HeaderFile | capture_data.py:467 | The header file name ends in `.rfi`. The intended scan id read back from it is the step's scan name. |
| Executor.HeaderContent | capture_data.py:468-469 | The header written for a step gives every configured field its last configured value. Otherwise its intended scan id is the step's scan name. |
| Executor.Request | capture_data.py:466-471 | A recording request has the mode of its channel count, its call's sizes and level, and the monitor's warm-up count. It writes to the stem text plus `.npy`, never the same stem's header file. |
| Executor.StepFilesShareStem | capture_data.py:461-467 | A step's header and data file names are its stem plus `.rfi` and plus `.npy`. |
| Executor.MeasureAll | capture_data.py:475-481 | `run_all_measurements` yields one run per configured measurement. |
| Executor.MeasureAllRunsEach | capture_data.py:475-481 | Every measurement runs on its own bench, whatever happened to the measurements before it. |
| Executor.Executor.constructor | capture_data.py:330-340 | The executor gets a fresh analyser interface, passive in a dry run, with an empty trace. |
| Executor.Executor.Init | capture_data.py:342-345 | `init` sends the configured analyser commands, then makes one error check. |
| Executor.Executor.WriteHeader | capture_data.py:347-369 | `write_header` queries the analysis bandwidth once and returns the fixed header merged with the configured extra fields. |
| Executor.Executor.Tune | capture_data.py:452 | Tuning leaves the tuning exchanges on the trace and reports the bench's verdict for that frequency. |
| Executor.Executor.WriteStepHeader | capture_data.py:457-469 | The centre is read back, then the header is written for the read-back centre and the step's timestamp. |
| Executor.Executor.RunStep | capture_data.py:451-471 | One pass of the loop adds exactly the files and exchanges the sweep specification gives for that step. It says whether the loop goes on or how it ends. |
| Executor.Executor.RunSweep | capture_data.py:446-473 | The loop with its `break` produces exactly `Sweep(...)`, and the trace gains exactly the sweep's exchanges. |
| Executor.Executor.RunMeasurement | capture_data.py:371-473 | `run_measurement` produces exactly `Measure(...)`: preparation, the three queries, the plan and the sweep. The first exception ends it. |
| Executor.Executor.RunAllMeasurements | capture_data.py:475-481 | The runs are exactly `MeasureAll(...)`, and the trace is their exchanges one after the other. |

## Findings

| source | as written | input that shows it | evidently intended | confidence | as-written member | corrected member |
|---|---|---|---|---|---|---|
| capture_data.py:434-435 | `np.ceil` is applied before `.decompose()`, so the ceiling is taken in the configured time unit times Hz and the decomposed value is then truncated by `int()`. | `integrationTime: 500`, `integrationTimeUnits: ms`, actual resolution 1 Hz: ceil(500 ms Hz) is 500, decomposed 0.5, truncated to 0 spectra, and the actual integration time is 0 s. | The ceiling of the dimensionless product, ceil(0.5) = 1 spectrum. | not executed | Channelisation.NaccumulateAsWrittenFallsShort | Channelisation.AccumulationCoversIntegrationTime |
| capture_data.py:361 | The scan id strips every `.`, `r`, `f` and `i` from both ends of the base name, not the `.rfi` suffix. | Tag `fridge`, frequency label `1.5`, timestamp 7: base name `fridge_1.5_7.rfi` gives `dge_1.5_7`. | The base name without its `.rfi` extension, `fridge_1.5_7`. | not executed | Header.ScanIdAsWrittenLosesTagStart | Header.ScanIdOfHeaderFile |

The header model (`Header.HeaderFor`, `Executor.Executor.WriteHeader`) uses the
corrected `Header.ScanId`. The id as written is `Header.ScanIdAsWritten`.
`Header.ScanIdAsWrittenAgreesIff` states exactly when the two agree.

The plan (`Channelisation.Accumulation`, `Channelisation.PlanChannels`) takes
the integration time in seconds and takes the ceiling of the dimensionless
product. That is what lines 434-435 compute when `integrationTimeUnits` is `s`
(`Channelisation.NaccumulateAsWrittenInSeconds`). The count as written, for any
unit, is `Channelisation.NaccumulateAsWritten`.

## Left out

- The VISA transport: queries and writes are trace events. The replies are
  values on the `Bench`, and a reply that `float()` cannot parse is not modelled.
- The re-read of the analysis bandwidth inside `write_header`: it is taken to
  answer the same value as the query before the sweep.
- `check_error` verdicts: the bench carries precomputed verdicts
  (`prepareStatus`, `tuneStatus`), tied to the replies by `Executor.Answers`.
  This keeps `CheckErrorStatus` out of the sweep proofs.
- Subprocesses: `dada_db`, `rsspectrometer`, `mkrecv_rnt`, `syscmd_wrapper`, `taskset`
  and `CUDA_VISIBLE_DEVICES`. A recording is the `RecordRequest` it asks for, and
  whether it returns is the bench's `recordOk`. There is no teardown guarantee,
  as the code gives none.
- The `PipeHandler` thread, its stop event and `join`: the monitor processes the
  sequence of lines read before it was stopped.
- `RSSpectrometerStdoutHandler`, which only forwards log lines, and
  `Spectrometer.configure`, whose body is a docstring.
- File and OS effects: writing the receiver template, `json.dump`, `os.makedirs`
  and `os.chown`. The directory's success is the bench's `outputDirOk`; the
  header dictionary is returned rather than written. A header file that cannot
  be opened is not modelled.
- Time: `time.strftime` and `time.time()` are the bench's `runStamp` and per-step
  `clock`.
- Float formatting: the `{:0.05}` rendering of the centre in MHz is the bench's
  `frequencyLabel`. File names are kept as their parts (`Executor.FileStem`) and
  rendered by `Executor.HeaderFile` and `Executor.Request`.
- Floating point: exact reals replace floats, so rounding error in the
  accumulated sweep frequency and in the plan is not modelled. The loss warning's
  percentage text is reduced to `StatMonitor.LossFraction`.
- astropy units and `.decompose()`: values are unit-free Hz and seconds, and
  integration time is converted to milliseconds by multiplying by 1000. The
  configured units (`units`, `resolutionUnits`, `integrationTimeUnits`) are
  assumed already applied. For the integration time this hides the unit
  problem under "## Findings", which `Channelisation.NaccumulateAsWritten`
  models separately.
- Executor.Executor.WriteHeader: the header carries the corrected scan id
  `Header.ScanId`, not the id line 361 writes (`Header.ScanIdAsWritten`). The two
  agree exactly when the scan name does not start with `.`, `r`, `f` or `i`
  (`Header.ScanIdAsWrittenAgreesIff`).
- Header.HeaderFor: the same, as the header it builds is the one
  `Executor.Executor.WriteHeader` returns.
- Executor.HeaderContent: its contract states the corrected scan id, the step's
  scan name. Line 361 writes the over-stripped id, the scan name with its leading
  `.`, `r`, `f` and `i` characters dropped (`Header.ScanIdAsWrittenOfHeaderFile`).
  The two agree exactly when the scan name does not start with one of those
  characters (`Header.ScanIdAsWrittenAgreesIff`).
- Text.ParseInt: Python's `int()` also accepts `_` between digits and non-ASCII
  digits. It also strips the separators `\x1c`–`\x1f` and Unicode whitespace
  around the number, which `Text.Trim` keeps. All of these are rejected here.
- Header values: a `headerInformation` value from YAML can be a boolean, a list,
  a mapping or null. `Header.JsonValue` holds only numbers, integers and strings.
- YAML parsing, argparse, coloredlogs, `main` and the top-level cleanup, and
  `setup.py`: the configuration arrives as `Executor.Config` and
  `Executor.MeasurementConfig` values.
- Non-terminating and NaN inputs: `Executor.Usable` requires a positive analysis
  bandwidth and a non-zero sampling rate of every bench, including one whose
  measurement fails before these values are used. With a bandwidth of zero or
  less, `get_centre_frequencies` stops at once when `start + bandwidth > end` and
  never ends otherwise. A zero sampling rate makes the actual integration time
  0/0.
- Logging: the log messages themselves are not modelled.

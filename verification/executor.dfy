/**
 * The measurement driver `Executor`: `init`, `write_header`,
 * `run_measurement` and `run_all_measurements`.
 *
 * Everything the driver learns from outside (the analyser's replies, the
 * clock, the output directory's time stamp, whether the file system and the
 * recording chain cooperate) is gathered in a `Bench`, one per measurement.
 * A measurement is specified by the function `Measure`, which returns the
 * files it writes, the exchanges it has with the analyser and how it ends;
 * the methods of the `Executor` class are proved to do exactly that.
 */
module Executor {
  import opened Wrappers
  import Analyser
  import Channelisation
  import FrequencySweep
  import Header
  import Seqs
  import Spectrometer
  import Text

  /** One entry of `measurementParameters`, in Hz, seconds and Hz resolution. */
  datatype MeasurementConfig = MeasurementConfig(
    tag: string,                   // userTag
    scpiCommands: seq<string>,     // spectrumAnalyserScpi
    start: real,
    end: real,
    resolution: real,
    integrationTime: real,
    outputPath: string)

  /** The parts of the configuration file the driver reads. */
  datatype Config = Config(
    scpiCommands: seq<string>,           // spectrumAnalyser.scpiCommands, sent by `init`
    firstStageNchans: int,               // firstStageChanneliser.numChannels
    headerInformation: seq<Header.Field>)

  /** What the world answers during one measurement. */
  datatype Bench = Bench(
    prepareReply: string,            // error-queue reply after the measurement's commands
    prepareStatus: Analyser.ErrorStatus,       // what `check_error` makes of that reply
    samplingRate: real,              // `get_sampling_rate`
    analysisBandwidth: real,         // `get_analysis_bandwidth`, every time it is asked
    referenceLevel: real,            // `get_scaling`
    runStamp: string,                // `time.strftime("%Y%m%d-%H%M%S")`
    outputDirOk: bool,               // makedirs (or an existing directory) and chown succeed
    tuneReply: real -> string,       // error-queue reply after tuning to a frequency
    tuneStatus: real -> Analyser.ErrorStatus,  // what `check_error` makes of that reply
    readBack: real -> real,          // `get_centre_frequency` after tuning to a frequency
    frequencyLabel: real -> string,  // the `{:0.05}` rendering of a centre frequency in MHz
    clock: nat -> int,               // `int(time.time() * 1000)` at the k-th step
    recordOk: nat -> bool)           // the k-th `record` call returns normally

  /** Why a measurement was abandoned; `run_all_measurements` logs it and goes on. */
  datatype Failure =
    | PrepareFailed(status: Analyser.ErrorStatus)        // the measurement's commands left an error
    | OutputDirFailed                                    // makedirs or chown raised
    | PlanFailed(error: Channelisation.PlanError)        // no usable FFT length
    | TuneFailed(step: nat, status: Analyser.ErrorStatus) // tuning left an error other than -222
    | RecordFailed(step: nat)                            // the recording chain raised

  /** How a measurement ends. */
  datatype Outcome =
    | Completed
    | StoppedOutOfRange(step: nat)   // tuning gave -222: the rest of the range is skipped
    | Failed(failure: Failure)

  /**
   * The parts `filename_stem` is formatted from: the output directory, the
   * tag, the centre frequency label and the millisecond timestamp.
   */
  datatype FileStem = FileStem(outputDir: string, tag: string, freqLabel: string, timestamp: int)

  /**
   * `"{}/{}_{}_{}".format(...)` of a stem's parts: a path inside the output
   * directory whose last component is the scan name of the other parts.
   */
  function StemText(stem: FileStem): (text: string)
    ensures |text| > |stem.outputDir| + 1 && text[..|stem.outputDir| + 1] == stem.outputDir + "/"
    ensures Header.NoSlash(stem.tag) && Header.NoSlash(stem.freqLabel) ==>
      Text.AfterLast(text, '/') == Header.ScanName(stem.tag, stem.freqLabel, stem.timestamp)
  {
    Header.Stem(stem.outputDir, stem.tag, stem.freqLabel, stem.timestamp)
  }

  /**
   * The arguments of one `write_header(fname, cfreq, bw, total_nchans,
   * integration_time, timestamp, tag)` call; `fname` is the stem's text with
   * ".rfi" (see `HeaderFile`).
   */
  datatype HeaderCall = HeaderCall(
    stem: FileStem,
    centre: real,
    bandwidth: real,
    totalNchans: int,
    integrationTime: real,
    timestamp: int,
    tag: string)

  /**
   * `header_fname`: the file name `write_header` is given.  It ends in
   * `.rfi`, and the intended scan id read back from it is the step's scan name.
   */
  function HeaderFile(call: HeaderCall): (f: string)
    ensures |f| >= 4 && f[|f| - 4..] == ".rfi"
    ensures Header.NoSlash(call.stem.tag) && Header.NoSlash(call.stem.freqLabel) ==>
      Header.ScanId(f) == Header.ScanName(call.stem.tag, call.stem.freqLabel, call.stem.timestamp)
  {
    var f := Header.HeaderFileName(StemText(call.stem));
    assert Header.NoSlash(call.stem.tag) && Header.NoSlash(call.stem.freqLabel) ==>
      Header.ScanId(f) == Header.ScanName(call.stem.tag, call.stem.freqLabel, call.stem.timestamp) by {
      if Header.NoSlash(call.stem.tag) && Header.NoSlash(call.stem.freqLabel) {
        Header.ScanIdOfHeaderFile(call.stem.outputDir, call.stem.tag, call.stem.freqLabel, call.stem.timestamp);
      }
    }
    f
  }

  /**
   * The arguments of one `record(input_nchans, fft_length, naccumulate,
   * output_file, reference_level)` call; `output_file` is the stem's text
   * with ".npy" (see `Request`).
   */
  datatype RecordCall = RecordCall(
    inputNchans: int,
    fftLength: nat,
    naccumulate: int,
    stem: FileStem,
    referenceLevel: real)

  /**
   * What such a call asks of the recording chain: the receiver mode of its
   * channel count, its sizes and level, and the stem's text with `.npy`,
   * which is never the header file of the same stem.
   */
  function Request(call: RecordCall): (r: Spectrometer.RecordRequest)
    ensures r.mode == Spectrometer.Passthrough <==> call.inputNchans == 1
    ensures r.inputNchans == call.inputNchans && r.fftLength == call.fftLength
    ensures r.naccumulate == call.naccumulate && r.referenceLevel == call.referenceLevel
    ensures r.nskip == Spectrometer.MonitorSkip
    ensures |r.outputFile| >= 4 && r.outputFile[|r.outputFile| - 4..] == ".npy"
    ensures r.outputFile[..|r.outputFile| - 4] == StemText(call.stem)
    ensures r.outputFile != Header.HeaderFileName(StemText(call.stem))
  {
    var file := Header.DataFileName(StemText(call.stem));
    Header.FileNamesShareStem(StemText(call.stem), StemText(call.stem));
    Spectrometer.Record(call.inputNchans, call.fftLength, call.naccumulate, file, call.referenceLevel)
  }

  /** A file the measurement writes: a header, or a recording through the spectrometer. */
  datatype Output =
    | HeaderWritten(call: HeaderCall)
    | Recorded(record: RecordCall)

  /**
   * The dictionary `write_header` dumps for a call, given the analysis
   * bandwidth it reads back and the configured extra fields.
   */
  function HeaderContent(call: HeaderCall, analysisBandwidth: real, extra: seq<Header.Field>): (h: Header.Dict)
    ensures forall key :: Header.LastValue(extra, key).Some? ==> Header.Get(h, key) == Header.LastValue(extra, key)
    ensures (Header.NoSlash(call.stem.tag) && Header.NoSlash(call.stem.freqLabel) &&
             Header.LastValue(extra, Header.ScanIdKey).None?) ==>
      Header.Get(h, Header.ScanIdKey) ==
        Some(Header.JString(Header.ScanName(call.stem.tag, call.stem.freqLabel, call.stem.timestamp)))
  {
    Header.HeaderFor(HeaderFile(call), call.centre, call.bandwidth, analysisBandwidth, call.totalNchans,
                     call.integrationTime, call.timestamp, call.tag, extra)
  }

  /** The files written, the exchanges with the analyser, and the outcome. */
  datatype Run = Run(outputs: seq<Output>, exchanges: seq<Analyser.Event>, outcome: Outcome)

  /** A run preceded by some outputs and exchanges. */
  function Prepend(outputs: seq<Output>, exchanges: seq<Analyser.Event>, r: Run): (p: Run)
    ensures p.outcome == r.outcome
    ensures p.outputs == outputs + r.outputs && p.exchanges == exchanges + r.exchanges
  {
    Run(outputs + r.outputs, exchanges + r.exchanges, r.outcome)
  }

  /** What the sweep loop of `run_measurement` works with, fixed before it starts. */
  datatype Setup = Setup(
    passive: bool,
    tag: string,
    outputDir: string,
    samplingRate: real,
    analysisBandwidth: real,
    referenceLevel: real,
    firstStageNchans: int,
    plan: Channelisation.ChannelPlan)

  /**
   * `"/".join((output_path, strftime("%Y%m%d-%H%M%S/")))`: the run stamp is
   * a directory below the output path, and the result ends with a slash.
   */
  function OutputDir(outputPath: string, runStamp: string): (d: string)
    ensures |d| == |outputPath| + |runStamp| + 2 && d[..|outputPath| + 1] == outputPath + "/"
    ensures d[|outputPath| + 1..|d| - 1] == runStamp && d[|d| - 1] == '/'
    ensures '/' !in runStamp ==> Text.AfterLast(d[..|d| - 1], '/') == runStamp
  {
    var d := outputPath + "/" + runStamp + "/";
    assert d[..|d| - 1] == outputPath + ['/'] + runStamp;
    assert '/' !in runStamp ==> Text.AfterLast(d[..|d| - 1], '/') == runStamp by {
      if '/' !in runStamp {
        Text.AfterLastOfJoin(outputPath, '/', runStamp);
      }
    }
    d
  }

  /** The file stem of a step whose centre reads back as `actual`, taken at `timestamp`. */
  function StepStem(s: Setup, b: Bench, actual: real, timestamp: int): FileStem
  {
    FileStem(s.outputDir, s.tag, b.frequencyLabel(actual), timestamp)
  }

  /** The `write_header` call of such a step. */
  function HeaderOutput(s: Setup, b: Bench, actual: real, timestamp: int): Output
  {
    HeaderWritten(HeaderCall(StepStem(s, b, actual, timestamp), actual, s.samplingRate,
                             s.plan.totalNchans, s.plan.actualIntegrationTime, timestamp, s.tag))
  }

  /** The recording such a step asks for. */
  function RecordOutput(s: Setup, b: Bench, actual: real, timestamp: int): Output
  {
    Recorded(RecordCall(s.firstStageNchans, s.plan.fftLength, s.plan.naccumulate,
                        StepStem(s, b, actual, timestamp), s.referenceLevel))
  }

  /** `set_centre_frequency`: the tuning write (not in passive mode) and the error query. */
  function TuneExchanges(passive: bool, f: real): seq<Analyser.Event>
  {
    (if passive then [] else [Analyser.Write(Analyser.SetCentre(f))]) + [Analyser.ErrorQuery]
  }

  /** The exchanges of a step whose tuning succeeds: read back the centre, re-read the bandwidth. */
  function StepExchanges(passive: bool, f: real): seq<Analyser.Event>
  {
    TuneExchanges(passive, f) + [Analyser.Asked(Analyser.CentreFrequency), Analyser.Asked(Analyser.AnalysisBandwidth)]
  }

  /**
   * The loop over the centre frequencies, from the k-th on: at most two
   * files per remaining centre, exactly two when every step completes, and
   * a step that ends the loop early is one of the remaining ones.
   */
  function Sweep(s: Setup, b: Bench, freqs: seq<real>, k: nat): (r: Run)
    ensures k <= |freqs| ==> |r.outputs| <= 2 * (|freqs| - k)
    ensures r.outcome == Completed ==> |r.outputs| == 2 * (if k < |freqs| then |freqs| - k else 0)
    ensures r.outcome.StoppedOutOfRange? ==> k <= r.outcome.step < |freqs|
    ensures r.outcome.Failed? && (r.outcome.failure.TuneFailed? || r.outcome.failure.RecordFailed?) ==>
      k <= r.outcome.failure.step < |freqs|
    decreases |freqs| - k
  {
    if k >= |freqs| then Run([], [], Completed)
    else
      var f := freqs[k];
      match b.tuneStatus(f)
      case DataOutOfRange => Run([], TuneExchanges(s.passive, f), StoppedOutOfRange(k))
      case AnalyserFault(reply) => Run([], TuneExchanges(s.passive, f), Failed(TuneFailed(k, Analyser.AnalyserFault(reply))))
      case Unparsable(reply) => Run([], TuneExchanges(s.passive, f), Failed(TuneFailed(k, Analyser.Unparsable(reply))))
      case NoError =>
        var header := HeaderOutput(s, b, b.readBack(f), b.clock(k));
        if !b.recordOk(k) then Run([header], StepExchanges(s.passive, f), Failed(RecordFailed(k)))
        else Prepend([header, RecordOutput(s, b, b.readBack(f), b.clock(k))], StepExchanges(s.passive, f),
                     Sweep(s, b, freqs, k + 1))
  }

  /** The status `set_centre_frequency` reports at the j-th step. */
  function TuneStatus(b: Bench, freqs: seq<real>, j: nat): Analyser.ErrorStatus
    requires j < |freqs|
  {
    b.tuneStatus(freqs[j])
  }

  /** The j-th step tunes without error and its recording returns. */
  predicate StepSucceeds(b: Bench, freqs: seq<real>, j: nat)
    requires j < |freqs|
  {
    TuneStatus(b, freqs, j) == Analyser.NoError && b.recordOk(j)
  }

  /** The first step from the k-th on that does not succeed, or `|freqs|` if there is none. */
  function FirstUnfinished(b: Bench, freqs: seq<real>, k: nat): (n: nat)
    requires k <= |freqs|
    ensures k <= n <= |freqs|
    ensures forall j :: k <= j < n ==> StepSucceeds(b, freqs, j)
    ensures n < |freqs| ==> !StepSucceeds(b, freqs, n)
    decreases |freqs| - k
  {
    if k == |freqs| || !StepSucceeds(b, freqs, k) then k else FirstUnfinished(b, freqs, k + 1)
  }

  /** How a sweep whose first unfinished step is n ends. */
  function Ending(b: Bench, freqs: seq<real>, n: nat): Outcome
    requires n <= |freqs|
  {
    if n == |freqs| then Completed
    else match TuneStatus(b, freqs, n)
      case DataOutOfRange => StoppedOutOfRange(n)
      case NoError => Failed(RecordFailed(n))
      case AnalyserFault(reply) => Failed(TuneFailed(n, Analyser.AnalyserFault(reply)))
      case Unparsable(reply) => Failed(TuneFailed(n, Analyser.Unparsable(reply)))
  }

  /** How many files a sweep whose first unfinished step is n writes, counted from step 0. */
  function FilesWritten(b: Bench, freqs: seq<real>, n: nat): nat
    requires n <= |freqs|
  {
    2 * n + if n < |freqs| && TuneStatus(b, freqs, n) == Analyser.NoError then 1 else 0
  }

  /** The sweep past the last centre writes nothing and completes. */
  lemma SweepEnd(s: Setup, b: Bench, freqs: seq<real>, k: nat)
    requires k == |freqs|
    ensures Sweep(s, b, freqs, k) == Prepend([], [], Run([], [], Completed))
  {
  }

  /** A sweep past the last centre. */
  lemma SweepDone(s: Setup, b: Bench, freqs: seq<real>, k: nat)
    requires k == |freqs|
    ensures Sweep(s, b, freqs, k).outcome == Ending(b, freqs, FirstUnfinished(b, freqs, k))
    ensures |Sweep(s, b, freqs, k).outputs| + 2 * k == FilesWritten(b, freqs, FirstUnfinished(b, freqs, k))
  {
  }

  /** A sweep starting at a step that does not succeed. */
  lemma SweepHalts(s: Setup, b: Bench, freqs: seq<real>, k: nat)
    requires k < |freqs| && !StepSucceeds(b, freqs, k)
    ensures Sweep(s, b, freqs, k).outcome == Ending(b, freqs, k)
    ensures |Sweep(s, b, freqs, k).outputs| + 2 * k == FilesWritten(b, freqs, k)
  {
    SweepStep(s, b, freqs, k);
  }

  /** A step that succeeds writes two files and leaves the rest of the sweep to the next step. */
  lemma SweepAdvances(s: Setup, b: Bench, freqs: seq<real>, k: nat)
    requires k < |freqs| && StepSucceeds(b, freqs, k)
    ensures Sweep(s, b, freqs, k).outcome == Sweep(s, b, freqs, k + 1).outcome
    ensures |Sweep(s, b, freqs, k).outputs| == 2 + |Sweep(s, b, freqs, k + 1).outputs|
    ensures FirstUnfinished(b, freqs, k) == FirstUnfinished(b, freqs, k + 1)
  {
    SweepStep(s, b, freqs, k);
  }

  /**
   * The sweep from the k-th step ends as its first unfinished step decides,
   * having written two files per step that succeeded, plus the header of a
   * step whose recording failed.
   */
  lemma {:induction false} SweepOutcome(s: Setup, b: Bench, freqs: seq<real>, k: nat)
    requires k <= |freqs|
    ensures Sweep(s, b, freqs, k).outcome == Ending(b, freqs, FirstUnfinished(b, freqs, k))
    ensures |Sweep(s, b, freqs, k).outputs| + 2 * k == FilesWritten(b, freqs, FirstUnfinished(b, freqs, k))
    decreases |freqs| - k
  {
    if k < |freqs| {
      if StepSucceeds(b, freqs, k) {
        SweepAdvances(s, b, freqs, k);
        SweepOutcome(s, b, freqs, k + 1);
      } else {
        SweepHalts(s, b, freqs, k);
      }
    } else {
      SweepDone(s, b, freqs, k);
    }
  }

  /** The i-th file of the sweep from the k-th step: the header, then the recording, of step k + i/2. */
  function StepOutput(s: Setup, b: Bench, freqs: seq<real>, k: nat, i: nat): Output
    requires k + i / 2 < |freqs|
  {
    var f := freqs[k + i / 2];
    if i % 2 == 0 then HeaderOutput(s, b, b.readBack(f), b.clock(k + i / 2))
    else RecordOutput(s, b, b.readBack(f), b.clock(k + i / 2))
  }

  /** The files of the sweep's first step. */
  lemma SweepOutputsHead(s: Setup, b: Bench, freqs: seq<real>, k: nat)
    requires k < |freqs|
    ensures StepSucceeds(b, freqs, k) ==>
      Sweep(s, b, freqs, k).outputs == [StepOutput(s, b, freqs, k, 0), StepOutput(s, b, freqs, k, 1)] + Sweep(s, b, freqs, k + 1).outputs
    ensures !StepSucceeds(b, freqs, k) ==>
      Sweep(s, b, freqs, k).outputs == [] || Sweep(s, b, freqs, k).outputs == [StepOutput(s, b, freqs, k, 0)]
  {
    SweepStep(s, b, freqs, k);
  }

  /** The i-th file from step k is the (i-2)-th file from step k + 1. */
  lemma StepOutputShift(s: Setup, b: Bench, freqs: seq<real>, k: nat, i: nat)
    requires 2 <= i && k + 1 + (i - 2) / 2 < |freqs|
    ensures k + i / 2 < |freqs| && StepOutput(s, b, freqs, k + 1, i - 2) == StepOutput(s, b, freqs, k, i)
  {
    assert (i - 2) / 2 == i / 2 - 1 && (i - 2) % 2 == i % 2;
  }

  /** `outputs` are the files of consecutive steps from the k-th on, each header before its recording. */
  predicate FilesFrom(s: Setup, b: Bench, freqs: seq<real>, k: nat, outputs: seq<Output>)
  {
    forall i :: 0 <= i < |outputs| ==> k + i / 2 < |freqs| && outputs[i] == StepOutput(s, b, freqs, k, i)
  }

  /** The two files of step k in front of the files of the steps after it. */
  lemma FilesFromCons(s: Setup, b: Bench, freqs: seq<real>, k: nat, rest: seq<Output>)
    requires k < |freqs| && FilesFrom(s, b, freqs, k + 1, rest)
    ensures FilesFrom(s, b, freqs, k, [StepOutput(s, b, freqs, k, 0), StepOutput(s, b, freqs, k, 1)] + rest)
  {
    var outputs := [StepOutput(s, b, freqs, k, 0), StepOutput(s, b, freqs, k, 1)] + rest;
    forall i | 0 <= i < |outputs|
      ensures k + i / 2 < |freqs| && outputs[i] == StepOutput(s, b, freqs, k, i)
    {
      ConsFileAt(s, b, freqs, k, rest, i);
    }
  }

  lemma ConsFileAt(s: Setup, b: Bench, freqs: seq<real>, k: nat, rest: seq<Output>, i: nat)
    requires k < |freqs| && FilesFrom(s, b, freqs, k + 1, rest) && i < |rest| + 2
    ensures k + i / 2 < |freqs|
    ensures ([StepOutput(s, b, freqs, k, 0), StepOutput(s, b, freqs, k, 1)] + rest)[i] == StepOutput(s, b, freqs, k, i)
  {
    if i >= 2 {
      assert ([StepOutput(s, b, freqs, k, 0), StepOutput(s, b, freqs, k, 1)] + rest)[i] == rest[i - 2];
      StepOutputShift(s, b, freqs, k, i);
    }
  }

  /** Each step's header is written before its recording is asked for, steps in sweep order. */
  lemma {:induction false} SweepOutputs(s: Setup, b: Bench, freqs: seq<real>, k: nat)
    requires k <= |freqs|
    ensures FilesFrom(s, b, freqs, k, Sweep(s, b, freqs, k).outputs)
    decreases |freqs| - k
  {
    if k < |freqs| {
      SweepOutputsHead(s, b, freqs, k);
      if StepSucceeds(b, freqs, k) {
        SweepOutputs(s, b, freqs, k + 1);
        FilesFromCons(s, b, freqs, k, Sweep(s, b, freqs, k + 1).outputs);
      }
    } else {
      SweepDone(s, b, freqs, k);
    }
  }

  /**
   * A sweep that meets a frequency out of range at step n has completed
   * every step before n, header first, and writes nothing for step n or
   * any later one.
   */
  lemma OutOfRangeStopsSweep(s: Setup, b: Bench, freqs: seq<real>, n: nat)
    requires Sweep(s, b, freqs, 0).outcome == StoppedOutOfRange(n)
    ensures n < |freqs| && TuneStatus(b, freqs, n) == Analyser.DataOutOfRange
    ensures forall j :: 0 <= j < n ==> StepSucceeds(b, freqs, j)
    ensures |Sweep(s, b, freqs, 0).outputs| == 2 * n
    ensures forall i :: 0 <= i < |Sweep(s, b, freqs, 0).outputs| ==>
      i / 2 < n && Sweep(s, b, freqs, 0).outputs[i] == StepOutput(s, b, freqs, 0, i)
  {
    SweepOutcome(s, b, freqs, 0);
    SweepOutputs(s, b, freqs, 0);
  }

  /** A sweep completes exactly when every step succeeds, and then writes two files per centre. */
  lemma SweepCompletes(s: Setup, b: Bench, freqs: seq<real>)
    ensures Sweep(s, b, freqs, 0).outcome == Completed <==>
      forall j :: 0 <= j < |freqs| ==> StepSucceeds(b, freqs, j)
    ensures Sweep(s, b, freqs, 0).outcome == Completed ==> |Sweep(s, b, freqs, 0).outputs| == 2 * |freqs|
  {
    SweepOutcome(s, b, freqs, 0);
  }

  /** The header and the data file of a step share their stem and differ in the extension. */
  lemma StepFilesShareStem(s: Setup, b: Bench, actual: real, timestamp: int)
    ensures var h := HeaderFile(HeaderOutput(s, b, actual, timestamp).call);
      var d := Request(RecordOutput(s, b, actual, timestamp).record).outputFile;
      && |h| == |d| >= 4
      && h[..|h| - 4] == d[..|d| - 4] == StemText(StepStem(s, b, actual, timestamp))
      && h[|h| - 4..] == ".rfi" && d[|d| - 4..] == ".npy"
  {
  }

  /** The exchanges before the plan: the measurement's commands, the error check, three queries. */
  function PrepareExchanges(m: MeasurementConfig, passive: bool): seq<Analyser.Event>
  {
    Analyser.Writes(m.scpiCommands, passive) + [Analyser.ErrorQuery]
  }

  function QueryExchanges(): seq<Analyser.Event>
  {
    [Analyser.Asked(Analyser.SamplingRate), Analyser.Asked(Analyser.AnalysisBandwidth), Analyser.Asked(Analyser.Scaling)]
  }

  /**
   * A bench the model admits: a positive analysis bandwidth, without which
   * the sweep loop never ends unless its first band already reaches past the
   * end, and a non-zero sampling rate, without which the actual integration
   * time is 0/0.  It is asked of every bench, including those whose
   * measurement fails before the sweep.
   */
  predicate Usable(b: Bench)
  {
    b.samplingRate != 0.0 && b.analysisBandwidth > 0.0
  }

  /** The bench's tuning verdicts are `check_error`'s classification of its replies. */
  ghost predicate TuneAnswers(b: Bench)
  {
    forall f {:trigger b.tuneReply(f)} :: b.tuneStatus(f) == Analyser.CheckErrorStatus(b.tuneReply(f))
  }

  /** The bench's verdicts are `check_error`'s classification of its replies. */
  ghost predicate Answers(b: Bench)
  {
    b.prepareStatus == Analyser.CheckErrorStatus(b.prepareReply) && TuneAnswers(b)
  }

  /** `run_measurement`, with its exception, if any, as the outcome. */
  function Measure(config: Config, passive: bool, m: MeasurementConfig, b: Bench): (r: Run)
    requires Usable(b)
    ensures PrepareExchanges(m, passive) <= r.exchanges
    ensures b.prepareStatus != Analyser.NoError ==> r.outcome == Failed(PrepareFailed(b.prepareStatus))
    ensures r.outputs != [] ==>
      && b.prepareStatus == Analyser.NoError && b.outputDirOk
      && Channelisation.PlanChannels(b.samplingRate, config.firstStageNchans, m.resolution, m.integrationTime).Success?
  {
    if b.prepareStatus != Analyser.NoError then
      Run([], PrepareExchanges(m, passive), Failed(PrepareFailed(b.prepareStatus)))
    else
      var asked := PrepareExchanges(m, passive) + QueryExchanges();
      if !b.outputDirOk then Run([], asked, Failed(OutputDirFailed))
      else
        match Channelisation.PlanChannels(b.samplingRate, config.firstStageNchans, m.resolution, m.integrationTime)
        case Failure(e) => Run([], asked, Failed(PlanFailed(e)))
        case Success(plan) =>
          var s := Setup(passive, m.tag, OutputDir(m.outputPath, b.runStamp), b.samplingRate,
                         b.analysisBandwidth, b.referenceLevel, config.firstStageNchans, plan);
          Prepend([], asked, Sweep(s, b, FrequencySweep.Centres(m.start, m.end, b.analysisBandwidth), 0))
  }

  /** `run_all_measurements`: one run per measurement, each on its own bench. */
  function MeasureAll(config: Config, passive: bool, ms: seq<MeasurementConfig>, benches: seq<Bench>): (runs: seq<Run>)
    requires |benches| == |ms|
    requires forall i :: 0 <= i < |benches| ==> Usable(benches[i])
    ensures |runs| == |ms|
  {
    if ms == [] then []
    else MeasureAll(config, passive, ms[..|ms| - 1], benches[..|ms| - 1])
         + [Measure(config, passive, ms[|ms| - 1], benches[|ms| - 1])]
  }

  /**
   * Every measurement is run, on its own bench, whatever became of the ones
   * before it: an abandoned measurement does not stop the next.
   */
  lemma {:induction false} MeasureAllRunsEach(config: Config, passive: bool, ms: seq<MeasurementConfig>, benches: seq<Bench>)
    requires |benches| == |ms|
    requires forall i :: 0 <= i < |benches| ==> Usable(benches[i])
    ensures forall i :: 0 <= i < |ms| ==>
      MeasureAll(config, passive, ms, benches)[i] == Measure(config, passive, ms[i], benches[i])
  {
    if ms != [] {
      var n := |ms| - 1;
      MeasureAllRunsEach(config, passive, ms[..n], benches[..n]);
      forall i | 0 <= i < n
        ensures MeasureAll(config, passive, ms, benches)[i] == Measure(config, passive, ms[i], benches[i])
      {
        assert ms[..n][i] == ms[i] && benches[..n][i] == benches[i];
      }
    }
  }

  /** The exchanges of a series of runs, one after the other. */
  function AllExchanges(runs: seq<Run>): seq<Analyser.Event>
  {
    if runs == [] then [] else AllExchanges(runs[..|runs| - 1]) + runs[|runs| - 1].exchanges
  }

  lemma MeasureAllSnoc(config: Config, passive: bool, ms: seq<MeasurementConfig>, benches: seq<Bench>, i: nat)
    requires |benches| == |ms| && i < |ms|
    requires forall j :: 0 <= j < |benches| ==> Usable(benches[j])
    ensures MeasureAll(config, passive, ms[..i + 1], benches[..i + 1])
         == MeasureAll(config, passive, ms[..i], benches[..i]) + [Measure(config, passive, ms[i], benches[i])]
  {
    assert ms[..i + 1][..i] == ms[..i] && benches[..i + 1][..i] == benches[..i];
  }

  /** One more measurement run: its run and its exchanges are appended. */
  lemma MeasureAllStep(config: Config, passive: bool, ms: seq<MeasurementConfig>, benches: seq<Bench>, i: nat,
                       runs: seq<Run>, run: Run, t: seq<Analyser.Event>)
    requires |benches| == |ms| && i < |ms|
    requires forall j :: 0 <= j < |benches| ==> Usable(benches[j])
    requires runs == MeasureAll(config, passive, ms[..i], benches[..i])
    requires run == Measure(config, passive, ms[i], benches[i])
    ensures runs + [run] == MeasureAll(config, passive, ms[..i + 1], benches[..i + 1])
    ensures (t + AllExchanges(runs)) + run.exchanges == t + AllExchanges(runs + [run])
  {
    AllExchangesSnoc(runs, run);
    Seqs.AppendAssociates(t, AllExchanges(runs), run.exchanges);
    MeasureAllSnoc(config, passive, ms, benches, i);
  }

  lemma AllExchangesSnoc(runs: seq<Run>, run: Run)
    ensures AllExchanges(runs + [run]) == AllExchanges(runs) + run.exchanges
  {
    assert (runs + [run])[..|runs|] == runs;
  }

  /** The trace `set_centre_frequency` leaves. */
  lemma TuneTrace(t: seq<Analyser.Event>, passive: bool, f: real)
    ensures t + (if passive then [] else [Analyser.Write(Analyser.SetCentre(f))]) + [Analyser.ErrorQuery]
         == t + TuneExchanges(passive, f)
  {
    Seqs.AppendAssociates(t, if passive then [] else [Analyser.Write(Analyser.SetCentre(f))], [Analyser.ErrorQuery]);
  }

  /** The trace of the three queries after the measurement's commands. */
  lemma QueryTrace(t: seq<Analyser.Event>, prepared: seq<Analyser.Event>)
    ensures t + prepared + [Analyser.Asked(Analyser.SamplingRate)] + [Analyser.Asked(Analyser.AnalysisBandwidth)]
              + [Analyser.Asked(Analyser.Scaling)]
         == t + (prepared + QueryExchanges())
  {
  }

  /** A run that stops after some more outputs and exchanges. */
  lemma PrependStop(outputs: seq<Output>, exchanges: seq<Analyser.Event>, more: seq<Output>,
                    moreExchanges: seq<Analyser.Event>, outcome: Outcome)
    ensures Prepend(outputs, exchanges, Prepend(more, moreExchanges, Run([], [], outcome)))
         == Run(outputs + more, exchanges + moreExchanges, outcome)
  {
    assert more + [] == more && moreExchanges + [] == moreExchanges;
    assert outputs + [] == outputs && exchanges + [] == exchanges;
  }

  /** Appending the exchanges of a successful step to a trace. */
  lemma StepTrace(t: seq<Analyser.Event>, exchanges: seq<Analyser.Event>, tune: seq<Analyser.Event>)
    ensures t + exchanges + tune + [Analyser.Asked(Analyser.CentreFrequency)] + [Analyser.Asked(Analyser.AnalysisBandwidth)]
         == t + (exchanges + (tune + [Analyser.Asked(Analyser.CentreFrequency), Analyser.Asked(Analyser.AnalysisBandwidth)]))
  {
  }

  lemma PrependTwice(outputs: seq<Output>, exchanges: seq<Analyser.Event>, more: seq<Output>,
                     moreExchanges: seq<Analyser.Event>, r: Run)
    ensures Prepend(outputs, exchanges, Prepend(more, moreExchanges, r))
         == Prepend(outputs + more, exchanges + moreExchanges, r)
  {
    Seqs.AppendAssociates(outputs, more, r.outputs);
    Seqs.AppendAssociates(exchanges, moreExchanges, r.exchanges);
  }

  /** One unfolding of `Sweep` at a step that exists. */
  lemma SweepStep(s: Setup, b: Bench, freqs: seq<real>, k: nat)
    requires k < |freqs|
    ensures var f := freqs[k];
      var status := b.tuneStatus(f);
      && (status == Analyser.DataOutOfRange ==>
            Sweep(s, b, freqs, k) == Prepend([], TuneExchanges(s.passive, f), Run([], [], StoppedOutOfRange(k))))
      && (status.AnalyserFault? || status.Unparsable? ==>
            Sweep(s, b, freqs, k) == Prepend([], TuneExchanges(s.passive, f), Run([], [], Failed(TuneFailed(k, status)))))
      && (status == Analyser.NoError && !b.recordOk(k) ==>
            Sweep(s, b, freqs, k) == Prepend([HeaderOutput(s, b, b.readBack(f), b.clock(k))], StepExchanges(s.passive, f),
                                             Run([], [], Failed(RecordFailed(k)))))
      && (status == Analyser.NoError && b.recordOk(k) ==>
            Sweep(s, b, freqs, k) == Prepend([HeaderOutput(s, b, b.readBack(f), b.clock(k)), RecordOutput(s, b, b.readBack(f), b.clock(k))],
                                             StepExchanges(s.passive, f), Sweep(s, b, freqs, k + 1)))
  {
    assert forall o: seq<Output> :: o + [] == o;
    assert forall x: seq<Analyser.Event> :: x + [] == x;
  }

  class Executor {
    const config: Config
    const iface: Analyser.SpectrumAnalyserInterface

    /** `Executor(config, dry_run)`: a fresh analyser interface, passive in a dry run. */
    constructor (config: Config, dryRun: bool)
      ensures this.config == config
      ensures fresh(iface) && iface.passive == dryRun && iface.trace == []
    {
      this.config := config;
      iface := new Analyser.SpectrumAnalyserInterface(dryRun);
    }

    /** `init`: the configuration's analyser commands, then one error check. */
    method Init(reply: string) returns (status: Analyser.ErrorStatus)
      modifies iface
      ensures iface.trace == old(iface.trace) + Analyser.Writes(config.scpiCommands, iface.passive) + [Analyser.ErrorQuery]
      ensures status == Analyser.CheckErrorStatus(reply)
    {
      status := iface.SendCommands(config.scpiCommands, reply);
    }

    /**
     * `write_header`: re-reads the analysis bandwidth (`answer` is the
     * analyser's reply), fills in the fixed fields and merges the configured
     * extra ones.  The dictionary returned is what is dumped to `HeaderFile(call)`.
     */
    method WriteHeader(call: HeaderCall, answer: real) returns (header: Header.Dict)
      modifies iface
      ensures iface.trace == old(iface.trace) + [Analyser.Asked(Analyser.AnalysisBandwidth)]
      ensures header == HeaderContent(call, answer, config.headerInformation)
    {
      var abw := iface.Get(Analyser.AnalysisBandwidth, answer);
      var fixed := Header.Overlay([], Header.FixedEntries(Header.ScanId(HeaderFile(call)), call.centre, call.bandwidth, abw,
                                                          call.totalNchans, call.integrationTime,
                                                          call.timestamp, call.tag));
      header := Header.MergeExtraFields(fixed, config.headerInformation);
    }

    /** `set_centre_frequency` at one centre of the sweep, with the verdict the bench gives. */
    method Tune(b: Bench, f: real) returns (status: Analyser.ErrorStatus)
      requires TuneAnswers(b)
      modifies iface
      ensures status == b.tuneStatus(f)
      ensures iface.trace == old(iface.trace) + TuneExchanges(iface.passive, f)
    {
      status := iface.SetCentreFrequency(f, b.tuneReply(f));
      TuneTrace(old(iface.trace), iface.passive, f);
    }

    /**
     * The body of the `for frequency in frequencies` loop at the k-th centre:
     * tune, read the centre back, write the header, record.  It returns the
     * files and exchanges of the step and, unless the loop goes on, how it
     * ends: a frequency out of range ends the loop, any other error ends the
     * measurement.
     */
    method RunStep(s: Setup, b: Bench, freqs: seq<real>, k: nat)
      returns (more: seq<Output>, moreExchanges: seq<Analyser.Event>, stop: Option<Outcome>)
      requires k < |freqs| && s.passive == iface.passive && TuneAnswers(b)
      modifies iface
      ensures iface.trace == old(iface.trace) + moreExchanges
      ensures stop.None? ==> Sweep(s, b, freqs, k) == Prepend(more, moreExchanges, Sweep(s, b, freqs, k + 1))
      ensures stop.Some? ==> Sweep(s, b, freqs, k) == Prepend(more, moreExchanges, Run([], [], stop.value))
    {
      var f := freqs[k];
      ghost var before := iface.trace;
      var status := Tune(b, f);
      SweepStep(s, b, freqs, k);
      if status == Analyser.DataOutOfRange {
        return [], TuneExchanges(s.passive, f), Some(StoppedOutOfRange(k));
      }
      if status != Analyser.NoError {
        return [], TuneExchanges(s.passive, f), Some(Failed(TuneFailed(k, status)));
      }
      var header := WriteStepHeader(s, b, f, k);
      StepTrace(before, [], TuneExchanges(s.passive, f));
      moreExchanges := StepExchanges(s.passive, f);
      if !b.recordOk(k) {
        return [header], moreExchanges, Some(Failed(RecordFailed(k)));
      }
      more := [header, RecordOutput(s, b, b.readBack(f), b.clock(k))];
      stop := None;
    }

    /**
     * Read back the centre the analyser settled on, stamp the step and write
     * its header file (the header's dictionary is not kept).
     */
    method WriteStepHeader(s: Setup, b: Bench, f: real, k: nat) returns (header: Output)
      modifies iface
      ensures header == HeaderOutput(s, b, b.readBack(f), b.clock(k))
      ensures iface.trace == old(iface.trace) + [Analyser.Asked(Analyser.CentreFrequency)]
                                              + [Analyser.Asked(Analyser.AnalysisBandwidth)]
    {
      var actual := iface.Get(Analyser.CentreFrequency, b.readBack(f));
      var timestamp := b.clock(k);
      var call := HeaderCall(StepStem(s, b, actual, timestamp), actual, s.samplingRate,
                             s.plan.totalNchans, s.plan.actualIntegrationTime, timestamp, s.tag);
      var content := WriteHeader(call, s.analysisBandwidth);
      header := HeaderWritten(call);
    }

    /** The `for frequency in frequencies` loop of `run_measurement`. */
    method RunSweep(s: Setup, b: Bench, freqs: seq<real>) returns (run: Run)
      requires s.passive == iface.passive && TuneAnswers(b)
      modifies iface
      ensures run == Sweep(s, b, freqs, 0)
      ensures iface.trace == old(iface.trace) + run.exchanges
    {
      var outputs: seq<Output> := [];
      var exchanges: seq<Analyser.Event> := [];
      var outcome := Completed;
      var k := 0;
      while k < |freqs|
        invariant 0 <= k <= |freqs|
        invariant iface.trace == old(iface.trace) + exchanges
        invariant Sweep(s, b, freqs, 0) == Prepend(outputs, exchanges, Sweep(s, b, freqs, k))
      {
        var more, moreExchanges, stop := RunStep(s, b, freqs, k);
        Seqs.AppendAssociates(old(iface.trace), exchanges, moreExchanges);
        if stop == Some(StoppedOutOfRange(k)) {
          PrependStop(outputs, exchanges, more, moreExchanges, stop.value);
          outputs, exchanges, outcome := outputs + more, exchanges + moreExchanges, stop.value;
          break;
        }
        if stop.Some? {
          PrependStop(outputs, exchanges, more, moreExchanges, stop.value);
          return Run(outputs + more, exchanges + moreExchanges, stop.value);
        }
        PrependTwice(outputs, exchanges, more, moreExchanges, Sweep(s, b, freqs, k + 1));
        outputs, exchanges := outputs + more, exchanges + moreExchanges;
        k := k + 1;
      }
      if outcome == Completed {
        SweepEnd(s, b, freqs, k);
        PrependStop(outputs, exchanges, [], [], Completed);
      }
      run := Run(outputs, exchanges, outcome);
    }

    /** `run_measurement`: prepare the analyser, plan the channels, sweep the band. */
    method RunMeasurement(m: MeasurementConfig, b: Bench) returns (run: Run)
      requires Usable(b) && Answers(b)
      modifies iface
      ensures run == Measure(config, iface.passive, m, b)
      ensures iface.trace == old(iface.trace) + run.exchanges
    {
      var status := iface.SendCommands(m.scpiCommands, b.prepareReply);
      Seqs.AppendAssociates(old(iface.trace), Analyser.Writes(m.scpiCommands, iface.passive), [Analyser.ErrorQuery]);
      if status != Analyser.NoError {
        return Run([], PrepareExchanges(m, iface.passive), Failed(PrepareFailed(status)));
      }
      var samplingRate := iface.Get(Analyser.SamplingRate, b.samplingRate);
      var analysisBandwidth := iface.Get(Analyser.AnalysisBandwidth, b.analysisBandwidth);
      var referenceLevel := iface.Get(Analyser.Scaling, b.referenceLevel);
      var asked := PrepareExchanges(m, iface.passive) + QueryExchanges();
      QueryTrace(old(iface.trace), PrepareExchanges(m, iface.passive));
      var outputDir := OutputDir(m.outputPath, b.runStamp);
      if !b.outputDirOk {
        return Run([], asked, Failed(OutputDirFailed));
      }
      var plan := Channelisation.PlanChannels(samplingRate, config.firstStageNchans, m.resolution, m.integrationTime);
      if plan.Failure? {
        return Run([], asked, Failed(PlanFailed(plan.error)));
      }
      var frequencies := FrequencySweep.CentreFrequencies(m.start, m.end, analysisBandwidth);
      var s := Setup(iface.passive, m.tag, outputDir, samplingRate, analysisBandwidth, referenceLevel,
                     config.firstStageNchans, plan.value);
      var sweep := RunSweep(s, b, frequencies);
      run := Prepend([], asked, sweep);
      Seqs.AppendAssociates(old(iface.trace), asked, sweep.exchanges);
    }

    /**
     * `run_all_measurements`: the measurements one after the other, each
     * abandoned measurement logged and skipped.
     */
    method RunAllMeasurements(ms: seq<MeasurementConfig>, benches: seq<Bench>) returns (runs: seq<Run>)
      requires |benches| == |ms|
      requires forall i :: 0 <= i < |benches| ==> Usable(benches[i]) && Answers(benches[i])
      modifies iface
      ensures runs == MeasureAll(config, iface.passive, ms, benches)
      ensures iface.trace == old(iface.trace) + AllExchanges(runs)
    {
      runs := [];
      for i := 0 to |ms|
        invariant runs == MeasureAll(config, iface.passive, ms[..i], benches[..i])
        invariant iface.trace == old(iface.trace) + AllExchanges(runs)
      {
        var run := RunMeasurement(ms[i], benches[i]);
        MeasureAllStep(config, iface.passive, ms, benches, i, runs, run, old(iface.trace));
        runs := runs + [run];
      }
      Seqs.TakeAll(ms);
      Seqs.TakeAll(benches);
    }
  }
}

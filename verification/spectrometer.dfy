/**
 * The recording step `Spectrometer.record`, as far as it decides anything:
 * which receiver template it writes, and the warm-up count it hands to the
 * spectrometer and to the status monitor.  The processes it launches are
 * not modelled; a recording is described by the request it makes.
 */
module Spectrometer {
  import StatMonitor
  import Text

  /** The FPGA mode the receiver template assumes. */
  datatype ReceiverMode = Passthrough | Pfb

  /** `Spectrometer._nskip`: status reports discarded while the capture settles. */
  const MonitorSkip: int := 4

  /** The template `record` writes: passthrough for a single input channel, PFB otherwise. */
  function ReceiverModeFor(inputNchans: int): (mode: ReceiverMode)
    ensures mode == Passthrough <==> inputNchans == 1
    ensures mode == Pfb <==> inputNchans != 1
  {
    if inputNchans == 1 then Passthrough else Pfb
  }

  /** What one call of `record` asks of the recording chain. */
  datatype RecordRequest = RecordRequest(
    mode: ReceiverMode,
    inputNchans: int,
    fftLength: nat,
    naccumulate: int,
    outputFile: string,
    referenceLevel: real,
    nskip: int)

  /**
   * The request of `record(input_nchans, fft_length, naccumulate, output_file,
   * reference_level)`: the passthrough template exactly for one input channel,
   * the arguments handed on unchanged, and the same warm-up count for the
   * spectrometer and the monitor.
   */
  function Record(inputNchans: int, fftLength: nat, naccumulate: int, outputFile: string,
                  referenceLevel: real): (r: RecordRequest)
    ensures r.mode == Passthrough <==> inputNchans == 1
    ensures r.inputNchans == inputNchans && r.fftLength == fftLength && r.naccumulate == naccumulate
    ensures r.outputFile == outputFile && r.referenceLevel == referenceLevel
    ensures r.nskip == MonitorSkip
  {
    RecordRequest(ReceiverModeFor(inputNchans), inputNchans, fftLength, naccumulate, outputFile,
                  referenceLevel, MonitorSkip)
  }

  /**
   * With the monitor started at `MonitorSkip`, the first three status lines
   * of a recording are discarded and every later one is parsed; other lines
   * are ignored.
   */
  lemma WarmUpDiscardsThree(lines: seq<seq<Text.Byte>>, i: nat)
    requires i < |StatMonitor.Outcomes(MonitorSkip, lines)|
    ensures StatMonitor.IsStatLine(lines[i]) && StatMonitor.StatCount(lines[..i + 1]) <= 3 ==>
      StatMonitor.Outcomes(MonitorSkip, lines)[i] == StatMonitor.Skipped
    ensures StatMonitor.IsStatLine(lines[i]) && StatMonitor.StatCount(lines[..i + 1]) >= 4 ==>
      StatMonitor.Outcomes(MonitorSkip, lines)[i] == StatMonitor.Parsed(StatMonitor.ParseStatLine(lines[i]))
    ensures !StatMonitor.IsStatLine(lines[i]) ==> StatMonitor.Outcomes(MonitorSkip, lines)[i] == StatMonitor.NotStat
  {
    StatMonitor.OutcomeOfLine(MonitorSkip, lines, i);
  }
}

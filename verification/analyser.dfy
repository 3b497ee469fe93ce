/**
 * The spectrum analyser adapter `SpectrumAnalyserInterface`: the
 * classification of the reply to the error query `:SYST:ERR:ALL?`, and the
 * order of writes and queries that `send_command`, `send_commands`,
 * `check_error`, `set_centre_frequency` and the `get_*` queries put on the
 * instrument channel.  The channel itself is a trace of events; the
 * instrument's replies are parameters.
 */
module Analyser {
  import opened Wrappers
  import Text

  /** The instrument's code for "data out of range". */
  const OutOfRangeCode: int := -222

  /** What `check_error` does with a reply. */
  datatype ErrorStatus =
    | NoError                        // code 0: returns normally
    | DataOutOfRange                 // code -222: raises DataOutOfRangeException
    | AnalyserFault(reply: string)   // any other code: raises SpectrumAnalyserException
    | Unparsable(reply: string)      // no integer before the first comma: int() raises ValueError

  /** `int(msg.split(",")[0])`, or None where int() raises. */
  function ErrorCode(reply: string): (code: Option<int>)
    ensures ',' !in reply ==> code == Text.ParseInt(reply)
    ensures Text.Trim(Text.BeforeFirst(reply, ',')) == [] ==> code == None
  {
    Text.ParseInt(Text.BeforeFirst(reply, ','))
  }

  /** The classification of `check_error`. */
  function CheckErrorStatus(reply: string): (status: ErrorStatus)
    ensures status == NoError <==> ErrorCode(reply) == Some(0)
    ensures status == DataOutOfRange <==> ErrorCode(reply) == Some(OutOfRangeCode)
    ensures status.AnalyserFault? <==> ErrorCode(reply).Some? && ErrorCode(reply).value != 0 && ErrorCode(reply).value != OutOfRangeCode
    ensures status.AnalyserFault? ==> status.reply == reply
  {
    match ErrorCode(reply)
    case None => Unparsable(reply)
    case Some(code) =>
      if code == 0 then NoError
      else if code == OutOfRangeCode then DataOutOfRange
      else AnalyserFault(reply)
  }

  /** An error-queue entry as the instrument formats it: `<code>,<message>`. */
  function ErrorReply(code: int, message: string): string
  {
    Text.IntToString(code) + "," + message
  }

  /**
   * Whatever the message says (commas and further entries included), an
   * error reply is classified by its code alone: 0 passes, -222 is out of
   * range, every other code is an instrument fault.
   */
  lemma CheckErrorStatusOfReply(code: int, message: string)
    ensures CheckErrorStatus(ErrorReply(code, message)) ==
      if code == 0 then NoError
      else if code == OutOfRangeCode then DataOutOfRange
      else AnalyserFault(ErrorReply(code, message))
  {
    var digits := Text.IntToString(code);
    var reply := ErrorReply(code, message);
    assert reply == digits + ([','] + message);
    BeforeFirstOfJoin(digits, ',', message);
    Text.ParseIntOfIntToString(code);
  }

  /** An instrument that signs its zero code, `+0,"No error"`, reports no error. */
  lemma SignedZeroIsNoError()
    ensures CheckErrorStatus("+0,\"No error\"") == NoError
  {
    var reply := "+0,\"No error\"";
    assert reply == "+0" + ([','] + "\"No error\"");
    BeforeFirstOfJoin("+0", ',', "\"No error\"");
    Text.ParseIntOfPlusZero();
  }

  lemma {:induction false} BeforeFirstOfJoin(first: string, sep: char, rest: string)
    requires sep !in first
    ensures Text.BeforeFirst(first + ([sep] + rest), sep) == first
  {
    if first != [] {
      assert (first + ([sep] + rest))[1..] == first[1..] + ([sep] + rest);
      BeforeFirstOfJoin(first[1..], sep, rest);
    }
  }

  /** A command the adapter writes. */
  datatype Command =
    | Scpi(text: string)             // a configured SCPI command, sent verbatim
    | SetCentre(frequency: real)     // `:SENS:FREQ:CENT <frequency>`

  /** The numeric queries: `get_sampling_rate`, `get_analysis_bandwidth`, `get_centre_frequency`, `get_scaling`. */
  datatype Query = SamplingRate | AnalysisBandwidth | CentreFrequency | Scaling

  /** One exchange on the instrument channel. */
  datatype Event =
    | Write(command: Command)
    | ErrorQuery                     // `:SYST:ERR:ALL?`
    | Asked(query: Query)            // a numeric query; sent in passive mode too

  /** The writes `send_commands` issues for a list of configured commands. */
  function Writes(commands: seq<string>, passive: bool): (ws: seq<Event>)
    ensures |ws| == if passive then 0 else |commands|
    ensures forall i :: 0 <= i < |ws| ==> ws[i] == Write(Scpi(commands[i]))
  {
    if passive || commands == [] then []
    else [Write(Scpi(commands[0]))] + Writes(commands[1..], passive)
  }

  class SpectrumAnalyserInterface {
    /** Dry-run mode: commands are suppressed, queries still go out. */
    const passive: bool
    /** Every exchange so far, oldest first. */
    var trace: seq<Event>

    constructor (passive: bool)
      ensures this.passive == passive && trace == []
    {
      this.passive := passive;
      trace := [];
    }

    method SendCommand(command: Command)
      modifies this
      ensures trace == old(trace) + if passive then [] else [Write(command)]
    {
      if !passive {
        trace := trace + [Write(command)];
      }
    }

    method CheckError(reply: string) returns (status: ErrorStatus)
      modifies this
      ensures trace == old(trace) + [ErrorQuery]
      ensures status == CheckErrorStatus(reply)
    {
      trace := trace + [ErrorQuery];
      status := CheckErrorStatus(reply);
    }

    /**
     * Writes each command in list order (nothing in passive mode), then makes
     * exactly one error query; `reply` is the instrument's answer to it.
     */
    method SendCommands(commands: seq<string>, reply: string) returns (status: ErrorStatus)
      modifies this
      ensures trace == old(trace) + Writes(commands, passive) + [ErrorQuery]
      ensures status == CheckErrorStatus(reply)
    {
      for i := 0 to |commands|
        invariant trace == old(trace) + Writes(commands[..i], passive)
      {
        assert Writes(commands[..i + 1], passive) == Writes(commands[..i], passive) + (if passive then [] else [Write(Scpi(commands[i]))]);
        SendCommand(Scpi(commands[i]));
      }
      assert commands[..|commands|] == commands;
      status := CheckError(reply);
    }

    /** A numeric query; `answer` is the value the instrument returns. */
    method Get(query: Query, answer: real) returns (value: real)
      modifies this
      ensures trace == old(trace) + [Asked(query)]
      ensures value == answer
    {
      trace := trace + [Asked(query)];
      value := answer;
    }

    /** Tunes the instrument, then checks the error queue once. */
    method SetCentreFrequency(frequency: real, reply: string) returns (status: ErrorStatus)
      modifies this
      ensures trace == old(trace) + (if passive then [] else [Write(SetCentre(frequency))]) + [ErrorQuery]
      ensures status == CheckErrorStatus(reply)
    {
      SendCommand(SetCentre(frequency));
      status := CheckError(reply);
    }
  }
}

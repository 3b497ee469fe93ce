/**
 * The receiver status monitor `MKRECVStdoutHandler`: a counter of status
 * reports still to be discarded as warm-up, decremented on every line that
 * starts with `STAT`; once it has reached zero or below, each status line is
 * parsed and a loss warning is raised when its total and filled slot counts
 * differ.  The thread around it is not modelled: the lines it reads before it
 * is stopped are a sequence.
 */
module StatMonitor {
  import opened Wrappers
  import Text

  const StatMarker: string := "STAT"

  /** `line.startswith(b"STAT")`: the first four bytes are the ASCII codes of `S`, `T`, `A`, `T`. */
  predicate IsStatLine(line: seq<Text.Byte>): (b: bool)
    ensures b <==> |line| >= 4 && line[..4] == [83, 84, 65, 84]
  {
    StatMarker <= Text.Latin1(line)
  }

  /** What `parse_stat_line` does with a status line. */
  datatype StatReport =
    | Balanced                       // total == filled: no warning
    | Loss(total: int, filled: int)  // total != filled: "Packet loss detected" warning
    | Crash                          // IndexError, ValueError or ZeroDivisionError: the reader stops

  /**
   * `parse_stat_line` on the text of a line: fields 1 and 3 of `line.split()`
   * as integers.  It survives exactly when both fields exist and parse and the
   * division by the total is defined; it warns exactly when they differ, and
   * then the lost fraction is not zero.
   */
  function ParseStatText(text: string): (r: StatReport)
    ensures |Text.Fields(text)| < 4 ==> r == Crash
    ensures r != Crash <==>
      && |Text.Fields(text)| >= 4
      && Text.ParseInt(Text.Fields(text)[1]).Some?
      && Text.ParseInt(Text.Fields(text)[3]).Some?
      && (Text.ParseInt(Text.Fields(text)[1]).value != 0 ||
          Text.ParseInt(Text.Fields(text)[3]).value == 0)
    ensures r.Loss? ==>
      && Text.ParseInt(Text.Fields(text)[1]) == Some(r.total)
      && Text.ParseInt(Text.Fields(text)[3]) == Some(r.filled)
      && r.total != 0 && r.total != r.filled
      && LossFraction(r.total, r.filled) != 0.0
    ensures r.Balanced? ==> Text.ParseInt(Text.Fields(text)[1]) == Text.ParseInt(Text.Fields(text)[3])
  {
    var fields := Text.Fields(text);
    if |fields| < 4 then Crash
    else match (Text.ParseInt(fields[1]), Text.ParseInt(fields[3]))
      case (Some(total), Some(filled)) =>
        if total == filled then Balanced
        else if total == 0 then Crash
        else Loss(total, filled)
      case _ => Crash
  }

  /** `parse_stat_line` on the bytes of a line, each byte read as one character. */
  function ParseStatLine(line: seq<Text.Byte>): (r: StatReport)
    ensures |Text.Fields(Text.Latin1(line))| < 4 ==> r == Crash
    ensures r.Loss? ==> r.total != 0 && r.total != r.filled && LossFraction(r.total, r.filled) != 0.0
  {
    ParseStatText(Text.Latin1(line))
  }

  /** The fraction of slots lost, `1 - filled / total`, exactly. */
  function LossFraction(total: int, filled: int): (f: real)
    requires total != 0
    ensures f == 0.0 <==> filled == total
  {
    1.0 - (filled as real) / (total as real)
  }

  /** The first four fields of a status line: marker, total, a third field, filled. */
  function StatWords(total: int, middle: string, filled: int): seq<string>
  {
    [StatMarker, Text.IntToString(total), middle, Text.IntToString(filled)]
  }

  /**
   * A status line as the receiver prints it: the four leading fields, each
   * followed by its own run of whitespace (the last at least the newline),
   * then anything.
   */
  function StatText(total: int, middle: string, filled: int, gaps: seq<string>, tail: string): string
    requires |gaps| == 4
  {
    Text.Spaced(StatWords(total, middle, filled), gaps, tail)
  }

  lemma NumberIsWord(i: int)
    ensures Text.IsWord(Text.IntToString(i))
  {
  }

  /** `line.split()` of a status line: its four leading words, then the words of the tail. */
  lemma StatTextFields(total: int, middle: string, filled: int, gaps: seq<string>, tail: string)
    requires Text.IsWord(middle)
    requires |gaps| == 4 && forall k :: 0 <= k < 4 ==> Text.IsGap(gaps[k])
    ensures Text.Fields(StatText(total, middle, filled, gaps, tail)) ==
      StatWords(total, middle, filled) + Text.Fields(tail)
  {
    var words := StatWords(total, middle, filled);
    NumberIsWord(total);
    NumberIsWord(filled);
    assert Text.IsWord(StatMarker);
    Text.FieldsOfSpaced(words, gaps, tail);
  }

  /**
   * A well-formed status line warns exactly when its total and filled slot
   * counts differ; a total of zero with some slots filled divides by zero.
   */
  lemma ParseStatTextOfStatLine(total: int, middle: string, filled: int, gaps: seq<string>, tail: string)
    requires Text.IsWord(middle)
    requires |gaps| == 4 && forall k :: 0 <= k < 4 ==> Text.IsGap(gaps[k])
    ensures ParseStatText(StatText(total, middle, filled, gaps, tail)) ==
      if total == filled then Balanced
      else if total == 0 then Crash
      else Loss(total, filled)
  {
    var fields := Text.Fields(StatText(total, middle, filled, gaps, tail));
    StatTextFields(total, middle, filled, gaps, tail);
    assert fields[1] == Text.IntToString(total) && fields[3] == Text.IntToString(filled);
    Text.ParseIntOfIntToString(total);
    Text.ParseIntOfIntToString(filled);
  }

  /** The outcome of one line read by the monitor. */
  datatype LineOutcome =
    | NotStat                        // not a status line: counter untouched
    | Skipped                        // a warm-up status line
    | Parsed(report: StatReport)

  datatype StepResult = StepResult(nskip: int, outcome: LineOutcome)

  /**
   * One pass of the loop in `run`: the counter drops by one on each status
   * line only; a status line is discarded exactly while the dropped counter
   * stays positive, and parsed otherwise.
   */
  function Step(nskip: int, line: seq<Text.Byte>): (r: StepResult)
    ensures r.nskip == nskip - (if IsStatLine(line) then 1 else 0)
    ensures r.outcome == NotStat <==> !IsStatLine(line)
    ensures r.outcome == Skipped <==> IsStatLine(line) && r.nskip > 0
    ensures r.outcome.Parsed? ==> r.outcome.report == ParseStatLine(line)
  {
    if !IsStatLine(line) then StepResult(nskip, NotStat)
    else if nskip - 1 > 0 then StepResult(nskip - 1, Skipped)
    else StepResult(nskip - 1, Parsed(ParseStatLine(line)))
  }

  /** The outcomes of a run over `lines`; a crash ends the run. */
  function Outcomes(nskip: int, lines: seq<seq<Text.Byte>>): (os: seq<LineOutcome>)
    ensures |os| <= |lines|
    ensures |os| == |lines| || (os != [] && os[|os| - 1] == Parsed(Crash))
    decreases lines
  {
    if lines == [] then []
    else
      var r := Step(nskip, lines[0]);
      if r.outcome == Parsed(Crash) then [r.outcome]
      else [r.outcome] + Outcomes(r.nskip, lines[1..])
  }

  /** The number of status lines in `lines`. */
  function StatCount(lines: seq<seq<Text.Byte>>): nat
  {
    if lines == [] then 0 else (if IsStatLine(lines[0]) then 1 else 0) + StatCount(lines[1..])
  }

  /**
   * Line i of a run: a non-status line is ignored; the k-th status line
   * (1-based, k = StatCount(lines[..i+1])) is discarded while k < nskip and
   * parsed from k == nskip on.  The run goes on until the first crash.
   */
  lemma {:induction false} OutcomeOfLine(nskip: int, lines: seq<seq<Text.Byte>>, i: nat)
    requires i < |Outcomes(nskip, lines)|
    ensures Outcomes(nskip, lines)[i] ==
      if !IsStatLine(lines[i]) then NotStat
      else if StatCount(lines[..i + 1]) < nskip then Skipped
      else Parsed(ParseStatLine(lines[i]))
    ensures i < |Outcomes(nskip, lines)| - 1 ==> Outcomes(nskip, lines)[i] != Parsed(Crash)
    decreases lines
  {
    var r := Step(nskip, lines[0]);
    assert lines[..i + 1][0] == lines[0];
    if i > 0 {
      assert lines[..i + 1][1..] == lines[1..][..i];
      OutcomeOfLine(r.nskip, lines[1..], i - 1);
    } else {
      assert lines[..1][1..] == [];
    }
  }

  class MkrecvStdoutHandler {
    /** Status reports still to be discarded; the last one discarded brings it to 1. */
    var nskip: int

    constructor (nskip: int)
      ensures this.nskip == nskip
    {
      this.nskip := nskip;
    }

    /** The body of the `run` loop for one line. */
    method ProcessLine(line: seq<Text.Byte>) returns (outcome: LineOutcome)
      modifies this
      ensures nskip == old(nskip) - (if IsStatLine(line) then 1 else 0)
      ensures outcome ==
        if !IsStatLine(line) then NotStat
        else if nskip > 0 then Skipped
        else Parsed(ParseStatLine(line))
    {
      outcome := NotStat;
      if IsStatLine(line) {
        nskip := nskip - 1;
        if nskip > 0 {
          outcome := Skipped;
        } else {
          outcome := Parsed(ParseStatLine(line));
        }
      }
    }

    /** The `run` loop over the lines read before the stop, ended early by a crash. */
    method Run(lines: seq<seq<Text.Byte>>) returns (outcomes: seq<LineOutcome>)
      modifies this
      ensures outcomes == Outcomes(old(nskip), lines)
      ensures nskip == old(nskip) - StatCount(lines[..|outcomes|])
    {
      outcomes := [];
      var i := 0;
      while i < |lines|
        invariant 0 <= i <= |lines|
        invariant outcomes + Outcomes(nskip, lines[i..]) == Outcomes(old(nskip), lines)
        invariant |outcomes| == i
        invariant nskip == old(nskip) - StatCount(lines[..i])
      {
        ghost var before := nskip;
        var outcome := ProcessLine(lines[i]);
        OutcomesUnroll(before, lines, i, outcomes);
        StatCountSnoc(lines, i);
        outcomes := outcomes + [outcome];
        i := i + 1;
        if outcome == Parsed(Crash) {
          return;
        }
      }
      assert lines[i..] == [];
    }
  }

  /** The outcomes from line i on: line i's own, then, unless it crashed, those of the lines after it. */
  lemma OutcomesUnroll(nskip: int, lines: seq<seq<Text.Byte>>, i: nat, done: seq<LineOutcome>)
    requires i < |lines|
    ensures var r := Step(nskip, lines[i]);
      && (r.outcome == Parsed(Crash) ==> done + Outcomes(nskip, lines[i..]) == done + [r.outcome])
      && (r.outcome != Parsed(Crash) ==>
            done + Outcomes(nskip, lines[i..]) == (done + [r.outcome]) + Outcomes(r.nskip, lines[i + 1..]))
  {
    assert lines[i..][0] == lines[i] && lines[i..][1..] == lines[i + 1..];
  }

  lemma {:induction false} StatCountSnoc(lines: seq<seq<Text.Byte>>, i: nat)
    requires i < |lines|
    ensures StatCount(lines[..i + 1]) == StatCount(lines[..i]) + (if IsStatLine(lines[i]) then 1 else 0)
  {
    if i > 0 {
      assert lines[..i + 1][1..] == lines[1..][..i];
      assert lines[..i][1..] == lines[1..][..i - 1];
      StatCountSnoc(lines[1..], i - 1);
    } else {
      assert lines[..1][1..] == [];
    }
  }
}

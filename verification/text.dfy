/**
 * The few pieces of Python's text handling the capture script relies on:
 * `int()` on a decimal string, `str.split()` on whitespace, `split(",")[0]`,
 * `split("/")[-1]` and `str.strip(chars)`.  Only ASCII whitespace and ASCII
 * digits are recognised.
 */
module Text {
  import opened Wrappers
  import Seqs

  /** A byte of a pipe line (Python `bytes`). */
  type Byte = b: int | 0 <= b < 256

  /** The six ASCII whitespace characters: space, tab, LF, VT, FF, CR. */
  predicate IsSpace(c: char) { c == ' ' || c == '\t' || c == '\n' || c == 11 as char || c == 12 as char || c == '\r' }

  predicate IsDigit(c: char) { '0' <= c <= '9' }

  predicate AllDigits(s: string) { forall i :: 0 <= i < |s| ==> IsDigit(s[i]) }

  function DigitValue(c: char): (d: nat)
    requires IsDigit(c)
    ensures d < 10
  {
    c as int - '0' as int
  }

  function DigitChar(d: nat): (c: char)
    requires d < 10
    ensures IsDigit(c) && DigitValue(c) == d
  {
    ('0' as int + d) as char
  }

  /** Bytes read as text, one character per byte (ASCII bytes keep their meaning). */
  function Latin1(bs: seq<Byte>): (s: string)
    ensures |s| == |bs|
    ensures forall i :: 0 <= i < |bs| ==> s[i] as int == bs[i]
  {
    seq(|bs|, i requires 0 <= i < |bs| => bs[i] as char)
  }

  /** `s.lstrip(cs)`: drop leading characters that occur in `cs`. */
  function StripLeft(s: string, cs: string): (t: string)
    ensures |t| <= |s| && t == s[|s| - |t|..]
    ensures t == [] || t[0] !in cs
    ensures forall i :: 0 <= i < |s| - |t| ==> s[i] in cs
  {
    if s != [] && s[0] in cs then
      var t := StripLeft(s[1..], cs);
      assert forall i :: 1 <= i < |s| - |t| ==> s[i] == s[1..][i - 1];
      t
    else s
  }

  /** `lstrip` keeps the last character of `s` when that one is not in `cs`. */
  lemma StripLeftKeepsLast(s: string, cs: string)
    requires s != [] && s[|s| - 1] !in cs
    ensures StripLeft(s, cs) != [] && StripLeft(s, cs)[|StripLeft(s, cs)| - 1] == s[|s| - 1]
  {
  }

  /** Text appended after a character that `lstrip` keeps is kept as well. */
  lemma {:induction false} StripLeftAppend(s: string, x: string, cs: string)
    requires StripLeft(s, cs) != []
    ensures StripLeft(s + x, cs) == StripLeft(s, cs) + x
  {
    assert (s + x)[0] == s[0];
    if s[0] in cs {
      assert (s + x)[1..] == s[1..] + x;
      StripLeftAppend(s[1..], x, cs);
    }
  }

  /** `s.rstrip(cs)`: drop trailing characters that occur in `cs`. */
  function StripRight(s: string, cs: string): (t: string)
    ensures |t| <= |s| && t == s[..|t|]
    ensures t == [] || t[|t| - 1] !in cs
    ensures forall i :: |t| <= i < |s| ==> s[i] in cs
  {
    if s != [] && s[|s| - 1] in cs then StripRight(s[..|s| - 1], cs) else s
  }

  /** `s.strip(cs)`: strips any characters of `cs` from both ends, not a prefix or suffix. */
  function Strip(s: string, cs: string): (t: string)
    ensures exists i :: StrippedAt(s, i, t, cs)
    ensures t == [] || (t[0] !in cs && t[|t| - 1] !in cs)
  {
    var u := StripLeft(s, cs);
    var t := StripRight(u, cs);
    StrippedOfParts(s, u, t, cs);
    t
  }

  /** `rstrip` removes exactly an appended run of `cs` characters from text ending outside `cs`. */
  lemma StripRightAppend(s: string, x: string, cs: string)
    requires s != [] && s[|s| - 1] !in cs
    requires forall j :: 0 <= j < |x| ==> x[j] in cs
    ensures StripRight(s + x, cs) == s
  {
    var t := StripRight(s + x, cs);
    assert (s + x)[|s| - 1] == s[|s| - 1];
    assert |t| == |s|;
  }

  /** `(s + x).strip(cs)` is `s.lstrip(cs)` when `x` is made of `cs` characters and `s` ends outside them. */
  lemma StripOfAppended(s: string, x: string, cs: string)
    requires s != [] && s[|s| - 1] !in cs
    requires forall j :: 0 <= j < |x| ==> x[j] in cs
    ensures Strip(s + x, cs) == StripLeft(s, cs)
  {
    StripLeftKeepsLast(s, cs);
    StripLeftAppend(s, x, cs);
    StripRightAppend(StripLeft(s, cs), x, cs);
    StripIsRightOfLeft(s + x, cs);
  }

  lemma EachIn(s: string)
    ensures forall j :: 0 <= j < |s| ==> s[j] in s
  {
  }

  /** `strip` is `rstrip` after `lstrip`. */
  lemma StripIsRightOfLeft(s: string, cs: string)
    ensures Strip(s, cs) == StripRight(StripLeft(s, cs), cs)
  {
  }

  /** `t` occurs in `s` starting at index `i`. */
  predicate SliceAt(s: string, i: int, t: string)
  {
    0 <= i <= |s| - |t| && t == s[i..i + |t|]
  }

  /** `t` is `s` with only characters of `cs` dropped from its two ends: the first `i`, and all after `t`. */
  predicate StrippedAt(s: string, i: int, t: string, cs: string)
  {
    SliceAt(s, i, t) &&
    (forall j :: 0 <= j < i ==> s[j] in cs) &&
    (forall j :: i + |t| <= j < |s| ==> s[j] in cs)
  }

  /** Dropping a prefix of `cs` characters, then a suffix of them, strips `s` at the prefix's length. */
  lemma StrippedOfParts(s: string, u: string, t: string, cs: string)
    requires |u| <= |s| && u == s[|s| - |u|..] && forall j :: 0 <= j < |s| - |u| ==> s[j] in cs
    requires |t| <= |u| && t == u[..|t|] && forall j :: |t| <= j < |u| ==> u[j] in cs
    ensures StrippedAt(s, |s| - |u|, t, cs)
  {
    var i := |s| - |u|;
    Seqs.SliceOfSuffix(s, i, |t|);
    assert forall j :: i + |t| <= j < |s| ==> s[j] == u[j - i];
  }

  /** A character absent from `s` is absent from every slice of it. */
  lemma SliceAvoids(s: string, i: int, t: string, c: char)
    requires SliceAt(s, i, t) && c !in s
    ensures c !in t
  {
  }

  /** How many whitespace characters `s` starts with. */
  function LeadingSpaces(s: string): (n: nat)
    ensures n <= |s|
    ensures n == |s| || !IsSpace(s[n])
    ensures forall i :: 0 <= i < n ==> IsSpace(s[i])
  {
    if s != [] && IsSpace(s[0]) then 1 + LeadingSpaces(s[1..]) else 0
  }

  /** `s.lstrip()`: drop leading whitespace. */
  function TrimLeft(s: string): string
  {
    s[LeadingSpaces(s)..]
  }

  /** `s.rstrip()`: drop trailing whitespace. */
  function TrimRight(s: string): (t: string)
    ensures |t| <= |s| && t == s[..|t|]
    ensures t == [] || !IsSpace(t[|t| - 1])
    ensures forall i :: |t| <= i < |s| ==> IsSpace(s[i])
  {
    if s != [] && IsSpace(s[|s| - 1]) then TrimRight(s[..|s| - 1]) else s
  }

  /** `s.strip()`: drop whitespace at both ends. */
  function Trim(s: string): string
  {
    TrimRight(TrimLeft(s))
  }

  /** The value of a non-empty run of decimal digits. */
  function DigitsValue(s: string): nat
    requires AllDigits(s)
  {
    if s == [] then 0 else 10 * DigitsValue(s[..|s| - 1]) + DigitValue(s[|s| - 1])
  }

  /**
   * Python's `int(s)` on a base-10 string: surrounding whitespace is ignored,
   * an optional sign is followed by at least one digit; anything else is a
   * `ValueError`, here `None`.
   */
  function ParseInt(s: string): (r: Option<int>)
    ensures Trim(s) == [] ==> r == None
    ensures r.Some? <==> IntLiteral(Trim(s))
    ensures r.Some? ==> r.value == (if Trim(s)[0] == '-' then -(DigitsValue(Unsigned(Trim(s))) as int)
                                    else DigitsValue(Unsigned(Trim(s))))
    ensures r.Some? ==> forall j :: 0 < j < |Trim(s)| ==> IsDigit(Trim(s)[j])
    ensures r.Some? && r.value < 0 ==> Trim(s)[0] == '-'
  {
    var t := Trim(s);
    if t != [] && (t[0] == '-' || t[0] == '+') then
      var digits := t[1..];
      if digits != [] && AllDigits(digits) then
        var magnitude: int := DigitsValue(digits);
        Some(if t[0] == '-' then -magnitude else magnitude)
      else None
    else if t != [] && AllDigits(t) then Some(DigitsValue(t))
    else None
  }

  /** What `int()` accepts once trimmed: at least one digit, after at most one sign. */
  predicate IntLiteral(t: string)
  {
    |Unsigned(t)| >= 1 && AllDigits(Unsigned(t))
  }

  /** The text after a leading `+` or `-`, if any. */
  function Unsigned(t: string): (d: string)
    ensures d == t || (t != [] && (t[0] == '+' || t[0] == '-') && d == t[1..])
  {
    if t != [] && (t[0] == '+' || t[0] == '-') then t[1..] else t
  }

  /** Text without whitespace is its own `strip()`. */
  lemma TrimOfUnspaced(s: string)
    requires forall i :: 0 <= i < |s| ==> !IsSpace(s[i])
    ensures Trim(s) == s
  {
    assert LeadingSpaces(s) == 0 by {
      if s != [] { assert !IsSpace(s[0]); }
    }
    assert TrimLeft(s) == s;
  }

  /** `int()` accepts a sign before zero, as in the reply `+0,"No error"`. */
  lemma ParseIntOfPlusZero()
    ensures ParseInt("+0") == Some(0)
  {
    var t := "+0";
    TrimOfUnspaced(t);
    assert Unsigned(t) == t[1..] == "0";
    assert IntLiteral(t);
    assert DigitsValue("0") == 0 by { assert "0"[..0] == ""; }
    assert ParseInt(t).value == DigitsValue(Unsigned(t));
  }

  /** `int()` accepts leading zeros. */
  lemma ParseIntOfLeadingZeros()
    ensures ParseInt("007") == Some(7)
  {
    TrimOfUnspaced("007");
    assert Unsigned("007") == "007";
    assert AllDigits("007") && DigitsValue("007") == 7 by {
      assert "007"[..2] == "00" && "00"[..1] == "0" && "0"[..0] == "";
    }
  }

  /** `int()` ignores surrounding whitespace. */
  lemma ParseIntOfPadded()
    ensures ParseInt(" 5 ") == Some(5)
  {
    assert Trim(" 5 ") == "5" by {
      assert LeadingSpaces(" 5 ") == 1 by {
        assert " 5 "[1..] == "5 ";
      }
      assert TrimLeft(" 5 ") == "5 ";
      assert "5 "[..1] == "5";
    }
    assert Unsigned("5") == "5";
    assert DigitsValue("5") == 5 by { assert "5"[..0] == ""; }
  }

  /** Decimal rendering of a natural number, as Python's `str(n)`. */
  function NatToString(n: nat): (s: string)
    ensures s != [] && AllDigits(s)
  {
    if n < 10 then [DigitChar(n)] else NatToString(n / 10) + [DigitChar(n % 10)]
  }

  /** Decimal rendering of an integer, as Python's `str(i)`. */
  function IntToString(i: int): (s: string)
    ensures s != [] && IsDigit(s[|s| - 1])
    ensures forall j :: 0 <= j < |s| ==> IsDigit(s[j]) || (j == 0 && s[j] == '-')
  {
    if i < 0 then "-" + NatToString(-i) else NatToString(i)
  }

  lemma {:induction false} DigitsValueOfNatToString(n: nat)
    ensures DigitsValue(NatToString(n)) == n
  {
    if n >= 10 {
      var s := NatToString(n);
      assert s[..|s| - 1] == NatToString(n / 10);
      DigitsValueOfNatToString(n / 10);
    }
  }

  lemma TrimUntouched(s: string)
    requires s != [] && !IsSpace(s[0]) && !IsSpace(s[|s| - 1])
    ensures Trim(s) == s
  {
    assert TrimLeft(s) == s;
  }

  /** `int(str(i)) == i` for every integer. */
  lemma ParseIntOfIntToString(i: int)
    ensures ParseInt(IntToString(i)) == Some(i)
  {
    if i < 0 {
      ParseNegative(i);
    } else {
      ParseNatural(i);
    }
  }

  lemma ParseNatural(i: int)
    requires i >= 0
    ensures ParseInt(IntToString(i)) == Some(i)
  {
    var s := NatToString(i);
    assert IsDigit(s[0]) && IsDigit(s[|s| - 1]);
    TrimUntouched(s);
    DigitsValueOfNatToString(i);
  }

  lemma ParseNegative(i: int)
    requires i < 0
    ensures ParseInt(IntToString(i)) == Some(i)
  {
    var digits := NatToString(-i);
    calc {
      ParseInt(IntToString(i));
      ParseInt("-" + digits);
      { ParseMinusDigits(digits); }
      Some(-(DigitsValue(digits) as int));
      { DigitsValueOfNatToString(-i); }
      Some(i);
    }
  }

  /** A minus sign followed by digits parses to the negated value of the digits. */
  lemma ParseMinusDigits(digits: string)
    requires digits != [] && AllDigits(digits)
    ensures ParseInt("-" + digits) == Some(-(DigitsValue(digits) as int))
  {
    var s := "-" + digits;
    assert s[0] == '-' && s[|s| - 1] == digits[|digits| - 1];
    TrimUntouched(s);
    assert s[1..] == digits;
  }

  /** `s.split(sep)[0]`: everything before the first `sep`, or all of `s`. */
  function BeforeFirst(s: string, sep: char): (p: string)
    ensures p <= s && sep !in p
    ensures |p| < |s| ==> s[|p|] == sep
    ensures sep !in s ==> p == s
  {
    if s == [] || s[0] == sep then [] else [s[0]] + BeforeFirst(s[1..], sep)
  }

  /** `s.split(sep)[-1]`: everything after the last `sep`, or all of `s`. */
  function AfterLast(s: string, sep: char): (c: string)
    ensures |c| <= |s| && c == s[|s| - |c|..] && sep !in c
    ensures |c| < |s| ==> s[|s| - |c| - 1] == sep
  {
    if s == [] || s[|s| - 1] == sep then [] else AfterLast(s[..|s| - 1], sep) + [s[|s| - 1]]
  }

  lemma {:induction false} AfterLastOfJoin(prefix: string, sep: char, last: string)
    requires sep !in last
    ensures AfterLast(prefix + [sep] + last, sep) == last
  {
    if last != [] {
      var s := prefix + [sep] + last;
      assert s[..|s| - 1] == prefix + [sep] + last[..|last| - 1];
      AfterLastOfJoin(prefix, sep, last[..|last| - 1]);
    } else {
      assert (prefix + [sep] + last)[|prefix|] == sep;
    }
  }

  /** The maximal run of non-whitespace characters at the start of `s`. */
  function TakeWord(s: string): (w: string)
    ensures w <= s
    ensures forall i :: 0 <= i < |w| ==> !IsSpace(w[i])
    ensures |w| < |s| ==> IsSpace(s[|w|])
  {
    if s == [] || IsSpace(s[0]) then [] else [s[0]] + TakeWord(s[1..])
  }

  /** A whitespace-free, non-empty run of characters: what `split()` yields. */
  predicate IsWord(w: string)
  {
    w != [] && forall i :: 0 <= i < |w| ==> !IsSpace(w[i])
  }

  /** Whitespace only, possibly none. */
  predicate AllSpace(g: string)
  {
    forall i :: 0 <= i < |g| ==> IsSpace(g[i])
  }

  /** A non-empty run of whitespace: what separates two fields. */
  predicate IsGap(g: string)
  {
    g != [] && AllSpace(g)
  }

  /** `s.split()`: the maximal whitespace-free runs of `s`, in order. */
  function Fields(s: string): (fs: seq<string>)
    ensures forall i :: 0 <= i < |fs| ==> IsWord(fs[i])
    decreases |s|
  {
    var n := LeadingSpaces(s);
    if n == |s| then []
    else
      var t := s[n..];
      var w := TakeWord(t);
      assert IsWord(w) by { assert t[0] == s[n]; }
      [w] + Fields(t[|w|..])
  }

  /** A word followed by whitespace is the first field. */
  lemma FieldsOfWordThen(w: string, gap: string, rest: string)
    requires IsWord(w) && IsGap(gap)
    ensures Fields(w + (gap + rest)) == [w] + Fields(gap + rest)
  {
    var s := w + (gap + rest);
    assert s[0] == w[0];
    assert LeadingSpaces(s) == 0;
    TakeWordOfWordThen(w, gap + rest);
    assert s[0..] == s;
    assert s[|w|..] == gap + rest;
  }

  lemma {:induction false} TakeWordOfWordThen(w: string, rest: string)
    requires forall i :: 0 <= i < |w| ==> !IsSpace(w[i])
    requires rest != [] && IsSpace(rest[0])
    ensures TakeWord(w + rest) == w
  {
    if w != [] {
      assert (w + rest)[1..] == w[1..] + rest;
      TakeWordOfWordThen(w[1..], rest);
    }
  }

  lemma {:induction false} LeadingSpacesOfSpace(gap: string, rest: string)
    requires AllSpace(gap)
    ensures LeadingSpaces(gap + rest) == |gap| + LeadingSpaces(rest)
  {
    if gap != [] {
      var s := gap + rest;
      assert s[0] == gap[0] && IsSpace(s[0]);
      assert s[1..] == gap[1..] + rest;
      LeadingSpacesOfSpace(gap[1..], rest);
      assert LeadingSpaces(s) == 1 + LeadingSpaces(s[1..]);
    } else {
      assert gap + rest == rest;
    }
  }

  /** Leading whitespace, of any length and kind, does not change the fields. */
  lemma FieldsOfSpaceThen(gap: string, rest: string)
    requires AllSpace(gap)
    ensures Fields(gap + rest) == Fields(rest)
  {
    LeadingSpacesOfSpace(gap, rest);
    var m := LeadingSpaces(rest);
    assert (gap + rest)[|gap| + m..] == rest[m..];
    FieldsOfSameStart(gap + rest, rest);
  }

  /** Two strings that agree after their leading whitespace have the same fields. */
  lemma FieldsOfSameStart(s: string, t: string)
    requires s[LeadingSpaces(s)..] == t[LeadingSpaces(t)..]
    ensures Fields(s) == Fields(t)
  {
  }

  /** `words[0] + gaps[0] + words[1] + gaps[1] + ... + rest`: each word followed by its gap. */
  function Spaced(words: seq<string>, gaps: seq<string>, rest: string): string
    requires |gaps| == |words|
  {
    if words == [] then rest else words[0] + (gaps[0] + Spaced(words[1..], gaps[1..], rest))
  }

  /** One more word and gap in front of a line whose words are known. */
  lemma FieldsOfWordBefore(w: string, gap: string, later: string, words: seq<string>, rest: string)
    requires IsWord(w) && IsGap(gap) && Fields(later) == words + Fields(rest)
    ensures Fields(w + (gap + later)) == [w] + words + Fields(rest)
  {
    FieldsOfWordThen(w, gap, later);
    FieldsOfSpaceThen(gap, later);
    Seqs.AppendAssociates([w], words, Fields(rest));
  }

  /**
   * Splitting words each followed by a run of whitespace gives the words
   * back, then the words of the rest.
   */
  lemma {:induction false} FieldsOfSpaced(words: seq<string>, gaps: seq<string>, rest: string)
    requires |gaps| == |words|
    requires forall k :: 0 <= k < |words| ==> IsWord(words[k]) && IsGap(gaps[k])
    ensures Fields(Spaced(words, gaps, rest)) == words + Fields(rest)
  {
    if words != [] {
      FieldsOfSpaced(words[1..], gaps[1..], rest);
      FieldsOfWordBefore(words[0], gaps[0], Spaced(words[1..], gaps[1..], rest), words[1..], rest);
      assert words == [words[0]] + words[1..];
    }
  }

  /**
   * `split()` of a line made of words separated, preceded and followed by
   * any whitespace is exactly those words.
   */
  lemma FieldsOfLine(lead: string, words: seq<string>, gaps: seq<string>, trail: string)
    requires AllSpace(lead) && AllSpace(trail) && |gaps| == |words|
    requires forall k :: 0 <= k < |words| ==> IsWord(words[k]) && IsGap(gaps[k])
    ensures Fields(lead + Spaced(words, gaps, trail)) == words
  {
    FieldsOfSpaceThen(lead, Spaced(words, gaps, trail));
    FieldsOfSpaced(words, gaps, trail);
    FieldsOfSpaceThen(trail, []);
    assert trail + [] == trail;
  }
}

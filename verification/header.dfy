/**
 * The per-step JSON header of `Executor.write_header` and the names of the
 * files a sweep step writes.  A Python dict keeps its keys in insertion
 * order, an assignment to a present key replaces the value in place, and a
 * dict literal that repeats a key behaves as the same assignments in order;
 * `Dict` and `Put` model exactly that.
 */
module Header {
  import opened Wrappers
  import Seqs
  import Text

  /** The values the header holds: floats (here exact reals), integers, strings. */
  datatype JsonValue =
    | JNumber(number: real)
    | JInt(integer: int)
    | JString(text: string)

  datatype Field = Field(key: string, value: JsonValue)

  /** An insertion-ordered dictionary. */
  type Dict = seq<Field>

  function Keys(d: Dict): (ks: seq<string>)
    ensures |ks| == |d| && forall i :: 0 <= i < |d| ==> ks[i] == d[i].key
  {
    if d == [] then [] else [d[0].key] + Keys(d[1..])
  }

  predicate Distinct(ks: seq<string>)
  {
    forall i, j :: 0 <= i < j < |ks| ==> ks[i] != ks[j]
  }

  /** `d.get(key)`: the value of the first field with that key. */
  function Get(d: Dict, key: string): Option<JsonValue>
  {
    if d == [] then None else if d[0].key == key then Some(d[0].value) else Get(d[1..], key)
  }

  /** `d[key] = value`. */
  function Put(d: Dict, key: string, value: JsonValue): (r: Dict)
    ensures Get(r, key) == Some(value)
  {
    if d == [] then [Field(key, value)]
    else if d[0].key == key then [Field(key, value)] + d[1..]
    else [d[0]] + Put(d[1..], key, value)
  }

  /** An assignment keeps the keys and their order, and appends a key that is new. */
  lemma {:induction false} PutKeys(d: Dict, key: string, value: JsonValue)
    ensures Keys(Put(d, key, value)) == if key in Keys(d) then Keys(d) else Keys(d) + [key]
  {
    if d != [] {
      assert Keys(d) == [d[0].key] + Keys(d[1..]);
      if d[0].key != key {
        PutKeys(d[1..], key, value);
        assert Keys(Put(d, key, value)) == [d[0].key] + Keys(Put(d[1..], key, value));
      }
    }
  }

  /** An assignment leaves every other key's value alone. */
  lemma {:induction false} PutGetOther(d: Dict, key: string, value: JsonValue, other: string)
    requires other != key
    ensures Get(Put(d, key, value), other) == Get(d, other)
  {
    if d != [] && d[0].key != key {
      PutGetOther(d[1..], key, value, other);
    }
  }

  /** The dict the assignments `fields[0]`, `fields[1]`, ... build on top of `d`, in that order. */
  function Overlay(d: Dict, fields: seq<Field>): Dict
  {
    if fields == [] then d
    else
      var last := fields[|fields| - 1];
      Put(Overlay(d, fields[..|fields| - 1]), last.key, last.value)
  }

  /** The value the last of `fields` with key `key` carries, if any does. */
  function LastValue(fields: seq<Field>, key: string): (v: Option<JsonValue>)
    ensures v.None? <==> forall i :: 0 <= i < |fields| ==> fields[i].key != key
  {
    if fields == [] then None
    else if fields[|fields| - 1].key == key then Some(fields[|fields| - 1].value)
    else LastValue(fields[..|fields| - 1], key)
  }

  /**
   * After the overlay a key holds the value of the last field that names it,
   * and keeps its old value when no field does: configured extra fields
   * overwrite the fixed ones.
   */
  lemma {:induction false} OverlayGet(d: Dict, fields: seq<Field>, key: string)
    ensures Get(Overlay(d, fields), key) ==
      if LastValue(fields, key).Some? then LastValue(fields, key) else Get(d, key)
  {
    if fields != [] {
      var last := fields[|fields| - 1];
      OverlayGet(d, fields[..|fields| - 1], key);
      if last.key != key {
        PutGetOther(Overlay(d, fields[..|fields| - 1]), last.key, last.value, key);
      }
    }
  }

  /** Assigning to a dict with distinct keys leaves its keys distinct. */
  lemma PutKeepsDistinct(d: Dict, key: string, value: JsonValue)
    requires Distinct(Keys(d))
    ensures Distinct(Keys(Put(d, key, value)))
  {
    var ks := Keys(d);
    PutKeys(d, key, value);
    if key !in ks {
      var ks' := ks + [key];
      forall i, j | 0 <= i < j < |ks'|
        ensures ks'[i] != ks'[j]
      {
        if j == |ks| {
          assert ks'[i] == ks[i];
        }
      }
    }
  }

  /**
   * The overlay keeps every key of `d` in its place, appends the new keys
   * after them, and names no key twice.
   */
  lemma {:induction false} OverlayKeys(d: Dict, fields: seq<Field>)
    requires Distinct(Keys(d))
    ensures Keys(d) <= Keys(Overlay(d, fields))
    ensures Distinct(Keys(Overlay(d, fields)))
  {
    if fields != [] {
      var init := fields[..|fields| - 1];
      var last := fields[|fields| - 1];
      OverlayKeys(d, init);
      PutKeys(Overlay(d, init), last.key, last.value);
      PutKeepsDistinct(Overlay(d, init), last.key, last.value);
    }
  }

  /**
   * The `for param in headerInformation: header_dict[key] = value` loop; the
   * header is a local dict, so the loop works on a copy it returns.
   */
  method MergeExtraFields(header: Dict, extra: seq<Field>) returns (merged: Dict)
    ensures merged == Overlay(header, extra)
  {
    merged := header;
    for i := 0 to |extra|
      invariant merged == Overlay(header, extra[..i])
    {
      assert extra[..i + 1][..i] == extra[..i];
      merged := Put(merged, extra[i].key, extra[i].value);
    }
    assert extra[..|extra|] == extra;
  }

  /**
   * `"{}_{:0.05}_{}".format(tag, frequency_in_MHz, timestamp)`: the label is
   * the formatted frequency.  The tag and the label are laid out in turn, each
   * followed by `_`, and what remains is the timestamp in decimal.
   */
  function ScanName(tag: string, freqLabel: string, timestamp: int): (name: string)
    ensures |name| > |tag| + |freqLabel| + 2
    ensures name[..|tag|] == tag && name[|tag|] == '_'
    ensures name[|tag| + 1..|tag| + 1 + |freqLabel|] == freqLabel && name[|tag| + 1 + |freqLabel|] == '_'
    ensures name[|tag| + |freqLabel| + 2..] == Text.IntToString(timestamp)
  {
    tag + "_" + freqLabel + "_" + Text.IntToString(timestamp)
  }

  /** The part of a scan name after the tag and the label reads back as its timestamp. */
  lemma ScanNameReadsBack(tag: string, freqLabel: string, timestamp: int)
    ensures var name := ScanName(tag, freqLabel, timestamp);
      Text.ParseInt(name[|tag| + |freqLabel| + 2..]) == Some(timestamp)
  {
    Text.ParseIntOfIntToString(timestamp);
  }

  /**
   * The file name stem of one sweep step: `"{}/{}".format(output_dir, ScanName(...))`.
   * It lies inside the output directory, and its last path component is the
   * scan name when neither the tag nor the label holds a slash.
   */
  function Stem(outputDir: string, tag: string, freqLabel: string, timestamp: int): (stem: string)
    ensures |stem| > |outputDir| + 1 && stem[..|outputDir| + 1] == outputDir + "/"
    ensures NoSlash(tag) && NoSlash(freqLabel) ==> Text.AfterLast(stem, '/') == ScanName(tag, freqLabel, timestamp)
  {
    var name := ScanName(tag, freqLabel, timestamp);
    var stem := outputDir + "/" + name;
    assert NoSlash(tag) && NoSlash(freqLabel) ==> Text.AfterLast(stem, '/') == name by {
      if NoSlash(tag) && NoSlash(freqLabel) {
        ScanNameHasNoSlash(tag, freqLabel, timestamp);
        Text.AfterLastOfJoin(outputDir, '/', name);
      }
    }
    stem
  }

  /** A scan name of slash-free parts has no slash: the timestamp has none. */
  lemma ScanNameHasNoSlash(tag: string, freqLabel: string, timestamp: int)
    requires NoSlash(tag) && NoSlash(freqLabel)
    ensures NoSlash(ScanName(tag, freqLabel, timestamp))
  {
    var ts := Text.IntToString(timestamp);
    assert forall j :: 0 <= j < |ts| ==> ts[j] != '/';
    assert ScanName(tag, freqLabel, timestamp) == tag + ("_" + (freqLabel + ("_" + ts)));
  }

  function DataFileName(stem: string): string { stem + ".npy" }

  function HeaderFileName(stem: string): string { stem + ".rfi" }

  /** The header and the data file of a step differ only in their extension. */
  lemma FileNamesShareStem(stem: string, other: string)
    ensures DataFileName(stem) != HeaderFileName(other)
    ensures HeaderFileName(stem) == HeaderFileName(other) <==> stem == other
    ensures DataFileName(stem) == DataFileName(other) <==> stem == other
  {
    var d, h := DataFileName(stem), HeaderFileName(other);
    if |d| == |h| {
      assert d[|d| - 2] == 'p' && h[|h| - 2] == 'f';
    }
    if HeaderFileName(stem) == HeaderFileName(other) {
      assert stem == HeaderFileName(stem)[..|stem|];
    }
    if DataFileName(stem) == DataFileName(other) {
      assert stem == DataFileName(stem)[..|stem|];
    }
  }

  /** The characters `str.strip(".rfi")` removes: a set, not a suffix. */
  const HeaderSuffix: string := ".rfi"

  /** `fname.split("/")[-1].strip(".rfi")`, as written. */
  function ScanIdAsWritten(fname: string): (id: string)
    ensures '/' !in id
    ensures exists i :: Text.StrippedAt(Text.AfterLast(fname, '/'), i, id, HeaderSuffix)
    ensures id == [] || (id[0] !in HeaderSuffix && id[|id| - 1] !in HeaderSuffix)
  {
    var base := Text.AfterLast(fname, '/');
    var id := Text.Strip(base, HeaderSuffix);
    assert '/' !in id by {
      var i :| Text.StrippedAt(base, i, id, HeaderSuffix);
      Text.SliceAvoids(base, i, id, '/');
    }
    id
  }

  /** The evidently intended scan id: the last path component without its `.rfi` extension. */
  function ScanId(fname: string): (id: string)
    ensures '/' !in id
  {
    var base := Text.AfterLast(fname, '/');
    if |base| >= |HeaderSuffix| && base[|base| - |HeaderSuffix|..] == HeaderSuffix then base[..|base| - |HeaderSuffix|]
    else base
  }

  /** A name component with no path separator, as the tag, the freqLabel and the timestamp are. */
  predicate NoSlash(s: string) { '/' !in s }

  /** A scan name is non-empty, has no path separator and ends in a digit of the timestamp. */
  lemma ScanNameShape(tag: string, freqLabel: string, timestamp: int)
    requires NoSlash(tag) && NoSlash(freqLabel)
    ensures var name := ScanName(tag, freqLabel, timestamp);
      name != [] && NoSlash(name + HeaderSuffix) && Text.IsDigit(name[|name| - 1])
  {
    var ts := Text.IntToString(timestamp);
    var name := ScanName(tag, freqLabel, timestamp);
    assert '/' !in ts by {
      assert forall j :: 0 <= j < |ts| ==> ts[j] != '/';
    }
    assert name + HeaderSuffix == tag + ("_" + (freqLabel + ("_" + (ts + HeaderSuffix))));
    assert name[|name| - 1] == ts[|ts| - 1];
  }

  /** The last path component of a header file name is its scan name with the extension. */
  lemma BaseOfHeaderFile(outputDir: string, tag: string, freqLabel: string, timestamp: int)
    requires NoSlash(tag) && NoSlash(freqLabel)
    ensures Text.AfterLast(HeaderFileName(Stem(outputDir, tag, freqLabel, timestamp)), '/') ==
      ScanName(tag, freqLabel, timestamp) + HeaderSuffix
  {
    var base := ScanName(tag, freqLabel, timestamp) + HeaderSuffix;
    ScanNameShape(tag, freqLabel, timestamp);
    assert HeaderFileName(Stem(outputDir, tag, freqLabel, timestamp)) == outputDir + ['/'] + base;
    Text.AfterLastOfJoin(outputDir, '/', base);
  }

  /** The scan id of a header file is its stem without the output directory. */
  lemma ScanIdOfHeaderFile(outputDir: string, tag: string, freqLabel: string, timestamp: int)
    requires NoSlash(tag) && NoSlash(freqLabel)
    ensures ScanId(HeaderFileName(Stem(outputDir, tag, freqLabel, timestamp))) == ScanName(tag, freqLabel, timestamp)
  {
    var name := ScanName(tag, freqLabel, timestamp);
    var base := name + HeaderSuffix;
    BaseOfHeaderFile(outputDir, tag, freqLabel, timestamp);
    assert base[|base| - |HeaderSuffix|..] == HeaderSuffix;
    assert base[..|base| - |HeaderSuffix|] == name;
  }

  /**
   * The id as written agrees with the intended one exactly when the scan
   * name does not start with `.`, `r`, `f` or `i`: the timestamp always ends
   * it with a digit, so only the front can be over-stripped.
   */
  lemma ScanIdAsWrittenAgreesIff(outputDir: string, tag: string, freqLabel: string, timestamp: int)
    requires NoSlash(tag) && NoSlash(freqLabel)
    ensures var name := ScanName(tag, freqLabel, timestamp);
      ScanIdAsWritten(HeaderFileName(Stem(outputDir, tag, freqLabel, timestamp))) == name <==> name[0] !in HeaderSuffix
  {
    ScanNameShape(tag, freqLabel, timestamp);
    BaseOfHeaderFile(outputDir, tag, freqLabel, timestamp);
    StripAgreesIff(ScanName(tag, freqLabel, timestamp));
  }

  /** `(name + ".rfi").strip(".rfi") == name` exactly when the name does not start with one of those characters. */
  lemma StripAgreesIff(name: string)
    requires name != [] && Text.IsDigit(name[|name| - 1])
    ensures Text.Strip(name + HeaderSuffix, HeaderSuffix) == name <==> name[0] !in HeaderSuffix
  {
    if name[0] !in HeaderSuffix {
      assert Text.StripLeft(name + HeaderSuffix, HeaderSuffix) == name + HeaderSuffix;
      StripRightOfSuffix(name);
    } else {
      StripOverStrips(name);
    }
  }

  /** When the name starts with one of `.rfi`, stripping loses that character. */
  lemma StripOverStrips(name: string)
    requires name != [] && Text.IsDigit(name[|name| - 1]) && name[0] in HeaderSuffix
    ensures Text.Strip(name + HeaderSuffix, HeaderSuffix) != name
  {
    var base := name + HeaderSuffix;
    assert base[0] in HeaderSuffix;
  }

  /** Stripping `.rfi` characters from the right of `name + ".rfi"` stops at a last character outside them. */
  lemma StripRightOfSuffix(name: string)
    requires name != [] && name[|name| - 1] !in HeaderSuffix
    ensures Text.StripRight(name + HeaderSuffix, HeaderSuffix) == name
  {
    var s := name + HeaderSuffix;
    var t := Text.StripRight(s, HeaderSuffix);
    assert s[|name| - 1] == name[|name| - 1];
    assert t == s[..|name|] == name;
  }

  /**
   * A concrete file name on which the id as written loses the start of the
   * tag: for `out//fridge_1.5_7.rfi` it is not the scan name `fridge_1.5_7`
   * (it is `dge_1.5_7`), while the intended id is.
   */
  lemma ScanIdAsWrittenLosesTagStart()
    ensures ScanIdAsWritten(HeaderFileName(Stem("out/", "fridge", "1.5", 7))) != ScanName("fridge", "1.5", 7)
    ensures ScanIdAsWritten(HeaderFileName(Stem("out/", "fridge", "1.5", 7))) == "dge_1.5_7"
    ensures ScanId(HeaderFileName(Stem("out/", "fridge", "1.5", 7))) == ScanName("fridge", "1.5", 7)
  {
    ScanIdAsWrittenAgreesIff("out/", "fridge", "1.5", 7);
    ScanIdOfHeaderFile("out/", "fridge", "1.5", 7);
    assert ScanName("fridge", "1.5", 7)[0] == 'f';
    ScanIdAsWrittenOfHeaderFile("out/", "fridge", "1.5", 7);
    StripLeftOfFridge();
  }

  /** `"fridge_1.5_7".lstrip(".rfi")`, one dropped character at a time. */
  lemma StripLeftOfFridge()
    ensures Text.StripLeft(ScanName("fridge", "1.5", 7), HeaderSuffix) == "dge_1.5_7"
  {
    assert Text.IntToString(7) == "7";
    assert ScanName("fridge", "1.5", 7) == "fridge_1.5_7";
    assert HeaderSuffix == ['.', 'r', 'f', 'i'];
    assert "dge_1.5_7"[0] !in HeaderSuffix;
    assert Text.StripLeft("dge_1.5_7", HeaderSuffix) == "dge_1.5_7";
    assert "idge_1.5_7"[1..] == "dge_1.5_7";
    assert Text.StripLeft("idge_1.5_7", HeaderSuffix) == "dge_1.5_7";
    assert "ridge_1.5_7"[1..] == "idge_1.5_7";
    assert Text.StripLeft("ridge_1.5_7", HeaderSuffix) == "dge_1.5_7";
    assert "fridge_1.5_7"[1..] == "ridge_1.5_7";
  }

  /**
   * Of a header file name, the id as written is the scan name with its
   * leading `.`, `r`, `f` and `i` characters dropped: the extension is
   * stripped off the end, and nothing more, because the timestamp ends the
   * name with a digit.
   */
  lemma ScanIdAsWrittenOfHeaderFile(outputDir: string, tag: string, freqLabel: string, timestamp: int)
    requires NoSlash(tag) && NoSlash(freqLabel)
    ensures ScanIdAsWritten(HeaderFileName(Stem(outputDir, tag, freqLabel, timestamp))) ==
      Text.StripLeft(ScanName(tag, freqLabel, timestamp), HeaderSuffix)
  {
    ScanNameShape(tag, freqLabel, timestamp);
    BaseOfHeaderFile(outputDir, tag, freqLabel, timestamp);
    StripOfSuffixed(ScanName(tag, freqLabel, timestamp));
  }

  /** `(name + ".rfi").strip(".rfi")` is `name.lstrip(".rfi")` when the name ends in a digit. */
  lemma StripOfSuffixed(name: string)
    requires name != [] && Text.IsDigit(name[|name| - 1])
    ensures Text.Strip(name + HeaderSuffix, HeaderSuffix) == Text.StripLeft(name, HeaderSuffix)
  {
    DigitOutsideSuffix(name[|name| - 1]);
    Text.EachIn(HeaderSuffix);
    Text.StripOfAppended(name, HeaderSuffix, HeaderSuffix);
  }

  /** No digit is one of the characters `.rfi`. */
  lemma DigitOutsideSuffix(c: char)
    requires Text.IsDigit(c)
    ensures c !in HeaderSuffix
  {
    assert HeaderSuffix == ['.', 'r', 'f', 'i'];
  }

  /** Header keys, as the instrument software reads them. */
  const CentreKey: string := "Center Frequency in Hz"
  const AnalysisCentreKey: string := "Analysis Center Frequency in Hz"
  const BandwidthKey: string := "Bandwidth in Hz"
  const AnalysisBandwidthKey: string := "Analysis Bandwidth in Hz"
  const NchansKey: string := "Number of Channels"
  const SpacingKey: string := "Frequency Spacing"
  const IntegrationKey: string := "Integration time in milliseconds"
  const ScanIdKey: string := "Unique Scan ID"
  const TimestampKey: string := "Timestamp"
  const NameKey: string := "User Friendly Name"

  /**
   * The dict literal of `write_header`, entry by entry and in its order: the
   * centre frequency and the bandwidth are written twice with the same value.
   * `bandwidth` is what the caller passes, the sampling rate; the analysis
   * bandwidth is queried from the instrument.  Seconds become milliseconds.
   */
  function FixedEntries(scanId: string, centre: real, bandwidth: real, analysisBandwidth: real,
                        totalNchans: int, integrationTime: real, timestamp: int, tag: string): (e: seq<Field>)
    ensures |e| == 12 && e[4] == e[0] && e[5] == e[2]
    ensures e[9] == Field(ScanIdKey, JString(scanId)) && e[11] == Field(NameKey, JString(tag))
  {
    [ Field(CentreKey, JNumber(centre)),
      Field(AnalysisCentreKey, JNumber(centre)),
      Field(BandwidthKey, JNumber(bandwidth)),
      Field(AnalysisBandwidthKey, JNumber(analysisBandwidth)),
      Field(CentreKey, JNumber(centre)),
      Field(BandwidthKey, JNumber(bandwidth)),
      Field(NchansKey, JInt(totalNchans)),
      Field(SpacingKey, JString("uniform")),
      Field(IntegrationKey, JNumber(integrationTime * 1000.0)),
      Field(ScanIdKey, JString(scanId)),
      Field(TimestampKey, JInt(timestamp)),
      Field(NameKey, JString(tag)) ]
  }

  /**
   * The header `write_header` dumps: the literal, then the configured extra
   * fields.  The ten fixed keys come first and in order, no key appears
   * twice, a configured field wins over the literal, and the scan id is the
   * one of the header file's name unless a configured field replaces it.
   */
  function HeaderFor(fname: string, centre: real, bandwidth: real, analysisBandwidth: real,
                     totalNchans: int, integrationTime: real, timestamp: int, tag: string,
                     extra: seq<Field>): (h: Dict)
    ensures FixedKeys <= Keys(h) && Distinct(Keys(h))
    ensures forall key :: LastValue(extra, key).Some? ==> Get(h, key) == LastValue(extra, key)
    ensures LastValue(extra, ScanIdKey).None? ==> Get(h, ScanIdKey) == Some(JString(ScanId(fname)))
  {
    var fixed := Overlay([], FixedEntries(ScanId(fname), centre, bandwidth, analysisBandwidth, totalNchans,
                                          integrationTime, timestamp, tag));
    FixedHeaderScanId(ScanId(fname), centre, bandwidth, analysisBandwidth, totalNchans,
                      integrationTime, timestamp, tag);
    OverlayOnFixed(fixed, ScanId(fname), extra);
    Overlay(fixed, extra)
  }

  /** The fixed header has the ten fixed keys, and its scan id is the given one. */
  lemma FixedHeaderScanId(scanId: string, centre: real, bandwidth: real, analysisBandwidth: real,
                          totalNchans: int, integrationTime: real, timestamp: int, tag: string)
    ensures var fixed := Overlay([], FixedEntries(scanId, centre, bandwidth, analysisBandwidth, totalNchans,
                                                  integrationTime, timestamp, tag));
      Keys(fixed) == FixedKeys && Get(fixed, ScanIdKey) == Some(JString(scanId))
  {
    var e := FixedEntries(scanId, centre, bandwidth, analysisBandwidth, totalNchans, integrationTime, timestamp, tag);
    FixedEntriesKeys(scanId, centre, bandwidth, analysisBandwidth, totalNchans, integrationTime, timestamp, tag);
    OverlayOfFixedKeys(e);
    KeptKeys(e);
    var fixed := e[..4] + e[6..];
    assert fixed[7] == e[9];
    GetDistinct(fixed, 7);
  }

  /** In a dict with distinct keys, each field's key looks up that field's value. */
  lemma {:induction false} GetDistinct(d: Dict, i: nat)
    requires i < |d| && Distinct(Keys(d))
    ensures Get(d, d[i].key) == Some(d[i].value)
  {
    if i > 0 {
      assert Keys(d)[0] != Keys(d)[i];
      assert Keys(d[1..]) == Keys(d)[1..];
      GetDistinct(d[1..], i - 1);
    }
  }

  /** What the overlay of the configured fields keeps of the fixed header. */
  lemma OverlayOnFixed(fixed: Dict, scanId: string, extra: seq<Field>)
    requires Keys(fixed) == FixedKeys && Get(fixed, ScanIdKey) == Some(JString(scanId))
    ensures FixedKeys <= Keys(Overlay(fixed, extra)) && Distinct(Keys(Overlay(fixed, extra)))
    ensures forall key :: LastValue(extra, key).Some? ==> Get(Overlay(fixed, extra), key) == LastValue(extra, key)
    ensures LastValue(extra, ScanIdKey).None? ==> Get(Overlay(fixed, extra), ScanIdKey) == Some(JString(scanId))
  {
    FixedKeysDistinct();
    OverlayKeys(fixed, extra);
    forall key | LastValue(extra, key).Some?
      ensures Get(Overlay(fixed, extra), key) == LastValue(extra, key)
    {
      OverlayGet(fixed, extra, key);
    }
    OverlayGet(fixed, extra, ScanIdKey);
  }

  lemma {:induction false} PutNew(d: Dict, key: string, value: JsonValue)
    requires key !in Keys(d)
    ensures Put(d, key, value) == d + [Field(key, value)]
  {
    if d != [] {
      assert d[0].key != key && key !in Keys(d[1..]) by {
        assert Keys(d) == [d[0].key] + Keys(d[1..]);
      }
      PutNew(d[1..], key, value);
      var f := Field(key, value);
      assert d == [d[0]] + d[1..];
      assert [d[0]] + d[1..] + [f] == [d[0]] + (d[1..] + [f]);
    }
  }

  lemma {:induction false} PutSame(d: Dict, i: nat, key: string, value: JsonValue)
    requires i < |d| && d[i] == Field(key, value)
    requires forall j :: 0 <= j < i ==> d[j].key != key
    ensures Put(d, key, value) == d
  {
    if i > 0 {
      PutSame(d[1..], i - 1, key, value);
      assert d == [d[0]] + d[1..];
    }
  }

  lemma OverlayStep(d: Dict, fields: seq<Field>, k: nat)
    requires k < |fields|
    ensures Overlay(d, fields[..k + 1]) == Put(Overlay(d, fields[..k]), fields[k].key, fields[k].value)
  {
    assert fields[..k + 1][..k] == fields[..k];
  }

  /** Overlaying `a + b` is overlaying `a`, then `b`. */
  lemma {:induction false} OverlayConcat(d: Dict, a: seq<Field>, b: seq<Field>)
    ensures Overlay(d, a + b) == Overlay(Overlay(d, a), b)
  {
    if b == [] {
      assert a + b == a;
    } else {
      var init := b[..|b| - 1];
      OverlayConcat(d, a, init);
      assert (a + b)[..|a + b| - 1] == a + init;
    }
  }

  /** Fields whose keys are all new, and distinct, are appended in order. */
  lemma {:induction false} OverlayFresh(d: Dict, fields: seq<Field>)
    requires forall i :: 0 <= i < |fields| ==> fields[i].key !in Keys(d)
    requires Distinct(Keys(fields))
    ensures Overlay(d, fields) == d + fields
  {
    if fields != [] {
      var init := fields[..|fields| - 1];
      var last := fields[|fields| - 1];
      FreshSplit(d, fields);
      OverlayFresh(d, init);
      OverlayLastFresh(d, fields);
    }
  }

  /** Overlaying a last field with a new key appends it. */
  lemma OverlayLastFresh(d: Dict, fields: seq<Field>)
    requires fields != []
    requires Overlay(d, fields[..|fields| - 1]) == d + fields[..|fields| - 1]
    requires fields[|fields| - 1].key !in Keys(d + fields[..|fields| - 1])
    ensures Overlay(d, fields) == d + fields
  {
    var init := fields[..|fields| - 1];
    var last := fields[|fields| - 1];
    AppendFresh(d + init, last);
    Seqs.SplitLast(fields);
    Seqs.AppendAssociates(d, init, [last]);
  }

  /** A field with a new key is appended. */
  lemma AppendFresh(p: Dict, last: Field)
    requires last.key !in Keys(p)
    ensures Put(p, last.key, last.value) == p + [last]
  {
    PutNew(p, last.key, last.value);
  }

  /** Dropping the last of fresh, distinct fields leaves fresh, distinct fields, and the last is new. */
  lemma FreshSplit(d: Dict, fields: seq<Field>)
    requires fields != []
    requires forall i :: 0 <= i < |fields| ==> fields[i].key !in Keys(d)
    requires Distinct(Keys(fields))
    ensures var init := fields[..|fields| - 1];
      && (forall i :: 0 <= i < |init| ==> init[i].key !in Keys(d))
      && Distinct(Keys(init))
      && fields[|fields| - 1].key !in Keys(d + init)
  {
    var init := fields[..|fields| - 1];
    var last := fields[|fields| - 1];
    var ks, kinit := Keys(fields), Keys(init);
    assert forall i :: 0 <= i < |init| ==> kinit[i] == ks[i];
    assert last.key !in kinit by {
      assert forall i :: 0 <= i < |init| ==> kinit[i] != ks[|fields| - 1];
    }
    KeysConcat(d, init);
  }

  /**
   * The literal yields ten keys in order of first appearance, each with the
   * last value written for it; "Bandwidth in Hz" holds the sampling rate.
   */
  lemma FixedHeader(scanId: string, centre: real, bandwidth: real, analysisBandwidth: real,
                    totalNchans: int, integrationTime: real, timestamp: int, tag: string)
    ensures Overlay([], FixedEntries(scanId, centre, bandwidth, analysisBandwidth, totalNchans,
                                     integrationTime, timestamp, tag)) ==
      [ Field(CentreKey, JNumber(centre)),
        Field(AnalysisCentreKey, JNumber(centre)),
        Field(BandwidthKey, JNumber(bandwidth)),
        Field(AnalysisBandwidthKey, JNumber(analysisBandwidth)),
        Field(NchansKey, JInt(totalNchans)),
        Field(SpacingKey, JString("uniform")),
        Field(IntegrationKey, JNumber(integrationTime * 1000.0)),
        Field(ScanIdKey, JString(scanId)),
        Field(TimestampKey, JInt(timestamp)),
        Field(NameKey, JString(tag)) ]
  {
    var e := FixedEntries(scanId, centre, bandwidth, analysisBandwidth, totalNchans, integrationTime, timestamp, tag);
    FixedEntriesKeys(scanId, centre, bandwidth, analysisBandwidth, totalNchans, integrationTime, timestamp, tag);
    OverlayOfFixedKeys(e);
  }

  lemma FixedEntriesKeys(scanId: string, centre: real, bandwidth: real, analysisBandwidth: real,
                         totalNchans: int, integrationTime: real, timestamp: int, tag: string)
    ensures var e := FixedEntries(scanId, centre, bandwidth, analysisBandwidth, totalNchans, integrationTime, timestamp, tag);
      e[4] == e[0] && e[5] == e[2] && Distinct(Keys(e[..4] + e[6..]))
  {
    KeptKeys(FixedEntries(scanId, centre, bandwidth, analysisBandwidth, totalNchans, integrationTime, timestamp, tag));
    FixedKeysDistinct();
  }

  /** Without the two repeats, the literal's keys are the ten fixed keys in order. */
  lemma KeptKeys(e: seq<Field>)
    requires |e| == 12
    requires e[0].key == CentreKey && e[1].key == AnalysisCentreKey && e[2].key == BandwidthKey
    requires e[3].key == AnalysisBandwidthKey && e[6].key == NchansKey && e[7].key == SpacingKey
    requires e[8].key == IntegrationKey && e[9].key == ScanIdKey && e[10].key == TimestampKey
    requires e[11].key == NameKey
    ensures Keys(e[..4] + e[6..]) == FixedKeys
  {
    var kept := e[..4] + e[6..];
    assert forall i :: 0 <= i < 4 ==> kept[i] == e[i];
    assert forall i :: 4 <= i < 10 ==> kept[i] == e[i + 2];
    assert forall i :: 0 <= i < 10 ==> Keys(kept)[i] == FixedKeys[i];
  }

  /** The ten keys of the fixed header, in order. */
  const FixedKeys: seq<string> := [CentreKey, AnalysisCentreKey, BandwidthKey, AnalysisBandwidthKey,
                                   NchansKey, SpacingKey, IntegrationKey, ScanIdKey, TimestampKey, NameKey]

  lemma FixedKeysDistinct()
    ensures Distinct(FixedKeys)
  {
  }

  lemma KeysConcat(a: Dict, b: Dict)
    ensures Keys(a + b) == Keys(a) + Keys(b)
  {
  }

  lemma DistinctSplit(a: seq<string>, b: seq<string>)
    requires Distinct(a + b)
    ensures Distinct(a) && Distinct(b)
    ensures forall i :: 0 <= i < |b| ==> b[i] !in a
  {
    forall i, j | 0 <= i < j < |b|
      ensures b[i] != b[j]
    {
      assert (a + b)[|a| + i] == b[i] && (a + b)[|a| + j] == b[j];
    }
    forall i | 0 <= i < |b|
      ensures b[i] !in a
    {
      forall k | 0 <= k < |a|
        ensures a[k] != b[i]
      {
        assert (a + b)[k] == a[k] && (a + b)[|a| + i] == b[i];
      }
    }
    forall i, j | 0 <= i < j < |a|
      ensures a[i] != a[j]
    {
      assert (a + b)[i] == a[i] && (a + b)[j] == a[j];
    }
  }

  /** Overlaying a field already present with the same value changes nothing. */
  lemma OverlayRepeat(e: seq<Field>, k: nat, d: Dict, i: nat)
    requires k < |e| && Overlay([], e[..k]) == d
    requires i < |d| && d[i] == e[k] && forall j :: 0 <= j < i ==> d[j].key != e[k].key
    ensures Overlay([], e[..k + 1]) == d
  {
    OverlayStep([], e, k);
    PutSame(d, i, e[k].key, e[k].value);
  }

  /** The first six entries: four new keys, then two repeats of values already there. */
  lemma OverlayOfFixedPrefix(e: seq<Field>)
    requires |e| >= 6 && e[4] == e[0] && e[5] == e[2] && Distinct(Keys(e[..4]))
    ensures Overlay([], e[..6]) == e[..4]
  {
    var d := e[..4];
    OverlayFresh([], d);
    OverlayRepeat(e, 4, d, 0);
    assert Keys(d)[0] != Keys(d)[2] && Keys(d)[1] != Keys(d)[2];
    OverlayRepeat(e, 5, d, 2);
  }

  /** Twelve entries whose fifth and sixth repeat the first and third, the rest all distinct keys. */
  lemma OverlayOfFixedKeys(e: seq<Field>)
    requires |e| == 12 && e[4] == e[0] && e[5] == e[2]
    requires Distinct(Keys(e[..4] + e[6..]))
    ensures Overlay([], e) == e[..4] + e[6..]
  {
    var d, rest := e[..4], e[6..];
    KeysConcat(d, rest);
    DistinctSplit(Keys(d), Keys(rest));
    OverlayOfFixedPrefix(e);
    OverlayFresh(d, rest);
    OverlayConcat([], e[..6], rest);
    assert e[..6] + rest == e;
  }
}

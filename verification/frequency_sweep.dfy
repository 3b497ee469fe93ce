/**
 * The centre-frequency sweep of `Measurement.get_centre_frequencies`:
 * starting half an analysis bandwidth above the band start, one centre per
 * bandwidth step, until the upper edge of the current step lies strictly
 * above the band end.  Frequencies are exact reals in Hz.
 */
module FrequencySweep {

  /** The k-th centre (0-based): `start + bandwidth/2 + k * bandwidth`. */
  function Centre(start: real, bandwidth: real, k: nat): real
  {
    start + bandwidth / 2.0 + (k as real) * bandwidth
  }

  /**
   * How many centres the sweep produces: the smallest n >= 1 for which the
   * upper edge `start + n * bandwidth` of the n-th step lies above `end`.
   */
  function SweepLength(start: real, end: real, bandwidth: real): nat
    requires bandwidth > 0.0
  {
    var q := ((end - start) / bandwidth).Floor;
    if q < 0 then 1 else q + 1
  }

  /** The sweep as a sequence: the specification of `CentreFrequencies`. */
  function Centres(start: real, end: real, bandwidth: real): seq<real>
    requires bandwidth > 0.0
  {
    seq(SweepLength(start, end, bandwidth), k requires k >= 0 => Centre(start, bandwidth, k))
  }

  lemma ScaleMonotone(a: real, b: real, c: real)
    requires a <= b && c > 0.0
    ensures a * c <= b * c
  {
  }

  lemma ScaleStrict(a: real, b: real, c: real)
    requires a < b && c > 0.0
    ensures a * c < b * c
  {
  }

  /** SweepLength is the first n >= 1 whose step ends above `end`, and every n past it does too. */
  lemma SweepLengthIsSmallest(start: real, end: real, bandwidth: real, n: nat)
    requires bandwidth > 0.0 && n >= 1
    ensures start + (n as real) * bandwidth > end <==> n >= SweepLength(start, end, bandwidth)
  {
    var len := SweepLength(start, end, bandwidth);
    var x := (end - start) / bandwidth;
    assert x * bandwidth == end - start;
    if n >= len {
      // n > x, since len - 1 is at least the floor of x
      assert (n as real) > x;
      assert (n as real) * bandwidth > x * bandwidth by {
        assert ((n as real) - x) * bandwidth > 0.0;
      }
    } else {
      // n <= floor(x) <= x
      assert (n as real) <= x;
      ScaleMonotone(n as real, x, bandwidth);
    }
  }

  lemma CentreStep(start: real, bandwidth: real, k: nat)
    ensures Centre(start, bandwidth, k + 1) == Centre(start, bandwidth, k) + bandwidth
  {
    assert ((k + 1) as real) * bandwidth == (k as real) * bandwidth + bandwidth;
  }

  /**
   * The loop of `get_centre_frequencies`.  It terminates because the
   * bandwidth is positive: each pass moves the upper edge one bandwidth up.
   */
  method CentreFrequencies(start: real, end: real, bandwidth: real) returns (centres: seq<real>)
    requires bandwidth > 0.0
    ensures centres == Centres(start, end, bandwidth)
  {
    var frequency := start;
    frequency := frequency + bandwidth / 2.0;
    centres := [frequency];
    while true
      invariant 1 <= |centres| <= SweepLength(start, end, bandwidth)
      invariant forall k :: 0 <= k < |centres| ==> centres[k] == Centre(start, bandwidth, k)
      invariant frequency == Centre(start, bandwidth, |centres| - 1)
      decreases SweepLength(start, end, bandwidth) - |centres|
    {
      var n := |centres|;
      assert frequency + bandwidth / 2.0 == start + (n as real) * bandwidth by {
        CentreStep(start, bandwidth, n - 1);
      }
      SweepLengthIsSmallest(start, end, bandwidth, n);
      if frequency + bandwidth / 2.0 > end {
        break;
      }
      CentreStep(start, bandwidth, n - 1);
      frequency := frequency + bandwidth;
      centres := centres + [frequency];
    }
  }

  /**
   * The sweep is never empty, starts half a bandwidth above `start`, and each
   * later centre is exactly one bandwidth above the one before.
   */
  lemma SweepSteps(start: real, end: real, bandwidth: real)
    requires bandwidth > 0.0
    ensures |Centres(start, end, bandwidth)| >= 1
    ensures Centres(start, end, bandwidth)[0] == start + bandwidth / 2.0
    ensures forall k :: 0 < k < |Centres(start, end, bandwidth)| ==>
      Centres(start, end, bandwidth)[k] == Centres(start, end, bandwidth)[k - 1] + bandwidth
  {
    var cs := Centres(start, end, bandwidth);
    forall k | 0 < k < |cs|
      ensures cs[k] == cs[k - 1] + bandwidth
    {
      CentreStep(start, bandwidth, k - 1);
    }
  }

  /** Every step but the last ends at or below `end`; the last ends above it. */
  lemma SweepUpperEdges(start: real, end: real, bandwidth: real)
    requires bandwidth > 0.0
    ensures forall k :: 0 <= k < |Centres(start, end, bandwidth)| - 1 ==>
      Centres(start, end, bandwidth)[k] + bandwidth / 2.0 <= end
    ensures var cs := Centres(start, end, bandwidth); cs[|cs| - 1] + bandwidth / 2.0 > end
  {
    var cs := Centres(start, end, bandwidth);
    forall k | 0 <= k < |cs| - 1
      ensures cs[k] + bandwidth / 2.0 <= end
    {
      CentreStep(start, bandwidth, k);
      SweepLengthIsSmallest(start, end, bandwidth, k + 1);
    }
    CentreStep(start, bandwidth, |cs| - 1);
    SweepLengthIsSmallest(start, end, bandwidth, |cs|);
  }

  /** The sweep's centres strictly increase. */
  lemma SweepIncreasing(start: real, end: real, bandwidth: real, i: nat, j: nat)
    requires bandwidth > 0.0 && i < j < |Centres(start, end, bandwidth)|
    ensures Centres(start, end, bandwidth)[i] < Centres(start, end, bandwidth)[j]
  {
    assert ((j - i) as real) * bandwidth > 0.0;
    assert (j as real) * bandwidth == (i as real) * bandwidth + ((j - i) as real) * bandwidth;
  }

  /** `f` lies in the step of width `bandwidth` centred on `centre`. */
  predicate InStep(centre: real, bandwidth: real, f: real)
  {
    centre - bandwidth / 2.0 <= f <= centre + bandwidth / 2.0
  }

  /** The whole number of steps from `start` to `f`, and the step that holds `f`. */
  lemma FloorBracket(start: real, bandwidth: real, f: real)
    requires bandwidth > 0.0 && start <= f
    ensures var k := ((f - start) / bandwidth).Floor;
      k >= 0 && start + (k as real) * bandwidth <= f < start + (k as real) * bandwidth + bandwidth
  {
    var y := (f - start) / bandwidth;
    assert y * bandwidth == f - start;
    FloorScaled(y, bandwidth, f - start);
  }

  /** For d == y * c with c > 0: floor(y) steps of c reach at most d, one more step passes it. */
  lemma FloorScaled(y: real, c: real, d: real)
    requires y >= 0.0 && c > 0.0 && y * c == d
    ensures var k := y.Floor; k >= 0 && (k as real) * c <= d < (k as real) * c + c
  {
    var k := y.Floor;
    var z := y - (k as real);
    assert 0.0 <= z < 1.0;
    assert (k as real) + z == y;
    ScaleSum(k as real, z, c);
    assert d == (k as real) * c + z * c;
    ScaleMonotone(0.0, z, c);
    ScaleStrict(z, 1.0, c);
    assert 0.0 * c == 0.0 && 1.0 * c == c;
    assert z * c < c;
    assert d < (k as real) * c + c;
  }

  lemma ScaleSum(a: real, b: real, c: real)
    ensures (a + b) * c == a * c + b * c
  {
  }

  /**
   * The steps tile the band: every frequency in [start, end] lies within
   * half a bandwidth of some centre of the sweep.
   */
  lemma SweepCoversBand(start: real, end: real, bandwidth: real, f: real)
    requires bandwidth > 0.0 && start <= f <= end
    ensures exists k :: 0 <= k < |Centres(start, end, bandwidth)| && InStep(Centres(start, end, bandwidth)[k], bandwidth, f)
  {
    var k := ((f - start) / bandwidth).Floor;
    FloorBracket(start, bandwidth, f);
    var len := SweepLength(start, end, bandwidth);
    if k >= 1 {
      // the step below k ends at or below f <= end, so the sweep reaches k
      SweepLengthIsSmallest(start, end, bandwidth, k);
    }
    assert k < len;
    var cs := Centres(start, end, bandwidth);
    assert cs[k] == start + bandwidth / 2.0 + (k as real) * bandwidth;
    assert InStep(cs[k], bandwidth, f);
  }

  /**
   * A band a whole number of steps wide gets one more step, starting exactly
   * at `end`: from 0 to 80 in steps of 40 the centres are 20, 60 and 100.
   */
  lemma WholeBandAddsStepAtEnd()
    ensures Centres(0.0, 80.0, 40.0) == [20.0, 60.0, 100.0]
    ensures Centres(0.0, 80.0, 40.0)[2] - 40.0 / 2.0 == 80.0
  {
    assert SweepLength(0.0, 80.0, 40.0) == 3;
  }

  /**
   * No band starts below `start`, and every band after the first starts at or
   * below `end` (the last one exactly at `end` when the band is a whole number
   * of steps wide).
   */
  lemma SweepLowerEdges(start: real, end: real, bandwidth: real)
    requires bandwidth > 0.0
    ensures forall k :: 0 <= k < |Centres(start, end, bandwidth)| ==>
      Centres(start, end, bandwidth)[k] - bandwidth / 2.0 >= start
    ensures forall k :: 0 < k < |Centres(start, end, bandwidth)| ==>
      Centres(start, end, bandwidth)[k] - bandwidth / 2.0 <= end
  {
    var cs := Centres(start, end, bandwidth);
    forall k | 0 <= k < |cs|
      ensures cs[k] - bandwidth / 2.0 >= start
    {
      assert (k as real) * bandwidth >= 0.0;
    }
    forall k | 0 < k < |cs|
      ensures cs[k] - bandwidth / 2.0 <= end
    {
      SweepLengthIsSmallest(start, end, bandwidth, k);
    }
  }
}

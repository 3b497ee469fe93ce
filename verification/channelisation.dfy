/**
 * The channelisation arithmetic of `Executor.run_measurement`: the second
 * stage FFT length rounded to a power of two and capped at 2^28, the number
 * of spectra to accumulate, the resulting resolution and integration time,
 * and the total channel count.  Quantities are unit-free reals (Hz, seconds).
 */
module Channelisation {
  import opened Wrappers

  /** `MAX_FFT_LENGTH = 1<<28`. */
  const MaxFftLength: nat := 0x1000_0000

  function Pow2(k: nat): (p: nat)
    ensures p >= 1
  {
    if k == 0 then 1 else 2 * Pow2(k - 1)
  }

  ghost predicate IsPowerOfTwo(n: int)
  {
    exists k: nat :: n == Pow2(k)
  }

  lemma {:induction false} Pow2Monotone(i: nat, j: nat)
    requires i <= j
    ensures Pow2(i) <= Pow2(j)
  {
    if i < j {
      Pow2Monotone(i, j - 1);
    }
  }

  /** The number of binary digits of `m`; zero has none. */
  function BitLen(m: nat): (b: nat)
    ensures m == 0 <==> b == 0
    ensures m > 0 ==> Pow2(b - 1) <= m < Pow2(b)
  {
    if m == 0 then 0 else 1 + BitLen(m / 2)
  }

  /** Python's `int.bit_length()`: the binary digits of `|n|`. */
  function BitLength(n: int): (b: nat)
    ensures n == 0 <==> b == 0
    ensures n != 0 ==> Pow2(b - 1) <= (if n < 0 then -n else n) < Pow2(b)
  {
    BitLen(if n < 0 then -n else n)
  }

  /**
   * `2**((n-1).bit_length())`.  For n >= 1 this is the smallest power of two
   * at least n; for n == 0 the bit length of -1 is 1, so the result is 2.
   */
  function RoundUpPowerOfTwo(n: int): (p: nat)
    ensures IsPowerOfTwo(p)
    ensures n >= 1 ==> n <= p && (p == 1 || p / 2 < n)
    ensures n == 0 ==> p == 2
  {
    var b := BitLength(n - 1);
    assert Pow2(b) == Pow2(b);
    Pow2(b)
  }

  /** No power of two at least n is below the rounded length. */
  lemma RoundUpIsSmallest(n: int, k: nat)
    requires n >= 1 && Pow2(k) >= n
    ensures RoundUpPowerOfTwo(n) <= Pow2(k)
  {
    var b := BitLength(n - 1);
    if k < b {
      assert BitLength(n - 1) == BitLen(n - 1) && n - 1 > 0;
      Pow2Monotone(k, b - 1);
      assert false;
    } else {
      Pow2Monotone(b, k);
    }
  }

  /** Python's `int(x)` on a finite float: truncation toward zero. */
  function Trunc(x: real): (i: int)
    ensures x >= 0.0 ==> 0 <= i && (i as real) <= x < (i as real) + 1.0
    ensures x < 0.0 ==> i <= 0 && (i as real) - 1.0 < x <= i as real
  {
    if x >= 0.0 then x.Floor else -((-x).Floor)
  }

  /** `np.ceil(x)`: the smallest integer at least x. */
  function Ceil(x: real): (c: int)
    ensures (c as real) - 1.0 < x <= c as real
  {
    -((-x).Floor)
  }

  lemma DivTimes(a: real, b: real)
    requires b != 0.0
    ensures (a / b) * b == a
  {
  }

  lemma DivPositive(a: real, b: real)
    requires a > 0.0 && b > 0.0
    ensures a / b > 0.0
  {
  }

  lemma RatioAtLeastOne(a: real, b: real)
    requires b > 0.0 && a >= b
    ensures a / b >= 1.0
  {
    DivTimes(a, b);
    assert (a / b) * b >= 1.0 * b;
  }

  lemma DivNonZero(a: real, b: real)
    requires a != 0.0 && b != 0.0
    ensures a / b != 0.0
  {
  }

  lemma {:induction false} Pow2Add(i: nat, j: nat)
    ensures Pow2(i + j) == Pow2(i) * Pow2(j)
  {
    if i > 0 {
      Pow2Add(i - 1, j);
    }
  }

  lemma Pow2Of28()
    ensures Pow2(28) == MaxFftLength
  {
    assert Pow2(7) == 128;
    Pow2Add(7, 7);
    Pow2Add(14, 14);
  }

  datatype PlanError =
    | NonFiniteLength         // a zero divisor makes the float length infinite; int() raises
    | FftTooLong(length: nat) // "Resolution exceeds maximum FFT length"

  datatype ChannelPlan = ChannelPlan(
    channelBandwidth: real,
    fftLength: nat,
    actualResolution: real,
    naccumulate: int,
    actualIntegrationTime: real,
    totalNchans: int)

  /**
   * The FFT length before the cap: a power of two; when the channel is at
   * least as wide as the resolution, the least power of two at least the
   * whole number of resolutions per channel.
   */
  function FftLength(channelBandwidth: real, resolution: real): (l: nat)
    requires resolution != 0.0
    ensures IsPowerOfTwo(l) && l >= 1
    ensures channelBandwidth / resolution >= 1.0 ==>
      var raw := (channelBandwidth / resolution).Floor;
      raw <= l && (l == 1 || l / 2 < raw)
  {
    RoundUpPowerOfTwo(Trunc(channelBandwidth / resolution))
  }

  /**
   * The arithmetic of lines 413-440: `channel_bandwidth = sampling_rate /
   * first_stage_nchans`, the truncated ratio to the desired resolution rounded
   * up to a power of two, rejected above `MAX_FFT_LENGTH`, then
   * `naccumulate = ceil(integration_time * actual_resolution)`.
   */
  function PlanChannels(samplingRate: real, firstStageNchans: int, resolution: real, integrationTime: real)
    : (r: Result<ChannelPlan, PlanError>)
    requires samplingRate != 0.0
    ensures r.Success? ==> IsPowerOfTwo(r.value.fftLength) && 1 <= r.value.fftLength <= MaxFftLength
    ensures r.Success? ==> r.value.totalNchans == firstStageNchans * r.value.fftLength
    ensures r.Failure? ==> (firstStageNchans == 0 || resolution == 0.0 <==> r.error == NonFiniteLength)
  {
    if firstStageNchans == 0 || resolution == 0.0 then Failure(NonFiniteLength)
    else
      var channelBandwidth := samplingRate / (firstStageNchans as real);
      var fftLength := FftLength(channelBandwidth, resolution);
      if fftLength > MaxFftLength then Failure(FftTooLong(fftLength))
      else
        DivNonZero(samplingRate, firstStageNchans as real);
        Success(Accumulation(channelBandwidth, fftLength, firstStageNchans, integrationTime))
  }

  /**
   * The plan once the FFT length is fixed: the FFT splits each first-stage
   * channel into `fftLength` channels of the actual resolution, the actual
   * integration time is `naccumulate` spectra of that resolution, and there
   * are `fftLength` channels per first-stage channel.  The integration time
   * is in seconds.
   */
  function Accumulation(channelBandwidth: real, fftLength: nat, firstStageNchans: int, integrationTime: real): (p: ChannelPlan)
    requires channelBandwidth != 0.0 && fftLength >= 1
    ensures p.channelBandwidth == channelBandwidth && p.fftLength == fftLength
    ensures p.actualResolution != 0.0 && p.actualResolution * (fftLength as real) == channelBandwidth
    ensures p.actualIntegrationTime * p.actualResolution == p.naccumulate as real
    ensures p.totalNchans == firstStageNchans * fftLength
  {
    var actualResolution := channelBandwidth / (fftLength as real);
    assert actualResolution != 0.0 by {
      DivNonZero(channelBandwidth, fftLength as real);
    }
    var naccumulate := Ceil(integrationTime * actualResolution);
    DivTimes(channelBandwidth, fftLength as real);
    DivTimes(naccumulate as real, actualResolution);
    ChannelPlan(channelBandwidth, fftLength, actualResolution, naccumulate,
                (naccumulate as real) / actualResolution, firstStageNchans * fftLength)
  }

  /**
   * With a positive channel count and resolution, the plan is rejected
   * exactly when the truncated length `floor(channel_bandwidth / resolution)`
   * exceeds 2^28 (2^28 is itself a power of two, so rounding up never pushes
   * a length at most 2^28 over the cap).
   */
  lemma PlanRejectsIff(samplingRate: real, firstStageNchans: int, resolution: real, integrationTime: real)
    requires samplingRate > 0.0 && firstStageNchans > 0 && resolution > 0.0
    ensures PlanChannels(samplingRate, firstStageNchans, resolution, integrationTime).Failure?
        <==> (samplingRate / (firstStageNchans as real) / resolution).Floor > MaxFftLength
  {
    var cb := samplingRate / (firstStageNchans as real);
    var x := cb / resolution;
    assert x > 0.0;
    var raw := Trunc(x);
    assert raw == x.Floor && raw >= 0;
    Pow2Of28();
    if raw >= 1 && raw <= MaxFftLength {
      RoundUpIsSmallest(raw, 28);
    }
  }

  /** The ceiling count of spectra: the least count whose duration covers `t`. */
  lemma CeilingCount(t: real, ar: real, m: int)
    requires ar > 0.0
    ensures var n := Ceil(t * ar);
      && t <= (n as real) / ar < t + 1.0 / ar
      && ((m as real) / ar >= t ==> m >= n)
      && (t > 0.0 ==> n >= 1)
  {
    var n := Ceil(t * ar);
    var d := (n as real) / ar;
    DivTimes(n as real, ar);
    assert d * ar == n as real;
    assert t * ar <= d * ar;
    assert t <= d;
    assert (d - t) * ar < 1.0;
    DivTimes(1.0, ar);
    assert (d - t) * ar < (1.0 / ar) * ar;
    assert d - t < 1.0 / ar;
    if (m as real) / ar >= t {
      DivTimes(m as real, ar);
      assert ((m as real) / ar) * ar >= t * ar;
    }
  }

  /**
   * `naccumulate` is the smallest count of spectra whose duration covers the
   * requested integration time: the actual integration time is at least the
   * request and less than one spectrum longer, no smaller count would do, and
   * a positive request gives at least one spectrum.
   */
  lemma AccumulationCoversIntegrationTime(channelBandwidth: real, fftLength: nat, firstStageNchans: int, integrationTime: real, m: int)
    requires channelBandwidth > 0.0 && fftLength >= 1
    ensures var p := Accumulation(channelBandwidth, fftLength, firstStageNchans, integrationTime);
      && p.actualResolution > 0.0
      && integrationTime <= p.actualIntegrationTime < integrationTime + 1.0 / p.actualResolution
      && ((m as real) / p.actualResolution >= integrationTime ==> m >= p.naccumulate)
      && (integrationTime > 0.0 ==> p.naccumulate >= 1)
  {
    DivPositive(channelBandwidth, fftLength as real);
    CeilingCount(integrationTime, channelBandwidth / (fftLength as real), m);
  }

  /** The same, for a plan the arithmetic of lines 413-440 accepted. */
  lemma PlanCoversIntegrationTime(samplingRate: real, firstStageNchans: int, resolution: real, integrationTime: real, m: int)
    requires samplingRate > 0.0 && firstStageNchans > 0
    requires PlanChannels(samplingRate, firstStageNchans, resolution, integrationTime).Success?
    ensures var p := PlanChannels(samplingRate, firstStageNchans, resolution, integrationTime).value;
      && p.actualResolution > 0.0
      && integrationTime <= p.actualIntegrationTime < integrationTime + 1.0 / p.actualResolution
      && ((m as real) / p.actualResolution >= integrationTime ==> m >= p.naccumulate)
      && (integrationTime > 0.0 ==> p.naccumulate >= 1)
  {
    var cb := samplingRate / (firstStageNchans as real);
    DivPositive(samplingRate, firstStageNchans as real);
    var fft := FftLength(cb, resolution);
    assert PlanChannels(samplingRate, firstStageNchans, resolution, integrationTime).value
        == Accumulation(cb, fft, firstStageNchans, integrationTime);
    AccumulationCoversIntegrationTime(cb, fft, firstStageNchans, integrationTime, m);
  }

  lemma ResolutionBounds(cb: real, resolution: real, fft: nat)
    requires cb > 0.0 && resolution > 0.0 && cb / resolution >= 1.0
    requires (cb / resolution).Floor <= fft < 2 * (cb / resolution).Floor
    ensures resolution / 2.0 < cb / (fft as real) < 2.0 * resolution
  {
    var x := cb / resolution;
    var raw := x.Floor;
    var f := fft as real;
    assert raw >= 1 && (raw as real) > x - 1.0;
    assert x < 2.0 * f < 4.0 * x;
    var ar := cb / f;
    DivTimes(cb, f);
    DivTimes(cb, resolution);
    assert ar * f == x * resolution;
    assert x * resolution < (2.0 * f) * resolution;
    assert ar * f < (2.0 * resolution) * f;
    assert (resolution / 2.0) * (2.0 * f) < (resolution / 2.0) * (4.0 * x);
    assert (resolution / 2.0) * f < ar * f;
  }

  /**
   * What the code guarantees about resolution: when the first-stage channel is
   * at least as wide as the requested resolution, the actual resolution is
   * within a factor of two of the request either way.  It is not always at or
   * below the request, because the ratio is truncated before it is rounded up.
   */
  lemma ActualResolutionWithinFactorTwo(samplingRate: real, firstStageNchans: int, resolution: real, integrationTime: real)
    requires samplingRate > 0.0 && firstStageNchans > 0 && resolution > 0.0
    requires samplingRate / (firstStageNchans as real) >= resolution
    requires PlanChannels(samplingRate, firstStageNchans, resolution, integrationTime).Success?
    ensures var p := PlanChannels(samplingRate, firstStageNchans, resolution, integrationTime).value;
      resolution / 2.0 < p.actualResolution < 2.0 * resolution
  {
    var p := PlanChannels(samplingRate, firstStageNchans, resolution, integrationTime).value;
    var cb := samplingRate / (firstStageNchans as real);
    RatioAtLeastOne(cb, resolution);
    var raw := (cb / resolution).Floor;
    assert Trunc(cb / resolution) == raw;
    assert p.fftLength >= raw && (p.fftLength == 1 || p.fftLength / 2 < raw);
    assert p.actualResolution == cb / (p.fftLength as real);
    ResolutionBounds(cb, resolution, p.fftLength);
  }

  /**
   * A concrete plan where the actual resolution is coarser than requested:
   * 9 Hz channels at a requested 2 Hz give a raw length of int(4.5) == 4,
   * which is already a power of two, so the resolution is 2.25 Hz.
   */
  lemma ActualResolutionCanExceedRequest()
    ensures PlanChannels(9.0, 1, 2.0, 1.0).Success?
    ensures PlanChannels(9.0, 1, 2.0, 1.0).value.fftLength == 4
    ensures PlanChannels(9.0, 1, 2.0, 1.0).value.actualResolution == 2.25
  {
    assert Trunc(4.5) == 4;
    assert BitLength(3) == 2;
  }

  /**
   * `int(np.ceil(integration_time * actual_resolution).decompose().value)` as
   * written, for an integration time given in a unit of `unitSeconds` seconds:
   * the ceiling is taken of the product in that unit times Hz, and only then is
   * it scaled to a pure number and truncated.
   */
  function NaccumulateAsWritten(integrationTime: real, unitSeconds: real, actualResolution: real): (n: int)
    ensures integrationTime * actualResolution >= 0.0 && unitSeconds >= 0.0 ==>
      0 <= n && n as real <= (Ceil(integrationTime * actualResolution) as real) * unitSeconds
  {
    var c := Ceil(integrationTime * actualResolution);
    assert c >= 0 && unitSeconds >= 0.0 ==> (c as real) * unitSeconds >= 0.0 by {
      if c >= 0 && unitSeconds >= 0.0 {
        MulNonNegative(c as real, unitSeconds);
      }
    }
    Trunc((c as real) * unitSeconds)
  }

  lemma MulNonNegative(a: real, b: real)
    requires a >= 0.0 && b >= 0.0
    ensures a * b >= 0.0
  {
  }

  /** With the integration time configured in seconds the order does not matter. */
  lemma NaccumulateAsWrittenInSeconds(integrationTime: real, actualResolution: real)
    ensures NaccumulateAsWritten(integrationTime, 1.0, actualResolution) == Ceil(integrationTime * actualResolution)
  {
    var c := Ceil(integrationTime * actualResolution);
    assert (c as real) * 1.0 == c as real;
  }

  /**
   * With the integration time configured in milliseconds the count can fall
   * short: 500 ms at a 1 Hz resolution gives ceil(500) == 500 ms Hz, which is
   * 0.5 once decomposed and truncates to 0 spectra, where a whole spectrum is
   * needed to cover half a second.
   */
  lemma NaccumulateAsWrittenFallsShort()
    ensures NaccumulateAsWritten(500.0, 0.001, 1.0) == 0
    ensures Ceil(500.0 * 0.001 * 1.0) == 1
    ensures (NaccumulateAsWritten(500.0, 0.001, 1.0) as real) / 1.0 < 500.0 * 0.001
  {
    assert Ceil(500.0 * 1.0) == 500;
    assert Ceil(0.5) == 1;
  }
}

/** The pitch estimate of VoicePitchDetector.kt (`findFundamentalFrequency`):
    the autocorrelation of a buffer of 16-bit samples, the descent from lag
    0 to the first lag where the correlation stops falling, the strongest
    strict local maximum after it, and the sample rate divided by that lag.
    The recording loop and its thread are left out; the sums are
    mathematical integers (Kotlin's `Int` would wrap). */
module VoicePitch {
  const SampleRate := 44100

  /** A Kotlin `Short`. */
  type Short = x: int | -32768 <= x < 32768

  // ---------------------------------------------------------------------
  // Specification

  /** `sum_{i < m} x[i] * x[i + lag]`, each product taken in `Int` as Kotlin
      does for two `Short`s. */
  function Correlation(x: seq<Short>, lag: nat, m: nat): int
    requires lag + m <= |x|
  {
    if m == 0 then 0 else Correlation(x, lag, m - 1) + (x[m - 1] as int) * (x[m - 1 + lag] as int)
  }

  /** The correlation at every lag of the buffer. */
  function AutoCorrelation(x: seq<Short>): seq<int> {
    seq(|x|, lag requires 0 <= lag < |x| => Correlation(x, lag, |x| - lag))
  }

  /** The correlation at lag 0 is the energy of the buffer: never negative. */
  lemma {:induction false} EnergyNonNegative(x: seq<Short>, m: nat)
    requires m <= |x|
    ensures Correlation(x, 0, m) >= 0
  {
    if m > 0 {
      EnergyNonNegative(x, m - 1);
      assert (x[m - 1] as int) * (x[m - 1] as int) >= 0;
    }
  }

  /** Where the descent loop stops when it starts at `d`: the first lag
      from `d` on where the correlation does not fall to the next one, or
      the last lag. */
  function DescentEnd(ac: seq<int>, d: nat): (r: nat)
    decreases |ac| - d
    ensures d <= r
    ensures r > d ==> r < |ac|
    ensures forall k | d <= k < r :: ac[k] > ac[k + 1]
    ensures r + 1 >= |ac| || ac[r] <= ac[r + 1]
  {
    if d + 1 < |ac| && ac[d] > ac[d + 1] then DescentEnd(ac, d + 1) else d
  }

  predicate IsStrictLocalMax(ac: seq<int>, k: int)
    requires 0 < k < |ac| - 1
  {
    ac[k] > ac[k - 1] && ac[k] > ac[k + 1]
  }

  /** The peak loop from lag `d` with the best lag so far `best`.  The
      first test `ac[d] > ac[best]` fails when `d == best`, so `ac[d - 1]` is
      never read at `d == 0`: well-formedness of this function is that
      fact. */
  function PeakFrom(ac: seq<int>, d: nat, best: nat): nat
    requires best <= d
    decreases |ac| - d
  {
    if d + 1 < |ac| then
      var next := if ac[d] > ac[best] && ac[d] > ac[d - 1] && ac[d] > ac[d + 1] then d else best;
      PeakFrom(ac, d + 1, next)
    else best
  }

  /** From any state of the loop: the result is the best lag so far or a
      later strict local maximum that beats it; nothing scanned beats the
      result; and ties keep the earliest lag, since only a strictly larger
      value replaces the best. */
  lemma {:induction false} PeakFromShape(ac: seq<int>, d: nat, best: nat)
    requires best <= d
    requires d + 1 < |ac| ==> best < |ac|
    ensures var r := PeakFrom(ac, d, best);
            && best <= r
            && (r == best || (d <= r && 0 < r < |ac| - 1 && IsStrictLocalMax(ac, r) && ac[r] > ac[best]))
            && (d + 1 < |ac| ==> r < |ac| && ac[best] <= ac[r])
            && (forall k | d <= k && 0 < k < |ac| - 1 && IsStrictLocalMax(ac, k) :: ac[k] <= ac[r])
            && (forall k | d <= k < r && 0 < k < |ac| - 1 && IsStrictLocalMax(ac, k) :: ac[k] < ac[r])
    decreases |ac| - d
  {
    if d + 1 < |ac| {
      var next := if ac[d] > ac[best] && ac[d] > ac[d - 1] && ac[d] > ac[d + 1] then d else best;
      PeakFromShape(ac, d + 1, next);
    }
  }

  /** The lag the detector settles on for a buffer. */
  function PeakLag(x: seq<Short>): nat {
    var ac := AutoCorrelation(x);
    var d := DescentEnd(ac, 0);
    PeakFrom(ac, d, d)
  }

  /** The lag is the end of the descent or a later strict local maximum;
      it is at least as strong as every strict local maximum after the
      descent, strictly stronger than those before it, and within the
      buffer when the buffer is not empty. */
  lemma PeakLagShape(x: seq<Short>)
    ensures var ac := AutoCorrelation(x);
            var d := DescentEnd(ac, 0);
            var t := PeakLag(x);
            && d <= t
            && (x != [] ==> t < |x| && ac[d] <= ac[t])
            && (t == d || (0 < t < |x| - 1 && IsStrictLocalMax(ac, t)))
            && (forall k | d <= k && 0 < k < |x| - 1 && IsStrictLocalMax(ac, k) :: ac[k] <= ac[t])
            && (forall k | d <= k < t && 0 < k < |x| - 1 && IsStrictLocalMax(ac, k) :: ac[k] < ac[t])
  {
    var ac := AutoCorrelation(x);
    var d := DescentEnd(ac, 0);
    PeakFromShape(ac, d, d);
  }

  /** `sampleRate / T` for a positive lag, 0 otherwise. */
  function Frequency(sampleRate: int, t: int): (f: real)
    ensures t <= 0 ==> f == 0.0
    ensures t > 0 && sampleRate > 0 ==> f > 0.0 && f * (t as real) == sampleRate as real
  {
    if t > 0 then (sampleRate as real) / (t as real) else 0.0
  }

  // ---------------------------------------------------------------------
  // The loops

  /** The nested loops filling `autoCorrelation`. */
  method ComputeAutoCorrelation(buffer: array<Short>) returns (ac: array<int>)
    ensures fresh(ac)
    ensures ac[..] == AutoCorrelation(buffer[..])
  {
    var n := buffer.Length;
    ac := new int[n];
    for lag := 0 to n
      invariant forall l | 0 <= l < lag :: ac[l] == Correlation(buffer[..], l, n - l)
    {
      var sum := 0;
      for i := 0 to n - lag
        invariant sum == Correlation(buffer[..], lag, i)
      {
        sum := sum + (buffer[i] as int) * (buffer[i + lag] as int);
      }
      ac[lag] := sum;
    }
  }

  /** The descent loop. */
  method Descend(ac: array<int>) returns (d: nat)
    ensures d == DescentEnd(ac[..], 0)
  {
    d := 0;
    while d < ac.Length - 1 && ac[d] > ac[d + 1]
      invariant d <= ac.Length || d == 0
      invariant DescentEnd(ac[..], d) == DescentEnd(ac[..], 0)
      decreases ac.Length - d
    {
      d := d + 1;
    }
  }

  /** The peak loop, from the end of the descent. */
  method StrongestPeak(ac: array<int>, start: nat) returns (maxPeak: nat)
    ensures maxPeak == PeakFrom(ac[..], start, start)
  {
    var d := start;
    maxPeak := d;
    while d < ac.Length - 1
      invariant maxPeak <= d
      invariant d > start ==> d <= ac.Length
      invariant PeakFrom(ac[..], d, maxPeak) == PeakFrom(ac[..], start, start)
      decreases ac.Length - d
    {
      if ac[d] > ac[maxPeak] && ac[d] > ac[d - 1] && ac[d] > ac[d + 1] {
        maxPeak := d;
      }
      d := d + 1;
    }
  }

  /** `findFundamentalFrequency`: the sample rate over the chosen lag, or 0
      when that lag is 0. */
  method FindFundamentalFrequency(audioBuffer: array<Short>) returns (f: real)
    ensures f == Frequency(SampleRate, PeakLag(audioBuffer[..]))
    ensures f == 0.0 <==> PeakLag(audioBuffer[..]) == 0
  {
    var ac := ComputeAutoCorrelation(audioBuffer);
    var d := Descend(ac);
    var t := StrongestPeak(ac, d);
    f := if t > 0 then (SampleRate as real) / (t as real) else 0.0;
  }
}

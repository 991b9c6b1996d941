/** Model of `Mp3OnsetDetectorV3.analyze`: decides whether a clearly tonal
    note starts within the first seconds of a track, scanning overlapping
    frames and keeping the last `windowFrames` hit flags in a ring buffer.
    The floating-point feature extractors (RMS level, spectral flatness,
    crest, top-bin ratio, autocorrelation peak, spectral flux) are taken as
    given through a `Dsp` record; everything the detector does with their
    values is modelled. */
module OnsetDetector {
  import opened Wrappers
  import Sorting
  import FftBitReversal

  /** The tunables, with the shipped values in `Defaults`. */
  datatype Config = Config(
    analyzeSec: real,
    fftSize: int,
    hopSize: int,
    minHitMs: int,
    hitRatio: real,
    preNoiseEstSec: real,
    absDbThreshold: real,
    relDbAboveNoise: real,
    minFlux: real,
    jumpDb: real,
    maxFlatness: real,
    minAcPeak: real,
    minCrest: real,
    minTopRatio: real,
    noiseFlatness: real,
    noiseMaxCrest: real,
    noiseMaxTopRatio: real,
    noiseMaxAcPeak: real)

  const Defaults: Config := Config(
    4.0, 2048, 512, 120, 0.70, 0.6, -42.0, 18.0, 0.10, 6.0,
    0.70, 0.25, 3.5, 0.24, 0.88, 4.0, 0.25, 0.20)

  /** Level reported when there is nothing to measure. */
  const SilentFloorDb: real := -120.0
  /** Level assumed for the frame before the first one. */
  const InitialPrevDb: real := -200.0
  /** Lead-in frames at least this flat are noise-floor candidates. */
  const NoiseCandidateFlatness: real := 0.75

  /** The message of the exception `fftRadix2` throws for a frame size that
      is not a power of two. */
  const FftSizeMessage := "FFT size must be power of 2"

  predicate ValidConfig(cfg: Config) {
    cfg.fftSize >= 1 && cfg.hopSize >= 1
  }

  /** What the detector measures on one frame: RMS level in dBFS, spectral
      flatness, crest and top-bin ratio of the Hann-windowed power spectrum,
      autocorrelation peak, and the normalised power spectrum kept for the
      next frame's flux. */
  datatype Measure = Measure(db: real, flatness: real, crest: real, topRatio: real,
                             acPeak: real, specNorm: seq<real>)

  /** The floating-point extractors: `measure` maps a frame's samples to its
      measurements, `flux` compares two normalised spectra. */
  datatype Dsp = Dsp(measure: seq<real> -> Measure, flux: (seq<real>, seq<real>) -> real)

  /** Decoded mono samples of the first seconds of the track. */
  datatype Pcm = Pcm(samples: seq<real>, sampleRate: int)

  datatype Reason = DecodeFailed | EmptyPcm | WindowHitRatio | NoTonalOnsetWithin(seconds: real)

  datatype OnsetResult = OnsetResult(
    hasOnset: bool,
    onsetSec: Option<real>,
    noiseFloorDb: real,
    requiredDb: real,
    reason: Reason)

  function Max(a: int, b: int): int { if a >= b then a else b }
  function Min(a: int, b: int): int { if a <= b then a else b }
  function MaxReal(a: real, b: real): real { if a >= b then a else b }
  function B2I(b: bool): nat { if b then 1 else 0 }

  /** Kotlin's `roundToInt`: halves round up. */
  function Round(r: real): (n: int)
    ensures r - 0.5 < n as real <= r + 0.5
  {
    (r + 0.5).Floor
  }

  /** `kotlin.math.ceil`. */
  function Ceil(r: real): (n: int)
    ensures r <= n as real < r + 1.0
  {
    -((-r).Floor)
  }

  /** Kotlin's `Double.toInt()`: truncation toward zero. */
  function Truncate(r: real): (n: int)
    ensures 0.0 <= r ==> 0 <= n && n as real <= r < n as real + 1.0
    ensures r < 0.0 ==> n <= 0 && n as real - 1.0 < r <= n as real
  {
    if r >= 0.0 then r.Floor else -((-r).Floor)
  }

  function Clamp(n: int, lo: int, hi: int): int
    requires lo <= hi
  {
    if n < lo then lo else if n > hi then hi else n
  }

  // ---------------------------------------------------------------
  // Frames
  // ---------------------------------------------------------------

  lemma MulLess(a: int, b: int, c: int)
    requires a < b && c > 0
    ensures a * c < b * c
  {
  }

  /** Where frame k starts: k hops into the samples. */
  function Offset(k: nat, hop: nat): nat {
    if k == 0 then 0 else Offset(k - 1, hop) + hop
  }

  lemma {:induction false} OffsetIsProduct(k: nat, hop: nat)
    ensures Offset(k, hop) == k * hop
  {
    if k > 0 {
      OffsetIsProduct(k - 1, hop);
    }
  }

  /** Number of frames `[i, i + fftSize)` with `i = 0, hop, 2 hop, ...`
      that fit in the first `limit` samples. */
  function FrameCount(limit: int, fftSize: int, hop: int): nat
    requires fftSize >= 1 && hop >= 1
    decreases limit
  {
    if limit < fftSize then 0 else FrameCount(limit - hop, fftSize, hop) + 1
  }

  /** Frame k is scanned exactly when it fits. */
  lemma {:induction false} FrameCountSpec(limit: int, fftSize: int, hop: int, k: nat)
    requires fftSize >= 1 && hop >= 1
    ensures k < FrameCount(limit, fftSize, hop) <==> Offset(k, hop) + fftSize <= limit
    decreases k
  {
    if k > 0 && limit >= fftSize {
      FrameCountSpec(limit - hop, fftSize, hop, k - 1);
    }
  }

  /** Samples of frame k; frames past the end are never scanned. */
  function FrameAt(cfg: Config, x: seq<real>, k: nat): seq<real>
    requires ValidConfig(cfg)
  {
    var start := Offset(k, cfg.hopSize);
    if start + cfg.fftSize <= |x| then x[start .. start + cfg.fftSize] else []
  }

  function MeasureAt(cfg: Config, dsp: Dsp, x: seq<real>, k: nat): Measure
    requires ValidConfig(cfg)
  {
    dsp.measure(FrameAt(cfg, x, k))
  }

  // ---------------------------------------------------------------
  // Noise floor
  // ---------------------------------------------------------------

  /** The values in ascending order (Kotlin's `sorted`). */
  function SortReals(values: seq<real>): (r: seq<real>)
    ensures |r| == |values|
    ensures multiset(r) == multiset(values)
    ensures forall i, j | 0 <= i <= j < |r| :: r[i] <= r[j]
  {
    var le := (a: real, b: real) => a <= b;
    assert Sorting.IsTotalPreorder(le);
    Sorting.SortBy(values, le)
  }

  function PercentileIndex(n: nat, p: real): (idx: nat)
    requires n >= 1
    ensures idx < n
  {
    Clamp(Round((p / 100.0) * (n - 1) as real), 0, n - 1)
  }

  /** The `p`-th percentile by nearest rank; -120 dB when there is no value. */
  function Percentile(values: seq<real>, p: real): (r: real)
    ensures |values| == 0 ==> r == SilentFloorDb
    ensures |values| > 0 ==> r in values
  {
    if |values| == 0 then SilentFloorDb
    else
      var sorted := SortReals(values);
      var r := sorted[PercentileIndex(|values|, p)];
      assert r in multiset(sorted);
      r
  }

  /** A higher percentile is never a lower value. */
  lemma PercentileMonotone(values: seq<real>, p: real, q: real)
    requires |values| > 0 && p <= q
    ensures Percentile(values, p) <= Percentile(values, q)
  {
    var n := |values|;
    assert p / 100.0 <= q / 100.0;
    assert (p / 100.0) * (n - 1) as real <= (q / 100.0) * (n - 1) as real;
    assert PercentileIndex(n, p) <= PercentileIndex(n, q);
  }

  /** The 0th percentile is the minimum and the 100th the maximum. */
  lemma PercentileExtremes(values: seq<real>)
    requires |values| > 0
    ensures forall v | v in values :: Percentile(values, 0.0) <= v <= Percentile(values, 100.0)
  {
    var sorted := SortReals(values);
    var n := |values|;
    assert PercentileIndex(n, 0.0) == 0;
    assert PercentileIndex(n, 100.0) == n - 1;
    forall v | v in values ensures sorted[0] <= v <= sorted[n - 1] {
      assert v in multiset(values);
      assert v in multiset(sorted);
      var j :| 0 <= j < n && sorted[j] == v;
    }
  }

  /** Samples in the lead-in used to estimate the noise floor. */
  function LeadInLimit(cfg: Config, x: seq<real>, sampleRate: int): int {
    Min(|x|, Truncate(cfg.preNoiseEstSec * sampleRate as real))
  }

  function LeadInFrames(cfg: Config, x: seq<real>, sampleRate: int): nat
    requires ValidConfig(cfg)
  {
    FrameCount(LeadInLimit(cfg, x, sampleRate), cfg.fftSize, cfg.hopSize)
  }

  /** Levels of the first n frames. */
  function LeadInDbs(cfg: Config, dsp: Dsp, x: seq<real>, n: nat): (r: seq<real>)
    requires ValidConfig(cfg)
    ensures |r| == n
  {
    if n == 0 then [] else LeadInDbs(cfg, dsp, x, n - 1) + [MeasureAt(cfg, dsp, x, n - 1).db]
  }

  /** Levels of those of the first n frames that are flat enough to be noise. */
  function NoiseDbs(cfg: Config, dsp: Dsp, x: seq<real>, n: nat): (r: seq<real>)
    requires ValidConfig(cfg)
    ensures |r| <= n
    ensures forall v | v in r :: v in LeadInDbs(cfg, dsp, x, n)
  {
    if n == 0 then []
    else
      var m := MeasureAt(cfg, dsp, x, n - 1);
      NoiseDbs(cfg, dsp, x, n - 1) + (if m.flatness >= NoiseCandidateFlatness then [m.db] else [])
  }

  /** Median of the noise-like lead-in frames; failing that the 30th
      percentile of all lead-in frames; failing that -120 dB. */
  function NoiseFloor(cfg: Config, dsp: Dsp, x: seq<real>, sampleRate: int): real
    requires ValidConfig(cfg)
  {
    var n := LeadInFrames(cfg, x, sampleRate);
    var noise := NoiseDbs(cfg, dsp, x, n);
    var all := LeadInDbs(cfg, dsp, x, n);
    if |noise| > 0 then Percentile(noise, 50.0)
    else if |all| > 0 then Percentile(all, 30.0)
    else SilentFloorDb
  }

  /** The floor is the level of some lead-in frame, or -120 dB when the
      lead-in holds no whole frame. */
  lemma NoiseFloorIsLeadInLevel(cfg: Config, dsp: Dsp, x: seq<real>, sampleRate: int)
    requires ValidConfig(cfg)
    ensures var n := LeadInFrames(cfg, x, sampleRate);
            if n == 0 then NoiseFloor(cfg, dsp, x, sampleRate) == SilentFloorDb
            else NoiseFloor(cfg, dsp, x, sampleRate) in LeadInDbs(cfg, dsp, x, n)
  {
  }

  /** The lead-in loop of `analyze`: the levels of the frames that fit
      below `limit`, and those of the noise-like ones among them. */
  method ScanLeadIn(cfg: Config, dsp: Dsp, x: seq<real>, limit: int) returns (noiseDbCandidates: seq<real>, allDbCandidates: seq<real>)
    requires ValidConfig(cfg) && limit <= |x|
    ensures allDbCandidates == LeadInDbs(cfg, dsp, x, FrameCount(limit, cfg.fftSize, cfg.hopSize))
    ensures noiseDbCandidates == NoiseDbs(cfg, dsp, x, FrameCount(limit, cfg.fftSize, cfg.hopSize))
  {
    var fftSize, hop := cfg.fftSize, cfg.hopSize;
    noiseDbCandidates := [];
    allDbCandidates := [];
    ghost var k: nat := 0;
    var i := 0;
    while i + fftSize <= limit
      invariant i == Offset(k, hop)
      invariant allDbCandidates == LeadInDbs(cfg, dsp, x, k)
      invariant noiseDbCandidates == NoiseDbs(cfg, dsp, x, k)
      invariant k <= FrameCount(limit, fftSize, hop)
      decreases limit - i
    {
      FrameCountSpec(limit, fftSize, hop, k);
      var frame := x[i..i + fftSize];
      assert frame == FrameAt(cfg, x, k);
      var m := dsp.measure(frame);
      var db := m.db;
      var flat := m.flatness;
      allDbCandidates := allDbCandidates + [db];
      if flat >= NoiseCandidateFlatness {
        noiseDbCandidates := noiseDbCandidates + [db];
      }
      i := i + hop;
      k := k + 1;
    }
    FrameCountSpec(limit, fftSize, hop, k);
  }

  /** The noise-floor estimate of `analyze`. */
  method EstimateNoiseFloor(cfg: Config, dsp: Dsp, x: seq<real>, sampleRate: int) returns (floor: real)
    requires ValidConfig(cfg)
    ensures floor == NoiseFloor(cfg, dsp, x, sampleRate)
  {
    var maxNoiseSamples := Min(|x|, Truncate(cfg.preNoiseEstSec * sampleRate as real));
    assert maxNoiseSamples == LeadInLimit(cfg, x, sampleRate);
    var noiseDbCandidates, allDbCandidates := ScanLeadIn(cfg, dsp, x, maxNoiseSamples);
    if |noiseDbCandidates| > 0 {
      floor := Percentile(noiseDbCandidates, 50.0);
    } else if |allDbCandidates| > 0 {
      floor := Percentile(allDbCandidates, 30.0);
    } else {
      floor := SilentFloorDb;
    }
  }

  // ---------------------------------------------------------------
  // Thresholds and hits
  // ---------------------------------------------------------------

  /** A frame must be at least this loud: the absolute threshold, raised
      to a fixed margin above the noise floor when that is higher. */
  function RequiredDb(cfg: Config, noiseFloorDb: real): (r: real)
    ensures r >= cfg.absDbThreshold && r >= noiseFloorDb + cfg.relDbAboveNoise
    ensures r == cfg.absDbThreshold || r == noiseFloorDb + cfg.relDbAboveNoise
  {
    MaxReal(cfg.absDbThreshold, noiseFloorDb + cfg.relDbAboveNoise)
  }

  /** Frames spanning `minHitMs`, rounded, at least one. */
  function WindowFrames(cfg: Config, sampleRate: int): (w: int)
    requires ValidConfig(cfg) && sampleRate >= 1
    ensures w >= 1
    ensures w > 1 ==> w == Round(cfg.minHitMs as real / (1000.0 * cfg.hopSize as real / sampleRate as real))
  {
    var hopMs := 1000.0 * cfg.hopSize as real / sampleRate as real;
    Max(1, Round(cfg.minHitMs as real / hopMs))
  }

  /** Hits needed in the window: `hitRatio` of it, rounded up, at least one. */
  function NeedHits(cfg: Config, w: int): (need: int)
    requires w >= 1
    ensures need >= 1
    ensures need >= 2 ==> (need - 1) as real < w as real * cfg.hitRatio <= need as real
    ensures 0.0 <= cfg.hitRatio <= 1.0 ==> need <= w
  {
    assert 0.0 <= cfg.hitRatio <= 1.0 ==> w as real * cfg.hitRatio <= w as real * 1.0;
    Max(1, Ceil(w as real * cfg.hitRatio))
  }

  /** With the shipped tunables at 44.1 kHz a hop lasts about 11.6 ms, so the
      window spans 10 frames of which 7 must be hits. */
  lemma DefaultWindowAt44k()
    ensures WindowFrames(Defaults, 44100) == 10
    ensures NeedHits(Defaults, 10) == 7
  {
    assert 1000.0 * 512 as real / 44100 as real == 512000.0 / 44100.0;
    assert 120 as real / (512000.0 / 44100.0) == 5292000.0 / 512000.0;
  }

  predicate EnergyOk(required: real, m: Measure) {
    m.db >= required
  }

  predicate TonalOk(cfg: Config, m: Measure) {
    m.flatness <= cfg.maxFlatness && m.acPeak >= cfg.minAcPeak
    && m.crest >= cfg.minCrest && m.topRatio >= cfg.minTopRatio
  }

  /** The spectrum moved, or the level jumped from the previous frame. */
  predicate ChangeOk(cfg: Config, m: Measure, flux: real, prevDb: real) {
    flux >= cfg.minFlux || m.db - prevDb >= cfg.jumpDb
  }

  /** Flat, peakless and aperiodic: loud noise rather than a note. */
  predicate NoiseLike(cfg: Config, m: Measure) {
    m.flatness >= cfg.noiseFlatness && m.crest <= cfg.noiseMaxCrest
    && m.topRatio <= cfg.noiseMaxTopRatio && m.acPeak <= cfg.noiseMaxAcPeak
  }

  predicate IsHit(cfg: Config, required: real, m: Measure, flux: real, prevDb: real) {
    EnergyOk(required, m) && TonalOk(cfg, m) && ChangeOk(cfg, m, flux, prevDb) && !NoiseLike(cfg, m)
  }

  /** Spectral flux against the previous frame; 0 for the first frame. */
  function FluxAt(cfg: Config, dsp: Dsp, x: seq<real>, k: nat): real
    requires ValidConfig(cfg)
  {
    if k == 0 then 0.0
    else dsp.flux(MeasureAt(cfg, dsp, x, k - 1).specNorm, MeasureAt(cfg, dsp, x, k).specNorm)
  }

  /** The level of the frame before frame k; -200 dB before the first. */
  function PrevDbAt(cfg: Config, dsp: Dsp, x: seq<real>, k: nat): real
    requires ValidConfig(cfg)
  {
    if k == 0 then InitialPrevDb else MeasureAt(cfg, dsp, x, k - 1).db
  }

  predicate HitAt(cfg: Config, dsp: Dsp, x: seq<real>, required: real, k: nat)
    requires ValidConfig(cfg)
  {
    IsHit(cfg, required, MeasureAt(cfg, dsp, x, k), FluxAt(cfg, dsp, x, k), PrevDbAt(cfg, dsp, x, k))
  }

  /** Hit flags of the first n frames. */
  function Hits(cfg: Config, dsp: Dsp, x: seq<real>, required: real, n: nat): (hs: seq<bool>)
    requires ValidConfig(cfg)
    ensures |hs| == n
  {
    if n == 0 then [] else Hits(cfg, dsp, x, required, n - 1) + [HitAt(cfg, dsp, x, required, n - 1)]
  }

  lemma {:induction false} HitsPrefix(cfg: Config, dsp: Dsp, x: seq<real>, required: real, n: nat, m: nat)
    requires ValidConfig(cfg) && n <= m
    ensures Hits(cfg, dsp, x, required, m)[..n] == Hits(cfg, dsp, x, required, n)
    decreases m
  {
    if n < m {
      HitsPrefix(cfg, dsp, x, required, n, m - 1);
      assert Hits(cfg, dsp, x, required, m)[..m - 1] == Hits(cfg, dsp, x, required, m - 1);
    }
  }

  lemma HitsIndex(cfg: Config, dsp: Dsp, x: seq<real>, required: real, n: nat, k: nat)
    requires ValidConfig(cfg) && k < n
    ensures Hits(cfg, dsp, x, required, n)[k] == HitAt(cfg, dsp, x, required, k)
  {
    HitsPrefix(cfg, dsp, x, required, k + 1, n);
    assert Hits(cfg, dsp, x, required, n)[k] == Hits(cfg, dsp, x, required, n)[..k + 1][k];
  }

  /** A frame quieter than the required level is never a hit. */
  lemma {:induction false} QuietFramesMissed(cfg: Config, dsp: Dsp, x: seq<real>, required: real, n: nat)
    requires ValidConfig(cfg)
    requires forall k | 0 <= k < n :: MeasureAt(cfg, dsp, x, k).db < required
    ensures forall k | 0 <= k < n :: !Hits(cfg, dsp, x, required, n)[k]
  {
    if n > 0 {
      QuietFramesMissed(cfg, dsp, x, required, n - 1);
    }
  }

  // ---------------------------------------------------------------
  // The sliding hit window and its ring buffer
  // ---------------------------------------------------------------

  function CountTrue(s: seq<bool>): nat
  {
    if s == [] then 0 else CountTrue(s[..|s| - 1]) + B2I(s[|s| - 1])
  }

  lemma {:induction false} CountTrueAppend(a: seq<bool>, b: seq<bool>)
    ensures CountTrue(a + b) == CountTrue(a) + CountTrue(b)
  {
    if b == [] {
      assert a + b == a;
    } else {
      assert (a + b)[..|a + b| - 1] == a + b[..|b| - 1];
      CountTrueAppend(a, b[..|b| - 1]);
    }
  }

  lemma CountTrueUpdate(s: seq<bool>, c: nat, v: bool)
    requires c < |s|
    ensures CountTrue(s[c := v]) == CountTrue(s) - B2I(s[c]) + B2I(v)
  {
    assert s == s[..c] + [s[c]] + s[c + 1..];
    assert s[c := v] == s[..c] + [v] + s[c + 1..];
    CountTrueAppend(s[..c] + [s[c]], s[c + 1..]);
    CountTrueAppend(s[..c], [s[c]]);
    CountTrueAppend(s[..c] + [v], s[c + 1..]);
    CountTrueAppend(s[..c], [v]);
    assert [s[c]][..0] == [] && [v][..0] == [];
  }

  function Window(hs: seq<bool>, w: nat): seq<bool>
  {
    hs[Max(0, |hs| - w)..]
  }

  /** The ring slot written by the k-th frame: advances by one and wraps at w. */
  function Slot(k: nat, w: nat): (r: nat)
    requires w >= 1
    ensures r < w
  {
    if k == 0 then 0 else if Slot(k - 1, w) + 1 == w then 0 else Slot(k - 1, w) + 1
  }

  lemma {:induction false} SlotAdvance(m: nat, d: nat, w: nat)
    requires w >= 1 && d <= w
    ensures Slot(m + d, w) == if Slot(m, w) + d < w then Slot(m, w) + d else Slot(m, w) + d - w
  {
    if d > 0 {
      SlotAdvance(m, d - 1, w);
    }
  }

  lemma SlotDistinct(m: nat, n: nat, w: nat)
    requires w >= 1 && m < n < m + w
    ensures Slot(m, w) != Slot(n, w)
  {
    SlotAdvance(m, n - m, w);
  }

  lemma ModWrap(x: int, w: int)
    requires 1 <= w && 0 <= x <= w
    ensures x % w == if x == w then 0 else x
  {
  }

  function RingState(hs: seq<bool>, w: nat): (r: seq<bool>)
    requires w >= 1
    ensures |r| == w
  {
    if hs == [] then seq(w, _ => false)
    else RingState(hs[..|hs| - 1], w)[Slot(|hs| - 1, w) := hs[|hs| - 1]]
  }

  lemma {:induction false} RingCells(hs: seq<bool>, w: nat)
    requires w >= 1
    ensures forall m | Max(0, |hs| - w) <= m < |hs| :: RingState(hs, w)[Slot(m, w)] == hs[m]
    ensures |hs| <= w ==> forall c | |hs| <= c < w :: !RingState(hs, w)[c]
  {
    if hs != [] {
      var n := |hs| - 1;
      var front := hs[..n];
      RingCells(front, w);
      forall m | Max(0, |hs| - w) <= m < |hs|
        ensures RingState(hs, w)[Slot(m, w)] == hs[m]
      {
        if m < n {
          SlotDistinct(m, n, w);
          assert front[m] == hs[m];
        }
      }
      if |hs| <= w {
        SlotAdvance(0, n, w);
        assert Slot(n, w) == n;
        forall c | |hs| <= c < w ensures !RingState(hs, w)[c] {
          assert RingState(hs, w)[c] == RingState(front, w)[c];
        }
      }
    }
  }

  /** The hit that leaves the window when frame |hs| - 1 enters it. */
  function Evicted(hs: seq<bool>, w: nat): nat
    requires hs != []
  {
    if |hs| - 1 >= w then B2I(hs[|hs| - 1 - w]) else 0
  }

  lemma WindowStep(hs: seq<bool>, w: nat)
    requires w >= 1 && hs != []
    ensures CountTrue(Window(hs, w)) == CountTrue(Window(hs[..|hs| - 1], w)) - Evicted(hs, w) + B2I(hs[|hs| - 1])
  {
    var n := |hs| - 1;
    var front := hs[..n];
    if n >= w {
      var mid := Window(hs, w)[..w - 1];
      assert Window(front, w) == [hs[n - w]] + mid;
      assert Window(hs, w) == mid + [hs[n]];
      CountTrueAppend([hs[n - w]], mid);
      CountTrueAppend(mid, [hs[n]]);
      assert [hs[n - w]][..0] == [] && [hs[n]][..0] == [];
    } else {
      assert Window(hs, w) == Window(front, w) + [hs[n]];
      CountTrueAppend(Window(front, w), [hs[n]]);
      assert [hs[n]][..0] == [];
    }
  }

  /** The slot the newest frame overwrites holds the hit that leaves the window. */
  lemma EvictedSlot(hs: seq<bool>, w: nat)
    requires w >= 1 && hs != []
    ensures B2I(RingState(hs[..|hs| - 1], w)[Slot(|hs| - 1, w)]) == Evicted(hs, w)
  {
    var n := |hs| - 1;
    var front := hs[..n];
    RingCells(front, w);
    if n >= w {
      SlotAdvance(n - w, w, w);
      assert RingState(front, w)[Slot(n - w, w)] == front[n - w];
    } else {
      SlotAdvance(0, n, w);
    }
  }

  lemma RingStep(hs: seq<bool>, w: nat)
    requires w >= 1 && hs != []
    ensures CountTrue(RingState(hs, w)) == CountTrue(RingState(hs[..|hs| - 1], w)) - Evicted(hs, w) + B2I(hs[|hs| - 1])
  {
    var n := |hs| - 1;
    EvictedSlot(hs, w);
    CountTrueUpdate(RingState(hs[..n], w), Slot(n, w), hs[n]);
  }

  lemma {:induction false} RingCount(hs: seq<bool>, w: nat)
    requires w >= 1
    ensures CountTrue(RingState(hs, w)) == CountTrue(Window(hs, w))
  {
    if hs == [] {
      AllFalseCount(w);
    } else {
      RingCount(hs[..|hs| - 1], w);
      RingStep(hs, w);
      WindowStep(hs, w);
    }
  }

  /** The frame loop's invariant after any number of frames: the hit count
      is the number of set cells of the ring, at most the window length, and
      the next slot lies in the ring. */
  lemma RingInvariant(hs: seq<bool>, w: nat)
    requires w >= 1
    ensures var hitCount := CountTrue(Window(hs, w));
            && hitCount == CountTrue(RingState(hs, w))
            && 0 <= hitCount <= w
            && 0 <= Slot(|hs|, w) < |RingState(hs, w)|
  {
    RingCount(hs, w);
    CountTrueBound(Window(hs, w));
  }

  lemma {:induction false} AllFalseCount(w: nat)
    ensures CountTrue(seq(w, _ => false)) == 0
  {
    if w > 0 {
      assert seq(w, _ => false)[..w - 1] == seq(w - 1, _ => false);
      AllFalseCount(w - 1);
    }
  }

  /** The trailing window that ends with frame k holds enough hits. */
  predicate QuotaAt(hs: seq<bool>, w: nat, need: int, k: nat)
    requires k < |hs|
  {
    CountTrue(Window(hs[..k + 1], w)) >= need
  }

  predicate NoQuotaYet(hs: seq<bool>, w: nat, need: int) {
    forall j | 0 <= j < |hs| :: !QuotaAt(hs, w, need, j)
  }

  /** The first frame, from `from` on, whose trailing window holds enough hits. */
  function FirstQuotaFrom(hs: seq<bool>, w: nat, need: int, from: nat): (r: Option<nat>)
    requires from <= |hs|
    decreases |hs| - from
    ensures r.Some? ==> from <= r.value < |hs| && QuotaAt(hs, w, need, r.value)
    ensures r.Some? ==> forall k | from <= k < r.value :: !QuotaAt(hs, w, need, k)
    ensures r.None? ==> forall k | from <= k < |hs| :: !QuotaAt(hs, w, need, k)
  {
    if from == |hs| then None
    else if QuotaAt(hs, w, need, from) then Some(from)
    else FirstQuotaFrom(hs, w, need, from + 1)
  }

  function FirstQuota(hs: seq<bool>, w: nat, need: int): Option<nat> {
    FirstQuotaFrom(hs, w, need, 0)
  }

  /** Whether a frame's window meets the quota depends only on the frames up
      to it, so a quota first met at the end of a prefix is the first
      quota of the whole sequence. */
  lemma FirstQuotaOfPrefix(hs: seq<bool>, all: seq<bool>, w: nat, need: int)
    requires 0 < |hs| <= |all| && hs == all[..|hs|]
    requires QuotaAt(hs, w, need, |hs| - 1)
    requires NoQuotaYet(hs[..|hs| - 1], w, need)
    ensures FirstQuota(all, w, need) == Some(|hs| - 1)
  {
    forall j | 0 <= j < |hs| ensures QuotaAt(all, w, need, j) == QuotaAt(hs, w, need, j) {
      assert all[..j + 1] == hs[..j + 1];
    }
    forall j | 0 <= j < |hs| - 1 ensures !QuotaAt(hs, w, need, j) {
      assert hs[..|hs| - 1][..j + 1] == hs[..j + 1];
      assert !QuotaAt(hs[..|hs| - 1], w, need, j);
    }
  }

  /** One step of the scan: the next frame's flag is written into its slot,
      the count of hits in the window follows, and the slot moves on by one
      around the ring. */
  lemma RingPush(hs: seq<bool>, w: nat, need: int, hit: bool)
    requires w >= 1
    ensures RingState(hs, w)[Slot(|hs|, w) := hit] == RingState(hs + [hit], w)
    ensures CountTrue(Window(hs + [hit], w))
            == CountTrue(Window(hs, w)) - B2I(RingState(hs, w)[Slot(|hs|, w)]) + B2I(hit)
    ensures QuotaAt(hs + [hit], w, need, |hs|) <==> CountTrue(Window(hs + [hit], w)) >= need
    ensures Slot(|hs| + 1, w) == (Slot(|hs|, w) + 1) % w
  {
    var next := hs + [hit];
    assert next[..|hs| + 1] == next;
    CountTrueUpdate(RingState(hs, w), Slot(|hs|, w), hit);
    RingCount(hs, w);
    RingCount(next, w);
    ModWrap(Slot(|hs|, w) + 1, w);
  }

  /** Earlier frames keep their verdicts when a frame is added, so with the
      new window short of the quota no frame meets it yet. */
  lemma NoQuotaExtends(hs: seq<bool>, w: nat, need: int, hit: bool)
    requires NoQuotaYet(hs, w, need) && CountTrue(Window(hs + [hit], w)) < need
    ensures NoQuotaYet(hs + [hit], w, need)
  {
    var next := hs + [hit];
    assert next[..|hs| + 1] == next;
    forall j | 0 <= j < |hs| ensures QuotaAt(next, w, need, j) == QuotaAt(hs, w, need, j) {
      assert next[..j + 1] == hs[..j + 1];
    }
  }

  /** What the scan reports for the hit flags `hs` of all frames: an onset
      `w - 1` hops before the first frame whose trailing window meets the
      quota, or none. */
  function Outcome(hs: seq<bool>, hop: int, w: nat, need: int, sampleRate: int,
                   noiseFloorDb: real, required: real, analyzeSec: real): OnsetResult
    requires sampleRate >= 1 && hop >= 0
  {
    match FirstQuota(hs, w, need)
    case Some(k) =>
      OnsetResult(true, Some((Offset(k, hop) - (w - 1) * hop) as real / sampleRate as real),
                  noiseFloorDb, required, WindowHitRatio)
    case None =>
      OnsetResult(false, None, noiseFloorDb, required, NoTonalOnsetWithin(analyzeSec))
  }

  /** An onset is reported exactly when some frame's trailing window holds
      `need` hits, and it is placed relative to the first such frame. */
  lemma OutcomeIffQuota(hs: seq<bool>, hop: int, w: nat, need: int, sampleRate: int,
                        noiseFloorDb: real, required: real, analyzeSec: real)
    requires sampleRate >= 1 && hop >= 0
    ensures var r := Outcome(hs, hop, w, need, sampleRate, noiseFloorDb, required, analyzeSec);
            && (r.hasOnset <==> exists k | 0 <= k < |hs| :: QuotaAt(hs, w, need, k))
            && (r.hasOnset ==> exists k | 0 <= k < |hs| ::
                  && QuotaAt(hs, w, need, k)
                  && (forall j | 0 <= j < k :: !QuotaAt(hs, w, need, j))
                  && r.onsetSec == Some((Offset(k, hop) - (w - 1) * hop) as real / sampleRate as real))
            && (r.hasOnset <==> r.reason == WindowHitRatio)
            && (r.hasOnset <==> r.onsetSec.Some?)
            && (!r.hasOnset ==> r.reason == NoTonalOnsetWithin(analyzeSec))
  {
  }

  /** A quota first met before the window has filled places the onset
      before the start of the track: the time is not clamped. */
  lemma EarlyQuotaGivesNegativeOnset(hs: seq<bool>, hop: int, w: nat, need: int, sampleRate: int,
                                     noiseFloorDb: real, required: real, analyzeSec: real, k: nat)
    requires sampleRate >= 1 && hop >= 1
    requires FirstQuota(hs, w, need) == Some(k) && k + 1 < w
    ensures var r := Outcome(hs, hop, w, need, sampleRate, noiseFloorDb, required, analyzeSec);
            r.onsetSec.Some? && r.onsetSec.value < 0.0
  {
    OffsetIsProduct(k, hop);
    MulLess(k, w - 1, hop);
  }

  lemma {:induction false} NoTrueCount(s: seq<bool>)
    requires forall i | 0 <= i < |s| :: !s[i]
    ensures CountTrue(s) == 0
  {
    if s != [] {
      NoTrueCount(s[..|s| - 1]);
    }
  }

  lemma {:induction false} CountTrueBound(s: seq<bool>)
    ensures CountTrue(s) <= |s|
  {
    if s != [] {
      CountTrueBound(s[..|s| - 1]);
    }
  }

  /** Without any hit, or with a quota larger than the window, no onset is
      ever reported. */
  lemma OutcomeWithoutQuota(hs: seq<bool>, hop: int, w: nat, need: int, sampleRate: int,
                            noiseFloorDb: real, required: real, analyzeSec: real)
    requires sampleRate >= 1 && hop >= 0
    requires (need >= 1 && forall k | 0 <= k < |hs| :: !hs[k]) || need > w
    ensures !Outcome(hs, hop, w, need, sampleRate, noiseFloorDb, required, analyzeSec).hasOnset
  {
    forall k | 0 <= k < |hs| ensures !QuotaAt(hs, w, need, k) {
      var win := Window(hs[..k + 1], w);
      CountTrueBound(win);
      if need <= w {
        NoTrueCount(win);
      }
    }
  }

  // ---------------------------------------------------------------
  // The frame loop
  // ---------------------------------------------------------------

  /** The measurements of frame k and its hit verdict, as the loop computes them. */
  method MeasureFrame(cfg: Config, dsp: Dsp, x: seq<real>, required: real, ghost k: nat, i: int,
                      prevSpecNorm: Option<seq<real>>, prevDb: real)
    returns (m: Measure, hit: bool)
    requires ValidConfig(cfg) && i == Offset(k, cfg.hopSize) && i + cfg.fftSize <= |x|
    requires prevDb == PrevDbAt(cfg, dsp, x, k)
    requires prevSpecNorm == if k == 0 then None else Some(MeasureAt(cfg, dsp, x, k - 1).specNorm)
    ensures m == MeasureAt(cfg, dsp, x, k)
    ensures hit == HitAt(cfg, dsp, x, required, k)
  {
    var frame := x[i..i + cfg.fftSize];
    m := dsp.measure(frame);
    var db, flat, crest, top, acPeak := m.db, m.flatness, m.crest, m.topRatio, m.acPeak;
    var flux := if prevSpecNorm.Some? then dsp.flux(prevSpecNorm.value, m.specNorm) else 0.0;
    var energyOk := db >= required;
    var tonalOk := flat <= cfg.maxFlatness && acPeak >= cfg.minAcPeak
                   && crest >= cfg.minCrest && top >= cfg.minTopRatio;
    var jumpOk := db - prevDb >= cfg.jumpDb;
    var fluxOk := flux >= cfg.minFlux;
    var changeOk := fluxOk || jumpOk;
    var noiseLike := flat >= cfg.noiseFlatness && crest <= cfg.noiseMaxCrest
                     && top <= cfg.noiseMaxTopRatio && acPeak <= cfg.noiseMaxAcPeak;
    hit := energyOk && tonalOk && changeOk && !noiseLike;
    assert flux == FluxAt(cfg, dsp, x, k);
  }

  /** The outcome once the first frame meeting the quota is known. */
  lemma OutcomeAt(hs: seq<bool>, hop: int, w: nat, need: int, sampleRate: int,
                  noiseFloorDb: real, required: real, analyzeSec: real, k: nat)
    requires sampleRate >= 1 && hop >= 0
    requires FirstQuota(hs, w, need) == Some(k)
    ensures Outcome(hs, hop, w, need, sampleRate, noiseFloorDb, required, analyzeSec)
            == OnsetResult(true, Some((Offset(k, hop) - (w - 1) * hop) as real / sampleRate as real),
                           noiseFloorDb, required, WindowHitRatio)
  {
  }

  /** The outcome when no frame meets the quota. */
  lemma OutcomeNone(hs: seq<bool>, hop: int, w: nat, need: int, sampleRate: int,
                    noiseFloorDb: real, required: real, analyzeSec: real)
    requires sampleRate >= 1 && hop >= 0
    requires NoQuotaYet(hs, w, need)
    ensures Outcome(hs, hop, w, need, sampleRate, noiseFloorDb, required, analyzeSec)
            == OnsetResult(false, None, noiseFloorDb, required, NoTonalOnsetWithin(analyzeSec))
  {
  }

  lemma PrefixExtend(all: seq<bool>, hs: seq<bool>, hit: bool)
    requires |hs| < |all| && hs == all[..|hs|] && hit == all[|hs|]
    ensures hs + [hit] == all[..|hs| + 1]
  {
  }

  /** The sliding-window update of the frame loop: frame |hs|'s flag
      replaces the oldest one in the ring and the hit count follows. */
  method PushHit(ring: array<bool>, ringIdx: int, hitCount: int, hit: bool, ghost hs: seq<bool>)
    returns (nextIdx: int, nextCount: int)
    requires ring.Length >= 1
    requires ringIdx == Slot(|hs|, ring.Length) && ring[..] == RingState(hs, ring.Length)
    requires hitCount == CountTrue(Window(hs, ring.Length))
    modifies ring
    ensures ring[..] == RingState(hs + [hit], ring.Length)
    ensures nextIdx == Slot(|hs| + 1, ring.Length)
    ensures nextCount == CountTrue(Window(hs + [hit], ring.Length))
  {
    RingPush(hs, ring.Length, 0, hit);
    nextCount := hitCount;
    var prev := ring[ringIdx];
    if prev {
      nextCount := nextCount - 1;
    }
    ring[ringIdx] := hit;
    if hit {
      nextCount := nextCount + 1;
    }
    nextIdx := (ringIdx + 1) % ring.Length;
  }

  /** One pass of the frame loop: measure frame |hs|, judge it and slide the
      hit window over it. */
  method FrameStep(cfg: Config, dsp: Dsp, x: seq<real>, required: real, needHits: int,
                   ghost all: seq<bool>, ghost hs: seq<bool>, i: int,
                   prevSpecNorm: Option<seq<real>>, prevDb: real,
                   ring: array<bool>, ringIdx: int, hitCount: int)
    returns (m: Measure, hit: bool, nextIdx: int, nextCount: int)
    requires ValidConfig(cfg) && ring.Length >= 1
    requires all == Hits(cfg, dsp, x, required, |all|)
    requires |hs| < |all| && hs == all[..|hs|]
    requires i == Offset(|hs|, cfg.hopSize) && i + cfg.fftSize <= |x|
    requires prevDb == PrevDbAt(cfg, dsp, x, |hs|)
    requires prevSpecNorm == if |hs| == 0 then None else Some(MeasureAt(cfg, dsp, x, |hs| - 1).specNorm)
    requires ringIdx == Slot(|hs|, ring.Length) && ring[..] == RingState(hs, ring.Length)
    requires hitCount == CountTrue(Window(hs, ring.Length))
    requires NoQuotaYet(hs, ring.Length, needHits)
    modifies ring
    ensures m == MeasureAt(cfg, dsp, x, |hs|)
    ensures hs + [hit] == all[..|hs| + 1]
    ensures nextIdx == Slot(|hs| + 1, ring.Length) && ring[..] == RingState(hs + [hit], ring.Length)
    ensures nextCount == CountTrue(Window(hs + [hit], ring.Length))
    ensures nextCount >= needHits <==> QuotaAt(hs + [hit], ring.Length, needHits, |hs|)
    ensures nextCount < needHits ==> NoQuotaYet(hs + [hit], ring.Length, needHits)
  {
    m, hit := MeasureFrame(cfg, dsp, x, required, |hs|, i, prevSpecNorm, prevDb);
    HitsIndex(cfg, dsp, x, required, |all|, |hs|);
    PrefixExtend(all, hs, hit);
    RingPush(hs, ring.Length, needHits, hit);
    nextIdx, nextCount := PushHit(ring, ringIdx, hitCount, hit, hs);
    if nextCount < needHits {
      NoQuotaExtends(hs, ring.Length, needHits, hit);
    }
  }

  /** The frame loop of `analyze`, with the hit window kept in a ring buffer. */
  method ScanFrames(cfg: Config, dsp: Dsp, x: seq<real>, sampleRate: int,
                    noiseFloorDb: real, required: real, windowFrames: int, needHits: int)
    returns (r: OnsetResult)
    requires ValidConfig(cfg) && sampleRate >= 1 && windowFrames >= 1
    ensures r == Outcome(Hits(cfg, dsp, x, required, FrameCount(|x|, cfg.fftSize, cfg.hopSize)),
                         cfg.hopSize, windowFrames, needHits, sampleRate, noiseFloorDb, required, cfg.analyzeSec)
  {
    var fftSize, hop := cfg.fftSize, cfg.hopSize;
    ghost var total := FrameCount(|x|, fftSize, hop);
    ghost var all := Hits(cfg, dsp, x, required, total);
    var ring := new bool[windowFrames](_ => false);
    assert ring[..] == RingState([], windowFrames);
    var ringIdx := 0;
    var hitCount := 0;
    var prevSpecNorm: Option<seq<real>> := None;
    var prevDb := InitialPrevDb;
    ghost var hs: seq<bool> := [];
    var i := 0;
    while i + fftSize <= |x|
      invariant |hs| <= total && i == Offset(|hs|, hop)
      invariant hs == all[..|hs|]
      invariant ringIdx == Slot(|hs|, windowFrames)
      invariant ring[..] == RingState(hs, windowFrames)
      invariant hitCount == CountTrue(Window(hs, windowFrames))
      invariant NoQuotaYet(hs, windowFrames, needHits)
      invariant prevDb == PrevDbAt(cfg, dsp, x, |hs|)
      invariant prevSpecNorm == if |hs| == 0 then None else Some(MeasureAt(cfg, dsp, x, |hs| - 1).specNorm)
      decreases |x| - i
    {
      FrameCountSpec(|x|, fftSize, hop, |hs|);
      var m, hit;
      m, hit, ringIdx, hitCount := FrameStep(cfg, dsp, x, required, needHits, all, hs, i,
                                             prevSpecNorm, prevDb, ring, ringIdx, hitCount);
      ghost var before := hs;
      hs := hs + [hit];

      if hitCount >= needHits {
        assert hs[..|hs| - 1] == before;
        FirstQuotaOfPrefix(hs, all, windowFrames, needHits);
        OutcomeAt(all, hop, windowFrames, needHits, sampleRate, noiseFloorDb, required, cfg.analyzeSec, |hs| - 1);
        var onsetSample := i - (windowFrames - 1) * hop;
        return OnsetResult(true, Some(onsetSample as real / sampleRate as real),
                           noiseFloorDb, required, WindowHitRatio);
      }

      prevSpecNorm := Some(m.specNorm);
      prevDb := m.db;
      i := i + hop;
    }
    FrameCountSpec(|x|, fftSize, hop, |hs|);
    assert hs == all;
    OutcomeNone(all, hop, windowFrames, needHits, sampleRate, noiseFloorDb, required, cfg.analyzeSec);
    return OnsetResult(false, None, noiseFloorDb, required, NoTonalOnsetWithin(cfg.analyzeSec));
  }

  // ---------------------------------------------------------------
  // analyze
  // ---------------------------------------------------------------

  /** The frame size passes `fftRadix2`'s `n and (n - 1) == 0` test. */
  predicate FftSizeOk(cfg: Config)
    requires ValidConfig(cfg)
  {
    FftBitReversal.And(cfg.fftSize, cfg.fftSize - 1) == 0
  }

  /** The result of `analyze`, or the exception it throws: every frame's
      spectrum goes through `fftRadix2`, so a frame size that is not a power
      of two throws as soon as one frame fits in the samples. */
  function AnalyzeSpec(cfg: Config, dsp: Dsp, pcm: Option<Pcm>): Result<OnsetResult, string>
    requires ValidConfig(cfg)
    requires pcm.Some? ==> pcm.value.sampleRate >= 1
  {
    match pcm
    case None => Ok(OnsetResult(false, None, SilentFloorDb, cfg.absDbThreshold, DecodeFailed))
    case Some(p) =>
      if |p.samples| == 0 then Ok(OnsetResult(false, None, SilentFloorDb, cfg.absDbThreshold, EmptyPcm))
      else if !FftSizeOk(cfg) && cfg.fftSize <= |p.samples| then Err(FftSizeMessage)
      else
        var x := p.samples;
        var floor := NoiseFloor(cfg, dsp, x, p.sampleRate);
        var required := RequiredDb(cfg, floor);
        var w := WindowFrames(cfg, p.sampleRate);
        Ok(Outcome(Hits(cfg, dsp, x, required, FrameCount(|x|, cfg.fftSize, cfg.hopSize)),
                   cfg.hopSize, w, NeedHits(cfg, w), p.sampleRate, floor, required, cfg.analyzeSec))
  }

  /** `analyze`, after decoding: `pcm` is `None` when decoding failed. */
  method Analyze(cfg: Config, dsp: Dsp, pcm: Option<Pcm>) returns (r: Result<OnsetResult, string>)
    requires ValidConfig(cfg)
    requires pcm.Some? ==> pcm.value.sampleRate >= 1
    ensures r == AnalyzeSpec(cfg, dsp, pcm)
  {
    if pcm.None? {
      return Ok(OnsetResult(false, None, SilentFloorDb, cfg.absDbThreshold, DecodeFailed));
    }
    var x := pcm.value.samples;
    var sampleRate := pcm.value.sampleRate;
    if |x| == 0 {
      return Ok(OnsetResult(false, None, SilentFloorDb, cfg.absDbThreshold, EmptyPcm));
    }
    if !FftSizeOk(cfg) && cfg.fftSize <= |x| {
      return Err(FftSizeMessage);
    }
    var noiseFloorDb := EstimateNoiseFloor(cfg, dsp, x, sampleRate);
    var requiredDb := RequiredDb(cfg, noiseFloorDb);
    var windowFrames := WindowFrames(cfg, sampleRate);
    var needHits := NeedHits(cfg, windowFrames);
    var o := ScanFrames(cfg, dsp, x, sampleRate, noiseFloorDb, requiredDb, windowFrames, needHits);
    r := Ok(o);
  }

  /** The error paths report -120 dB and the absolute threshold; the
      exception is thrown exactly for a frame size that is not a power of
      two and fits in the samples; the required level never drops below the
      absolute threshold. */
  lemma AnalyzeOutcome(cfg: Config, dsp: Dsp, pcm: Option<Pcm>)
    requires ValidConfig(cfg)
    requires pcm.Some? ==> pcm.value.sampleRate >= 1
    ensures var r := AnalyzeSpec(cfg, dsp, pcm);
            && (r.Err? <==> pcm.Some? && 0 < cfg.fftSize <= |pcm.value.samples|
                                        && !FftBitReversal.IsPow2(cfg.fftSize))
            && (r.Err? ==> r.error == FftSizeMessage)
            && (r.Ok? ==> r.value.requiredDb >= cfg.absDbThreshold)
            && (pcm.None? ==> r == Ok(OnsetResult(false, None, SilentFloorDb, cfg.absDbThreshold, DecodeFailed)))
            && (pcm.Some? && |pcm.value.samples| == 0 ==>
                  r == Ok(OnsetResult(false, None, SilentFloorDb, cfg.absDbThreshold, EmptyPcm)))
            && (pcm.Some? && |pcm.value.samples| > 0 && r.Ok? ==>
                  r.value.requiredDb >= r.value.noiseFloorDb + cfg.relDbAboveNoise)
  {
    AnalyzeError(cfg, dsp, pcm);
    if pcm.Some? && |pcm.value.samples| > 0 && (FftSizeOk(cfg) || cfg.fftSize > |pcm.value.samples|) {
      AnalyzeLevels(cfg, dsp, pcm.value);
    }
  }

  /** `analyze` throws exactly when a frame fits and the frame size is not a
      power of two. */
  lemma AnalyzeError(cfg: Config, dsp: Dsp, pcm: Option<Pcm>)
    requires ValidConfig(cfg)
    requires pcm.Some? ==> pcm.value.sampleRate >= 1
    ensures var r := AnalyzeSpec(cfg, dsp, pcm);
            && (r.Err? <==> pcm.Some? && 0 < cfg.fftSize <= |pcm.value.samples|
                                        && !FftBitReversal.IsPow2(cfg.fftSize))
            && (r.Err? ==> r.error == FftSizeMessage)
  {
    FftBitReversal.PowerOfTwoTest(cfg.fftSize);
    assert FftSizeOk(cfg) <==> FftBitReversal.IsPow2(cfg.fftSize);
    if pcm.Some? && |pcm.value.samples| > 0 {
      if !FftSizeOk(cfg) && cfg.fftSize <= |pcm.value.samples| {
        assert AnalyzeSpec(cfg, dsp, pcm) == Err(FftSizeMessage);
      } else {
        assert AnalyzeSpec(cfg, dsp, pcm).Ok?;
      }
    }
  }

  /** Once the frames are measured, the reported levels are the estimated
      floor and the level required above it. */
  lemma AnalyzeLevels(cfg: Config, dsp: Dsp, p: Pcm)
    requires ValidConfig(cfg) && p.sampleRate >= 1
    requires |p.samples| > 0 && (FftSizeOk(cfg) || cfg.fftSize > |p.samples|)
    ensures var r := AnalyzeSpec(cfg, dsp, Some(p));
            && r.Ok?
            && r.value.noiseFloorDb == NoiseFloor(cfg, dsp, p.samples, p.sampleRate)
            && r.value.requiredDb == RequiredDb(cfg, r.value.noiseFloorDb)
  {
    var x := p.samples;
    var floor := NoiseFloor(cfg, dsp, x, p.sampleRate);
    var required := RequiredDb(cfg, floor);
    var w := WindowFrames(cfg, p.sampleRate);
    var hs := Hits(cfg, dsp, x, required, FrameCount(|x|, cfg.fftSize, cfg.hopSize));
    OutcomeLevels(hs, cfg.hopSize, w, NeedHits(cfg, w), p.sampleRate, floor, required, cfg.analyzeSec);
  }

  /** The outcome reports the noise floor and the required level it was
      given, whether or not an onset is found. */
  lemma OutcomeLevels(hs: seq<bool>, hop: int, w: nat, need: int, sampleRate: int,
                      noiseFloorDb: real, required: real, analyzeSec: real)
    requires sampleRate >= 1 && hop >= 0
    ensures Outcome(hs, hop, w, need, sampleRate, noiseFloorDb, required, analyzeSec).noiseFloorDb == noiseFloorDb
    ensures Outcome(hs, hop, w, need, sampleRate, noiseFloorDb, required, analyzeSec).requiredDb == required
  {
  }

  /** A track none of whose frames reaches the required level has no onset. */
  lemma QuietTrackHasNoOnset(cfg: Config, dsp: Dsp, x: seq<real>, sampleRate: int)
    requires ValidConfig(cfg) && |x| > 0 && sampleRate >= 1
    requires forall k | 0 <= k < FrameCount(|x|, cfg.fftSize, cfg.hopSize) ::
               MeasureAt(cfg, dsp, x, k).db < RequiredDb(cfg, NoiseFloor(cfg, dsp, x, sampleRate))
    ensures var r := AnalyzeSpec(cfg, dsp, Some(Pcm(x, sampleRate)));
            r.Ok? ==> !r.value.hasOnset
  {
    var floor := NoiseFloor(cfg, dsp, x, sampleRate);
    var required := RequiredDb(cfg, floor);
    var n := FrameCount(|x|, cfg.fftSize, cfg.hopSize);
    var w := WindowFrames(cfg, sampleRate);
    QuietFramesMissed(cfg, dsp, x, required, n);
    OutcomeWithoutQuota(Hits(cfg, dsp, x, required, n), cfg.hopSize, w, NeedHits(cfg, w),
                        sampleRate, floor, required, cfg.analyzeSec);
  }
}

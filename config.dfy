/**
 * The fixed part of a `SceneChangeDetector`: everything `new` derives from
 * the session's configuration and nothing ever changes afterwards, and the
 * per-pair result record.
 */
module Config {
  import opened Wrappers
  import opened Frames
  import opened PowerOfTwo
  import opened ScaleFactor

  /** `FAST_THRESHOLD`: the per-pixel cost, at 8 bits, above which a pair counts as a cut. */
  const FAST_THRESHOLD: real := 18.0

  /** `IMP_BLOCK_DIFF_THRESHOLD`: the importance-block cost, at 8 bits, that evidences a cut or a pan. */
  const IMP_BLOCK_DIFF_THRESHOLD: real := 7.0

  /** `ScenecutResult`: the costs of one compared frame pair and the threshold they are judged against. */
  datatype ScenecutResult = ScenecutResult(
    impBlockCost: real,
    backwardAdjustedCost: real,
    forwardAdjustedCost: real,
    threshold: real)

  /**
   * The fields of `SceneChangeDetector` that `new` sets once, together with
   * the two external kernels (`sad_plane` and the `Plane::downscale` family)
   * the detector calls.
   */
  datatype DetectorConfig = DetectorConfig(
    threshold: real,
    scaleFunc: Option<ScaleFunction>,
    lookaheadOffset: nat,
    pixels: nat,
    bitDepth: nat,
    cpuFeatureLevel: CpuFeatureLevel,
    minKfInterval: nat,
    maxKfInterval: nat,
    sad: SadFunction,
    downscale: DownscaleFunction)

  /** The per-pixel cost threshold for a bit depth: 18 at 8 bits, scaled linearly. */
  function ThresholdFor(bitDepth: nat): (t: real)
    ensures t >= 0.0
    ensures bitDepth == 8 ==> t == FAST_THRESHOLD
    ensures t * 8.0 == FAST_THRESHOLD * bitDepth as real
  {
    FAST_THRESHOLD * (bitDepth as real) / 8.0
  }

  /**
   * `SceneChangeDetector::new`, the fixed fields: the scale policy from the
   * frame size, a look-ahead offset of 5 frames when at least 5 are looked
   * ahead and none otherwise, the number of pixels of a (downscaled) frame,
   * computed by shifts, and the threshold from the bit depth.
   */
  function New(
    bitDepth: nat,
    cpuFeatureLevel: CpuFeatureLevel,
    lookaheadDistance: nat,
    maxFrameWidth: nat,
    maxFrameHeight: nat,
    minKfInterval: nat,
    maxKfInterval: nat,
    sad: SadFunction,
    downscale: DownscaleFunction): (c: DetectorConfig)
    ensures c.scaleFunc == DetectScaleFactor(maxFrameWidth, maxFrameHeight)
    ensures c.lookaheadOffset <= lookaheadDistance && c.lookaheadOffset <= 5
    ensures c.lookaheadOffset == 5 <==> lookaheadDistance >= 5
    ensures lookaheadDistance < 5 ==> c.lookaheadOffset == 0
    ensures var f := FactorOf(c.scaleFunc);
      c.pixels == (maxFrameHeight / f) * (maxFrameWidth / f)
    ensures c.threshold == ThresholdFor(bitDepth)
    ensures c.bitDepth == bitDepth && c.cpuFeatureLevel == cpuFeatureLevel
    ensures c.minKfInterval == minKfInterval && c.maxKfInterval == maxKfInterval
    ensures c.sad == sad && c.downscale == downscale
  {
    var scaleFunc := DetectScaleFactor(maxFrameWidth, maxFrameHeight);
    var lookaheadOffset := if lookaheadDistance >= 5 then 5 else 0;
    var pixels := ScaledPixels(maxFrameWidth, maxFrameHeight);
    DetectorConfig(ThresholdFor(bitDepth), scaleFunc, lookaheadOffset, pixels, bitDepth,
                   cpuFeatureLevel, minKfInterval, maxKfInterval, sad, downscale)
  }

  /**
   * The pixel count of a frame after downscaling, computed as `new` does
   * with shifts by the (power-of-two) scale factor: each edge is divided
   * by the factor and rounded down.
   */
  function ScaledPixels(maxFrameWidth: nat, maxFrameHeight: nat): (pixels: nat)
    ensures var f := FactorOf(DetectScaleFactor(maxFrameWidth, maxFrameHeight));
      pixels == (maxFrameHeight / f) * (maxFrameWidth / f)
  {
    var factor := FactorOf(DetectScaleFactor(maxFrameWidth, maxFrameHeight));
    FactorIsPowerOfTwo(maxFrameWidth, maxFrameHeight);
    var height, width := FastIdiv(maxFrameHeight, factor), FastIdiv(maxFrameWidth, factor);
    ProductIsPositive(height, width);
    height * width
  }

  /** The pixel count `new` derives is positive exactly when neither frame edge is zero. */
  lemma PixelsPositiveIffFrameNonEmpty(
    bitDepth: nat,
    cpuFeatureLevel: CpuFeatureLevel,
    lookaheadDistance: nat,
    maxFrameWidth: nat,
    maxFrameHeight: nat,
    minKfInterval: nat,
    maxKfInterval: nat,
    sad: SadFunction,
    downscale: DownscaleFunction)
    ensures New(bitDepth, cpuFeatureLevel, lookaheadDistance, maxFrameWidth, maxFrameHeight,
                minKfInterval, maxKfInterval, sad, downscale).pixels > 0
        <==> maxFrameWidth > 0 && maxFrameHeight > 0
  {
    var c := New(bitDepth, cpuFeatureLevel, lookaheadDistance, maxFrameWidth, maxFrameHeight,
                 minKfInterval, maxKfInterval, sad, downscale);
    var f := FactorOf(c.scaleFunc);
    FactorFitsInNonEmptyEdges(maxFrameWidth, maxFrameHeight);
    QuotientIsPositive(maxFrameHeight, f);
    QuotientIsPositive(maxFrameWidth, f);
    ProductIsPositive(maxFrameHeight / f, maxFrameWidth / f);
  }

  /** The scale factor never exceeds a non-empty frame edge. */
  lemma FactorFitsInNonEmptyEdges(maxFrameWidth: nat, maxFrameHeight: nat)
    ensures var f := FactorOf(DetectScaleFactor(maxFrameWidth, maxFrameHeight));
      f > 0 && (maxFrameWidth >= f <==> maxFrameWidth > 0) && (maxFrameHeight >= f <==> maxFrameHeight > 0)
  {
    var scaled := DetectScaleFactor(maxFrameWidth, maxFrameHeight);
    assert FactorOf(scaled) <= 32;
    assert scaled.Some? ==> Min(maxFrameWidth, maxFrameHeight) > 240;
  }

  /** A product of naturals is positive exactly when both factors are. */
  lemma ProductIsPositive(a: nat, b: nat)
    ensures a * b >= 0
    ensures a * b > 0 <==> a > 0 && b > 0
  {
    if a > 0 && b > 0 {
      assert a * b >= 1 * b;
    }
  }

  /** An integer quotient is positive exactly when the dividend reaches the divisor. */
  lemma QuotientIsPositive(x: nat, d: nat)
    requires d > 0
    ensures x / d > 0 <==> x >= d
  {
    assert x == d * (x / d) + x % d;
    if x / d > 0 {
      assert d * (x / d) >= d * 1;
    }
  }
}

/**
 * The frame-pair comparator of the fast algorithm (`fast_scenecut` and
 * `delta_in_planes`), stated on values. The two-slot buffers it rotates are
 * the `Comparator`; the class in module Detector keeps them in arrays and is
 * proved to follow `FastScenecut`.
 */
module Fast {
  import opened Wrappers
  import opened Frames
  import opened ScaleFactor
  import opened Config

  /** The contents of `downscaled_frame_buffer`: two downscaled planes and the "initialized" flag. */
  datatype ScaledSlots = ScaledSlots(first: Plane, second: Plane, isInitialized: bool)

  /** The comparator's retained state: the scratch planes, or the references to the last two frames. */
  datatype Comparator = Comparator(
    downscaledFrameBuffer: Option<ScaledSlots>,
    frameRefBuffer: Option<(Frame, Frame)>)

  /** A freshly constructed detector holds neither buffer. */
  const EmptyComparator: Comparator := Comparator(None, None)

  /** Only the buffer that the scale policy selects is ever in use. */
  predicate SelectsOneBuffer(cfg: DetectorConfig, c: Comparator)
  {
    (cfg.scaleFunc.Some? ==> c.frameRefBuffer.None?) &&
    (cfg.scaleFunc.None? ==> c.downscaledFrameBuffer.None?)
  }

  /** `delta_in_planes`: the sum of absolute differences averaged over the pixels of a compared plane. */
  function DeltaInPlanes(cfg: DetectorConfig, plane1: Plane, plane2: Plane): (delta: real)
    requires cfg.pixels > 0
    ensures delta >= 0.0
    ensures delta * (cfg.pixels as real) == cfg.sad(plane1, plane2, cfg.cpuFeatureLevel) as real
  {
    (cfg.sad(plane1, plane2, cfg.cpuFeatureLevel) as real) / (cfg.pixels as real)
  }

  /** The fast algorithm's result for a delta: all three costs are that delta. */
  function ResultOf(cfg: DetectorConfig, delta: real): ScenecutResult
  {
    ScenecutResult(delta, delta, delta, cfg.threshold)
  }

  /** The plane the comparator compares for a frame: its downscaled luma, or the luma itself. */
  function Prepared(cfg: DetectorConfig, f: Frame): Plane
  {
    match cfg.scaleFunc
    case Some(sf) => cfg.downscale(f.luma, sf.factor)
    case None => f.luma
  }

  /** What comparing two frames afresh yields, with nothing retained from earlier calls. */
  function FreshResult(cfg: DetectorConfig, f1: Frame, f2: Frame): ScenecutResult
    requires cfg.pixels > 0
  {
    ResultOf(cfg, DeltaInPlanes(cfg, Prepared(cfg, f1), Prepared(cfg, f2)))
  }

  /** The two planes the comparator holds, in slot order, when its active buffer is in use. */
  function HeldPlanes(cfg: DetectorConfig, c: Comparator): Option<(Plane, Plane)>
  {
    if cfg.scaleFunc.Some? then
      match c.downscaledFrameBuffer
      case Some(b) => Some((b.first, b.second))
      case None => None
    else
      match c.frameRefBuffer
      case Some(refs) => Some((refs.0.luma, refs.1.luma))
      case None => None
  }

  /**
   * `fast_scenecut(frame1, frame2)`. With a scale function: on first use
   * both frames are downscaled into a new buffer; with an initialized buffer
   * the slots are swapped and only `frame2` is downscaled into slot 1; with
   * an uninitialized one both slots are rewritten and the flag is set.
   * Without one the same rotation is done on the frame references. The
   * result carries the detector's threshold and the same delta in all three
   * costs. The buffer not selected is left alone.
   */
  function FastScenecut(cfg: DetectorConfig, c: Comparator, frame1: Frame, frame2: Frame)
    : (out: (Comparator, ScenecutResult))
    requires cfg.pixels > 0
    ensures InUse(cfg, out.0) && HeldPlanes(cfg, out.0).Some?
    ensures var (p1, p2) := HeldPlanes(cfg, out.0).value;
      out.1 == ResultOf(cfg, DeltaInPlanes(cfg, p1, p2)) && p2 == Prepared(cfg, frame2)
    ensures cfg.scaleFunc.Some? ==>
      out.0.downscaledFrameBuffer.Some? && out.0.downscaledFrameBuffer.value.isInitialized &&
      out.0.frameRefBuffer == c.frameRefBuffer
    ensures cfg.scaleFunc.None? ==>
      out.0.frameRefBuffer.Some? && out.0.frameRefBuffer.value.1 == frame2 &&
      out.0.downscaledFrameBuffer == c.downscaledFrameBuffer
  {
    match cfg.scaleFunc
    case Some(scaleFunc) =>
      var slots :=
        match c.downscaledFrameBuffer
        case Some(buffer) =>
          if buffer.isInitialized then
            ScaledSlots(buffer.second, cfg.downscale(frame2.luma, scaleFunc.factor), true)
          else
            ScaledSlots(cfg.downscale(frame1.luma, scaleFunc.factor),
                        cfg.downscale(frame2.luma, scaleFunc.factor), true)
        case None =>
          ScaledSlots(cfg.downscale(frame1.luma, scaleFunc.factor),
                      cfg.downscale(frame2.luma, scaleFunc.factor), true);
      var delta := DeltaInPlanes(cfg, slots.first, slots.second);
      (c.(downscaledFrameBuffer := Some(slots)), ResultOf(cfg, delta))
    case None =>
      var refs :=
        match c.frameRefBuffer
        case Some(buffer) => (buffer.1, frame2)
        case None => (frame1, frame2);
      var delta := DeltaInPlanes(cfg, refs.0.luma, refs.1.luma);
      (c.(frameRefBuffer := Some(refs)), ResultOf(cfg, delta))
  }

  /**
   * The comparator is ready for a pair starting at `f`: it holds nothing it
   * would reuse, or the plane it would reuse as slot 0 is that of `f`.
   */
  predicate ReadyFor(cfg: DetectorConfig, c: Comparator, f: Frame)
  {
    if cfg.scaleFunc.Some? then
      match c.downscaledFrameBuffer
      case Some(b) => b.isInitialized ==> b.second == Prepared(cfg, f)
      case None => true
    else
      match c.frameRefBuffer
      case Some(refs) => refs.1.luma == f.luma
      case None => true
  }

  /** The buffer the scale policy selects holds two valid slots. */
  predicate InUse(cfg: DetectorConfig, c: Comparator)
  {
    if cfg.scaleFunc.Some? then
      c.downscaledFrameBuffer.Some? && c.downscaledFrameBuffer.value.isInitialized
    else
      c.frameRefBuffer.Some?
  }

  /**
   * A buffer in use that is ready for `f` compares `f`, whatever frame is
   * passed first: slot 0 is the retained plane, not the caller's `frame1`.
   */
  lemma InUseBufferComparesRetainedFrame(
    cfg: DetectorConfig, c: Comparator, f: Frame, frame1: Frame, frame2: Frame)
    requires cfg.pixels > 0
    requires InUse(cfg, c) && ReadyFor(cfg, c, f)
    ensures FastScenecut(cfg, c, frame1, frame2).1 == FreshResult(cfg, f, frame2)
  {
  }

  /** A fresh detector is ready for any first pair. */
  lemma EmptyComparatorIsReady(cfg: DetectorConfig, f: Frame)
    ensures ReadyFor(cfg, EmptyComparator, f)
    ensures SelectsOneBuffer(cfg, EmptyComparator)
  {
  }

  /**
   * Buffer reuse leaks no stale data: when the retained slot holds the first
   * frame of the pair, the result is that of a fresh comparison, and the
   * comparator is then ready for a pair starting at the second frame.
   */
  lemma RotationMatchesFreshComparison(cfg: DetectorConfig, c: Comparator, f1: Frame, f2: Frame)
    requires cfg.pixels > 0
    requires ReadyFor(cfg, c, f1)
    ensures FastScenecut(cfg, c, f1, f2).1 == FreshResult(cfg, f1, f2)
    ensures ReadyFor(cfg, FastScenecut(cfg, c, f1, f2).0, f2)
  {
  }

  /**
   * Comparing (A, B) and then (B, C) gives, for (B, C), what a fresh
   * detector comparing only (B, C) gives, whatever the comparator held
   * before.
   */
  lemma ChainedComparisonIsFresh(cfg: DetectorConfig, c: Comparator, a: Frame, b: Frame, d: Frame)
    requires cfg.pixels > 0
    ensures var c1 := FastScenecut(cfg, c, a, b).0;
      FastScenecut(cfg, c1, b, d).1 == FastScenecut(cfg, EmptyComparator, b, d).1
  {
    var c1 := FastScenecut(cfg, c, a, b).0;
    assert ReadyFor(cfg, c1, b);
    RotationMatchesFreshComparison(cfg, c1, b, d);
    RotationMatchesFreshComparison(cfg, EmptyComparator, b, d);
  }

  /** With the buffer in use, the first frame of the pair is not read at all. */
  lemma InitializedBufferIgnoresFirstFrame(
    cfg: DetectorConfig, c: Comparator, f1: Frame, g1: Frame, f2: Frame)
    requires cfg.pixels > 0
    requires InUse(cfg, c)
    ensures FastScenecut(cfg, c, f1, f2) == FastScenecut(cfg, c, g1, f2)
  {
  }

  /** The comparator never puts the buffer the scale policy did not select in use. */
  lemma FastScenecutSelectsOneBuffer(cfg: DetectorConfig, c: Comparator, f1: Frame, f2: Frame)
    requires cfg.pixels > 0
    requires SelectsOneBuffer(cfg, c)
    ensures SelectsOneBuffer(cfg, FastScenecut(cfg, c, f1, f2).0)
  {
  }

  /** When the difference kernel finds no difference between equal planes, identical frames cost nothing. */
  lemma IdenticalFramesCostNothing(cfg: DetectorConfig, f: Frame)
    requires cfg.pixels > 0
    requires forall p: Plane :: cfg.sad(p, p, cfg.cpuFeatureLevel) == 0
    ensures FreshResult(cfg, f, f) == ScenecutResult(0.0, 0.0, 0.0, cfg.threshold)
  {
  }
}

/**
 * `SceneChangeDetector` as a class: the fields `new` fixes are constants,
 * the score deque and the decision offset are fields the methods reassign,
 * and the two-slot comparator buffers are arrays of length two that
 * `fast_scenecut` fills on first use and then rotates in place. Every
 * method is proved to follow the value-level functions of modules Fast and
 * Analyze.
 */
module Detector {
  import opened Wrappers
  import opened Frames
  import opened ScaleFactor
  import opened Config
  import opened Fast
  import opened Adaptive
  import opened Analyze

  class SceneChangeDetector {
    const threshold: real
    const scaleFunc: Option<ScaleFunction>
    /**
     * `downscaled_frame_buffer`: `None` before first use, then `Some` of the
     * "initialized" flag; the two planes it holds live in `scaledPlanes`.
     */
    var downscaledFrameBuffer: Option<bool>
    const scaledPlanes: array<Plane>
    /** `frame_ref_buffer`: whether it is `Some`; the two frames it holds live in `frameRefs`. */
    var frameRefBuffer: bool
    const frameRefs: array<Frame>
    const lookaheadOffset: nat
    var dequeOffset: nat
    var scoreDeque: seq<ScenecutResult>
    const pixels: nat
    const bitDepth: nat
    const cpuFeatureLevel: CpuFeatureLevel
    const minKfInterval: nat
    const maxKfInterval: nat
    /** The external `sad_plane` kernel. */
    const sad: SadFunction
    /** The external `Plane::downscale` family. */
    const downscale: DownscaleFunction

    /** The fixed fields, as one value. */
    function Configuration(): DetectorConfig
    {
      DetectorConfig(threshold, scaleFunc, lookaheadOffset, pixels, bitDepth, cpuFeatureLevel,
                     minKfInterval, maxKfInterval, sad, downscale)
    }

    /** The comparator buffers as values. */
    ghost function ComparatorView(): Comparator
      reads this, scaledPlanes, frameRefs
      requires scaledPlanes.Length == 2 && frameRefs.Length == 2
    {
      Comparator(
        match downscaledFrameBuffer
        case Some(isInitialized) => Some(ScaledSlots(scaledPlanes[0], scaledPlanes[1], isInitialized))
        case None => None,
        if frameRefBuffer then Some((frameRefs[0], frameRefs[1])) else None)
    }

    /** The changing state as a value. */
    ghost function View(): State
      reads this, scaledPlanes, frameRefs
      requires scaledPlanes.Length == 2 && frameRefs.Length == 2
    {
      State(ComparatorView(), dequeOffset, scoreDeque)
    }

    /** Object invariant: two-slot buffers, and only the one the scale policy selects is in use. */
    ghost predicate Valid()
      reads this, scaledPlanes, frameRefs
    {
      scaledPlanes.Length == 2 && frameRefs.Length == 2 &&
      SelectsOneBuffer(Configuration(), ComparatorView())
    }

    /** `SceneChangeDetector::new`. */
    constructor (
      bitDepth: nat,
      cpuFeatureLevel: CpuFeatureLevel,
      lookaheadDistance: nat,
      maxFrameWidth: nat,
      maxFrameHeight: nat,
      minKfInterval: nat,
      maxKfInterval: nat,
      sad: SadFunction,
      downscale: DownscaleFunction)
      ensures Valid() && fresh(scaledPlanes) && fresh(frameRefs)
      ensures Configuration() == New(bitDepth, cpuFeatureLevel, lookaheadDistance, maxFrameWidth,
                                     maxFrameHeight, minKfInterval, maxKfInterval, sad, downscale)
      ensures View() == InitialState(Configuration())
    {
      var c := New(bitDepth, cpuFeatureLevel, lookaheadDistance, maxFrameWidth, maxFrameHeight,
                   minKfInterval, maxKfInterval, sad, downscale);
      threshold := c.threshold;
      scaleFunc := c.scaleFunc;
      lookaheadOffset := c.lookaheadOffset;
      pixels := c.pixels;
      this.bitDepth := bitDepth;
      this.cpuFeatureLevel := cpuFeatureLevel;
      this.minKfInterval := minKfInterval;
      this.maxKfInterval := maxKfInterval;
      this.sad := sad;
      this.downscale := downscale;
      downscaledFrameBuffer := None;
      scaledPlanes := new Plane[2];
      frameRefBuffer := false;
      frameRefs := new Frame[2];
      dequeOffset := c.lookaheadOffset;
      scoreDeque := [];
    }

    /**
     * `fast_scenecut(frame1, frame2)`: rotate the selected two-slot buffer
     * in place (or fill it on first use) and return the averaged difference
     * of its two slots. After the update the buffer is always present, so
     * the branches the source marks unreachable are.
     */
    method FastScenecut(frame1: Frame, frame2: Frame) returns (result: ScenecutResult)
      requires Valid() && pixels > 0
      modifies this, scaledPlanes, frameRefs
      ensures Valid()
      ensures dequeOffset == old(dequeOffset) && scoreDeque == old(scoreDeque)
      ensures (ComparatorView(), result)
           == Fast.FastScenecut(Configuration(), old(ComparatorView()), frame1, frame2)
    {
      match scaleFunc {
        case Some(sf) =>
          match downscaledFrameBuffer {
            case Some(isInitialized) =>
              if isInitialized {
                scaledPlanes[0], scaledPlanes[1] := scaledPlanes[1], scaledPlanes[0];
                scaledPlanes[1] := downscale(frame2.luma, sf.factor);
              } else {
                scaledPlanes[0] := downscale(frame1.luma, sf.factor);
                scaledPlanes[1] := downscale(frame2.luma, sf.factor);
                downscaledFrameBuffer := Some(true);
              }
            case None =>
              scaledPlanes[0], scaledPlanes[1] := downscale(frame1.luma, sf.factor), downscale(frame2.luma, sf.factor);
              downscaledFrameBuffer := Some(true);
          }
          match downscaledFrameBuffer {
            case Some(_) =>
              var delta := DeltaInPlanes(Configuration(), scaledPlanes[0], scaledPlanes[1]);
              result := ScenecutResult(delta, delta, delta, threshold);
            case None =>
              assert false;
          }
        case None =>
          if frameRefBuffer {
            frameRefs[0], frameRefs[1] := frameRefs[1], frameRefs[0];
            frameRefs[1] := frame2;
          } else {
            frameRefs[0], frameRefs[1] := frame1, frame2;
            frameRefBuffer := true;
          }
          if frameRefBuffer {
            var delta := DeltaInPlanes(Configuration(), frameRefs[0].luma, frameRefs[1].luma);
            result := ScenecutResult(delta, delta, delta, threshold);
          } else {
            assert false;
          }
      }
    }

    /** `run_comparison`: compare two frames and insert the result at the front of the deque. */
    method RunComparison(frame1: Frame, frame2: Frame)
      requires Valid() && pixels > 0
      modifies this, scaledPlanes, frameRefs
      ensures Valid()
      ensures View() == Analyze.RunComparison(Configuration(), old(View()), frame1, frame2)
    {
      var result := FastScenecut(frame1, frame2);
      scoreDeque := [result] + scoreDeque;
    }

    /** `initialize_score_deque`: compare the pairs (x, x + 1) for every x below `initLen`, in order. */
    method InitializeScoreDeque(frameSet: seq<Frame>, initLen: nat)
      requires Valid() && pixels > 0 && initLen < |frameSet|
      modifies this, scaledPlanes, frameRefs
      ensures Valid()
      ensures View() == Analyze.InitializeScoreDeque(Configuration(), old(View()), frameSet, initLen)
    {
      for x := 0 to initLen
        invariant Valid()
        invariant View() == Analyze.InitializeScoreDeque(Configuration(), old(View()), frameSet, x)
      {
        RunComparison(frameSet[x], frameSet[x + 1]);
      }
    }

    /**
     * The warm-up of `analyze_next_frame`: fill an
     * empty deque from the window, and after a short window move the offset
     * to its second-to-last frame.
     */
    method WarmUpScoreDeque(frameSet: seq<Frame>)
      requires Valid() && pixels > 0 && |frameSet| >= 2
      modifies this, scaledPlanes, frameRefs
      ensures Valid()
      ensures View() == WarmUp(Configuration(), old(View()), frameSet)
    {
      if dequeOffset > 0 && |frameSet| > dequeOffset + 1 && scoreDeque == [] {
        InitializeScoreDeque(frameSet, dequeOffset);
      } else if scoreDeque == [] {
        InitializeScoreDeque(frameSet, |frameSet| - 1);
        dequeOffset := |frameSet| - 2;
      }
    }

    /**
     * The comparison of this call of `analyze_next_frame`: the pair at the
     * offset when the window reaches past it, otherwise one step back.
     */
    method CompareOrShrink(frameSet: seq<Frame>)
      requires Valid() && pixels > 0 && |frameSet| >= 2
      requires |frameSet| <= dequeOffset + 1 ==> dequeOffset > 0
      modifies this, scaledPlanes, frameRefs
      ensures Valid()
      ensures View() == (if |frameSet| > old(dequeOffset) + 1
                         then Analyze.RunComparison(Configuration(), old(View()), frameSet[old(dequeOffset)],
                                                    frameSet[old(dequeOffset) + 1])
                         else old(View()).(dequeOffset := old(dequeOffset) - 1))
    {
      if |frameSet| > dequeOffset + 1 {
        RunComparison(frameSet[dequeOffset], frameSet[dequeOffset + 1]);
      } else {
        dequeOffset := dequeOffset - 1;
      }
    }

    /** The warm-up and the comparison of `analyze_next_frame`: warm up, then compare or step back. */
    method AdvanceWindow(frameSet: seq<Frame>)
      requires Valid() && pixels > 0 && |frameSet| >= 2 && Inv(Configuration(), View())
      modifies this, scaledPlanes, frameRefs
      ensures Valid()
      ensures View() == Advance(Configuration(), old(View()), frameSet)
    {
      WarmUpScoreDeque(frameSet);
      CompareOrShrink(frameSet);
    }

    /** The tail eviction at the end of `analyze_next_frame`. */
    method EvictOldest()
      requires Valid()
      modifies this
      ensures Valid()
      ensures View() == old(View()).(scoreDeque := Evict(Configuration(), old(scoreDeque)))
    {
      if |scoreDeque| > 5 + lookaheadOffset {
        scoreDeque := scoreDeque[..|scoreDeque| - 1];
      }
    }

    /**
     * `analyze_next_frame(frame_set, input_frameno, previous_keyframe)`:
     * advance the deque by this window and decide on the frame under
     * decision.
     */
    method AnalyzeNextFrame(frameSet: seq<Frame>, inputFrameno: nat, previousKeyframe: nat)
      returns (scenecut: bool)
      requires Valid() && Inv(Configuration(), View())
      requires CanAnalyze(Configuration(), frameSet, inputFrameno, previousKeyframe)
      modifies this, scaledPlanes, frameRefs
      ensures Valid() && Inv(Configuration(), View())
      ensures (View(), scenecut)
           == Analyze.AnalyzeNextFrame(Configuration(), old(View()), frameSet, inputFrameno, previousKeyframe)
    {
      var distance := inputFrameno - previousKeyframe;

      if |frameSet| <= lookaheadOffset {
        return false;
      }

      ghost var cfg, st := Configuration(), View();
      AdvanceWindow(frameSet);
      AnalyzeNextFrameSteps(cfg, st, frameSet, inputFrameno, previousKeyframe);

      scenecut := AdaptiveScenecut(scoreDeque, dequeOffset, bitDepth);
      scenecut := HandleMinMaxIntervals(distance, minKfInterval, maxKfInterval).UnwrapOr(scenecut);

      EvictOldest();
    }
  }
}

/**
 * One call of `SceneChangeDetector::analyze_next_frame`, stated on values:
 * the short-window guard, the warm-up of the score deque, the one new
 * comparison per call (or the shrinking of the decision offset at the end
 * of the stream), the verdict and the eviction of the oldest score. The
 * class in module Detector is proved to follow `AnalyzeNextFrame`.
 */
module Analyze {
  import opened Wrappers
  import opened Frames
  import opened Config
  import opened Fast
  import opened Adaptive

  /**
   * The fields of `SceneChangeDetector` that change: the comparator's
   * buffers, `deque_offset` and `score_deque` (newest result first).
   */
  datatype State = State(comparator: Comparator, dequeOffset: nat, scoreDeque: seq<ScenecutResult>)

  /** The state `new` leaves: no buffers, an empty deque, the decision offset at the look-ahead offset. */
  function InitialState(cfg: DetectorConfig): State
  {
    State(EmptyComparator, cfg.lookaheadOffset, [])
  }

  /**
   * What holds between calls: only the selected comparator buffer is in use,
   * an empty deque has not moved its offset nor touched a buffer yet, and in
   * a non-empty deque the offset names an entry.
   */
  predicate Inv(cfg: DetectorConfig, st: State)
  {
    SelectsOneBuffer(cfg, st.comparator) &&
    (st.scoreDeque == [] ==> st.dequeOffset == cfg.lookaheadOffset && st.comparator == EmptyComparator) &&
    (st.scoreDeque != [] ==> st.dequeOffset < |st.scoreDeque|)
  }

  /**
   * What a caller of `analyze_next_frame` must ensure: no keyframe lies
   * after the frame (`input_frameno - previous_keyframe` is unsigned), a
   * window that passes the guard holds at least two frames (otherwise
   * `frame_set.len() - 2` or `deque_offset -= 1` underflows), and frames are
   * not empty (the average cost divides by the pixel count).
   */
  predicate CanAnalyze(cfg: DetectorConfig, frameSet: seq<Frame>, inputFrameno: nat, previousKeyframe: nat)
  {
    previousKeyframe <= inputFrameno &&
    (|frameSet| > cfg.lookaheadOffset ==> |frameSet| >= 2) &&
    cfg.pixels > 0
  }

  lemma InitialStateIsValid(cfg: DetectorConfig)
    ensures Inv(cfg, InitialState(cfg))
  {
  }

  /** `run_comparison`: compare two frames and insert the result at the front, older entries behind it in order. */
  function RunComparison(cfg: DetectorConfig, st: State, frame1: Frame, frame2: Frame): (out: State)
    requires cfg.pixels > 0
    ensures |out.scoreDeque| == |st.scoreDeque| + 1 && out.scoreDeque[1..] == st.scoreDeque
    ensures out.scoreDeque[0] == FastScenecut(cfg, st.comparator, frame1, frame2).1
    ensures out.comparator == FastScenecut(cfg, st.comparator, frame1, frame2).0
    ensures out.dequeOffset == st.dequeOffset
  {
    var (comparator, result) := FastScenecut(cfg, st.comparator, frame1, frame2);
    st.(comparator := comparator, scoreDeque := [result] + st.scoreDeque)
  }

  /**
   * `initialize_score_deque(frame_set, init_len)`: compare the pairs
   * (x, x + 1) for x from 0 below `init_len`, in that order, each result in
   * front of the previous ones.
   */
  function InitializeScoreDeque(cfg: DetectorConfig, st: State, frameSet: seq<Frame>, initLen: nat)
    : (out: State)
    requires cfg.pixels > 0 && initLen < |frameSet|
    ensures |out.scoreDeque| == |st.scoreDeque| + initLen
    ensures out.scoreDeque[initLen..] == st.scoreDeque
    ensures out.dequeOffset == st.dequeOffset
    ensures SelectsOneBuffer(cfg, st.comparator) ==> SelectsOneBuffer(cfg, out.comparator)
    decreases initLen
  {
    if initLen == 0 then st
    else
      var before := InitializeScoreDeque(cfg, st, frameSet, initLen - 1);
      var out := RunComparison(cfg, before, frameSet[initLen - 1], frameSet[initLen]);
      assert out.scoreDeque[initLen..] == before.scoreDeque[initLen - 1..];
      out
  }

  /**
   * The warm-up of `analyze_next_frame`. Only an empty deque is warmed up:
   * with a positive offset and a window longer than offset + 1 the pairs
   * before the offset are compared; otherwise every pair of the window is,
   * and the offset moves to the window's second-to-last frame.
   */
  function WarmUp(cfg: DetectorConfig, st: State, frameSet: seq<Frame>): (out: State)
    requires cfg.pixels > 0 && |frameSet| >= 2
    ensures st.scoreDeque != [] ==> out == st
    ensures SelectsOneBuffer(cfg, st.comparator) ==> SelectsOneBuffer(cfg, out.comparator)
    ensures st.scoreDeque == [] && st.dequeOffset > 0 && |frameSet| > st.dequeOffset + 1 ==>
      |out.scoreDeque| == st.dequeOffset && out.dequeOffset == st.dequeOffset
    ensures st.scoreDeque == [] && !(st.dequeOffset > 0 && |frameSet| > st.dequeOffset + 1) ==>
      |out.scoreDeque| == |frameSet| - 1 && out.dequeOffset == |frameSet| - 2
  {
    if st.dequeOffset > 0 && |frameSet| > st.dequeOffset + 1 && st.scoreDeque == [] then
      InitializeScoreDeque(cfg, st, frameSet, st.dequeOffset)
    else if st.scoreDeque == [] then
      InitializeScoreDeque(cfg, st, frameSet, |frameSet| - 1).(dequeOffset := |frameSet| - 2)
    else
      st
  }

  /**
   * Warm-up and then the comparison of this call of `analyze_next_frame`:
   * the pair at (offset, offset + 1) when the window reaches that far,
   * otherwise no comparison and the offset steps back by one. Afterwards
   * the offset names an entry of the deque, so the verdict can read it.
   */
  function Advance(cfg: DetectorConfig, st: State, frameSet: seq<Frame>): (out: State)
    requires cfg.pixels > 0 && |frameSet| >= 2 && Inv(cfg, st)
    ensures out.dequeOffset < |out.scoreDeque|
    ensures SelectsOneBuffer(cfg, out.comparator)
  {
    var warm := WarmUp(cfg, st, frameSet);
    if |frameSet| > warm.dequeOffset + 1 then
      RunComparison(cfg, warm, frameSet[warm.dequeOffset], frameSet[warm.dequeOffset + 1])
    else
      warm.(dequeOffset := warm.dequeOffset - 1)
  }

  /**
   * The tail eviction at the end of `analyze_next_frame`: past
   * `5 + lookahead_offset` entries, drop the oldest one.
   */
  function Evict(cfg: DetectorConfig, scoreDeque: seq<ScenecutResult>): (kept: seq<ScenecutResult>)
    ensures |kept| == if |scoreDeque| > 5 + cfg.lookaheadOffset then |scoreDeque| - 1 else |scoreDeque|
    ensures kept == scoreDeque[..|kept|]
  {
    if |scoreDeque| > 5 + cfg.lookaheadOffset then scoreDeque[..|scoreDeque| - 1] else scoreDeque
  }

  /**
   * `analyze_next_frame(frame_set, input_frameno, previous_keyframe)`: the
   * new state and the verdict for the frame under decision.
   */
  function AnalyzeNextFrame(
    cfg: DetectorConfig, st: State, frameSet: seq<Frame>, inputFrameno: nat, previousKeyframe: nat)
    : (out: (State, bool))
    requires Inv(cfg, st) && CanAnalyze(cfg, frameSet, inputFrameno, previousKeyframe)
    ensures Inv(cfg, out.0)
  {
    var distance := inputFrameno - previousKeyframe;
    if |frameSet| <= cfg.lookaheadOffset then
      (st, false)
    else
      var advanced := Advance(cfg, st, frameSet);
      var scenecut := AdaptiveScenecut(advanced.scoreDeque, advanced.dequeOffset, cfg.bitDepth);
      var scenecut := HandleMinMaxIntervals(distance, cfg.minKfInterval, cfg.maxKfInterval).UnwrapOr(scenecut);
      AdvancedInvariant(cfg, st, frameSet);
      (advanced.(scoreDeque := Evict(cfg, advanced.scoreDeque)), scenecut)
  }

  /** After the advance, a deque too long by one still leaves the offset inside once its oldest entry goes. */
  lemma AdvancedInvariant(cfg: DetectorConfig, st: State, frameSet: seq<Frame>)
    requires cfg.pixels > 0 && |frameSet| >= 2 && Inv(cfg, st)
    ensures var advanced := Advance(cfg, st, frameSet);
      advanced.scoreDeque != [] &&
      advanced.dequeOffset < |Evict(cfg, advanced.scoreDeque)|
  {
  }

  /** A call past the guard, step by step: advance, decide, evict. */
  lemma AnalyzeNextFrameSteps(
    cfg: DetectorConfig, st: State, frameSet: seq<Frame>, inputFrameno: nat, previousKeyframe: nat)
    requires Inv(cfg, st) && CanAnalyze(cfg, frameSet, inputFrameno, previousKeyframe)
    requires |frameSet| > cfg.lookaheadOffset
    ensures var advanced := Advance(cfg, st, frameSet);
      var adaptive := AdaptiveScenecut(advanced.scoreDeque, advanced.dequeOffset, cfg.bitDepth);
      AnalyzeNextFrame(cfg, st, frameSet, inputFrameno, previousKeyframe)
        == (advanced.(scoreDeque := Evict(cfg, advanced.scoreDeque)),
            HandleMinMaxIntervals(inputFrameno - previousKeyframe, cfg.minKfInterval, cfg.maxKfInterval)
              .UnwrapOr(adaptive))
  {
  }

  // ---------------------------------------------------------------------
  // Properties of one call

  /** A window no longer than the look-ahead offset gets no keyframe and changes nothing. */
  lemma GuardedCallChangesNothing(
    cfg: DetectorConfig, st: State, frameSet: seq<Frame>, inputFrameno: nat, previousKeyframe: nat)
    requires Inv(cfg, st) && CanAnalyze(cfg, frameSet, inputFrameno, previousKeyframe)
    requires |frameSet| <= cfg.lookaheadOffset
    ensures AnalyzeNextFrame(cfg, st, frameSet, inputFrameno, previousKeyframe) == (st, false)
  {
  }

  /**
   * Past the guard, the keyframe intervals decide when they apply and the
   * adaptive verdict on the advanced deque decides otherwise. The guard
   * itself overrides even the maximum interval.
   */
  lemma VerdictFollowsIntervals(
    cfg: DetectorConfig, st: State, frameSet: seq<Frame>, inputFrameno: nat, previousKeyframe: nat)
    requires Inv(cfg, st) && CanAnalyze(cfg, frameSet, inputFrameno, previousKeyframe)
    requires |frameSet| > cfg.lookaheadOffset
    ensures var cut := AnalyzeNextFrame(cfg, st, frameSet, inputFrameno, previousKeyframe).1;
      var distance := inputFrameno - previousKeyframe;
      var advanced := Advance(cfg, st, frameSet);
      (distance < cfg.minKfInterval ==> !cut) &&
      (cfg.minKfInterval <= distance && cfg.maxKfInterval <= distance ==> cut) &&
      (cfg.minKfInterval <= distance < cfg.maxKfInterval ==>
        cut == AdaptiveScenecut(advanced.scoreDeque, advanced.dequeOffset, cfg.bitDepth))
  {
    var advanced := Advance(cfg, st, frameSet);
    IntervalOverride(AdaptiveScenecut(advanced.scoreDeque, advanced.dequeOffset, cfg.bitDepth),
                     inputFrameno - previousKeyframe, cfg.minKfInterval, cfg.maxKfInterval);
  }

  /**
   * Each comparison of the warm-up is of consecutive frames, newest pair in
   * front; started on a comparator ready for the window's first frame, every
   * result equals a fresh comparison of its pair.
   */
  lemma {:induction false} InitializeComparesConsecutivePairs(
    cfg: DetectorConfig, st: State, frameSet: seq<Frame>, initLen: nat)
    requires cfg.pixels > 0 && initLen < |frameSet|
    requires ReadyFor(cfg, st.comparator, frameSet[0])
    ensures var out := InitializeScoreDeque(cfg, st, frameSet, initLen);
      ReadyFor(cfg, out.comparator, frameSet[initLen]) &&
      (initLen > 0 ==> InUse(cfg, out.comparator)) &&
      forall i :: 0 <= i < initLen ==>
        out.scoreDeque[i] == FreshResult(cfg, frameSet[initLen - 1 - i], frameSet[initLen - i])
  {
    if initLen > 0 {
      var before := InitializeScoreDeque(cfg, st, frameSet, initLen - 1);
      InitializeComparesConsecutivePairs(cfg, st, frameSet, initLen - 1);
      RotationMatchesFreshComparison(cfg, before.comparator, frameSet[initLen - 1], frameSet[initLen]);
      var out := InitializeScoreDeque(cfg, st, frameSet, initLen);
      forall i | 1 <= i < initLen
        ensures out.scoreDeque[i] == FreshResult(cfg, frameSet[initLen - 1 - i], frameSet[initLen - i])
      {
        assert out.scoreDeque[i] == before.scoreDeque[i - 1];
      }
    }
  }

  /**
   * Warm-up of a long window on an empty deque (so, by the invariant, an untouched comparator): the deque ends up holding
   * the pairs (0, 1) to (offset, offset + 1), newest first, so the entry
   * under decision is the pair (0, 1).
   */
  lemma LongWindowWarmUp(cfg: DetectorConfig, st: State, frameSet: seq<Frame>)
    requires cfg.pixels > 0 && |frameSet| >= 2 && Inv(cfg, st)
    requires st.scoreDeque == [] && st.dequeOffset > 0 && |frameSet| > st.dequeOffset + 1
    ensures var advanced := Advance(cfg, st, frameSet);
      var offset := st.dequeOffset;
      advanced.dequeOffset == offset && |advanced.scoreDeque| == offset + 1 &&
      (forall i :: 0 <= i <= offset ==>
        advanced.scoreDeque[i] == FreshResult(cfg, frameSet[offset - i], frameSet[offset + 1 - i])) &&
      advanced.scoreDeque[offset] == FreshResult(cfg, frameSet[0], frameSet[1])
  {
    EmptyComparatorIsReady(cfg, frameSet[0]);
    var offset := st.dequeOffset;
    var warm := InitializeScoreDeque(cfg, st, frameSet, offset);
    InitializeComparesConsecutivePairs(cfg, st, frameSet, offset);
    RotationMatchesFreshComparison(cfg, warm.comparator, frameSet[offset], frameSet[offset + 1]);
    var advanced := Advance(cfg, st, frameSet);
    forall i | 1 <= i <= offset
      ensures advanced.scoreDeque[i] == FreshResult(cfg, frameSet[offset - i], frameSet[offset + 1 - i])
    {
      assert advanced.scoreDeque[i] == warm.scoreDeque[i - 1];
    }
  }

  /**
   * Warm-up of a short window (or with no look-ahead offset) on an empty
   * deque, so, by the invariant, an untouched comparator: every pair of the
   * window is compared, and then the last pair
   * once more. That repeat finds the retained plane of the last frame in
   * slot 0, so the newest entry compares the last frame with itself. The
   * offset moves to `len - 2`, the entry of the pair (1, 2) when the window
   * has three frames or more.
   */
  lemma ShortWindowWarmUp(cfg: DetectorConfig, st: State, frameSet: seq<Frame>)
    requires cfg.pixels > 0 && |frameSet| >= 2 && Inv(cfg, st)
    requires st.scoreDeque == [] && !(st.dequeOffset > 0 && |frameSet| > st.dequeOffset + 1)
    ensures var advanced := Advance(cfg, st, frameSet);
      var n := |frameSet|;
      advanced.dequeOffset == n - 2 && |advanced.scoreDeque| == n &&
      advanced.scoreDeque[0] == FreshResult(cfg, frameSet[n - 1], frameSet[n - 1]) &&
      forall i :: 1 <= i < n ==>
        advanced.scoreDeque[i] == FreshResult(cfg, frameSet[n - 1 - i], frameSet[n - i])
  {
    EmptyComparatorIsReady(cfg, frameSet[0]);
    var n := |frameSet|;
    var init := InitializeScoreDeque(cfg, st, frameSet, n - 1);
    InitializeComparesConsecutivePairs(cfg, st, frameSet, n - 1);
    InUseBufferComparesRetainedFrame(cfg, init.comparator, frameSet[n - 1], frameSet[n - 2], frameSet[n - 1]);
    var advanced := Advance(cfg, st, frameSet);
    assert advanced == RunComparison(cfg, init.(dequeOffset := n - 2), frameSet[n - 2], frameSet[n - 1]);
    forall i | 1 <= i < n
      ensures advanced.scoreDeque[i] == FreshResult(cfg, frameSet[n - 1 - i], frameSet[n - i])
    {
      assert advanced.scoreDeque[i] == init.scoreDeque[i - 1];
    }
  }

  /**
   * After the warm-up, a window that reaches past the offset adds exactly
   * one result, for the pair (offset, offset + 1), in front of the old ones;
   * when the comparator is ready for the first of these frames (the caller
   * slid the window by one) that result is a fresh comparison.
   */
  lemma OneComparisonPerCall(cfg: DetectorConfig, st: State, frameSet: seq<Frame>)
    requires cfg.pixels > 0 && |frameSet| >= 2 && Inv(cfg, st)
    requires st.scoreDeque != [] && |frameSet| > st.dequeOffset + 1
    ensures var advanced := Advance(cfg, st, frameSet);
      var offset := st.dequeOffset;
      advanced.dequeOffset == offset &&
      advanced.scoreDeque
        == [FastScenecut(cfg, st.comparator, frameSet[offset], frameSet[offset + 1]).1] + st.scoreDeque &&
      (ReadyFor(cfg, st.comparator, frameSet[offset]) ==>
        advanced.scoreDeque[0] == FreshResult(cfg, frameSet[offset], frameSet[offset + 1]) &&
        ReadyFor(cfg, advanced.comparator, frameSet[offset + 1]))
  {
    var offset := st.dequeOffset;
    if ReadyFor(cfg, st.comparator, frameSet[offset]) {
      RotationMatchesFreshComparison(cfg, st.comparator, frameSet[offset], frameSet[offset + 1]);
    }
  }

  /**
   * After the warm-up, a window that no longer reaches past the offset (the
   * end of the stream) runs no comparison: the deque and the buffers stay,
   * and the offset, necessarily positive, steps back by exactly one.
   */
  lemma EndOfStreamShrinksOffset(cfg: DetectorConfig, st: State, frameSet: seq<Frame>)
    requires cfg.pixels > 0 && |frameSet| >= 2 && Inv(cfg, st)
    requires st.scoreDeque != [] && |frameSet| <= st.dequeOffset + 1
    ensures st.dequeOffset > 0
    ensures Advance(cfg, st, frameSet) == st.(dequeOffset := st.dequeOffset - 1)
  {
  }

  /**
   * Eviction removes at most one entry per call, and only the oldest: the
   * deque after the call is the advanced deque, or it without its last entry
   * exactly when it holds more than `5 + lookahead_offset` entries.
   */
  lemma EvictionDropsOnlyTheOldest(
    cfg: DetectorConfig, st: State, frameSet: seq<Frame>, inputFrameno: nat, previousKeyframe: nat)
    requires Inv(cfg, st) && CanAnalyze(cfg, frameSet, inputFrameno, previousKeyframe)
    requires |frameSet| > cfg.lookaheadOffset
    ensures var advanced := Advance(cfg, st, frameSet);
      var out := AnalyzeNextFrame(cfg, st, frameSet, inputFrameno, previousKeyframe).0;
      out.comparator == advanced.comparator && out.dequeOffset == advanced.dequeOffset &&
      (|advanced.scoreDeque| > 5 + cfg.lookaheadOffset ==>
        out.scoreDeque == advanced.scoreDeque[..|advanced.scoreDeque| - 1]) &&
      (|advanced.scoreDeque| <= 5 + cfg.lookaheadOffset ==> out.scoreDeque == advanced.scoreDeque)
  {
  }

  /**
   * The deque stays within `5 + lookahead_offset` entries. With an offset
   * of 5 this holds for every window, since warm-up then adds at most 5
   * entries. With an offset of 0 it holds for the whole run exactly when the
   * first window past the guard, the one that warms the empty deque up, has
   * at most 6 frames; later windows of any length add one entry and evict
   * one.
   */
  lemma CapacityIsKept(
    cfg: DetectorConfig, st: State, frameSet: seq<Frame>, inputFrameno: nat, previousKeyframe: nat)
    requires Inv(cfg, st) && CanAnalyze(cfg, frameSet, inputFrameno, previousKeyframe)
    requires |st.scoreDeque| <= 5 + cfg.lookaheadOffset
    requires cfg.lookaheadOffset == 5 || st.scoreDeque != [] || |frameSet| <= 6
    ensures |AnalyzeNextFrame(cfg, st, frameSet, inputFrameno, previousKeyframe).0.scoreDeque|
         <= 5 + cfg.lookaheadOffset
  {
  }

  /**
   * Without a look-ahead offset, a first window of more than 6 frames leaves
   * one entry per frame but one behind: more than the 5 the eviction keeps.
   */
  lemma LongFirstWindowExceedsCapacity(
    cfg: DetectorConfig, st: State, frameSet: seq<Frame>, inputFrameno: nat, previousKeyframe: nat)
    requires Inv(cfg, st) && CanAnalyze(cfg, frameSet, inputFrameno, previousKeyframe)
    requires cfg.lookaheadOffset == 0 && st.scoreDeque == [] && |frameSet| > 6
    ensures |AnalyzeNextFrame(cfg, st, frameSet, inputFrameno, previousKeyframe).0.scoreDeque|
         == |frameSet| - 1 > 5
  {
  }
}

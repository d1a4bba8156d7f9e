# Scene-cut decision core of av-scenechange, in Dafny

This project models the scene-cut decision engine of av-scenechange
(`src/scenechange/`): the `SceneChangeDetector` that a caller feeds with a
sliding window of frames, one call per frame, and that answers whether the
frame under decision starts a new scene.

The detector keeps a *score deque*: one `ScenecutResult` per compared frame
pair, with the newest result at the front. Each call of
`analyze_next_frame` does the following:

- It stops early when the window is no longer than the look-ahead offset.
- On the first call it warms the deque up.
- It compares one new frame pair. At the end of the stream it steps the
  decision offset back instead.
- It decides with the adaptive, flash-aware threshold test.
- It lets the minimum and maximum keyframe intervals override that verdict.
- It evicts the oldest score.

Frame pairs are compared by the fast algorithm. Each frame's luma plane is
downscaled by a power-of-two factor chosen from the smaller frame edge. Two
planes are held in a two-slot buffer that is rotated in place from call to
call. Without downscaling, the buffer holds the last two frames instead. The
cost of a pair is the sum of absolute differences divided by the pixel count.

## Layout

- `wrappers.dfy` (module `Wrappers`): `Option` and `unwrap_or`.
- `frames.dfy` (module `Frames`): planes, frames, the CPU tier, and the types
  of the two external pixel kernels.
- `power_of_two.dfy` (module `PowerOfTwo`): `fast_idiv` as a right shift by
  the trailing-zero count, proved equal to division.
- `scale_factor.dfy` (module `ScaleFactor`): `detect_scale_factor` and its
  table.
- `config.dfy` (module `Config`): the constants, `ScenecutResult`, and the
  fixed fields that `new` derives.
- `fast.dfy` (module `Fast`): `fast_scenecut` and `delta_in_planes` on
  values. The `Comparator` value stands for the two buffers.
- `adaptive.dfy` (module `Adaptive`): `adaptive_scenecut` and
  `handle_min_max_intervals`. Both are pure.
- `analyze.dfy` (module `Analyze`): one call of `analyze_next_frame` on a
  value `State`, its invariant, and the properties of one call.
- `detector.dfy` (module `Detector`): the class `SceneChangeDetector`.
  - Its configuration fields are constants.
  - `deque_offset` and `score_deque` are fields that the methods reassign.
  - The two-slot buffers are arrays of length two, rotated in place.
  - Every method is proved to follow the value-level function in `Fast` or
    `Analyze`. Its `ensures` says `View()` after the call equals that
    function of `old(View())`.

`sad_plane` and `Plane::downscale` are not part of this model. They are
function-valued parameters of the detector (`sad` and `downscale`).

## Where the code and its description differ (the model follows the code)

- The scale factor keys on the smaller frame edge, `min(height, width)`, not
  on the larger one.
- `lookahead_offset` is 5 when at least 5 frames are looked ahead and 0
  otherwise. It is never anything in between.
- The short-window guard and the eviction bound use `lookahead_offset`, not
  the look-ahead distance.
- The guard wins even over the maximum keyframe interval. A window no longer
  than `lookahead_offset` never gets a keyframe
  (`Analyze.GuardedCallChangesNothing`).
- Flash rule 2 ("no backward and exactly one forward entry over threshold")
  also requires that the single forward entry over threshold is the newest
  one, `forward_deque[0]`. When it is an older one, the cut is suppressed
  (`Adaptive.CutBeforeFlash`).
- The deque stays within `5 + lookahead_offset` entries. With an offset of 5
  this holds for every window. With an offset of 0 it holds for the whole run
  exactly when the first window past the guard has at most 6 frames. That
  window warms the empty deque up with one entry per frame, and a call evicts
  at most one (`Analyze.CapacityIsKept`, `Analyze.LongFirstWindowExceedsCapacity`).
  Later windows of any length add one entry and evict one.
- A short-window warm-up compares every pair of the window and then the last
  pair once more. By then the rotated buffer already holds the last frame in
  slot 0, so the newest score compares the last frame with itself. With three
  frames or more, the entry under decision becomes the pair (1, 2) rather
  than (0, 1). With two frames, it is that self-comparison
  (`Analyze.ShortWindowWarmUp`).

## Model

| member | source | states |
|---|---|---|
| PowerOfTwo.FastIdiv | src/scenechange/mod.rs:29-41 | for every power-of-two divisor, shifting right by the trailing-zero count equals integer division |
| PowerOfTwo.PowerOfTwoIsPow2OfTrailingZeros | src/scenechange/mod.rs:32-40 | a power of two is 2 raised to its trailing-zero count |
| PowerOfTwo.ShiftRightIsDivision | src/scenechange/mod.rs:40 | shifting right by k divides by 2^k, rounding down |
| ScaleFactor.DetectScaleFactor | src/scenechange/fast.rs:95-108 | nothing is downscaled exactly when the smaller edge is at most 240; otherwise the factor is one of 2, 4, 8, 16 and 32 |
| ScaleFactor.FactorIsPowerOfTwo | src/scenechange/fast.rs:99-107 | every factor in the table, and the default 1, is a power of two, so `fast_idiv`'s precondition holds in `new` |
| ScaleFactor.ScaleFactorKeysOnSmallerEdge | src/scenechange/fast.rs:99 | the decision is symmetric in width and height and depends only on the smaller edge |
| ScaleFactor.ScaleFactorMonotone | src/scenechange/fast.rs:99-107 | a larger smaller edge never gets a smaller factor |
| ScaleFactor.DownscaledEdgeIsAtLeast50 | src/scenechange/fast.rs:100-107 | when downscaling happens, the smaller edge divided by the factor is at least 50 |
| Config.ThresholdFor | src/scenechange/mod.rs:123 | the threshold is non-negative, equals `FAST_THRESHOLD` at 8 bits, and is proportional to the bit depth |
| Config.New | src/scenechange/mod.rs:95-139 | scale policy from the table; look-ahead offset is 5 exactly when the distance is at least 5, and 0 below that; pixels = (h/f)·(w/f) with f = 1 when nothing is scaled; threshold 18·depth/8; the other fields are passed through |
| Config.ScaledPixels | src/scenechange/mod.rs:113-121 | the product of shifts computes (h/f)·(w/f) for the table's factor |
| Config.PixelsPositiveIffFrameNonEmpty | src/scenechange/mod.rs:113-121 | the derived pixel count is positive exactly when both frame edges are |
| Fast.DeltaInPlanes | src/scenechange/fast.rs:85-91 | the delta is non-negative, and the delta times the pixel count is the sum of absolute differences |
| Fast.FastScenecut | src/scenechange/fast.rs:15-83 | afterwards the selected buffer is present and initialized, so the unreachable branches are unreachable; slot 1 is the prepared `frame2`; the result has the detector's threshold and the delta of the two slots in all three costs; the other buffer is untouched |
| Fast.InUseBufferComparesRetainedFrame | src/scenechange/fast.rs:22-26 | with a buffer in use, the pair compared is the retained frame and `frame2`, whatever `frame1` is |
| Fast.InitializedBufferIgnoresFirstFrame | src/scenechange/fast.rs:20-65 | with the buffer in use, `frame1` is not read at all: the new buffer and the result do not depend on it |
| Fast.EmptyComparatorIsReady | src/scenechange/mod.rs:125-138 | a fresh detector holds no buffer, selects one buffer and is ready for any first pair |
| Fast.RotationMatchesFreshComparison | src/scenechange/fast.rs:20-83 | when the retained slot holds `frame1`, the result equals a fresh comparison, and the comparator is then ready for a pair starting at `frame2` |
| Fast.ChainedComparisonIsFresh | src/scenechange/fast.rs:20-83 | comparing (A, B) and then (B, C) gives for (B, C) what a fresh detector gives, whatever was held before |
| Fast.FastScenecutSelectsOneBuffer | src/scenechange/fast.rs:20-65 | only the buffer selected by the scale policy is ever put in use |
| Fast.IdenticalFramesCostNothing | src/scenechange/fast.rs:85-91 | if the kernel finds no difference between equal planes, comparing a frame with itself costs 0 in all three costs |
| Adaptive.ImpBlockThreshold | src/scenechange/mod.rs:255 | the importance-block threshold is non-negative, equals `IMP_BLOCK_DIFF_THRESHOLD` at 8 bits, is proportional to the bit depth, and keeps a fixed 7 : 18 ratio to the cost threshold |
| Adaptive.HasImpBlockEvidence | src/scenechange/mod.rs:256-258 | the front-to-back `any` scan is true exactly when some entry's importance-block cost reaches the threshold |
| Adaptive.BackOverCount | src/scenechange/mod.rs:267-270 | the count is at most the slice length, and it is zero exactly when no backward cost reaches its threshold |
| Adaptive.ForwardOverCount | src/scenechange/mod.rs:271-274 | the count is at most the slice length, and it is zero exactly when no forward cost reaches its threshold |
| Adaptive.OneForwardOverMeansExactlyOne | src/scenechange/mod.rs:271-274 | the forward count is 1 exactly when one entry's forward cost reaches its threshold and no other entry's does |
| Adaptive.TwoBackwardOverMeansTwoEntries | src/scenechange/mod.rs:267-270 | the backward count is at least 2 exactly when two distinct entries' backward costs reach their thresholds |
| Adaptive.AdaptiveScenecut | src/scenechange/mod.rs:243-301 | a cut requires importance-block evidence at or behind the offset and a forward cost at threshold at the offset; every index, including `forward_deque[0]`, is in bounds |
| Adaptive.HandleMinMaxIntervals | src/scenechange/mod.rs:214-223 | forces no cut exactly below the minimum interval, forces a cut exactly at or past both intervals, and forces nothing exactly in between |
| Adaptive.IntervalOverride | src/scenechange/mod.rs:192 | the final verdict is false below the minimum, true at or past the maximum (the minimum wins), and the adaptive verdict otherwise |
| Adaptive.CutAfterFlash | src/scenechange/mod.rs:276-284 | with evidence and the cost over threshold, no forward entry over threshold and two distinct backward entries over threshold give a cut |
| Adaptive.CutBeforeFlash | src/scenechange/mod.rs:286-293 | with evidence, the cost over threshold, no backward entry over threshold and exactly one forward entry over threshold at index i, there is a cut exactly when i = 0, the newest entry |
| Adaptive.AmbiguousFlashIsSuppressed | src/scenechange/mod.rs:295-297 | any other nonzero pattern of over-threshold neighbours gives no cut |
| Adaptive.PlainThresholdCrossing | src/scenechange/mod.rs:256-300 | with no neighbour over threshold, a cut happens exactly when there is evidence and the cost reaches the threshold |
| Analyze.InitialStateIsValid | src/scenechange/mod.rs:109-132 | the state `new` leaves satisfies the invariant |
| Analyze.RunComparison | src/scenechange/mod.rs:232-237 | one result for the pair is inserted at the front; the older entries follow it in order; the offset is unchanged |
| Analyze.InitializeScoreDeque | src/scenechange/mod.rs:225-230 | `init_len` results are prepended; the old deque is the suffix; the offset is unchanged; the one-buffer rule is kept |
| Analyze.WarmUp | src/scenechange/mod.rs:167-178 | a non-empty deque is untouched; a long window adds `deque_offset` results and keeps the offset; otherwise `len - 1` results are added and the offset becomes `len - 2` |
| Analyze.Advance | src/scenechange/mod.rs:167-188 | after warm-up and the comparison or step back, the offset names an entry of the deque |
| Analyze.Evict | src/scenechange/mod.rs:205-209 | past `5 + lookahead_offset` entries exactly the last entry goes; the rest is a prefix of the deque |
| Analyze.AnalyzeNextFrame | src/scenechange/mod.rs:149-212 | every call keeps the invariant: one buffer in use; an empty deque has its offset at the look-ahead offset and no buffer; otherwise the offset is inside the deque |
| Analyze.AdvancedInvariant | src/scenechange/mod.rs:179-209 | after the advance the deque is non-empty and the offset survives eviction |
| Analyze.GuardedCallChangesNothing | src/scenechange/mod.rs:161-165 | a window no longer than the look-ahead offset gives false and changes no field |
| Analyze.VerdictFollowsIntervals | src/scenechange/mod.rs:190-192 | past the guard, the intervals decide when they apply, and the adaptive verdict on the advanced deque decides otherwise |
| Analyze.InitializeComparesConsecutivePairs | src/scenechange/mod.rs:226-230 | warm-up compares the pairs (x, x + 1) in order, newest in front, each equal to a fresh comparison, and leaves the comparator ready for the next frame |
| Analyze.LongWindowWarmUp | src/scenechange/mod.rs:169-185 | from any valid state with an empty deque, a long window yields the pairs (0, 1) to (offset, offset + 1), newest first; the entry under decision is the pair (0, 1) |
| Analyze.ShortWindowWarmUp | src/scenechange/mod.rs:174-185 | from any valid state with an empty deque, a short window yields every pair, then the last frame compared with itself; the offset is `len - 2` |
| Analyze.OneComparisonPerCall | src/scenechange/mod.rs:181-185 | after warm-up exactly one result, for the pair (offset, offset + 1), is prepended; on a window slid by one it equals a fresh comparison |
| Analyze.EndOfStreamShrinksOffset | src/scenechange/mod.rs:186-188 | with no new frame, the offset is positive and steps back by exactly one, and nothing else changes |
| Analyze.EvictionDropsOnlyTheOldest | src/scenechange/mod.rs:205-209 | a call removes at most one entry, only the oldest, exactly when more than `5 + lookahead_offset` remain; everything else is as advanced |
| Analyze.CapacityIsKept | src/scenechange/mod.rs:205-209 | the deque stays within `5 + lookahead_offset` entries: for every window when the offset is 5, and with offset 0 for every window once the deque is non-empty, and for a first window of at most 6 frames |
| Analyze.LongFirstWindowExceedsCapacity | src/scenechange/mod.rs:174-209 | with offset 0, a first window of n > 6 frames leaves n - 1 > 5 entries, so the bound needs the first window to be short |
| Detector.SceneChangeDetector.constructor | src/scenechange/mod.rs:95-139 | the fixed fields are those of `Config.New`; no buffer is held; the deque is empty; the offset is the look-ahead offset |
| Detector.SceneChangeDetector.FastScenecut | src/scenechange/fast.rs:15-83 | the in-place swap and refill of the slot arrays leaves the buffers and result `Fast.FastScenecut` gives; the deque and offset are untouched |
| Detector.SceneChangeDetector.RunComparison | src/scenechange/mod.rs:232-237 | the new state is `Analyze.RunComparison` of the old one |
| Detector.SceneChangeDetector.InitializeScoreDeque | src/scenechange/mod.rs:225-230 | the loop leaves the state `Analyze.InitializeScoreDeque` gives |
| Detector.SceneChangeDetector.WarmUpScoreDeque | src/scenechange/mod.rs:167-178 | the new state is `Analyze.WarmUp` of the old one |
| Detector.SceneChangeDetector.CompareOrShrink | src/scenechange/mod.rs:179-188 | it compares the pair at the offset when the window reaches past it, and otherwise decrements the offset |
| Detector.SceneChangeDetector.AdvanceWindow | src/scenechange/mod.rs:167-188 | the new state is `Analyze.Advance` of the old one |
| Detector.SceneChangeDetector.EvictOldest | src/scenechange/mod.rs:205-209 | the deque becomes `Analyze.Evict` of the old deque, and nothing else changes |
| Detector.SceneChangeDetector.AnalyzeNextFrame | src/scenechange/mod.rs:149-212 | the new state and the verdict are those of `Analyze.AnalyzeNextFrame`, and the invariant is kept |

## Left out

- `src/main.rs` (command-line parsing, y4m decoding, JSON output) and
  `build.rs` (assembly build plumbing) are I/O and are not part of this model.
- CPU feature detection (`src/cpu_features/`) is a foreign call. The tier is
  an opaque value passed through to the difference kernel.
- `sad_plane` and `Plane::downscale` / `downscale_in_place` live in other
  crates and in assembly. They are function-valued parameters with no
  contract. The in-place variant is modelled as writing the downscaled plane
  into the slot, which is the same plane without the reuse of the
  allocation.
- Detector.SceneChangeDetector.FastScenecut: the slot arrays are allocated
  by the constructor and only filled on first use, where the source
  allocates the buffer on first use. Which buffer is present is kept as a
  tag beside the arrays.
- `Arc` reference counting: frames are immutable values.
- Floating point: costs and thresholds are reals with exact division, so
  rounding and NaN are not modelled.
- Fast.DeltaInPlanes: requires a positive pixel count. For an empty frame the
  source divides by zero in floating point (NaN or infinity). This is carried
  into `Analyze.CanAnalyze`. `Config.PixelsPositiveIffFrameNonEmpty` shows
  that this means both frame edges are positive.
- Analyze.CanAnalyze: the unsigned underflows are preconditions instead of
  modelled panics. These are `input_frameno - previous_keyframe` (mod.rs:159),
  `frame_set.len() - 2` (mod.rs:177) and `deque_offset -= 1` (mod.rs:187).
- Integer widths: `usize`, `u32` and `u64` are unbounded naturals. The
  multiplication in `new` cannot overflow for 32-bit edges on a 64-bit
  target.
- The `Vec::with_capacity(5 + lookahead_distance)` hint has no observable
  effect and is not modelled.
- The `devel`-only `debug!` logging (mod.rs:193-203) is diagnostics only and
  is not part of this model.

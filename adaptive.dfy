/**
 * The verdict of the detector: the adaptive, flash-aware threshold test
 * over the score deque (`adaptive_scenecut`) and the keyframe-interval
 * override (`handle_min_max_intervals`). Both only read.
 */
module Adaptive {
  import opened Wrappers
  import opened Config

  /** The importance-block cost that evidences a hard cut or a pan: 7 at 8 bits, scaled linearly. */
  function ImpBlockThreshold(bitDepth: nat): (t: real)
    ensures t >= 0.0
    ensures bitDepth == 8 ==> t == IMP_BLOCK_DIFF_THRESHOLD
    ensures t * 8.0 == IMP_BLOCK_DIFF_THRESHOLD * bitDepth as real
    ensures t * FAST_THRESHOLD == ThresholdFor(bitDepth) * IMP_BLOCK_DIFF_THRESHOLD
  {
    IMP_BLOCK_DIFF_THRESHOLD * (bitDepth as real) / 8.0
  }

  predicate BackwardOverThreshold(r: ScenecutResult)
  {
    r.backwardAdjustedCost >= r.threshold
  }

  predicate ForwardOverThreshold(r: ScenecutResult)
  {
    r.forwardAdjustedCost >= r.threshold
  }

  /** `back_over_tr_count`: how many entries have a backward-adjusted cost at or over their threshold. */
  function BackOverCount(s: seq<ScenecutResult>): (n: nat)
    ensures n <= |s|
    ensures n == 0 <==> forall i :: 0 <= i < |s| ==> !BackwardOverThreshold(s[i])
  {
    if s == [] then 0
    else BackOverCount(s[1..]) + (if BackwardOverThreshold(s[0]) then 1 else 0)
  }

  /** `forward_over_tr_count`: how many entries have a forward-adjusted cost at or over their threshold. */
  function ForwardOverCount(s: seq<ScenecutResult>): (n: nat)
    ensures n <= |s|
    ensures n == 0 <==> forall i :: 0 <= i < |s| ==> !ForwardOverThreshold(s[i])
  {
    if s == [] then 0
    else ForwardOverCount(s[1..]) + (if ForwardOverThreshold(s[0]) then 1 else 0)
  }

  /**
   * `.iter().any(|result| result.imp_block_cost >= threshold)`: scanned from
   * the front, stopping at the first hit; true exactly when some entry of
   * `s` reaches the threshold.
   */
  predicate HasImpBlockEvidence(s: seq<ScenecutResult>, threshold: real)
    ensures HasImpBlockEvidence(s, threshold)
        <==> exists i :: 0 <= i < |s| && s[i].impBlockCost >= threshold
  {
    if s == [] then false
    else if s[0].impBlockCost >= threshold then true
    else
      assert forall i :: 1 <= i < |s| ==> s[i] == s[1..][i - 1];
      HasImpBlockEvidence(s[1..], threshold)
  }

  /** Entry `i` is the one and only entry of `s` whose forward cost reaches its threshold. */
  predicate OnlyForwardOverAt(s: seq<ScenecutResult>, i: int)
  {
    0 <= i < |s| && ForwardOverThreshold(s[i]) &&
    forall j :: 0 <= j < |s| && j != i ==> !ForwardOverThreshold(s[j])
  }

  /** A count of exactly one means one entry over threshold and no other. */
  lemma OneForwardOverMeansExactlyOne(s: seq<ScenecutResult>)
    ensures ForwardOverCount(s) == 1 <==> exists i :: OnlyForwardOverAt(s, i)
  {
    if ForwardOverCount(s) == 1 {
      var i := CountOneLocatesEntry(s);
    }
    if exists i :: OnlyForwardOverAt(s, i) {
      var i :| OnlyForwardOverAt(s, i);
      SingleEntryCountsOne(s, i);
    }
  }

  lemma {:induction false} CountOneLocatesEntry(s: seq<ScenecutResult>) returns (i: nat)
    requires ForwardOverCount(s) == 1
    ensures OnlyForwardOverAt(s, i)
  {
    var tail := s[1..];
    assert forall j :: 1 <= j < |s| ==> s[j] == tail[j - 1];
    if ForwardOverThreshold(s[0]) {
      assert ForwardOverCount(tail) == 0;
      i := 0;
    } else {
      var k := CountOneLocatesEntry(tail);
      i := k + 1;
      assert ForwardOverThreshold(s[i]);
    }
  }

  lemma {:induction false} SingleEntryCountsOne(s: seq<ScenecutResult>, i: int)
    requires OnlyForwardOverAt(s, i)
    ensures ForwardOverCount(s) == 1
  {
    var tail := s[1..];
    assert forall j :: 1 <= j < |s| ==> s[j] == tail[j - 1];
    if i == 0 {
      assert forall j :: 0 <= j < |tail| ==> !ForwardOverThreshold(tail[j]);
    } else {
      assert !ForwardOverThreshold(s[0]);
      assert OnlyForwardOverAt(tail, i - 1);
      SingleEntryCountsOne(tail, i - 1);
    }
  }

  /** A count of two or more means two distinct entries over threshold. */
  lemma {:induction false} TwoBackwardOverMeansTwoEntries(s: seq<ScenecutResult>)
    ensures BackOverCount(s) >= 2
        <==> exists i, j :: 0 <= i < j < |s| && BackwardOverThreshold(s[i]) && BackwardOverThreshold(s[j])
  {
    if s != [] {
      var tail := s[1..];
      TwoBackwardOverMeansTwoEntries(tail);
      assert forall j :: 1 <= j < |s| ==> s[j] == tail[j - 1];
      if BackOverCount(s) >= 2 {
        if BackwardOverThreshold(s[0]) {
          assert BackOverCount(tail) >= 1;
          var k :| 0 <= k < |tail| && BackwardOverThreshold(tail[k]);
          assert BackwardOverThreshold(s[k + 1]);
        } else {
          var a, b :| 0 <= a < b < |tail| && BackwardOverThreshold(tail[a]) && BackwardOverThreshold(tail[b]);
          assert BackwardOverThreshold(s[a + 1]) && BackwardOverThreshold(s[b + 1]);
        }
      }
      if exists i, j :: 0 <= i < j < |s| && BackwardOverThreshold(s[i]) && BackwardOverThreshold(s[j]) {
        var i, j :| 0 <= i < j < |s| && BackwardOverThreshold(s[i]) && BackwardOverThreshold(s[j]);
        if i == 0 {
          assert BackwardOverThreshold(tail[j - 1]);
          assert BackOverCount(tail) >= 1;
        } else {
          assert BackwardOverThreshold(tail[i - 1]) && BackwardOverThreshold(tail[j - 1]);
        }
      }
    }
  }

  /**
   * `adaptive_scenecut`. The deque is newest first and `offset` is the
   * entry under decision: entries before it are forward (newer), entries
   * after it backward (older). Without importance-block evidence at or
   * behind the offset there is no cut. A cost over threshold is a cut when
   * the flash pattern says so: no forward and at least two backward entries
   * over threshold, or no backward and exactly one forward entry over, that
   * one being the newest. Any other nonzero pattern suppresses the cut.
   */
  function AdaptiveScenecut(scoreDeque: seq<ScenecutResult>, offset: nat, bitDepth: nat): (cut: bool)
    requires offset < |scoreDeque|
    ensures cut ==> HasImpBlockEvidence(scoreDeque[offset..], ImpBlockThreshold(bitDepth))
    ensures cut ==> ForwardOverThreshold(scoreDeque[offset])
  {
    var score := scoreDeque[offset];
    if !HasImpBlockEvidence(scoreDeque[offset..], ImpBlockThreshold(bitDepth)) then false
    else
      var cost := score.forwardAdjustedCost;
      if cost >= score.threshold then
        var backDeque := scoreDeque[offset + 1..];
        var forwardDeque := scoreDeque[..offset];
        var backOverCount := BackOverCount(backDeque);
        var forwardOverCount := ForwardOverCount(forwardDeque);
        if forwardOverCount == 0 && backOverCount >= 2 then true
        else if backOverCount == 0 && forwardOverCount == 1
             && forwardDeque[0].forwardAdjustedCost >= forwardDeque[0].threshold then true
        else if backOverCount != 0 || forwardOverCount != 0 then false
        else cost >= score.threshold
      else
        cost >= score.threshold
  }

  /**
   * `handle_min_max_intervals`: closer to the last keyframe than the
   * minimum interval forbids a cut, at or past the maximum forces one, and
   * in between the adaptive verdict stands. The minimum wins when both apply.
   */
  function HandleMinMaxIntervals(distance: nat, minKfInterval: nat, maxKfInterval: nat)
    : (forced: Option<bool>)
    ensures forced == Some(false) <==> distance < minKfInterval
    ensures forced == Some(true) <==> minKfInterval <= distance && maxKfInterval <= distance
    ensures forced == None <==> minKfInterval <= distance < maxKfInterval
  {
    if distance < minKfInterval then Some(false)
    else if distance >= maxKfInterval then Some(true)
    else None
  }

  /** The final verdict: the interval rule when it applies, otherwise the adaptive one. */
  lemma IntervalOverride(adaptive: bool, distance: nat, minKfInterval: nat, maxKfInterval: nat)
    ensures var verdict := HandleMinMaxIntervals(distance, minKfInterval, maxKfInterval).UnwrapOr(adaptive);
      (distance < minKfInterval ==> !verdict) &&
      (minKfInterval <= distance && maxKfInterval <= distance ==> verdict) &&
      (minKfInterval <= distance < maxKfInterval ==> verdict == adaptive)
  {
  }

  /**
   * Cut after a flash: over threshold, no forward entry over threshold and
   * two distinct backward entries over threshold.
   */
  lemma CutAfterFlash(scoreDeque: seq<ScenecutResult>, offset: nat, bitDepth: nat, i: nat, j: nat)
    requires offset < i < j < |scoreDeque|
    requires HasImpBlockEvidence(scoreDeque[offset..], ImpBlockThreshold(bitDepth))
    requires ForwardOverThreshold(scoreDeque[offset])
    requires forall k :: 0 <= k < offset ==> !ForwardOverThreshold(scoreDeque[k])
    requires BackwardOverThreshold(scoreDeque[i]) && BackwardOverThreshold(scoreDeque[j])
    ensures AdaptiveScenecut(scoreDeque, offset, bitDepth)
  {
    var backDeque := scoreDeque[offset + 1..];
    assert BackwardOverThreshold(backDeque[i - offset - 1]) && BackwardOverThreshold(backDeque[j - offset - 1]);
    TwoBackwardOverMeansTwoEntries(backDeque);
  }

  /**
   * Cut before a flash: over threshold, no backward entry over threshold and
   * exactly one forward entry over threshold, at index `i`. The code then
   * also demands that this entry is the NEWEST one (index 0); when the single
   * one is older, the cut is suppressed.
   */
  lemma CutBeforeFlash(scoreDeque: seq<ScenecutResult>, offset: nat, bitDepth: nat, i: nat)
    requires i < offset < |scoreDeque|
    requires HasImpBlockEvidence(scoreDeque[offset..], ImpBlockThreshold(bitDepth))
    requires ForwardOverThreshold(scoreDeque[offset])
    requires forall k :: offset < k < |scoreDeque| ==> !BackwardOverThreshold(scoreDeque[k])
    requires ForwardOverThreshold(scoreDeque[i])
    requires forall k :: 0 <= k < offset && k != i ==> !ForwardOverThreshold(scoreDeque[k])
    ensures AdaptiveScenecut(scoreDeque, offset, bitDepth) <==> i == 0
  {
    var backDeque := scoreDeque[offset + 1..];
    assert BackOverCount(backDeque) == 0 by {
      forall k | 0 <= k < |backDeque| ensures !BackwardOverThreshold(backDeque[k]) {
        assert backDeque[k] == scoreDeque[offset + 1 + k];
      }
    }
    var forwardDeque := scoreDeque[..offset];
    assert OnlyForwardOverAt(forwardDeque, i);
    SingleEntryCountsOne(forwardDeque, i);
  }

  /**
   * Any other nonzero pattern of over-threshold neighbours is an ambiguous
   * flash: no cut, however high the cost.
   */
  lemma AmbiguousFlashIsSuppressed(scoreDeque: seq<ScenecutResult>, offset: nat, bitDepth: nat)
    requires offset < |scoreDeque|
    requires var back := BackOverCount(scoreDeque[offset + 1..]);
      var forward := ForwardOverCount(scoreDeque[..offset]);
      (back != 0 || forward != 0) &&
      !(forward == 0 && back >= 2) &&
      !(back == 0 && forward == 1 && ForwardOverThreshold(scoreDeque[0]))
    ensures !AdaptiveScenecut(scoreDeque, offset, bitDepth)
  {
  }

  /**
   * With no over-threshold neighbour either way, the verdict is the plain
   * threshold test of the entry under decision, given importance-block
   * evidence.
   */
  lemma PlainThresholdCrossing(scoreDeque: seq<ScenecutResult>, offset: nat, bitDepth: nat)
    requires offset < |scoreDeque|
    requires forall i :: 0 <= i < offset ==> !ForwardOverThreshold(scoreDeque[i])
    requires forall i :: offset < i < |scoreDeque| ==> !BackwardOverThreshold(scoreDeque[i])
    ensures AdaptiveScenecut(scoreDeque, offset, bitDepth)
        <==> HasImpBlockEvidence(scoreDeque[offset..], ImpBlockThreshold(bitDepth))
             && ForwardOverThreshold(scoreDeque[offset])
  {
    var backDeque := scoreDeque[offset + 1..];
    assert BackOverCount(backDeque) == 0 by {
      forall j | 0 <= j < |backDeque| ensures !BackwardOverThreshold(backDeque[j]) {
        assert backDeque[j] == scoreDeque[offset + 1 + j];
      }
    }
  }
}

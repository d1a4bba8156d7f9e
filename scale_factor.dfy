/** The downscale policy of the fast comparator (`detect_scale_factor`). */
module ScaleFactor {
  import opened Wrappers
  import opened PowerOfTwo

  /**
   * `ScaleFunction`: the allocating and the in-place downscale transform for
   * one fixed power-of-two factor. The transforms are the external
   * `Plane::downscale` pair applied at `factor`, so only the factor is kept.
   */
  datatype ScaleFunction = ScaleFunction(factor: nat)

  function Min(a: nat, b: nat): nat { if a <= b then a else b }

  /**
   * `detect_scale_factor`: a fixed table from the SMALLER frame edge to a
   * downscale factor, or none for small frames.
   */
  function DetectScaleFactor(maxWidth: nat, maxHeight: nat): (scaleFunc: Option<ScaleFunction>)
    ensures scaleFunc.None? <==> Min(maxWidth, maxHeight) <= 240
    ensures scaleFunc.Some? ==> scaleFunc.value.factor in {2, 4, 8, 16, 32}
  {
    var smallEdge := Min(maxHeight, maxWidth);
    if smallEdge <= 240 then None
    else if smallEdge <= 480 then Some(ScaleFunction(2))
    else if smallEdge <= 720 then Some(ScaleFunction(4))
    else if smallEdge <= 1080 then Some(ScaleFunction(8))
    else if smallEdge <= 1600 then Some(ScaleFunction(16))
    else Some(ScaleFunction(32))
  }

  /** `scale_func.map_or(1, |x| x.factor)`: the factor in use, 1 when nothing is downscaled. */
  function FactorOf(scaleFunc: Option<ScaleFunction>): nat
  {
    match scaleFunc
    case Some(sf) => sf.factor
    case None => 1
  }

  /** Every factor the table hands out, and the default 1, is a power of two: `fast_idiv` may divide by it. */
  lemma FactorIsPowerOfTwo(maxWidth: nat, maxHeight: nat)
    ensures IsPowerOfTwo(FactorOf(DetectScaleFactor(maxWidth, maxHeight)))
  {
    assert IsPowerOfTwo(1);
    assert IsPowerOfTwo(2);
    assert IsPowerOfTwo(4);
    assert IsPowerOfTwo(8);
    assert IsPowerOfTwo(16);
    assert IsPowerOfTwo(32);
  }

  /** The decision depends on the smaller edge only: width and height play symmetric roles. */
  lemma ScaleFactorKeysOnSmallerEdge(maxWidth: nat, maxHeight: nat)
    ensures DetectScaleFactor(maxWidth, maxHeight) == DetectScaleFactor(maxHeight, maxWidth)
    ensures DetectScaleFactor(maxWidth, maxHeight)
         == DetectScaleFactor(Min(maxWidth, maxHeight), Min(maxWidth, maxHeight))
  {
  }

  /** A larger smaller-edge never gets a smaller factor. */
  lemma ScaleFactorMonotone(w1: nat, h1: nat, w2: nat, h2: nat)
    requires Min(w1, h1) <= Min(w2, h2)
    ensures FactorOf(DetectScaleFactor(w1, h1)) <= FactorOf(DetectScaleFactor(w2, h2))
  {
  }

  /**
   * Downscaling never shrinks the smaller edge below 50 samples, so a
   * downscaled frame is never empty.
   */
  lemma DownscaledEdgeIsAtLeast50(maxWidth: nat, maxHeight: nat)
    requires DetectScaleFactor(maxWidth, maxHeight).Some?
    ensures Min(maxWidth, maxHeight) / FactorOf(DetectScaleFactor(maxWidth, maxHeight)) >= 50
  {
  }
}

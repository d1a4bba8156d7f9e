/**
 * The collaborators of the scene-cut core that live outside it: decoded
 * pixel planes and frames, the CPU tier, and the two pixel kernels the
 * detector calls but does not implement.
 */
module Frames {

  /** A decoded pixel plane: its dimensions and its samples in row order (the stride is not modelled). */
  datatype Plane = Plane(width: nat, height: nat, samples: seq<nat>)

  /** A decoded frame. The detector only ever reads its luma plane (`planes[0]`). */
  datatype Frame = Frame(luma: Plane)

  /** The instruction-set tier that selects a variant of the difference kernel; passed through unchanged. */
  datatype CpuFeatureLevel = Rust | Sse2 | Ssse3 | Sse4_1 | Avx2 | Avx512 | Avx512Icl

  /** `sad_plane`: the sum of absolute differences of two planes, computed by the kernel of the given tier. */
  type SadFunction = (Plane, Plane, CpuFeatureLevel) -> nat

  /**
   * `Plane::downscale::<SCALE>` and `Plane::downscale_in_place::<SCALE>`: the
   * plane reduced by the power-of-two factor `SCALE`. Both produce the same
   * plane; the in-place form only reuses the destination's allocation.
   */
  type DownscaleFunction = (Plane, nat) -> Plane
}

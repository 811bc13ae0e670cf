/** The layout and cache constants of src/constants.rs, as exact reals. */
module Constants {
  const BLOCK_PADDING: real := 4.0
  const MIN_BLOCK_SIZE: real := 50.0
  const ROW_QUANTIZATION_HEIGHT: real := 100.0
  const DEFAULT_GROUP_SIZE: real := 160.0
  const CANVAS_PADDING: real := 32.0
  const CANVAS_WORKING_WIDTH: real := 1400.0
  const ALIGN_SPACING: real := 24.0
  const MAX_BLOCK_DIMENSION: real := 420.0
  const MIN_CANVAS_INNER_WIDTH: real := MIN_BLOCK_SIZE + BLOCK_PADDING * 2.0
  const MAX_CACHED_ANIMATIONS: nat := 20

  /** `f32::EPSILON` (2^-23) and `f32::MAX`, used by the width constraint and by boxing. */
  const F32_EPSILON: real := 1.0 / 8388608.0
  const F32_MAX: real := 340282346638528859811704183484516925440.0

  const I32_MIN: int := -0x8000_0000
  const I32_MAX: int := 0x7fff_ffff
}

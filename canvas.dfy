/**
 * The fixed 1000 x 800 design canvas and the clamping that keeps a plant's
 * footprint square on it.
 */
module Canvas {

  const Width: real := 1000.0
  const Height: real := 800.0

  /** A point in canvas or client coordinates. */
  datatype Point = Point(x: real, y: real)

  /**
   * `max(0, min(v, hi))`: the nearest value to `v` that is at least 0 and, when
   * that range is not empty, at most `hi`. When `hi` is negative the lower
   * bound wins and the result is 0.
   */
  function Clamp(v: real, hi: real): (r: real)
    ensures 0.0 <= r
    ensures 0.0 <= hi ==> r <= hi
    ensures 0.0 <= v <= hi ==> r == v
    ensures hi < 0.0 ==> r == 0.0
  {
    var low := if v < hi then v else hi;
    if 0.0 > low then 0.0 else low
  }

  /** The horizontal anchor of a footprint of diameter `spacing`, clamped to the canvas width. */
  function ClampX(v: real, spacing: nat): (r: real)
    ensures 0.0 <= r
    ensures spacing as real <= Width ==> r + spacing as real <= Width
    ensures 0.0 <= v && v + spacing as real <= Width ==> r == v
  {
    Clamp(v, Width - spacing as real)
  }

  /** The vertical anchor of a footprint of diameter `spacing`, clamped to the canvas height. */
  function ClampY(v: real, spacing: nat): (r: real)
    ensures 0.0 <= r
    ensures spacing as real <= Height ==> r + spacing as real <= Height
    ensures 0.0 <= v && v + spacing as real <= Height ==> r == v
  {
    Clamp(v, Height - spacing as real)
  }

  /** The footprint square anchored at (x, y) lies on the canvas. */
  predicate Fits(x: real, y: real, spacing: nat)
  {
    0.0 <= x <= Width - spacing as real && 0.0 <= y <= Height - spacing as real
  }

  /** Clamping a footprint that fits the canvas height always puts it on the canvas. */
  lemma ClampedFits(vx: real, vy: real, spacing: nat)
    ensures spacing as real <= Height ==> Fits(ClampX(vx, spacing), ClampY(vy, spacing), spacing)
  {
  }

  /** A position already on the canvas is left where it is. */
  lemma ClampKeepsFitting(x: real, y: real, spacing: nat)
    requires Fits(x, y, spacing)
    ensures ClampX(x, spacing) == x && ClampY(y, spacing) == y
  {
  }

  /** Clamping twice is clamping once. */
  lemma ClampIdempotent(v: real, hi: real)
    ensures Clamp(Clamp(v, hi), hi) == Clamp(v, hi)
  {
  }

  /** Within a non-empty range, the clamped value is the closest admissible value to `v`. */
  lemma ClampNearest(v: real, hi: real, w: real)
    requires 0.0 <= w <= hi
    ensures var r := Clamp(v, hi);
      (if r >= v then r - v else v - r) <= (if w >= v then w - v else v - w)
  {
  }
}

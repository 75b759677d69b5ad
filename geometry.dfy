/** Exact two-dimensional geometry: the script's `Vector2` and `FRect`
    values with real coordinates, and the box-overlap test used for
    collisions. */
module Geometry {

  datatype Vec2 = Vec2(x: real, y: real)

  const Zero := Vec2(0.0, 0.0)

  function Add(a: Vec2, b: Vec2): Vec2 { Vec2(a.x + b.x, a.y + b.y) }

  function Sub(a: Vec2, b: Vec2): Vec2 { Vec2(a.x - b.x, a.y - b.y) }

  /** The squared length `x*x + y*y`; the script compares `length()` against
      constants, which this does exactly without a square root. */
  function LengthSq(v: Vec2): real { v.x * v.x + v.y * v.y }

  /** A floating-point rectangle: left edge `x`, top edge `y`, width `w`,
      height `h`. */
  datatype Rect = Rect(x: real, y: real, w: real, h: real)

  /** An integer rectangle, as passed to `blit` as a source area. */
  datatype IntRect = IntRect(x: int, y: int, w: int, h: int)

  /** `a.colliderect(b)`: the two boxes share interior area (touching edges
      do not count). */
  predicate Overlaps(a: Rect, b: Rect) {
    a.x < b.x + b.w && b.x < a.x + a.w && a.y < b.y + b.h && b.y < a.y + a.h
  }

  /** The horizontal and vertical axes, so that the two collision passes can
      be stated once. */
  datatype Axis = X | Y

  function Get(v: Vec2, ax: Axis): real {
    if ax == X then v.x else v.y
  }

  function With(v: Vec2, ax: Axis, c: real): (r: Vec2)
    ensures Get(r, ax) == c
    ensures ax == X ==> r.y == v.y
    ensures ax == Y ==> r.x == v.x
  {
    if ax == X then v.(x := c) else v.(y := c)
  }

  /** The rectangle's low edge along `ax`: `left` or `top`. */
  function Lo(r: Rect, ax: Axis): real {
    if ax == X then r.x else r.y
  }

  /** The rectangle's extent along `ax`: width or height. */
  function Extent(r: Rect, ax: Axis): real {
    if ax == X then r.w else r.h
  }

  /** The rectangle moved along `ax` so that its low edge is `c`, size kept. */
  function WithLo(r: Rect, ax: Axis, c: real): (s: Rect)
    ensures Lo(s, ax) == c
    ensures Extent(s, X) == Extent(r, X) && Extent(s, Y) == Extent(r, Y)
    ensures ax == X ==> s.y == r.y
    ensures ax == Y ==> s.x == r.x
  {
    if ax == X then r.(x := c) else r.(y := c)
  }

  /** The floating-point operations of `Vector2` that the model does not
      compute: `clamp_magnitude`, `normalize` and the `angle` in degrees.
      They are taken as given functions. */
  datatype FloatOps = FloatOps(
    clampMagnitude: (Vec2, real) -> Vec2,
    normalize: Vec2 -> Vec2,
    angle: Vec2 -> real)
}

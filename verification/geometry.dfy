/**
 * Plane geometry shared by the collision test and the entities: raylib's Vector2 with its
 * float coordinates taken as reals, the four corners of a rotated sprite rectangle, and
 * raylib's point-in-axis-aligned-rectangle test used for the on-screen buttons.
 *
 * Rotation angles are represented by their unit heading (cos θ, sin θ). The game only ever
 * uses an angle through cos, sin and Vector2Rotate, so this loses nothing but the
 * transcendental functions themselves.
 */
module Geometry {

  datatype Vec2 = Vec2(x: real, y: real)

  const Zero := Vec2(0.0, 0.0)

  function Add(a: Vec2, b: Vec2): Vec2 { Vec2(a.x + b.x, a.y + b.y) }

  function Sub(a: Vec2, b: Vec2): Vec2 { Vec2(a.x - b.x, a.y - b.y) }

  function Scale(v: Vec2, k: real): Vec2 { Vec2(v.x * k, v.y * k) }

  function Abs(r: real): real { if r < 0.0 then -r else r }

  /** (cos θ, sin θ) for some angle θ. */
  predicate IsUnit(h: Vec2) {
    h.x * h.x + h.y * h.y == 1.0
  }

  /**
   * h is (cos θ, sin θ) for θ = atan2(d.y, d.x): a unit vector pointing the same way as d,
   * and (1, 0) when d is the zero vector, since atan2(0, 0) is 0.
   */
  predicate IsHeadingOf(h: Vec2, d: Vec2) {
    IsUnit(h) &&
    h.x * d.y == h.y * d.x &&
    h.x * d.x + h.y * d.y >= 0.0 &&
    (d == Zero ==> h == Vec2(1.0, 0.0))
  }

  /** raylib's Vector2Normalize(d), given the heading h of d: the zero vector stays zero. */
  function Normalize(d: Vec2, h: Vec2): (n: Vec2)
    requires IsHeadingOf(h, d)
    ensures d == Zero ==> n == Zero
    ensures d != Zero ==> IsUnit(n) && n.x * d.y == n.y * d.x && n.x * d.x + n.y * d.y > 0.0
  {
    if d == Zero then Zero
    else
      assert h.x * d.x + h.y * d.y != 0.0 by { NonZeroProjection(h, d); }
      h
  }

  /** A unit heading parallel to a non-zero vector has a non-zero projection on it. */
  lemma NonZeroProjection(h: Vec2, d: Vec2)
    requires IsUnit(h) && h.x * d.y == h.y * d.x && d != Zero
    ensures h.x * d.x + h.y * d.y != 0.0
  {
    var p := h.x * d.x + h.y * d.y;
    // (h.x d.x + h.y d.y)^2 + (h.x d.y - h.y d.x)^2 == |h|^2 |d|^2
    assert p * p + (h.x * d.y - h.y * d.x) * (h.x * d.y - h.y * d.x)
        == (h.x * h.x + h.y * h.y) * (d.x * d.x + d.y * d.y);
    assert d.x * d.x + d.y * d.y > 0.0;
  }

  /** raylib's Vector2Rotate(v, θ) with θ given by its heading h = (cos θ, sin θ). */
  function Rotate(v: Vec2, h: Vec2): Vec2 {
    Vec2(v.x * h.x - v.y * h.y, v.x * h.y + v.y * h.x)
  }

  /** The four corners of a rotated rectangle, in the order of the source's rectCorners. */
  datatype Corners = Corners(c0: Vec2, c1: Vec2, c2: Vec2, c3: Vec2)

  const NoCorners := Corners(Zero, Zero, Zero, Zero)

  /**
   * The corners every entity recomputes each update: the local corners (±origin.x, ±origin.y)
   * in the order (-,-), (+,-), (+,+), (-,+), rotated by the heading and moved to the position.
   */
  function OrientedCorners(position: Vec2, origin: Vec2, heading: Vec2): Corners {
    Corners(
      Add(position, Rotate(Vec2(-origin.x, -origin.y), heading)),
      Add(position, Rotate(Vec2(origin.x, -origin.y), heading)),
      Add(position, Rotate(Vec2(origin.x, origin.y), heading)),
      Add(position, Rotate(Vec2(-origin.x, origin.y), heading)))
  }

  /** raylib's Rectangle: top-left corner, width and height. */
  datatype Rectangle = Rectangle(x: real, y: real, width: real, height: real)

  /**
   * raylib's CheckCollisionPointRec: the rectangle is closed on its top and left edges and
   * open on its bottom and right edges.
   */
  predicate PointInRect(p: Vec2, r: Rectangle) {
    r.x <= p.x < r.x + r.width && r.y <= p.y < r.y + r.height
  }
}

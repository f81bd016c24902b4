/**
 * The collision test of the Collision namespace: a point-in-triangle test from the signs of
 * two linear forms s, t and the doubled signed area of the triangle, and a rectangle overlap
 * test that splits both rectangles into the fan triangles (0,1,2) and (0,2,3) and reports
 * overlap when some vertex of one triangle lies in a triangle of the other.
 */
module Collision {
  import opened Geometry

  /** The form s of the test: area times the barycentric weight of B at P. */
  function SWeight(P: Vec2, A: Vec2, C: Vec2): real {
    A.y * C.x - A.x * C.y + (C.y - A.y) * P.x + (A.x - C.x) * P.y
  }

  /** The form t of the test: area times the barycentric weight of C at P. */
  function TWeight(P: Vec2, A: Vec2, B: Vec2): real {
    A.x * B.y - A.y * B.x + (A.y - B.y) * P.x + (B.x - A.x) * P.y
  }

  /** Twice the signed area of ABC: positive when A, B, C turn counter-clockwise. */
  function Area(A: Vec2, B: Vec2, C: Vec2): real {
    -B.y * C.x + A.y * (C.x - B.x) + A.x * (B.y - C.y) + B.x * C.y
  }

  /** Collision::PointInTriangle, as written. */
  predicate PointInTriangle(P: Vec2, A: Vec2, B: Vec2, C: Vec2) {
    var s := SWeight(P, A, C);
    var t := TWeight(P, A, B);
    if (s < 0.0) != (t < 0.0) then false
    else
      var area := Area(A, B, C);
      if area < 0.0 then s <= 0.0 && s + t >= area else s >= 0.0 && s + t <= area
  }

  /**
   * The test as evidently intended: P lies in the closed triangle ABC for either winding.
   * It differs from PointInTriangle only by also demanding t <= 0 when the area is negative.
   */
  predicate PointInTriangleClosed(P: Vec2, A: Vec2, B: Vec2, C: Vec2) {
    var s := SWeight(P, A, C);
    var t := TWeight(P, A, B);
    var area := Area(A, B, C);
    if area < 0.0 then s <= 0.0 && t <= 0.0 && s + t >= area
    else s >= 0.0 && t >= 0.0 && s + t <= area
  }

  datatype Triangle = Triangle(a: Vec2, b: Vec2, c: Vec2) {
    function Vertex(k: nat): Vec2
      requires k < 3
    {
      if k == 0 then a else if k == 1 then b else c
    }

    predicate Contains(P: Vec2) {
      PointInTriangle(P, a, b, c)
    }

    /** Some vertex of `other` lies in this triangle (one inner loop of the source). */
    predicate HoldsVertexOf(other: Triangle) {
      Contains(other.a) || Contains(other.b) || Contains(other.c)
    }
  }

  /** The two fan triangles of a rectangle, tris1 / tris2 of the source. */
  function Fans(r: Corners): (tris: seq<Triangle>)
    ensures |tris| == 2 && tris[0].a == tris[1].a == r.c0
  {
    [Triangle(r.c0, r.c1, r.c2), Triangle(r.c0, r.c2, r.c3)]
  }

  /** One vertex-in-triangle test of the source: vertex k of triangle i of `from` in triangle j of `into`. */
  predicate VertexTest(from: Corners, i: nat, into: Corners, j: nat, k: nat)
    requires i < 2 && j < 2 && k < 3
  {
    Fans(into)[j].Contains(Fans(from)[i].Vertex(k))
  }

  /** The tests of one pass of the middle loop: t1's vertices in t2, then t2's vertices in t1. */
  predicate PairOverlaps(t1: Triangle, t2: Triangle) {
    t2.HoldsVertexOf(t1) || t1.HoldsVertexOf(t2)
  }

  /**
   * Collision::CheckCollisionRectCorners. The loops only return early, so the result is the
   * disjunction of the pair tests in loop order.
   */
  predicate CheckCollisionRectCorners(rect1: Corners, rect2: Corners) {
    var tris1 := Fans(rect1);
    var tris2 := Fans(rect2);
    PairOverlaps(tris1[0], tris2[0]) || PairOverlaps(tris1[0], tris2[1]) ||
    PairOverlaps(tris1[1], tris2[0]) || PairOverlaps(tris1[1], tris2[1])
  }

  /**
   * The rectangles collide exactly when one of the 24 vertex-in-triangle tests between the
   * fans of the two rectangles succeeds.
   */
  lemma CollisionIffSomeTest(rect1: Corners, rect2: Corners)
    ensures CheckCollisionRectCorners(rect1, rect2) <==>
      exists i, j, k | 0 <= i < 2 && 0 <= j < 2 && 0 <= k < 3 ::
        VertexTest(rect1, i, rect2, j, k) || VertexTest(rect2, j, rect1, i, k)
  {
    if CheckCollisionRectCorners(rect1, rect2) {
      OverlapHasTest(rect1, rect2);
    }
  }

  lemma OverlapHasTest(rect1: Corners, rect2: Corners)
    requires var tris1, tris2 := Fans(rect1), Fans(rect2);
      PairOverlaps(tris1[0], tris2[0]) || PairOverlaps(tris1[0], tris2[1]) ||
      PairOverlaps(tris1[1], tris2[0]) || PairOverlaps(tris1[1], tris2[1])
    ensures exists i, j, k | 0 <= i < 2 && 0 <= j < 2 && 0 <= k < 3 ::
      VertexTest(rect1, i, rect2, j, k) || VertexTest(rect2, j, rect1, i, k)
  {
    var tris1, tris2 := Fans(rect1), Fans(rect2);
    if PairOverlaps(tris1[0], tris2[0]) {
      PairOverlapsHasTest(rect1, 0, rect2, 0);
    } else if PairOverlaps(tris1[0], tris2[1]) {
      PairOverlapsHasTest(rect1, 0, rect2, 1);
    } else if PairOverlaps(tris1[1], tris2[0]) {
      PairOverlapsHasTest(rect1, 1, rect2, 0);
    } else {
      PairOverlapsHasTest(rect1, 1, rect2, 1);
    }
  }

  /** A pass of the middle loop that succeeds does so through one of its six tests. */
  lemma PairOverlapsHasTest(rect1: Corners, i: nat, rect2: Corners, j: nat)
    requires i < 2 && j < 2 && PairOverlaps(Fans(rect1)[i], Fans(rect2)[j])
    ensures exists k | 0 <= k < 3 :: VertexTest(rect1, i, rect2, j, k) || VertexTest(rect2, j, rect1, i, k)
  {
    var t1, t2 := Fans(rect1)[i], Fans(rect2)[j];
    if t2.Contains(t1.a) || t1.Contains(t2.a) {
      assert VertexTest(rect1, i, rect2, j, 0) || VertexTest(rect2, j, rect1, i, 0);
    } else if t2.Contains(t1.b) || t1.Contains(t2.b) {
      assert VertexTest(rect1, i, rect2, j, 1) || VertexTest(rect2, j, rect1, i, 1);
    } else {
      assert VertexTest(rect1, i, rect2, j, 2) || VertexTest(rect2, j, rect1, i, 2);
    }
  }

  // ---------------------------------------------------------------------------------------
  // Properties of PointInTriangle

  /** Points where exactly one of s, t is negative are rejected, whatever the area. */
  lemma MixedSignsRejected(P: Vec2, A: Vec2, B: Vec2, C: Vec2)
    requires (SWeight(P, A, C) < 0.0) != (TWeight(P, A, B) < 0.0)
    ensures !PointInTriangle(P, A, B, C)
  {
  }

  /** Vertex A is always inside: s and t both vanish there. */
  lemma VertexAInside(A: Vec2, B: Vec2, C: Vec2)
    ensures SWeight(A, A, C) == 0.0 && TWeight(A, A, B) == 0.0
    ensures PointInTriangle(A, A, B, C)
  {
  }

  /** Vertices B and C are accepted exactly when the triangle is not clockwise. */
  lemma VerticesBCInsideIffNotClockwise(A: Vec2, B: Vec2, C: Vec2)
    ensures PointInTriangle(B, A, B, C) <==> Area(A, B, C) >= 0.0
    ensures PointInTriangle(C, A, B, C) <==> Area(A, B, C) >= 0.0
  {
    assert SWeight(B, A, C) == Area(A, B, C) && TWeight(B, A, B) == 0.0;
    assert SWeight(C, A, C) == 0.0 && TWeight(C, A, B) == Area(A, B, C);
  }

  function Centroid(A: Vec2, B: Vec2, C: Vec2): Vec2 {
    Vec2((A.x + B.x + C.x) / 3.0, (A.y + B.y + C.y) / 3.0)
  }

  /** The centroid is accepted for every triangle: there s == t == area / 3. */
  lemma CentroidInside(A: Vec2, B: Vec2, C: Vec2)
    ensures PointInTriangle(Centroid(A, B, C), A, B, C)
  {
    var G := Centroid(A, B, C);
    assert 3.0 * G.x == A.x + B.x + C.x && 3.0 * G.y == A.y + B.y + C.y;
    assert 3.0 * SWeight(G, A, C)
        == A.y * C.x * 3.0 - A.x * C.y * 3.0 + (C.y - A.y) * (3.0 * G.x) + (A.x - C.x) * (3.0 * G.y);
    assert 3.0 * TWeight(G, A, B)
        == A.x * B.y * 3.0 - A.y * B.x * 3.0 + (A.y - B.y) * (3.0 * G.x) + (B.x - A.x) * (3.0 * G.y);
  }

  /**
   * The barycentric identity behind the test: for every P,
   * area * P == area * A + s * (B - A) + t * (C - A).
   */
  lemma Barycentric(P: Vec2, A: Vec2, B: Vec2, C: Vec2)
    ensures Area(A, B, C) * P.x == Area(A, B, C) * A.x + SWeight(P, A, C) * (B.x - A.x) + TWeight(P, A, B) * (C.x - A.x)
    ensures Area(A, B, C) * P.y == Area(A, B, C) * A.y + SWeight(P, A, C) * (B.y - A.y) + TWeight(P, A, B) * (C.y - A.y)
  {
  }

  /** Inside the closed triangle: barycentric weights s/area, t/area and 1 - (s+t)/area all >= 0. */
  ghost predicate InClosedTriangle(P: Vec2, A: Vec2, B: Vec2, C: Vec2)
    requires Area(A, B, C) != 0.0
  {
    var area := Area(A, B, C);
    SWeight(P, A, C) / area >= 0.0 && TWeight(P, A, B) / area >= 0.0 &&
    (SWeight(P, A, C) + TWeight(P, A, B)) / area <= 1.0
  }

  /** The corrected test accepts exactly the closed triangle, for either winding. */
  lemma ClosedTestExact(P: Vec2, A: Vec2, B: Vec2, C: Vec2)
    requires Area(A, B, C) != 0.0
    ensures PointInTriangleClosed(P, A, B, C) <==> InClosedTriangle(P, A, B, C)
  {
    var s, t, area := SWeight(P, A, C), TWeight(P, A, B), Area(A, B, C);
    SignOfQuotient(s, area);
    SignOfQuotient(t, area);
    QuotientAtMostOne(s + t, area);
  }

  lemma SignOfQuotient(x: real, d: real)
    requires d != 0.0
    ensures x / d >= 0.0 <==> (if d < 0.0 then x <= 0.0 else x >= 0.0)
  {
    assert x == (x / d) * d;
  }

  lemma QuotientAtMostOne(x: real, d: real)
    requires d != 0.0
    ensures x / d <= 1.0 <==> (if d < 0.0 then x >= d else x <= d)
  {
    var q := x / d;
    assert x == q * d;
    if d < 0.0 {
      assert q <= 1.0 ==> q * d >= d;
      assert q > 1.0 ==> q * d < d;
    } else {
      assert q <= 1.0 ==> q * d <= d;
      assert q > 1.0 ==> q * d > d;
    }
  }

  /** On counter-clockwise (and degenerate) triangles the test as written is the corrected one. */
  lemma AgreesUnlessClockwise(P: Vec2, A: Vec2, B: Vec2, C: Vec2)
    requires Area(A, B, C) >= 0.0
    ensures PointInTriangle(P, A, B, C) <==> PointInTriangleClosed(P, A, B, C)
  {
  }

  /**
   * On clockwise triangles the test as written accepts the interior and the open edge BC
   * (where s + t == area), and otherwise only the points where s == 0 and t >= 0: vertex A
   * and the line AC beyond A. It rejects the open edges AB and AC and the vertices B and C.
   */
  lemma ClockwiseCharacterised(P: Vec2, A: Vec2, B: Vec2, C: Vec2)
    requires Area(A, B, C) < 0.0
    ensures var s, t := SWeight(P, A, C), TWeight(P, A, B);
      PointInTriangle(P, A, B, C) <==> (s < 0.0 && t < 0.0 && s + t >= Area(A, B, C)) || (s == 0.0 && t >= 0.0)
  {
  }

  /**
   * The test as written accepts a point outside a clockwise triangle: P = (-1, 0) lies on
   * the line AC beyond A of the triangle (0,0), (0,1), (1,0), where s == 0 and t == 1.
   */
  lemma ClockwiseRayAccepted()
    ensures Area(Vec2(0.0, 0.0), Vec2(0.0, 1.0), Vec2(1.0, 0.0)) < 0.0
    ensures PointInTriangle(Vec2(-1.0, 0.0), Vec2(0.0, 0.0), Vec2(0.0, 1.0), Vec2(1.0, 0.0))
    ensures !PointInTriangleClosed(Vec2(-1.0, 0.0), Vec2(0.0, 0.0), Vec2(0.0, 1.0), Vec2(1.0, 0.0))
  {
  }

  /**
   * The boundary of the clockwise triangle (0,0), (0,1), (1,0) as the test as written sees it:
   * the midpoint of BC is accepted, the midpoints of AB and AC and the vertices B and C are
   * rejected.
   */
  lemma ClockwiseBoundaryAsWritten()
    ensures PointInTriangle(Vec2(0.5, 0.5), Vec2(0.0, 0.0), Vec2(0.0, 1.0), Vec2(1.0, 0.0))
    ensures !PointInTriangle(Vec2(0.0, 0.5), Vec2(0.0, 0.0), Vec2(0.0, 1.0), Vec2(1.0, 0.0))
    ensures !PointInTriangle(Vec2(0.5, 0.0), Vec2(0.0, 0.0), Vec2(0.0, 1.0), Vec2(1.0, 0.0))
    ensures !PointInTriangle(Vec2(0.0, 1.0), Vec2(0.0, 0.0), Vec2(0.0, 1.0), Vec2(1.0, 0.0))
    ensures !PointInTriangle(Vec2(1.0, 0.0), Vec2(0.0, 0.0), Vec2(0.0, 1.0), Vec2(1.0, 0.0))
  {
  }

  /** The corrected test accepts all five of those boundary points. */
  lemma ClockwiseBoundaryClosed()
    ensures PointInTriangleClosed(Vec2(0.5, 0.5), Vec2(0.0, 0.0), Vec2(0.0, 1.0), Vec2(1.0, 0.0))
    ensures PointInTriangleClosed(Vec2(0.0, 0.5), Vec2(0.0, 0.0), Vec2(0.0, 1.0), Vec2(1.0, 0.0))
    ensures PointInTriangleClosed(Vec2(0.5, 0.0), Vec2(0.0, 0.0), Vec2(0.0, 1.0), Vec2(1.0, 0.0))
    ensures PointInTriangleClosed(Vec2(0.0, 1.0), Vec2(0.0, 0.0), Vec2(0.0, 1.0), Vec2(1.0, 0.0))
    ensures PointInTriangleClosed(Vec2(1.0, 0.0), Vec2(0.0, 0.0), Vec2(0.0, 1.0), Vec2(1.0, 0.0))
  {
  }

  // ---------------------------------------------------------------------------------------
  // Properties of CheckCollisionRectCorners

  /** Swapping the rectangles does not change the verdict. */
  lemma CollisionSymmetric(rect1: Corners, rect2: Corners)
    ensures CheckCollisionRectCorners(rect1, rect2) == CheckCollisionRectCorners(rect2, rect1)
  {
    CollisionIffSomeTest(rect1, rect2);
    CollisionIffSomeTest(rect2, rect1);
  }

  /** Rectangles sharing their first corner collide; in particular every rectangle collides with itself. */
  lemma SharedFirstCornerCollides(rect1: Corners, rect2: Corners)
    requires rect1.c0 == rect2.c0
    ensures CheckCollisionRectCorners(rect1, rect2)
    ensures CheckCollisionRectCorners(rect1, rect1)
  {
    VertexAInside(rect2.c0, rect2.c1, rect2.c2);
    VertexAInside(rect1.c0, rect1.c1, rect1.c2);
    assert VertexTest(rect1, 0, rect2, 0, 0);
    assert VertexTest(rect1, 0, rect1, 0, 0);
    CollisionIffSomeTest(rect1, rect2);
    CollisionIffSomeTest(rect1, rect1);
  }

  /**
   * Two rectangles whose bounding boxes [-2,-1]² and [0,1]² are disjoint are reported as
   * colliding: corner (-1,-1) of the first is on the diagonal of the clockwise fan triangle
   * (0,0), (0,1), (1,1) of the second, beyond its first corner.
   */
  lemma DisjointClockwiseRectsCollide()
    ensures var r1 := Corners(Vec2(-2.0, -2.0), Vec2(-2.0, -1.0), Vec2(-1.0, -1.0), Vec2(-1.0, -2.0));
      var r2 := Corners(Vec2(0.0, 0.0), Vec2(0.0, 1.0), Vec2(1.0, 1.0), Vec2(1.0, 0.0));
      CheckCollisionRectCorners(r1, r2)
  {
    var r1 := Corners(Vec2(-2.0, -2.0), Vec2(-2.0, -1.0), Vec2(-1.0, -1.0), Vec2(-1.0, -2.0));
    var r2 := Corners(Vec2(0.0, 0.0), Vec2(0.0, 1.0), Vec2(1.0, 1.0), Vec2(1.0, 0.0));
    DiagonalRayAccepted();
    ThirdCornerInFirstFanCollides(r1, r2);
  }

  /** One succeeding test is enough: here corner 2 of rect1 in the first fan triangle of rect2. */
  lemma ThirdCornerInFirstFanCollides(rect1: Corners, rect2: Corners)
    requires PointInTriangle(rect1.c2, rect2.c0, rect2.c1, rect2.c2)
    ensures CheckCollisionRectCorners(rect1, rect2)
  {
    assert VertexTest(rect1, 0, rect2, 0, 2);
    CollisionIffSomeTest(rect1, rect2);
  }

  lemma DiagonalRayAccepted()
    ensures var P, A, B, C := Vec2(-1.0, -1.0), Vec2(0.0, 0.0), Vec2(0.0, 1.0), Vec2(1.0, 1.0);
      PointInTriangle(P, A, B, C)
  {
  }

  /**
   * The rectangles the game builds are counter-clockwise: for positive half-extents and a
   * unit heading both fan triangles have area 4 * origin.x * origin.y > 0, so on them the
   * test as written and the corrected test agree.
   */
  lemma OrientedCornersCounterClockwise(position: Vec2, origin: Vec2, heading: Vec2)
    requires origin.x > 0.0 && origin.y > 0.0 && IsUnit(heading)
    ensures var r := OrientedCorners(position, origin, heading);
      Area(r.c0, r.c1, r.c2) == 4.0 * origin.x * origin.y &&
      Area(r.c0, r.c2, r.c3) == 4.0 * origin.x * origin.y
    ensures var r := OrientedCorners(position, origin, heading);
      forall t | t in Fans(r) :: forall P :: t.Contains(P) <==> PointInTriangleClosed(P, t.a, t.b, t.c)
  {
    var r := OrientedCorners(position, origin, heading);
    var a, b := origin.x, origin.y;
    var c, s := heading.x, heading.y;
    AreaTranslationInvariant(r.c0, r.c1, r.c2, position);
    AreaTranslationInvariant(r.c0, r.c2, r.c3, position);
    AreaRotation(Vec2(-a, -b), Vec2(a, -b), Vec2(a, b), heading);
    AreaRotation(Vec2(-a, -b), Vec2(a, b), Vec2(-a, b), heading);
    assert Area(Vec2(-a, -b), Vec2(a, -b), Vec2(a, b)) == 4.0 * a * b;
    assert Area(Vec2(-a, -b), Vec2(a, b), Vec2(-a, b)) == 4.0 * a * b;
    forall t | t in Fans(r) ensures forall P :: t.Contains(P) <==> PointInTriangleClosed(P, t.a, t.b, t.c) {
      forall P ensures t.Contains(P) <==> PointInTriangleClosed(P, t.a, t.b, t.c) {
        AgreesUnlessClockwise(P, t.a, t.b, t.c);
      }
    }
  }

  lemma AreaTranslationInvariant(A: Vec2, B: Vec2, C: Vec2, d: Vec2)
    ensures Area(A, B, C) == Area(Sub(A, d), Sub(B, d), Sub(C, d))
  {
  }

  /** The cross product of two vectors. */
  function Cross(u: Vec2, v: Vec2): real { u.x * v.y - u.y * v.x }

  lemma AreaIsCross(A: Vec2, B: Vec2, C: Vec2)
    ensures Area(A, B, C) == Cross(Sub(B, A), Sub(C, A))
  {
  }

  lemma CrossRotation(u: Vec2, v: Vec2, h: Vec2)
    ensures Cross(Rotate(u, h), Rotate(v, h)) == (h.x * h.x + h.y * h.y) * Cross(u, v)
  {
    var c, s := h.x, h.y;
    calc {
      Cross(Rotate(u, h), Rotate(v, h));
      (u.x * c - u.y * s) * (v.x * s + v.y * c) - (u.x * s + u.y * c) * (v.x * c - v.y * s);
      u.x * v.y * (c * c) - u.y * v.x * (s * s) + u.x * v.y * (s * s) - u.y * v.x * (c * c);
      (c * c + s * s) * Cross(u, v);
    }
  }

  /** Rotation commutes with taking differences. */
  lemma RotateSub(u: Vec2, v: Vec2, h: Vec2)
    ensures Sub(Rotate(u, h), Rotate(v, h)) == Rotate(Sub(u, v), h)
  {
  }

  lemma AreaRotation(A: Vec2, B: Vec2, C: Vec2, h: Vec2)
    requires IsUnit(h)
    ensures Area(Rotate(A, h), Rotate(B, h), Rotate(C, h)) == Area(A, B, C)
  {
    var u, v := Sub(B, A), Sub(C, A);
    AreaIsCross(A, B, C);
    AreaIsCross(Rotate(A, h), Rotate(B, h), Rotate(C, h));
    RotateSub(B, A, h);
    RotateSub(C, A, h);
    CrossRotation(u, v, h);
  }

  // ---------------------------------------------------------------------------------------
  // Relabelling a triangle

  /**
   * On a counter-clockwise triangle the verdict does not depend on which vertex is called A:
   * relabelling (A, B, C) as (B, C, A) keeps the orientation and the accepted points.
   */
  lemma RelabellingKeepsVerdict(P: Vec2, A: Vec2, B: Vec2, C: Vec2)
    requires Area(A, B, C) > 0.0
    ensures PointInTriangle(P, A, B, C) <==> PointInTriangle(P, B, C, A)
  {
    // Each form written out as a sum of monomials, so that the identities below are linear.
    assert Area(A, B, C) == A.y * C.x - A.y * B.x + A.x * B.y - A.x * C.y + B.x * C.y - B.y * C.x;
    assert Area(B, C, A) == B.y * A.x - B.y * C.x + B.x * C.y - B.x * A.y + C.x * A.y - C.y * A.x;
    assert SWeight(P, A, C) == A.y * C.x - A.x * C.y + C.y * P.x - A.y * P.x + A.x * P.y - C.x * P.y;
    assert TWeight(P, A, B) == A.x * B.y - A.y * B.x + A.y * P.x - B.y * P.x + B.x * P.y - A.x * P.y;
    assert SWeight(P, B, A) == B.y * A.x - B.x * A.y + A.y * P.x - B.y * P.x + B.x * P.y - A.x * P.y;
    assert TWeight(P, B, C) == B.x * C.y - B.y * C.x + B.y * P.x - C.y * P.x + C.x * P.y - B.x * P.y;
    assert Area(B, C, A) == Area(A, B, C);
    assert SWeight(P, B, A) == TWeight(P, A, B);
    assert TWeight(P, B, C) == Area(A, B, C) - SWeight(P, A, C) - TWeight(P, A, B);
    AgreesUnlessClockwise(P, A, B, C);
    AgreesUnlessClockwise(P, B, C, A);
  }

  /**
   * On a clockwise triangle relabelling changes the verdict: (-1, 0) is accepted for the
   * triangle (0,0), (0,1), (1,0) and rejected for the same triangle labelled (0,1), (1,0), (0,0).
   */
  lemma ClockwiseRelabellingChangesVerdict()
    ensures var P, A, B, C := Vec2(-1.0, 0.0), Vec2(0.0, 0.0), Vec2(0.0, 1.0), Vec2(1.0, 0.0);
      Area(A, B, C) < 0.0 && PointInTriangle(P, A, B, C) && !PointInTriangle(P, B, C, A)
  {
  }

  // ---------------------------------------------------------------------------------------
  // Separated rectangles

  function Dot(u: Vec2, v: Vec2): real { u.x * v.x + u.y * v.y }

  /** Both fan triangles of r turn counter-clockwise, as those of every game rectangle do. */
  predicate CounterClockwise(r: Corners) {
    Area(r.c0, r.c1, r.c2) > 0.0 && Area(r.c0, r.c2, r.c3) > 0.0
  }

  /** p lies strictly before every corner of r along the direction n. */
  predicate Before(p: Vec2, r: Corners, n: Vec2) {
    Dot(p, n) < Dot(r.c0, n) && Dot(p, n) < Dot(r.c1, n) &&
    Dot(p, n) < Dot(r.c2, n) && Dot(p, n) < Dot(r.c3, n)
  }

  /** Every corner of r1 lies strictly before every corner of r2 along n: n is a separating axis. */
  predicate Separated(r1: Corners, r2: Corners, n: Vec2) {
    Before(r1.c0, r2, n) && Before(r1.c1, r2, n) && Before(r1.c2, r2, n) && Before(r1.c3, r2, n)
  }

  /**
   * A point strictly before all three vertices of a counter-clockwise triangle along some
   * direction is not accepted: an accepted point is a convex combination of the vertices.
   */
  lemma PointBeforeTriangleRejected(P: Vec2, A: Vec2, B: Vec2, C: Vec2, n: Vec2)
    requires Area(A, B, C) > 0.0
    requires Dot(P, n) < Dot(A, n) && Dot(P, n) < Dot(B, n) && Dot(P, n) < Dot(C, n)
    ensures !PointInTriangle(P, A, B, C)
  {
    if PointInTriangle(P, A, B, C) {
      var s, t, area := SWeight(P, A, C), TWeight(P, A, B), Area(A, B, C);
      AgreesUnlessClockwise(P, A, B, C);
      BarycentricAlong(P, A, B, C, n);
      CombinationAbove(area - s - t, s, t, Dot(A, n), Dot(B, n), Dot(C, n), Dot(P, n));
    }
  }

  /** The barycentric identity projected on a direction n. */
  lemma BarycentricAlong(P: Vec2, A: Vec2, B: Vec2, C: Vec2, n: Vec2)
    ensures var s, t, area := SWeight(P, A, C), TWeight(P, A, B), Area(A, B, C);
      area * Dot(P, n) == (area - s - t) * Dot(A, n) + s * Dot(B, n) + t * Dot(C, n)
  {
    Barycentric(P, A, B, C);
  }

  /** A combination with non-negative weights, not all zero, of values above m is above m times their sum. */
  lemma CombinationAbove(w1: real, w2: real, w3: real, a: real, b: real, c: real, m: real)
    requires w1 >= 0.0 && w2 >= 0.0 && w3 >= 0.0 && w1 + w2 + w3 > 0.0
    requires m < a && m < b && m < c
    ensures w1 * a + w2 * b + w3 * c > (w1 + w2 + w3) * m
  {
    var da, db, dc := a - m, b - m, c - m;
    assert w1 * a + w2 * b + w3 * c - (w1 + w2 + w3) * m == w1 * da + w2 * db + w3 * dc;
    assert w1 * da >= 0.0 && w2 * db >= 0.0 && w3 * dc >= 0.0;
    if w1 > 0.0 {
      assert w1 * da > 0.0;
    } else if w2 > 0.0 {
      assert w2 * db > 0.0;
    } else {
      assert w3 * dc > 0.0;
    }
  }

  /** The vertex-in-triangle tests of a corner of r1 lying before r2 all fail, into both fans. */
  lemma CornerBeforeRectRejected(p: Vec2, r: Corners, n: Vec2)
    requires CounterClockwise(r) && Before(p, r, n)
    ensures !Fans(r)[0].Contains(p) && !Fans(r)[1].Contains(p)
  {
    PointBeforeTriangleRejected(p, r.c0, r.c1, r.c2, n);
    PointBeforeTriangleRejected(p, r.c0, r.c2, r.c3, n);
  }

  function Neg(v: Vec2): Vec2 { Vec2(-v.x, -v.y) }

  lemma DotNeg(r: Corners, n: Vec2)
    ensures Dot(r.c0, Neg(n)) == -Dot(r.c0, n) && Dot(r.c1, Neg(n)) == -Dot(r.c1, n)
    ensures Dot(r.c2, Neg(n)) == -Dot(r.c2, n) && Dot(r.c3, Neg(n)) == -Dot(r.c3, n)
  {
  }

  /**
   * Counter-clockwise rectangles separated along some axis do not collide. The axes (1, 0)
   * and (0, 1) and their opposites give the bounding-box test.
   */
  lemma SeparatedRectsDoNotCollide(rect1: Corners, rect2: Corners, n: Vec2)
    requires CounterClockwise(rect1) && CounterClockwise(rect2) && Separated(rect1, rect2, n)
    ensures !CheckCollisionRectCorners(rect1, rect2)
  {
    var m := Neg(n);
    CornerBeforeRectRejected(rect1.c0, rect2, n);
    CornerBeforeRectRejected(rect1.c1, rect2, n);
    CornerBeforeRectRejected(rect1.c2, rect2, n);
    CornerBeforeRectRejected(rect1.c3, rect2, n);
    DotNeg(rect1, n);
    DotNeg(rect2, n);
    CornerBeforeRectRejected(rect2.c0, rect1, m);
    CornerBeforeRectRejected(rect2.c1, rect1, m);
    CornerBeforeRectRejected(rect2.c2, rect1, m);
    CornerBeforeRectRejected(rect2.c3, rect1, m);
  }

  function MinX(r: Corners): real { Smaller(Smaller(r.c0.x, r.c1.x), Smaller(r.c2.x, r.c3.x)) }
  function MaxX(r: Corners): real { Larger(Larger(r.c0.x, r.c1.x), Larger(r.c2.x, r.c3.x)) }
  function MinY(r: Corners): real { Smaller(Smaller(r.c0.y, r.c1.y), Smaller(r.c2.y, r.c3.y)) }
  function MaxY(r: Corners): real { Larger(Larger(r.c0.y, r.c1.y), Larger(r.c2.y, r.c3.y)) }
  function Smaller(a: real, b: real): real { if a < b then a else b }
  function Larger(a: real, b: real): real { if a < b then b else a }

  /** The bounding boxes of r1 and r2 are disjoint (they do not even share an edge). */
  predicate BoxesDisjoint(r1: Corners, r2: Corners) {
    MaxX(r1) < MinX(r2) || MaxX(r2) < MinX(r1) || MaxY(r1) < MinY(r2) || MaxY(r2) < MinY(r1)
  }

  /** Counter-clockwise rectangles whose bounding boxes are disjoint do not collide. */
  lemma DisjointBoxesDoNotCollide(r1: Corners, r2: Corners)
    requires CounterClockwise(r1) && CounterClockwise(r2) && BoxesDisjoint(r1, r2)
    ensures !CheckCollisionRectCorners(r1, r2)
  {
    if MaxX(r1) < MinX(r2) {
      BoxesApart(r1, r2);
      SeparatedRectsDoNotCollide(r1, r2, Vec2(1.0, 0.0));
    } else if MaxX(r2) < MinX(r1) {
      BoxesApart(r2, r1);
      SeparatedRectsDoNotCollide(r2, r1, Vec2(1.0, 0.0));
      CollisionSymmetric(r1, r2);
    } else if MaxY(r1) < MinY(r2) {
      BoxesApart(r1, r2);
      SeparatedRectsDoNotCollide(r1, r2, Vec2(0.0, 1.0));
    } else {
      BoxesApart(r2, r1);
      SeparatedRectsDoNotCollide(r2, r1, Vec2(0.0, 1.0));
      CollisionSymmetric(r1, r2);
    }
  }

  /** A gap between bounding boxes makes the x or y axis a separating axis. */
  lemma BoxesApart(r1: Corners, r2: Corners)
    ensures MaxX(r1) < MinX(r2) ==> Separated(r1, r2, Vec2(1.0, 0.0))
    ensures MaxY(r1) < MinY(r2) ==> Separated(r1, r2, Vec2(0.0, 1.0))
  {
    AxisDots(r1);
    AxisDots(r2);
    BoxBounds(r1);
    BoxBounds(r2);
  }

  /** Along an axis, a corner's projection is its coordinate. */
  lemma AxisDots(r: Corners)
    ensures Dot(r.c0, Vec2(1.0, 0.0)) == r.c0.x && Dot(r.c0, Vec2(0.0, 1.0)) == r.c0.y
    ensures Dot(r.c1, Vec2(1.0, 0.0)) == r.c1.x && Dot(r.c1, Vec2(0.0, 1.0)) == r.c1.y
    ensures Dot(r.c2, Vec2(1.0, 0.0)) == r.c2.x && Dot(r.c2, Vec2(0.0, 1.0)) == r.c2.y
    ensures Dot(r.c3, Vec2(1.0, 0.0)) == r.c3.x && Dot(r.c3, Vec2(0.0, 1.0)) == r.c3.y
  {
  }

  /** Every corner lies inside the bounding box. */
  lemma BoxBounds(r: Corners)
    ensures MinX(r) <= r.c0.x <= MaxX(r) && MinY(r) <= r.c0.y <= MaxY(r)
    ensures MinX(r) <= r.c1.x <= MaxX(r) && MinY(r) <= r.c1.y <= MaxY(r)
    ensures MinX(r) <= r.c2.x <= MaxX(r) && MinY(r) <= r.c2.y <= MaxY(r)
    ensures MinX(r) <= r.c3.x <= MaxX(r) && MinY(r) <= r.c3.y <= MaxY(r)
  {
  }

  /**
   * The rectangles the game builds do not collide when their bounding boxes are disjoint,
   * unlike the clockwise rectangles of DisjointClockwiseRectsCollide.
   */
  lemma DisjointGameRectsDoNotCollide(p1: Vec2, o1: Vec2, h1: Vec2, p2: Vec2, o2: Vec2, h2: Vec2)
    requires o1.x > 0.0 && o1.y > 0.0 && IsUnit(h1) && o2.x > 0.0 && o2.y > 0.0 && IsUnit(h2)
    requires BoxesDisjoint(OrientedCorners(p1, o1, h1), OrientedCorners(p2, o2, h2))
    ensures !CheckCollisionRectCorners(OrientedCorners(p1, o1, h1), OrientedCorners(p2, o2, h2))
  {
    OrientedCornersCounterClockwise(p1, o1, h1);
    OrientedCornersCounterClockwise(p2, o2, h2);
    DisjointBoxesDoNotCollide(OrientedCorners(p1, o1, h1), OrientedCorners(p2, o2, h2));
  }
}

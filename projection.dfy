/**
 * The face-to-world projector: a point (x, y) of a face's unit square goes to
 * v0 + x * (v1 - v0) + y * (v3 - v0), where v0, v1, v3 are the face's first,
 * second and fourth corners. This is exact only for a parallelogram face,
 * which every face of the cube is (`Geometry.FaceIsUnitSquare`).
 */
module Projection {
  import opened Geometry

  /** Where the face-local point `p` lands in world space on face `f`. */
  function ProjectPoint(f: Face, p: Point2): Vec3
    requires |f| >= 4
  {
    Add(Add(f[0], Scale(p.x, Sub(f[1], f[0]))), Scale(p.y, Sub(f[3], f[0])))
  }

  /**
   * Projects every face-local point in turn, appending each world point to
   * the result: the output has one point per input point, in input order.
   */
  method ProjectDotsTo3dFace(dots: seq<Point2>, f: Face) returns (dots3d: seq<Vec3>)
    requires |f| >= 4
    ensures |dots3d| == |dots|
    ensures forall i :: 0 <= i < |dots| ==> dots3d[i] == ProjectPoint(f, dots[i])
  {
    var e1 := Sub(f[1], f[0]);
    var e2 := Sub(f[3], f[0]);
    dots3d := [];
    var i := 0;
    while i < |dots|
      invariant 0 <= i <= |dots|
      invariant |dots3d| == i
      invariant forall k :: 0 <= k < i ==> dots3d[k] == ProjectPoint(f, dots[k])
    {
      var p := dots[i];
      dots3d := dots3d + [Add(Add(f[0], Scale(p.x, e1)), Scale(p.y, e2))];
      i := i + 1;
    }
  }

  /**
   * The projector is anchored at the corners: (0, 0), (1, 0) and (0, 1) go to
   * the first, second and fourth corners, and on a parallelogram (1, 1) goes
   * to the third.
   */
  lemma ProjectCorners(f: Face)
    requires |f| >= 4
    ensures ProjectPoint(f, Point2(0.0, 0.0)) == f[0]
    ensures ProjectPoint(f, Point2(1.0, 0.0)) == f[1]
    ensures ProjectPoint(f, Point2(0.0, 1.0)) == f[3]
    ensures IsParallelogram(f) ==> ProjectPoint(f, Point2(1.0, 1.0)) == f[2]
  {
  }

  /** A face flat on axis `a` keeps every projected point in its plane. */
  lemma ProjectStaysInPlane(f: Face, a: Axis, p: Point2)
    requires |f| >= 4
    requires FixedOn(f, a)
    ensures Coord(ProjectPoint(f, p), a) == Coord(f[0], a)
  {
    assert Coord(f[1], a) == Coord(f[0], a) && Coord(f[3], a) == Coord(f[0], a);
    match a
    case X =>
    case Y =>
    case Z =>
  }

  /** Coordinate `a` of a projected point: the corner's, plus x steps along the first edge and y along the second. */
  lemma ProjectCoord(f: Face, p: Point2, a: Axis)
    requires |f| >= 4
    ensures Coord(ProjectPoint(f, p), a)
      == Coord(f[0], a) + p.x * (Coord(f[1], a) - Coord(f[0], a)) + p.y * (Coord(f[3], a) - Coord(f[0], a))
  {
    match a
    case X =>
    case Y =>
    case Z =>
  }

  lemma CoordSub(u: Vec3, v: Vec3, a: Axis)
    ensures Coord(Sub(u, v), a) == Coord(u, a) - Coord(v, a)
  {
    match a
    case X =>
    case Y =>
    case Z =>
  }

  lemma CubeCornerCoord(v: Vec3, a: Axis)
    requires IsCubeCorner(v)
    ensures Coord(v, a) == 0.0 || Coord(v, a) == 1.0
  {
    match a
    case X =>
    case Y =>
    case Z =>
  }

  /**
   * A point strictly inside the unit square, projected onto a parallelogram
   * of cube corners whose edges at corner 0 are unit steps along two
   * different axes, lands strictly inside that face (in its plane and off
   * its edges) and inside the unit cube.
   */
  lemma InsideSquareLandsInsideFace(f: Face, b: Axis, c: Axis, p: Point2)
    requires IsParallelogram(f)
    requires forall j :: 0 <= j < 4 ==> IsCubeCorner(f[j])
    requires b != c
    requires IsAxisStep(Sub(f[1], f[0]), b) && IsAxisStep(Sub(f[3], f[0]), c)
    requires 0.0 < p.x < 1.0 && 0.0 < p.y < 1.0
    ensures StrictlyInside(f, ProjectPoint(f, p))
    ensures InUnitCube(ProjectPoint(f, p))
  {
    var q := ProjectPoint(f, p);
    forall a
      ensures InsideAlongAxis(f, q, a)
      ensures 0.0 <= Coord(q, a) <= 1.0
    {
      forall j | 0 <= j < 4 ensures Coord(f[j], a) == 0.0 || Coord(f[j], a) == 1.0 {
        CubeCornerCoord(f[j], a);
      }
      InsideAlong(f, b, c, p, a);
    }
    assert q.x == Coord(q, X) && q.y == Coord(q, Y) && q.z == Coord(q, Z);
  }

  /** `InsideSquareLandsInsideFace` along one axis `a`. */
  lemma InsideAlong(f: Face, b: Axis, c: Axis, p: Point2, a: Axis)
    requires IsParallelogram(f)
    requires forall j :: 0 <= j < 4 ==> Coord(f[j], a) == 0.0 || Coord(f[j], a) == 1.0
    requires b != c
    requires IsAxisStep(Sub(f[1], f[0]), b) && IsAxisStep(Sub(f[3], f[0]), c)
    requires 0.0 < p.x < 1.0 && 0.0 < p.y < 1.0
    ensures InsideAlongAxis(f, ProjectPoint(f, p), a)
    ensures 0.0 <= Coord(ProjectPoint(f, p), a) <= 1.0
  {
    EdgeCoords(f, b, c, a);
    if a == b || a == c {
      MovingAxis(f, a, p);
    } else {
      FixedAxis(f, a, p);
    }
  }

  /** Along an axis exactly one edge moves on, the face spans 0..1 and the point lies strictly within. */
  lemma MovingAxis(f: Face, a: Axis, p: Point2)
    requires |f| == 4
    requires forall j :: 0 <= j < 4 ==> Coord(f[j], a) == 0.0 || Coord(f[j], a) == 1.0
    requires Coord(f[2], a) == Coord(f[1], a) + Coord(f[3], a) - Coord(f[0], a)
    requires (Coord(f[1], a) == Coord(f[0], a)) != (Coord(f[3], a) == Coord(f[0], a))
    requires 0.0 < p.x < 1.0 && 0.0 < p.y < 1.0
    ensures !FixedOn(f, a)
    ensures Lo(f, a) < Coord(ProjectPoint(f, p), a) < Hi(f, a)
    ensures 0.0 <= Coord(ProjectPoint(f, p), a) <= 1.0
  {
    var c0, c1, c2, c3 := Coord(f[0], a), Coord(f[1], a), Coord(f[2], a), Coord(f[3], a);
    assert c0 == 0.0 || c0 == 1.0;
    assert c1 == 0.0 || c1 == 1.0;
    assert c3 == 0.0 || c3 == 1.0;
    ProjectCoord(f, p, a);
    StepAffine(c0, c1, c3, p.x, p.y);
    SquareSpan(c0, c1, c2, c3);
    assert c1 != c0 || c3 != c0;
  }

  /** Along an axis neither edge moves on, the face is flat and the point stays in its plane. */
  lemma FixedAxis(f: Face, a: Axis, p: Point2)
    requires |f| == 4
    requires Coord(f[2], a) == Coord(f[1], a) + Coord(f[3], a) - Coord(f[0], a)
    requires Coord(f[1], a) == Coord(f[0], a) && Coord(f[3], a) == Coord(f[0], a)
    requires Coord(f[0], a) == 0.0 || Coord(f[0], a) == 1.0
    ensures FixedOn(f, a)
    ensures Coord(ProjectPoint(f, p), a) == Coord(f[0], a)
    ensures 0.0 <= Coord(ProjectPoint(f, p), a) <= 1.0
  {
    var d1, d3 := Coord(f[1], a) - Coord(f[0], a), Coord(f[3], a) - Coord(f[0], a);
    ProjectCoord(f, p, a);
    assert d1 == 0.0 && d3 == 0.0;
    assert p.x * d1 == 0.0 && p.y * d3 == 0.0;
  }

  /** A unit square of cube corners seen along an axis one of its edges moves on spans exactly 0..1. */
  lemma SquareSpan(c0: real, c1: real, c2: real, c3: real)
    requires c0 == 0.0 || c0 == 1.0
    requires c1 == 0.0 || c1 == 1.0
    requires c3 == 0.0 || c3 == 1.0
    requires c2 == c1 + c3 - c0
    requires (c1 == c0) != (c3 == c0)
    ensures Min(Min(c0, c1), Min(c2, c3)) == 0.0
    ensures Max(Max(c0, c1), Max(c2, c3)) == 1.0
  {
  }

  /**
   * Coordinate `a` of the corners of a parallelogram whose edges at corner 0
   * step along axes `b` and `c`: an edge moves along `a` exactly when it steps
   * along `a`, and the third corner is the sum of the two moves.
   */
  lemma EdgeCoords(f: Face, b: Axis, c: Axis, a: Axis)
    requires IsParallelogram(f)
    requires IsAxisStep(Sub(f[1], f[0]), b) && IsAxisStep(Sub(f[3], f[0]), c)
    ensures Coord(f[2], a) == Coord(f[1], a) + Coord(f[3], a) - Coord(f[0], a)
    ensures Coord(f[1], a) == Coord(f[0], a) <==> a != b
    ensures Coord(f[3], a) == Coord(f[0], a) <==> a != c
  {
    CoordSub(f[1], f[0], a);
    CoordSub(f[3], f[0], a);
    CoordSub(Add(f[1], f[3]), f[0], a);
    CoordAdd(f[1], f[3], a);
    assert f[2] == Sub(Add(f[1], f[3]), f[0]);
  }

  /**
   * One coordinate of a projected point, for corner coordinates `c0`, `c1`,
   * `c3` of the unit cube: it stays at `c0` when neither edge moves, and lies
   * strictly between 0 and 1 when exactly one edge moves.
   */
  lemma StepAffine(c0: real, c1: real, c3: real, s: real, t: real)
    requires c0 == 0.0 || c0 == 1.0
    requires c1 == 0.0 || c1 == 1.0
    requires c3 == 0.0 || c3 == 1.0
    requires 0.0 < s < 1.0 && 0.0 < t < 1.0
    ensures var r := c0 + s * (c1 - c0) + t * (c3 - c0);
      (c1 == c0 && c3 == c0 ==> r == c0) &&
      (c1 != c0 && c3 == c0 ==> 0.0 < r < 1.0) &&
      (c1 == c0 && c3 != c0 ==> 0.0 < r < 1.0)
  {
    if c1 == c0 {
      assert s * (c1 - c0) == 0.0;
      if c3 != c0 {
        if c0 == 0.0 { assert t * (c3 - c0) == t; } else { assert t * (c3 - c0) == -t; }
      }
    } else if c3 == c0 {
      assert t * (c3 - c0) == 0.0;
      if c0 == 0.0 { assert s * (c1 - c0) == s; } else { assert s * (c1 - c0) == -s; }
    }
  }

  lemma CoordAdd(u: Vec3, v: Vec3, a: Axis)
    ensures Coord(Add(u, v), a) == Coord(u, a) + Coord(v, a)
  {
    match a
    case X =>
    case Y =>
    case Z =>
  }
}

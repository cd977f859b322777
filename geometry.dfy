/**
 * Cube geometry of the die: points, vectors, the eight unit-cube corners and
 * the six quadrilateral faces built from them.
 *
 * All coordinates are exact reals; the only values that ever occur are the
 * dyadic rationals 0, 0.25, 0.5, 0.75 and 1, so no tolerance is needed.
 */
module Geometry {

  /** A point or vector in world space. */
  datatype Vec3 = Vec3(x: real, y: real, z: real)

  /** A point in a face's own unit square (a pip centre before projection). */
  datatype Point2 = Point2(x: real, y: real)

  datatype Axis = X | Y | Z

  function Coord(v: Vec3, a: Axis): real
  {
    match a
    case X => v.x
    case Y => v.y
    case Z => v.z
  }

  function Add(u: Vec3, v: Vec3): Vec3
  {
    Vec3(u.x + v.x, u.y + v.y, u.z + v.z)
  }

  function Sub(u: Vec3, v: Vec3): Vec3
  {
    Vec3(u.x - v.x, u.y - v.y, u.z - v.z)
  }

  function Scale(k: real, v: Vec3): Vec3
  {
    Vec3(k * v.x, k * v.y, k * v.z)
  }

  function Dot(u: Vec3, v: Vec3): real
  {
    u.x * v.x + u.y * v.y + u.z * v.z
  }

  /** A face is its corner list, in the cyclic order the polygon is drawn in. */
  type Face = seq<Vec3>

  predicate IsCubeCorner(v: Vec3)
  {
    (v.x == 0.0 || v.x == 1.0) && (v.y == 0.0 || v.y == 1.0) && (v.z == 0.0 || v.z == 1.0)
  }

  predicate InUnitCube(v: Vec3)
  {
    0.0 <= v.x <= 1.0 && 0.0 <= v.y <= 1.0 && 0.0 <= v.z <= 1.0
  }

  /** Every corner of `f` has the same coordinate along `a`: `f` lies in a plane normal to `a`. */
  predicate FixedOn(f: Face, a: Axis)
  {
    forall j :: 0 <= j < |f| ==> Coord(f[j], a) == Coord(f[0], a)
  }

  /** The fourth corner closes the parallelogram spanned at corner 0 by corners 1 and 3. */
  predicate IsParallelogram(f: Face)
  {
    |f| == 4 && f[2] == Sub(Add(f[1], f[3]), f[0])
  }

  /** A parallelogram whose two edge vectors at corner 0 are orthogonal and of length 1. */
  predicate IsUnitSquare(f: Face)
  {
    IsParallelogram(f) &&
    var e1, e2 := Sub(f[1], f[0]), Sub(f[3], f[0]);
    Dot(e1, e1) == 1.0 && Dot(e2, e2) == 1.0 && Dot(e1, e2) == 0.0
  }

  /** `e` is a step of length 1, forwards or backwards, along axis `a` and no other. */
  predicate IsAxisStep(e: Vec3, a: Axis)
  {
    (Coord(e, a) == 1.0 || Coord(e, a) == -1.0) && forall b :: b != a ==> Coord(e, b) == 0.0
  }

  predicate ShareNoVertex(f: Face, g: Face)
  {
    forall j, k :: 0 <= j < |f| && 0 <= k < |g| ==> f[j] != g[k]
  }

  function Min(a: real, b: real): real { if a <= b then a else b }
  function Max(a: real, b: real): real { if a <= b then b else a }

  /** Smallest and largest coordinate along `a` over the four corners of `f`. */
  function Lo(f: Face, a: Axis): real
    requires |f| == 4
  {
    Min(Min(Coord(f[0], a), Coord(f[1], a)), Min(Coord(f[2], a), Coord(f[3], a)))
  }

  function Hi(f: Face, a: Axis): real
    requires |f| == 4
  {
    Max(Max(Coord(f[0], a), Coord(f[1], a)), Max(Coord(f[2], a), Coord(f[3], a)))
  }

  /**
   * Along axis `a`, `p` is where face `f` is: at the face's coordinate if the
   * face is flat on `a`, otherwise strictly between the face's extremes.
   */
  predicate InsideAlongAxis(f: Face, p: Vec3, a: Axis)
    requires |f| == 4
  {
    if FixedOn(f, a) then Coord(p, a) == Coord(f[0], a)
    else Lo(f, a) < Coord(p, a) < Hi(f, a)
  }

  /**
   * `p` lies in the plane of `f` and strictly inside it: along every axis on
   * which `f` is flat it has the face's coordinate, and along every other
   * axis it is strictly between the face's extremes, so never on an edge.
   */
  predicate StrictlyInside(f: Face, p: Vec3)
    requires |f| == 4
  {
    forall a: Axis :: InsideAlongAxis(f, p, a)
  }

  /** The eight corners of the unit cube: the bottom square, then the top square. */
  const Vertices: seq<Vec3> := [
    Vec3(0.0, 0.0, 0.0), Vec3(1.0, 0.0, 0.0), Vec3(1.0, 1.0, 0.0), Vec3(0.0, 1.0, 0.0),
    Vec3(0.0, 0.0, 1.0), Vec3(1.0, 0.0, 1.0), Vec3(1.0, 1.0, 1.0), Vec3(0.0, 1.0, 1.0)
  ]

  /** The axis each face of `CreateDiceFaces` is normal to: front, back, left, right, bottom, top. */
  const NormalAxis: seq<Axis> := [Y, Y, X, X, Z, Z]

  /** The axes along which the first edge (corner 0 to 1) and the second edge (corner 0 to 3) of each face run. */
  const FirstEdgeAxis: seq<Axis> := [X, X, Y, Y, X, X]
  const SecondEdgeAxis: seq<Axis> := [Z, Z, Z, Z, Y, Y]

  /**
   * The six faces of the die in the order front, back, left, right, bottom,
   * top, each as four cube corners in cyclic order.
   */
  function CreateDiceFaces(): (faces: seq<Face>)
    ensures |faces| == 6
    ensures forall i :: 0 <= i < 6 ==> |faces[i]| == 4
  {
    var v := Vertices;
    [
      [v[0], v[1], v[5], v[4]],  // front  (y = 0)
      [v[2], v[3], v[7], v[6]],  // back   (y = 1)
      [v[0], v[3], v[7], v[4]],  // left   (x = 0)
      [v[1], v[2], v[6], v[5]],  // right  (x = 1)
      [v[0], v[1], v[2], v[3]],  // bottom (z = 0)
      [v[4], v[5], v[6], v[7]]   // top    (z = 1)
    ]
  }

  /** Face `i` is a unit square: given in cyclic order, so its fourth corner closes the parallelogram. */
  lemma FaceIsUnitSquare(i: int)
    requires 0 <= i < 6
    ensures IsUnitSquare(CreateDiceFaces()[i])
  {
  }

  /** Every corner of face `i` is a corner of the unit cube. */
  lemma FaceCornersOnCube(i: int)
    requires 0 <= i < 6
    ensures forall j :: 0 <= j < 4 ==> IsCubeCorner(CreateDiceFaces()[i][j])
  {
  }

  /** The two edges at corner 0 of face `i` are unit steps along two different axes. */
  lemma FaceEdges(i: int)
    requires 0 <= i < 6
    ensures FirstEdgeAxis[i] != SecondEdgeAxis[i]
    ensures IsAxisStep(Sub(CreateDiceFaces()[i][1], CreateDiceFaces()[i][0]), FirstEdgeAxis[i])
    ensures IsAxisStep(Sub(CreateDiceFaces()[i][3], CreateDiceFaces()[i][0]), SecondEdgeAxis[i])
  {
  }

  /** Face `i` is flat on exactly one axis, `NormalAxis[i]`: it is axis-aligned and planar. */
  lemma FaceFlatOnNormal(i: int)
    requires 0 <= i < 6
    ensures forall a :: FixedOn(CreateDiceFaces()[i], a) <==> a == NormalAxis[i]
  {
    var faces := CreateDiceFaces();
    if i == 0 {
      FlatExactlyOn(faces[0], Y);
    } else if i == 1 {
      FlatExactlyOn(faces[1], Y);
    } else if i == 2 {
      FlatExactlyOn(faces[2], X);
    } else if i == 3 {
      FlatExactlyOn(faces[3], X);
    } else if i == 4 {
      FlatExactlyOn(faces[4], Z);
    } else {
      FlatExactlyOn(faces[5], Z);
    }
  }

  /**
   * A square whose corners agree along `n` and whose edges at corner 0 run
   * along the two other axes is flat on `n` and on no other axis.
   */
  lemma FlatExactlyOn(f: Face, n: Axis)
    requires |f| == 4
    requires forall j :: 0 <= j < 4 ==> Coord(f[j], n) == Coord(f[0], n)
    requires Coord(f[1], X) != Coord(f[0], X) || Coord(f[3], X) != Coord(f[0], X) || n == X
    requires Coord(f[1], Y) != Coord(f[0], Y) || Coord(f[3], Y) != Coord(f[0], Y) || n == Y
    requires Coord(f[1], Z) != Coord(f[0], Z) || Coord(f[3], Z) != Coord(f[0], Z) || n == Z
    ensures forall a :: FixedOn(f, a) <==> a == n
  {
    forall a ensures FixedOn(f, a) <==> a == n {
      if a != n {
        assert Coord(f[1], a) != Coord(f[0], a) || Coord(f[3], a) != Coord(f[0], a) by {
          match a
          case X =>
          case Y =>
          case Z =>
        }
      }
    }
  }

  /** The shape of all six faces at once. */
  lemma DiceFacesShape()
    ensures forall i, j :: 0 <= i < 6 && 0 <= j < 4 ==> IsCubeCorner(CreateDiceFaces()[i][j])
    ensures forall i :: 0 <= i < 6 ==> IsUnitSquare(CreateDiceFaces()[i])
    ensures forall i, a :: 0 <= i < 6 ==> (FixedOn(CreateDiceFaces()[i], a) <==> a == NormalAxis[i])
  {
    forall i | 0 <= i < 6 ensures IsUnitSquare(CreateDiceFaces()[i]) {
      FaceIsUnitSquare(i);
    }
    forall i | 0 <= i < 6 ensures forall j :: 0 <= j < 4 ==> IsCubeCorner(CreateDiceFaces()[i][j]) {
      FaceCornersOnCube(i);
    }
    forall i | 0 <= i < 6 ensures forall a :: FixedOn(CreateDiceFaces()[i], a) <==> a == NormalAxis[i] {
      FaceFlatOnNormal(i);
    }
  }
}

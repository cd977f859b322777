/**
 * The die itself: which value each face of `Geometry.CreateDiceFaces` shows,
 * and where that face's pips land in world space.
 */
module Die {
  import opened Geometry
  import opened Pips
  import opened Projection
  import opened Colors

  /** The value shown by each face, in face order: front, back, left, right, bottom, top. */
  const FaceNumbers: seq<int> := [1, 6, 2, 5, 3, 4]

  /** The index of the face opposite face `i`: faces come in pairs 0/1, 2/3, 4/5. */
  function Opposite(i: nat): nat
  {
    if i % 2 == 0 then i + 1 else i - 1
  }

  /** The face values are 1..6, each on exactly one face. */
  lemma FaceNumbersArePermutation()
    ensures |FaceNumbers| == 6
    ensures multiset(FaceNumbers) == multiset{1, 2, 3, 4, 5, 6}
    ensures forall j, k :: 0 <= j < k < 6 ==> FaceNumbers[j] != FaceNumbers[k]
  {
    calc {
      multiset(FaceNumbers);
      multiset([1, 6, 2, 5, 3, 4]);
      multiset{1, 6, 2, 5, 3, 4};
    }
  }

  /**
   * Two different faces share no corner exactly when they are opposite, and
   * exactly then their values add up to 7.
   */
  lemma OppositeFacesSumToSeven(i: nat, j: nat)
    requires i < 6 && j < 6 && i != j
    ensures ShareNoVertex(CreateDiceFaces()[i], CreateDiceFaces()[j]) <==> j == Opposite(i)
    ensures FaceNumbers[i] + FaceNumbers[j] == 7 <==> j == Opposite(i)
  {
    var faces := CreateDiceFaces();
    if j == Opposite(i) {
      // opposite faces lie flat on the same axis, at levels 0 and 1
      FaceFlatOnNormal(i);
      FaceFlatOnNormal(j);
      var a := NormalAxis[i];
      assert Coord(faces[i][0], a) != Coord(faces[j][0], a);
    } else {
      // adjacent faces meet along an edge; this is one of its two corners
      var w := SharedCorner(i, j);
      assert w in faces[i] && w in faces[j];
    }
  }

  /** Level of face `i` along its normal axis: 0 for front, left, bottom and 1 for back, right, top. */
  function Level(i: nat): real
  {
    if i % 2 == 0 then 0.0 else 1.0
  }

  /** The cube corner at the levels of faces `i` and `j` along their normal axes, 0 along the third. */
  function SharedCorner(i: nat, j: nat): Vec3
    requires i < 6 && j < 6
  {
    var ai, aj := NormalAxis[i], NormalAxis[j];
    Vec3(if ai == X then Level(i) else if aj == X then Level(j) else 0.0,
         if ai == Y then Level(i) else if aj == Y then Level(j) else 0.0,
         if ai == Z then Level(i) else if aj == Z then Level(j) else 0.0)
  }

  /**
   * A pip centre well inside the face square projects into the plane of face
   * `i`, strictly inside that face (never on an edge) and inside the cube.
   */
  lemma PipOnFace(i: nat, p: Point2)
    requires i < 6
    requires WellInside(p)
    ensures StrictlyInside(CreateDiceFaces()[i], ProjectPoint(CreateDiceFaces()[i], p))
    ensures InUnitCube(ProjectPoint(CreateDiceFaces()[i], p))
  {
    FaceIsUnitSquare(i);
    FaceCornersOnCube(i);
    FaceEdges(i);
    InsideSquareLandsInsideFace(CreateDiceFaces()[i], FirstEdgeAxis[i], SecondEdgeAxis[i], p);
  }

  /** `pips` are the world-space pips of face `i`: one per unit of its value, each the projection of its layout entry. */
  predicate IsFacePips(i: nat, pips: seq<Vec3>)
    requires i < 6
  {
    |pips| == FaceNumbers[i] &&
    forall k :: 0 <= k < |pips| ==> pips[k] == ProjectPoint(CreateDiceFaces()[i], DotPositions(FaceNumbers[i])[k])
  }

  /** Every point of `pips` lies strictly inside face `i` and inside the cube. */
  predicate OnFace(i: nat, pips: seq<Vec3>)
    requires i < 6
  {
    forall k :: 0 <= k < |pips| ==> StrictlyInside(CreateDiceFaces()[i], pips[k]) && InUnitCube(pips[k])
  }

  /**
   * The world-space pips of face `i`: as many as the value it shows, each one
   * the projection of the matching entry of the layout, and each strictly
   * inside the face.
   */
  method FacePips(i: nat) returns (dots3d: seq<Vec3>)
    requires i < 6
    ensures IsFacePips(i, dots3d)
    ensures OnFace(i, dots3d)
  {
    var face := CreateDiceFaces()[i];
    var dots2d := DotPositions(FaceNumbers[i]);
    dots3d := [];
    if dots2d != [] {
      dots3d := ProjectDotsTo3dFace(dots2d, face);
    }
    forall k | 0 <= k < |dots3d|
      ensures StrictlyInside(face, dots3d[k]) && InUnitCube(dots3d[k])
    {
      PipOnFace(i, dots2d[k]);
    }
  }

  /** What the renderer draws for one face: its corners, lit colour, shadow opacity, value and pips. */
  datatype FacePlan = FacePlan(corners: Face, color: Rgb, shadowAlpha: real, number: int, pips: seq<Vec3>)

  /** Face `i`'s plan for base colour `base`. */
  predicate IsPlanOf(i: nat, base: Rgb, p: FacePlan)
    requires i < 6
  {
    p.corners == CreateDiceFaces()[i] && p.color == ShadeFace(i, base) &&
    p.shadowAlpha == ShadowAlphas[i] && p.number == FaceNumbers[i] && IsFacePips(i, p.pips)
  }

  /**
   * Walks the faces together with their base colours (the scheme's face
   * colours as channel triples), their values and their lighting factors,
   * stopping at the shortest: one plan per face, in face order. With a
   * catalogue scheme there are six base colours, so all six faces are drawn;
   * every lit colour is a valid colour no brighter than its base and every
   * pip is strictly inside its face.
   */
  method PlanFaces(baseColors: seq<Rgb>) returns (plan: seq<FacePlan>)
    ensures |plan| == if |baseColors| < 6 then |baseColors| else 6
    ensures forall i :: 0 <= i < |plan| ==> IsPlanOf(i, baseColors[i], plan[i])
    ensures forall i :: 0 <= i < |plan| ==> OnFace(i, plan[i].pips)
    ensures forall i :: 0 <= i < |plan| && InUnitRange(baseColors[i]) ==>
      InUnitRange(plan[i].color) &&
      plan[i].color.r <= baseColors[i].r && plan[i].color.g <= baseColors[i].g && plan[i].color.b <= baseColors[i].b
  {
    var n := if |baseColors| < 6 then |baseColors| else 6;
    plan := [];
    var i := 0;
    while i < n
      invariant 0 <= i <= n
      invariant |plan| == i
      invariant forall k :: 0 <= k < i ==> IsPlanOf(k, baseColors[k], plan[k]) && OnFace(k, plan[k].pips)
    {
      var p := PlanFace(i, baseColors[i]);
      plan := plan + [p];
      i := i + 1;
    }
  }

  /** One iteration of `PlanFaces`: the plan of face `i` for base colour `base`. */
  method PlanFace(i: nat, base: Rgb) returns (p: FacePlan)
    requires i < 6
    ensures IsPlanOf(i, base, p)
    ensures OnFace(i, p.pips)
  {
    var pips := FacePips(i);
    var color := ShadeFace(i, base);
    p := FacePlan(CreateDiceFaces()[i], color, ShadowAlphas[i], FaceNumbers[i], pips);
  }
}

/**
 * The pip layout table: for each face value, the pip centres in the face's
 * own unit square, where (0, 0) is the face's first corner.
 */
module Pips {
  import opened Geometry

  const Layouts: map<int, seq<Point2>> := map[
    1 := [Point2(0.5, 0.5)],
    2 := [Point2(0.25, 0.25), Point2(0.75, 0.75)],
    3 := [Point2(0.25, 0.25), Point2(0.5, 0.5), Point2(0.75, 0.75)],
    4 := [Point2(0.25, 0.25), Point2(0.75, 0.25), Point2(0.25, 0.75), Point2(0.75, 0.75)],
    5 := [Point2(0.25, 0.25), Point2(0.75, 0.25), Point2(0.5, 0.5), Point2(0.25, 0.75), Point2(0.75, 0.75)],
    6 := [Point2(0.25, 0.25), Point2(0.75, 0.25), Point2(0.25, 0.5), Point2(0.75, 0.5), Point2(0.25, 0.75), Point2(0.75, 0.75)]
  ]

  /** Every pip centre sits in the middle half of the face, at least a quarter away from every edge. */
  predicate WellInside(p: Point2)
  {
    0.25 <= p.x <= 0.75 && 0.25 <= p.y <= 0.75
  }

  /**
   * The pip centres of face value `n`: exactly `n` of them for 1..6, all well
   * inside the face, and none for any other value (the lookup never fails).
   */
  function DotPositions(n: int): (ps: seq<Point2>)
    ensures |ps| == if 1 <= n <= 6 then n else 0
    ensures forall k :: 0 <= k < |ps| ==> WellInside(ps[k])
  {
    if n in Layouts then Layouts[n] else []
  }

  /** The point reflection through the face's centre (a half turn of the face). */
  function HalfTurn(p: Point2): Point2
  {
    Point2(1.0 - p.x, 1.0 - p.y)
  }

  /** Every layout is unchanged by a half turn of the face, so it reads the same either way up. */
  lemma LayoutsSymmetric(n: int)
    ensures forall k :: 0 <= k < |DotPositions(n)| ==> HalfTurn(DotPositions(n)[k]) in DotPositions(n)
  {
    var ps := DotPositions(n);
    if n in Layouts {
      forall k | 0 <= k < |ps| ensures HalfTurn(ps[k]) in ps {
        assert HalfTurn(ps[k]) == ps[|ps| - 1 - k];
      }
    }
  }

  /** No two pips of one layout coincide, so `n` pips are `n` visible dots. */
  lemma LayoutsDistinct(n: int)
    ensures forall j, k :: 0 <= j < k < |DotPositions(n)| ==> DotPositions(n)[j] != DotPositions(n)[k]
  {
  }

  /** The centre pip is present exactly on the odd faces. */
  lemma CentrePipOnOddFaces(n: int)
    ensures Point2(0.5, 0.5) in DotPositions(n) <==> n in {1, 3, 5}
  {
    var ps := DotPositions(n);
    if n == 1 {
      assert ps[0] == Point2(0.5, 0.5);
    } else if n == 3 {
      assert ps[1] == Point2(0.5, 0.5);
    } else if n == 5 {
      assert ps[2] == Point2(0.5, 0.5);
    }
  }
}

/** Integer voxels, axis-parallel boxes of them, and how many a box holds. */
module Voxels {

  datatype Voxel = Voxel(x: int, y: int, z: int)

  type Axis = i: int | 0 <= i < 3

  function Coord(v: Voxel, axis: Axis): int {
    if axis == 0 then v.x else if axis == 1 then v.y else v.z
  }

  function Max(a: int, b: int): int { if a >= b then a else b }

  function Min(a: int, b: int): int { if a <= b then a else b }

  /** Integers in [lo, hi]. */
  function Span(lo: int, hi: int): nat { Max(0, hi - lo + 1) }

  ghost function Row(x: int, y: int, z0: int, z1: int): set<Voxel> {
    set z | z0 <= z <= z1 :: Voxel(x, y, z)
  }

  ghost function Plane(x: int, y0: int, y1: int, z0: int, z1: int): set<Voxel> {
    set y, z | y0 <= y <= y1 && z0 <= z <= z1 :: Voxel(x, y, z)
  }

  ghost function Box(lo: Voxel, hi: Voxel): set<Voxel> {
    set x, y, z | lo.x <= x <= hi.x && lo.y <= y <= hi.y && lo.z <= z <= hi.z :: Voxel(x, y, z)
  }

  predicate InBox(v: Voxel, lo: Voxel, hi: Voxel) {
    lo.x <= v.x <= hi.x && lo.y <= v.y <= hi.y && lo.z <= v.z <= hi.z
  }

  lemma BoxMembers(lo: Voxel, hi: Voxel)
    ensures forall v :: v in Box(lo, hi) <==> InBox(v, lo, hi)
  {
    forall v ensures v in Box(lo, hi) <==> InBox(v, lo, hi) {
      assert v == Voxel(v.x, v.y, v.z);
    }
  }

  lemma {:induction false} RowSize(x: int, y: int, z0: int, z1: int)
    ensures |Row(x, y, z0, z1)| == Span(z0, z1)
    decreases z1 - z0
  {
    if z0 <= z1 {
      RowSize(x, y, z0, z1 - 1);
      assert Row(x, y, z0, z1) == Row(x, y, z0, z1 - 1) + {Voxel(x, y, z1)};
    } else {
      assert Row(x, y, z0, z1) == {};
    }
  }

  lemma OneMore(a: int, b: int)
    ensures (a + 1) * b == a * b + b
  {}

  lemma PlaneSplit(x: int, y0: int, y1: int, z0: int, z1: int)
    requires y0 <= y1
    ensures Plane(x, y0, y1, z0, z1) == Plane(x, y0, y1 - 1, z0, z1) + Row(x, y1, z0, z1)
    ensures Plane(x, y0, y1 - 1, z0, z1) !! Row(x, y1, z0, z1)
  {}

  lemma {:induction false} PlaneSize(x: int, y0: int, y1: int, z0: int, z1: int)
    ensures |Plane(x, y0, y1, z0, z1)| == Span(y0, y1) * Span(z0, z1)
    decreases y1 - y0
  {
    if y0 <= y1 {
      PlaneSplit(x, y0, y1, z0, z1);
      hide Plane, Row;
      PlaneSize(x, y0, y1 - 1, z0, z1);
      RowSize(x, y1, z0, z1);
      OneMore(Span(y0, y1 - 1), Span(z0, z1));
    } else {
      assert Plane(x, y0, y1, z0, z1) == {};
    }
  }

  lemma BoxSplit(lo: Voxel, hi: Voxel)
    requires lo.x <= hi.x
    ensures Box(lo, hi) == Box(lo, hi.(x := hi.x - 1)) + Plane(hi.x, lo.y, hi.y, lo.z, hi.z)
    ensures Box(lo, hi.(x := hi.x - 1)) !! Plane(hi.x, lo.y, hi.y, lo.z, hi.z)
  {}

  lemma {:induction false} BoxSize(lo: Voxel, hi: Voxel)
    ensures |Box(lo, hi)| == Span(lo.x, hi.x) * (Span(lo.y, hi.y) * Span(lo.z, hi.z))
    decreases hi.x - lo.x
  {
    if lo.x <= hi.x {
      BoxSplit(lo, hi);
      hide Box, Plane;
      BoxSize(lo, hi.(x := hi.x - 1));
      PlaneSize(hi.x, lo.y, hi.y, lo.z, hi.z);
      OneMore(Span(lo.x, hi.x - 1), Span(lo.y, hi.y) * Span(lo.z, hi.z));
    } else {
      assert Box(lo, hi) == {};
    }
  }

  // ---- faces ----

  /** One of the six faces of a box. */
  datatype Face = Face(axis: Axis, high: bool)

  const AllFaces: set<Face> := {Face(0, false), Face(0, true), Face(1, false), Face(1, true), Face(2, false), Face(2, true)}

  lemma AllFacesComplete(f: Face)
    ensures f in AllFaces
  {}

  /** How far a voxel lies from one face of [low, high) or, with an inclusive
      high side, from the last voxel inside it. */
  function FaceDistance(v: Voxel, low: Voxel, high: Voxel, inclusiveHigh: bool, f: Face): int {
    if !f.high then Coord(v, f.axis) - Coord(low, f.axis)
    else Coord(high, f.axis) - Coord(v, f.axis) - (if inclusiveHigh then 1 else 0)
  }

  /** The distances to all six faces, filled axis by axis. */
  method AxisDistances(v: Voxel, low: Voxel, high: Voxel, inclusiveHigh: bool) returns (r: map<Face, int>)
    ensures r.Keys == AllFaces
    ensures forall f :: f in r ==> r[f] == FaceDistance(v, low, high, inclusiveHigh, f)
  {
    r := map[];
    var axis := 0;
    while axis < 3
      invariant 0 <= axis <= 3
      invariant forall f: Face :: f in r <==> f.axis < axis
      invariant forall f :: f in r ==> r[f] == FaceDistance(v, low, high, inclusiveHigh, f)
    {
      var a: Axis := axis;
      var highFace := Coord(high, a) - Coord(v, a);
      r := r[Face(a, false) := Coord(v, a) - Coord(low, a)][Face(a, true) := if inclusiveHigh then highFace - 1 else highFace];
      axis := axis + 1;
    }
    forall f: Face ensures f in r <==> f in AllFaces { AllFacesComplete(f); }
  }

  /** The nearest of the six. */
  function NearestFace(v: Voxel, low: Voxel, high: Voxel, inclusiveHigh: bool): int {
    Min(Min(Min(FaceDistance(v, low, high, inclusiveHigh, Face(0, false)), FaceDistance(v, low, high, inclusiveHigh, Face(0, true))),
            Min(FaceDistance(v, low, high, inclusiveHigh, Face(1, false)), FaceDistance(v, low, high, inclusiveHigh, Face(1, true)))),
        Min(FaceDistance(v, low, high, inclusiveHigh, Face(2, false)), FaceDistance(v, low, high, inclusiveHigh, Face(2, true))))
  }

  lemma NearestIsMinimum(v: Voxel, low: Voxel, high: Voxel, inclusiveHigh: bool)
    ensures forall f: Face :: NearestFace(v, low, high, inclusiveHigh) <= FaceDistance(v, low, high, inclusiveHigh, f)
    ensures exists f: Face :: NearestFace(v, low, high, inclusiveHigh) == FaceDistance(v, low, high, inclusiveHigh, f)
  {
    var n := NearestFace(v, low, high, inclusiveHigh);
    assert FaceDistance(v, low, high, inclusiveHigh, Face(0, false)) == n || FaceDistance(v, low, high, inclusiveHigh, Face(0, true)) == n
        || FaceDistance(v, low, high, inclusiveHigh, Face(1, false)) == n || FaceDistance(v, low, high, inclusiveHigh, Face(1, true)) == n
        || FaceDistance(v, low, high, inclusiveHigh, Face(2, false)) == n || FaceDistance(v, low, high, inclusiveHigh, Face(2, true)) == n;
  }
}

/** Where a surface sits in the roll, and how much of a point cloud has to be
    wrong before the verdict on two surfaces is (framework/contracts/winding.py). */
module Winding {
  import opened Wrappers
  import opened Ordering

  datatype Verdict = CONSISTENT | CONTRADICTED | UNDETERMINED | NOT_COMPARABLE

  datatype Vec = Vec(x: real, y: real, z: real)

  /** The axis, two directions across it, and the two library functions that
      turn components across the axis into a radius and an angle. */
  datatype Frame = Frame(centre: Vec, axis: Vec, e1: Vec, e2: Vec, hypot: (real, real) -> real, atan2: (real, real) -> real)

  datatype Cylindrical = Cylindrical(radius: real, theta: real, z: real, points: nat)

  const SHEET_VOXELS: real := 12.5
  const UNDETERMINED_VOXELS: real := 3.0

  // ---- the median ----

  predicate RealLe(a: real, b: real) { a <= b }

  function Median(values: seq<real>): real
    requires values != []
  {
    var ordered := Sort(RealLe, values);
    var mid := |ordered| / 2;
    if |ordered| % 2 == 1 then ordered[mid] else (ordered[mid-1] + ordered[mid]) / 2.0
  }

  /** How many values lie between two bounds. */
  function Inside(values: seq<real>, lo: real, hi: real): (n: nat)
    ensures n <= |values|
  {
    if values == [] then 0
    else (if lo <= values[0] <= hi then 1 else 0) + Inside(values[1..], lo, hi)
  }

  lemma {:induction false} InsertInside(x: real, s: seq<real>, lo: real, hi: real)
    ensures Inside(Insert(RealLe, x, s), lo, hi) == Inside([x], lo, hi) + Inside(s, lo, hi)
  {
    if s == [] {
    } else if RealLe(x, s[0]) {
      assert ([x] + s)[1..] == s;
    } else {
      InsertInside(x, s[1..], lo, hi);
      assert ([s[0]] + Insert(RealLe, x, s[1..]))[1..] == Insert(RealLe, x, s[1..]);
    }
  }

  lemma {:induction false} SortInside(s: seq<real>, lo: real, hi: real)
    ensures Inside(Sort(RealLe, s), lo, hi) == Inside(s, lo, hi)
  {
    if s != [] {
      SortInside(s[1..], lo, hi);
      InsertInside(s[0], Sort(RealLe, s[1..]), lo, hi);
    }
  }

  lemma {:induction false} BelowCounts(s: seq<real>, k: nat, lo: real, hi: real)
    requires Sorted(RealLe, s) && k < |s| && s[k] < lo
    ensures Inside(s, lo, hi) <= |s| - k - 1
  {
    if k > 0 {
      assert RealLe(s[0], s[k]);
      Tail(RealLe, s);
      BelowCounts(s[1..], k - 1, lo, hi);
    }
  }

  lemma {:induction false} AboveCounts(s: seq<real>, k: nat, lo: real, hi: real)
    requires Sorted(RealLe, s) && k <= |s| && (k < |s| ==> s[k] > hi)
    ensures Inside(s, lo, hi) <= k
    decreases |s|
  {
    if s != [] {
      Tail(RealLe, s);
      if k > 0 {
        AboveCounts(s[1..], k - 1, lo, hi);
      } else {
        assert |s| > 1 ==> RealLe(s[0], s[1]);
        AboveCounts(s[1..], 0, lo, hi);
      }
    }
  }

  lemma RealOrder()
    ensures Preorder(RealLe)
  {}

  /** Whenever a strict majority of the values lies between two bounds, so does
      the median, wherever the others were dragged to. */
  lemma MajorityHoldsMedian(values: seq<real>, lo: real, hi: real)
    requires 2 * Inside(values, lo, hi) > |values|
    ensures values != [] && lo <= Median(values) <= hi
  {
    var ordered := Sort(RealLe, values);
    var mid := |ordered| / 2;
    RealOrder();
    SortSorted(RealLe, values);
    SortInside(values, lo, hi);
    hide Sort, Inside, Sorted, Preorder;
    MiddleInside(ordered, mid, lo, hi);
    if |ordered| % 2 == 0 {
      MiddleInside(ordered, mid - 1, lo, hi);
    }
  }

  lemma MiddleInside(ordered: seq<real>, k: nat, lo: real, hi: real)
    requires Sorted(RealLe, ordered) && 2 * Inside(ordered, lo, hi) > |ordered|
    requires k < |ordered| && |ordered| - 2 <= 2 * k <= |ordered|
    ensures lo <= ordered[k] <= hi
  {
    hide Inside, Sorted;
    if ordered[k] < lo { BelowCounts(ordered, k, lo, hi); }
    if ordered[k] > hi { AboveCounts(ordered, k, lo, hi); }
  }

  /** A strict majority is needed: with exactly half the values in place the
      median can be any distance away. */
  lemma HalfIsNotEnough(centre: real, far: real)
    requires far >= 0.0
    ensures var values := [centre, centre + 2.0 * far];
      2 * Inside(values, centre, centre) >= |values| && Median(values) == centre + far
  {
    var values := [centre, centre + 2.0 * far];
    assert values[1..] == [centre + 2.0 * far] && values[1..][1..] == [];
    assert Sort(RealLe, values[1..][1..]) == [];
    assert Sort(RealLe, values[1..]) == [centre + 2.0 * far];
    assert Sort(RealLe, values) == values;
  }

  lemma MedianIgnoresOrder(a: seq<real>, b: seq<real>)
    requires a != [] && multiset(a) == multiset(b)
    ensures b != [] && Median(a) == Median(b)
  {
    assert |a| == |b| by {
      SameElements(a, b);
    }
    assert Sort(RealLe, a) == Sort(RealLe, b) by {
      RealOrder();
      SortCanonical(RealLe, a, b);
    }
    hide Sort, RealLe;
  }

  // ---- locating ----

  function Dot(a: Vec, b: Vec): real { a.x * b.x + a.y * b.y + a.z * b.z }

  function Across(f: Frame, p: Vec, e: Vec): real { Dot(Vec(p.x - f.centre.x, p.y - f.centre.y, p.z - f.centre.z), e) }

  function RadiusOf(f: Frame, p: Vec): real { f.hypot(Across(f, p, f.e1), Across(f, p, f.e2)) }

  function ThetaOf(f: Frame, p: Vec): real { f.atan2(Across(f, p, f.e2), Across(f, p, f.e1)) }

  function HeightOf(f: Frame, p: Vec): real { Across(f, p, f.axis) }

  function Each(points: seq<Vec>, measure: Vec -> real): (r: seq<real>)
    ensures |r| == |points|
  {
    seq(|points|, i requires 0 <= i < |points| => measure(points[i]))
  }

  function Radii(f: Frame, points: seq<Vec>): (r: seq<real>) ensures |r| == |points| { Each(points, p => RadiusOf(f, p)) }
  function Thetas(f: Frame, points: seq<Vec>): (r: seq<real>) ensures |r| == |points| { Each(points, p => ThetaOf(f, p)) }
  function Heights(f: Frame, points: seq<Vec>): (r: seq<real>) ensures |r| == |points| { Each(points, p => HeightOf(f, p)) }

  function Located(f: Frame, points: seq<Vec>): Option<Cylindrical> {
    if points == [] then None
    else Some(Cylindrical(Median(Radii(f, points)), Median(Thetas(f, points)), Median(Heights(f, points)), |points|))
  }

  method Locate(f: Frame, points: seq<Vec>) returns (r: Option<Cylindrical>)
    ensures r == Located(f, points)
  {
    hide Dot, Median;
    var radii: seq<real> := [];
    var thetas: seq<real> := [];
    var zs: seq<real> := [];
    for i := 0 to |points|
      invariant radii == Radii(f, points)[..i] && thetas == Thetas(f, points)[..i] && zs == Heights(f, points)[..i]
    {
      var p := points[i];
      var u, v := Across(f, p, f.e1), Across(f, p, f.e2);
      radii := radii + [f.hypot(u, v)];
      thetas := thetas + [f.atan2(v, u)];
      zs := zs + [Across(f, p, f.axis)];
    }
    assert Radii(f, points)[..|points|] == Radii(f, points);
    assert Thetas(f, points)[..|points|] == Thetas(f, points);
    assert Heights(f, points)[..|points|] == Heights(f, points);
    if radii == [] {
      return None;
    }
    r := Some(Cylindrical(Median(radii), Median(thetas), Median(zs), |radii|));
  }

  lemma EachConcat(a: seq<Vec>, b: seq<Vec>, measure: Vec -> real)
    ensures Each(a + b, measure) == Each(a, measure) + Each(b, measure)
  {}

  /** Bringing one point to the front permutes the points and their measures alike. */
  lemma Fronted(s: seq<Vec>, k: nat, measure: Vec -> real)
    requires k < |s|
    ensures multiset([s[k]] + (s[..k] + s[k+1..])) == multiset(s)
    ensures multiset(Each([s[k]] + (s[..k] + s[k+1..]), measure)) == multiset(Each(s, measure))
  {
    assert s == s[..k] + ([s[k]] + s[k+1..]);
    EachConcat(s[..k], [s[k]] + s[k+1..], measure);
    EachConcat([s[k]], s[k+1..], measure);
    EachConcat(s[..k], s[k+1..], measure);
    EachConcat([s[k]], s[..k] + s[k+1..], measure);
  }

  lemma {:induction false} EachPermutes(a: seq<Vec>, b: seq<Vec>, measure: Vec -> real)
    requires multiset(a) == multiset(b)
    ensures multiset(Each(a, measure)) == multiset(Each(b, measure))
    decreases |a|
  {
    hide Each;
    SameElements(a, b);
    if a != [] {
      assert a[0] in b;
      var k :| 0 <= k < |b| && b[k] == a[0];
      var rest := b[..k] + b[k+1..];
      Fronted(b, k, measure);
      assert a == [a[0]] + a[1..];
      assert multiset(a[1..]) == multiset(a) - multiset{a[0]} == multiset([b[k]] + rest) - multiset{b[k]} == multiset(rest);
      EachPermutes(a[1..], rest, measure);
      EachConcat([a[0]], a[1..], measure);
      EachConcat([b[k]], rest, measure);
    } else {
      assert b == [];
    }
  }

  /** Where a surface sits does not depend on the order its points are read in. */
  lemma LocateIgnoresOrder(f: Frame, a: seq<Vec>, b: seq<Vec>)
    requires multiset(a) == multiset(b)
    ensures Located(f, a) == Located(f, b)
  {
    SameElements(a, b);
    hide Median, Each;
    if a != [] {
      EachPermutes(a, b, p => RadiusOf(f, p));
      EachPermutes(a, b, p => ThetaOf(f, p));
      EachPermutes(a, b, p => HeightOf(f, p));
      MedianIgnoresOrder(Radii(f, a), Radii(f, b));
      MedianIgnoresOrder(Thetas(f, a), Thetas(f, b));
      MedianIgnoresOrder(Heights(f, a), Heights(f, b));
    }
  }

  /** Unit directions at right angles to each other. */
  ghost predicate Orthonormal(f: Frame) {
    && Inner(f.e1, f.e1) == 1.0 && Inner(f.e2, f.e2) == 1.0 && Inner(f.axis, f.axis) == 1.0
    && Inner(f.e1, f.e2) == 0.0 && Inner(f.e1, f.axis) == 0.0 && Inner(f.e2, f.axis) == 0.0
  }

  /** The sum of the products of like coordinates. */
  ghost function Inner(u: Vec, v: Vec): real { u.z * v.z + u.y * v.y + u.x * v.x }

  lemma DotIsInner(u: Vec, v: Vec)
    ensures Dot(u, v) == Inner(u, v) == Inner(v, u)
  {}

  /** The point a, b and c steps along the three directions from the centre. */
  ghost function PointAt(f: Frame, a: real, b: real, c: real): Vec {
    Vec(f.centre.x + a * f.e1.x + b * f.e2.x + c * f.axis.x,
        f.centre.y + a * f.e1.y + b * f.e2.y + c * f.axis.y,
        f.centre.z + a * f.e1.z + b * f.e2.z + c * f.axis.z)
  }

  lemma Combine(a: real, b: real, c: real, u: Vec, v: Vec, w: Vec, e: Vec)
    ensures Dot(Vec(a * u.x + b * v.x + c * w.x, a * u.y + b * v.y + c * w.y, a * u.z + b * v.z + c * w.z), e)
         == a * Dot(u, e) + b * Dot(v, e) + c * Dot(w, e)
  {}

  lemma Steps(a: real, b: real, c: real, x: real, y: real, z: real)
    ensures x == 1.0 && y == 0.0 && z == 0.0 ==> a * x + b * y + c * z == a
    ensures x == 0.0 && y == 1.0 && z == 0.0 ==> a * x + b * y + c * z == b
    ensures x == 0.0 && y == 0.0 && z == 1.0 ==> a * x + b * y + c * z == c
  {}

  lemma AcrossReads(f: Frame, a: real, b: real, c: real, e: Vec)
    ensures Across(f, PointAt(f, a, b, c), e) == a * Dot(f.e1, e) + b * Dot(f.e2, e) + c * Dot(f.axis, e)
  {
    Combine(a, b, c, f.e1, f.e2, f.axis, e);
    hide Dot;
    var p := PointAt(f, a, b, c);
    assert Vec(p.x - f.centre.x, p.y - f.centre.y, p.z - f.centre.z)
        == Vec(a * f.e1.x + b * f.e2.x + c * f.axis.x, a * f.e1.y + b * f.e2.y + c * f.axis.y, a * f.e1.z + b * f.e2.z + c * f.axis.z);
  }

  /** Measuring reads the steps back: the two across the axis give the radius and
      the angle, in that order and the other, and the one along it the height. */
  lemma FrameReads(f: Frame, a: real, b: real, c: real)
    requires Orthonormal(f)
    ensures RadiusOf(f, PointAt(f, a, b, c)) == f.hypot(a, b)
    ensures ThetaOf(f, PointAt(f, a, b, c)) == f.atan2(b, a)
    ensures HeightOf(f, PointAt(f, a, b, c)) == c
  {
    AcrossReads(f, a, b, c, f.e1);
    AcrossReads(f, a, b, c, f.e2);
    AcrossReads(f, a, b, c, f.axis);
    hide Dot, Inner, Across, PointAt;
    forall u, v ensures Dot(u, v) == Inner(u, v) == Inner(v, u) { DotIsInner(u, v); }
    Steps(a, b, c, Dot(f.e1, f.e1), Dot(f.e2, f.e1), Dot(f.axis, f.e1));
    Steps(a, b, c, Dot(f.e1, f.e2), Dot(f.e2, f.e2), Dot(f.axis, f.e2));
    Steps(a, b, c, Dot(f.e1, f.axis), Dot(f.e2, f.axis), Dot(f.axis, f.axis));
    MeasuresRead(f, PointAt(f, a, b, c), a, b);
  }

  lemma MeasuresRead(f: Frame, p: Vec, u: real, v: real)
    requires Across(f, p, f.e1) == u && Across(f, p, f.e2) == v
    ensures RadiusOf(f, p) == f.hypot(u, v) && ThetaOf(f, p) == f.atan2(v, u)
  {
    hide Across;
  }

  // ---- the verdict ----

  function Abs(x: real): (r: real) ensures r >= 0.0 && (r == x || r == -x) { if x < 0.0 then -x else x }

  function Compare(a: Cylindrical, b: Cylindrical, expected: Option<string>, sharedBins: int): Verdict {
    var separation := Abs(a.radius - b.radius);
    if sharedBins != 0 && sharedBins < 4 then NOT_COMPARABLE
    else if separation < UNDETERMINED_VOXELS then UNDETERMINED
    else if separation < SHEET_VOXELS then CONTRADICTED
    else if expected.Some? then
      var seen := if a.radius > b.radius then "a" else "b";
      if seen != expected.value then CONTRADICTED else CONSISTENT
    else CONSISTENT
  }

  function Swapped(expected: Option<string>): Option<string> {
    if expected == Some("a") then Some("b") else if expected == Some("b") then Some("a") else expected
  }

  /** Naming the surfaces the other way round changes nothing. */
  lemma CompareSymmetric(a: Cylindrical, b: Cylindrical, expected: Option<string>, sharedBins: int)
    ensures Compare(b, a, Swapped(expected), sharedBins) == Compare(a, b, expected, sharedBins)
  {
    assert "a"[0] != "b"[0];
  }

  /** At least as many points as not sit within `d` of the true radius, and one more. */
  ghost predicate MostlyAt(f: Frame, points: seq<Vec>, radius: real, d: real) {
    2 * Inside(Radii(f, points), radius - d, radius + d) > |points|
  }

  /** With a strict majority of each cloud within `d` of its radius, the
      separation measured is within `2d` of the true one. */
  lemma SeparationIsRobust(f: Frame, p: seq<Vec>, q: seq<Vec>, r1: real, r2: real, d: real)
    requires MostlyAt(f, p, r1, d) && MostlyAt(f, q, r2, d)
    ensures p != [] && q != [] && Located(f, p).Some? && Located(f, q).Some?
    ensures var a, b := Located(f, p).value.radius, Located(f, q).value.radius;
      r1 - r2 - 2.0 * d <= a - b <= r1 - r2 + 2.0 * d
    ensures var a, b := Located(f, p).value.radius, Located(f, q).value.radius;
      Abs(r1 - r2) - 2.0 * d <= Abs(a - b) <= Abs(r1 - r2) + 2.0 * d
  {
    hide Inside, Median, Each;
    MajorityHoldsMedian(Radii(f, p), r1 - d, r1 + d);
    MajorityHoldsMedian(Radii(f, q), r2 - d, r2 + d);
  }

  /** The verdict follows the true radii for as long as the truth is further
      than `2d` from every threshold, whatever a minority of the points say; only
      a known overlap under four bins keeps two surfaces from being compared. */
  lemma VerdictIsRobust(f: Frame, p: seq<Vec>, q: seq<Vec>, r1: real, r2: real, d: real, expected: Option<string>, sharedBins: int)
    requires MostlyAt(f, p, r1, d) && MostlyAt(f, q, r2, d)
    ensures Located(f, p).Some? && Located(f, q).Some?
    ensures var verdict := Compare(Located(f, p).value, Located(f, q).value, expected, sharedBins);
      var truth := Abs(r1 - r2);
      && (verdict == NOT_COMPARABLE <==> sharedBins != 0 && sharedBins < 4)
      && (verdict != NOT_COMPARABLE && truth < 3.0 - 2.0 * d ==> verdict == UNDETERMINED)
      && (verdict != NOT_COMPARABLE && 3.0 + 2.0 * d <= truth < 12.5 - 2.0 * d ==> verdict == CONTRADICTED)
      && (verdict != NOT_COMPARABLE && 12.5 + 2.0 * d <= truth ==>
            verdict == if expected == None || expected == Some(if r1 > r2 then "a" else "b") then CONSISTENT else CONTRADICTED)
  {
    SeparationIsRobust(f, p, q, r1, r2, d);
    DistanceFromNoise(f, p, r1, d);
    hide *;
    VerdictNear(Located(f, p).value, Located(f, q).value, r1, r2, d, expected, sharedBins);
  }

  lemma VerdictNear(a: Cylindrical, b: Cylindrical, r1: real, r2: real, d: real, expected: Option<string>, sharedBins: int)
    requires d >= 0.0 && r1 - r2 - 2.0 * d <= a.radius - b.radius <= r1 - r2 + 2.0 * d
    ensures var verdict := Compare(a, b, expected, sharedBins);
      var truth := Abs(r1 - r2);
      && (verdict == NOT_COMPARABLE <==> sharedBins != 0 && sharedBins < 4)
      && (verdict != NOT_COMPARABLE && truth < 3.0 - 2.0 * d ==> verdict == UNDETERMINED)
      && (verdict != NOT_COMPARABLE && 3.0 + 2.0 * d <= truth < 12.5 - 2.0 * d ==> verdict == CONTRADICTED)
      && (verdict != NOT_COMPARABLE && 12.5 + 2.0 * d <= truth ==>
            verdict == if expected == None || expected == Some(if r1 > r2 then "a" else "b") then CONSISTENT else CONTRADICTED)
  {}

  lemma DistanceFromNoise(f: Frame, p: seq<Vec>, r: real, d: real)
    requires MostlyAt(f, p, r, d)
    ensures d >= 0.0
  {
    MajorityHoldsMedian(Radii(f, p), r - d, r + d);
  }
}

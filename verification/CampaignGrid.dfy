/** The frozen grid of query cells over one volume
    (scripts/harness/analyze_candidate_clearance.py, _expected_campaign_cell_geometry). */
module CampaignGrid {
  import opened Wrappers
  import opened Ordering
  import opened Text
  import opened Voxels

  // ---- one axis ----

  /** `len(range(margin, size - margin, step))`. */
  function RegularCount(size: int, margin: int, step: int): (n: nat)
    requires step > 0
  {
    if size - margin <= margin then 0 else (size - 2 * margin - 1) / step + 1
  }

  function Regular(margin: int, step: int, n: nat): (r: seq<int>)
    ensures |r| == n
  {
    seq(n, k => margin + k * step)
  }

  /** Whether the far end gets a centre of its own. */
  predicate Appends(size: int, margin: int, step: int)
    requires step > 0
  {
    var n := RegularCount(size, margin, step);
    n > 0 && size - margin - 1 - (margin + (n - 1) * step) >= step / 2
  }

  function Centers(size: int, margin: int, step: int): seq<int>
    requires step > 0
  {
    Regular(margin, step, RegularCount(size, margin, step))
    + if Appends(size, margin, step) then [size - margin - 1] else []
  }

  method AxisCenters(size: int, margin: int, step: int) returns (centers: seq<int>)
    requires step > 0
    ensures centers == Centers(size, margin, step)
  {
    centers := [];
    var c := margin;
    ghost var k := 0;
    ghost var n := RegularCount(size, margin, step);
    while c < size - margin
      invariant 0 <= k <= n && c == margin + k * step
      invariant centers == Regular(margin, step, k)
      decreases size - margin - c
    {
      RegularBelow(size, margin, step, k);
      OneMore(k, step);
      centers := centers + [c];
      c := c + step;
      k := k + 1;
    }
    RegularBelow(size, margin, step, k);
    if centers != [] {
      var last := size - margin - 1;
      if last - centers[|centers|-1] >= step / 2 {
        centers := centers + [last];
      }
    }
  }

  /** The k-th step is below the far margin exactly while k counts. */
  lemma RegularBelow(size: int, margin: int, step: int, k: nat)
    requires step > 0
    ensures margin + k * step < size - margin <==> k < RegularCount(size, margin, step)
  {
    var room := size - 2 * margin - 1;
    if room >= 0 {
      var q := room / step;
      DivisionBounds(room, step);
      if k <= q {
        MulMonotone(k, q, step);
      } else {
        MulMonotone(q + 1, k, step);
        OneMore(q, step);
      }
    } else {
      MulMonotone(0, k, step);
    }
  }

  lemma DivisionBounds(a: int, d: int)
    requires d > 0
    ensures a / d * d <= a < a / d * d + d
  {}

  lemma MulMonotone(a: int, b: int, c: int)
    requires a <= b && c >= 0
    ensures a * c <= b * c
  {}

  /** Distinct regular centres are at least one step apart. */
  lemma RegularGap(margin: int, step: int, n: nat, i: nat, j: nat)
    requires step > 0 && i < j < n
    ensures Regular(margin, step, n)[j] - Regular(margin, step, n)[i] >= step
  {
    MulMonotone(i + 1, j, step);
    OneMore(i, step);
  }

  lemma LastRegularBelowEnd(size: int, margin: int, step: int)
    requires step > 0
    ensures var n := RegularCount(size, margin, step);
      n > 0 ==> 0 <= size - margin - 1 - (margin + (n - 1) * step) < step
  {
    var n := RegularCount(size, margin, step);
    if n > 0 {
      RegularBelow(size, margin, step, n - 1);
      RegularBelow(size, margin, step, n);
      OneMore(n - 1, step);
    }
  }

  /** Centres ascend strictly and stay a margin away from both ends. */
  lemma CentersAscend(size: int, margin: int, step: int, i: nat, j: nat)
    requires step >= 2 && i < j < |Centers(size, margin, step)|
    ensures Centers(size, margin, step)[i] < Centers(size, margin, step)[j]
  {
    var n := RegularCount(size, margin, step);
    LastRegularBelowEnd(size, margin, step);
    if j < n {
      RegularGap(margin, step, n, i, j);
    } else if i < n - 1 {
      RegularGap(margin, step, n, i, n - 1);
    }
  }

  lemma CentersInside(size: int, margin: int, step: int, i: nat)
    requires step > 0 && i < |Centers(size, margin, step)|
    ensures margin <= Centers(size, margin, step)[i] <= size - margin - 1
  {
    var n := RegularCount(size, margin, step);
    LastRegularBelowEnd(size, margin, step);
    if i < n {
      RegularBelow(size, margin, step, i);
      MulMonotone(0, i, step);
    } else {
      MulMonotone(0, n - 1, step);
    }
  }

  /** Every query cube of radius at most the margin lies inside the volume. */
  lemma CubesInside(size: int, margin: int, radius: int, step: int, i: nat)
    requires step > 0 && 0 <= radius <= margin && i < |Centers(size, margin, step)|
    ensures 0 <= Centers(size, margin, step)[i] - radius && Centers(size, margin, step)[i] + radius <= size - 1
  {
    CentersInside(size, margin, step, i);
  }

  /** Every coordinate the margin leaves lies within half a step of a centre. */
  lemma CentersCover(size: int, margin: int, step: int, v: int) returns (k: nat)
    requires step > 0 && margin <= v <= size - 1 - margin
    ensures k < |Centers(size, margin, step)|
    ensures -(step / 2) <= v - Centers(size, margin, step)[k] <= step / 2
  {
    var n := RegularCount(size, margin, step);
    var q := (v - margin) / step;
    DivisionBounds(v - margin, step);
    RegularBelow(size, margin, step, q);
    RegularBelow(size, margin, step, q + 1);
    LastRegularBelowEnd(size, margin, step);
    OneMore(q, step);
    var below := margin + q * step;
    assert Centers(size, margin, step)[q] == below;
    if v - below <= step / 2 {
      k := q;
    } else if q + 1 < n {
      k := q + 1;
      assert Centers(size, margin, step)[k] == below + step;
    } else {
      assert q + 1 == n;
      k := n;
      assert Appends(size, margin, step);
    }
  }

  /** The half-open cell around a centre. */
  ghost predicate Covers(center: int, radius: int, v: int) { center - radius <= v < center + radius }

  ghost predicate Apart(a: int, b: int, radius: int) {
    forall v :: !(Covers(a, radius, v) && Covers(b, radius, v))
  }

  lemma ApartMeans(a: int, b: int, radius: int)
    requires radius > 0 && a <= b
    ensures Apart(a, b, radius) <==> b - a >= 2 * radius
  {
    if b - a < 2 * radius {
      var v := b - radius;
      assert Covers(a, radius, v) && Covers(b, radius, v);
    }
  }

  /** When the far end gets its own centre, its distance to the one before. */
  function LastGap(size: int, margin: int, step: int): int
    requires step > 0 && Appends(size, margin, step)
  {
    size - margin - 1 - (margin + (RegularCount(size, margin, step) - 1) * step)
  }

  /** The cells of an axis are pairwise disjoint exactly when no appended last
      centre crowds the one before it; two regular cells never overlap. */
  lemma CellsApart(size: int, margin: int, step: int, radius: int)
    requires radius > 0 && step >= 2 * radius
    ensures (forall i, j :: 0 <= i < j < |Centers(size, margin, step)| ==>
               Apart(Centers(size, margin, step)[i], Centers(size, margin, step)[j], radius))
       <==> (Appends(size, margin, step) ==> LastGap(size, margin, step) >= 2 * radius)
    ensures forall i, j :: 0 <= i < j < RegularCount(size, margin, step) ==>
      Apart(Centers(size, margin, step)[i], Centers(size, margin, step)[j], radius)
  {
    var cs, n := Centers(size, margin, step), RegularCount(size, margin, step);
    forall i, j | 0 <= i < j < n ensures Apart(cs[i], cs[j], radius) {
      RegularGap(margin, step, n, i, j);
      ApartMeans(cs[i], cs[j], radius);
    }
    LastRegularBelowEnd(size, margin, step);
    if Appends(size, margin, step) {
      assert |cs| == n + 1 && cs[n] - cs[n-1] == LastGap(size, margin, step);
      ApartMeans(cs[n-1], cs[n], radius);
      if LastGap(size, margin, step) >= 2 * radius {
        forall i | 0 <= i < n ensures Apart(cs[i], cs[n], radius) {
          if i < n - 1 { RegularGap(margin, step, n, i, n - 1); }
          ApartMeans(cs[i], cs[n], radius);
        }
      }
    }
  }

  // ---- cell ids ----

  datatype CellError = MALFORMED | OUTSIDE_GRID

  /** `r00000c00000a00000`: five digits after each letter. */
  predicate IsCellId(id: string) {
    && |id| == 18 && id[0] == 'r' && id[6] == 'c' && id[12] == 'a'
    && AllDigits(id[1..6]) && AllDigits(id[7..12]) && AllDigits(id[13..18])
  }

  function Indices(id: string): seq<nat>
    requires IsCellId(id)
  {
    [ParseDigits(id[1..6]), ParseDigits(id[7..12]), ParseDigits(id[13..18])]
  }

  datatype Geometry = Geometry(center: Voxel, low: Voxel, high: Voxel)

  /** The cell an id names on the frozen grid. */
  method ExpectedCellGeometry(id: string, shape: seq<int>, step: int, radius: int, volumeClearance: int)
    returns (r: Result<Geometry, CellError>)
    requires |shape| == 3 && step > 0
    ensures r == Cell(id, shape, step, radius, volumeClearance)
  {
    if !IsCellId(id) {
      return Err(MALFORMED);
    }
    var margin := Max(radius, volumeClearance);
    var axes: seq<seq<int>> := [];
    for axis := 0 to 3
      invariant |axes| == axis
      invariant forall i :: 0 <= i < axis ==> axes[i] == Centers(shape[i], margin, step)
    {
      var centers := AxisCenters(shape[axis], margin, step);
      axes := axes + [centers];
    }
    var at := Indices(id);
    if exists i :: 0 <= i < 3 && at[i] >= |axes[i]| {
      return Err(OUTSIDE_GRID);
    }
    var c := Voxel(axes[0][at[0]], axes[1][at[1]], axes[2][at[2]]);
    r := Ok(Geometry(c, Voxel(c.x - radius, c.y - radius, c.z - radius), Voxel(c.x + radius, c.y + radius, c.z + radius)));
  }

  function Cell(id: string, shape: seq<int>, step: int, radius: int, volumeClearance: int): Result<Geometry, CellError>
    requires |shape| == 3 && step > 0
  {
    if !IsCellId(id) then Err(MALFORMED)
    else
      var margin, at := Max(radius, volumeClearance), Indices(id);
      if exists i :: 0 <= i < 3 && at[i] >= |Centers(shape[i], margin, step)| then Err(OUTSIDE_GRID)
      else
        var c := Voxel(Centers(shape[0], margin, step)[at[0]], Centers(shape[1], margin, step)[at[1]],
                       Centers(shape[2], margin, step)[at[2]]);
        Ok(Geometry(c, Voxel(c.x - radius, c.y - radius, c.z - radius), Voxel(c.x + radius, c.y + radius, c.z + radius)))
  }

  /** The i-th centre of an axis: whole steps from the near margin for as long
      as they stay short of the far one, and then the last voxel before it. */
  ghost function CenterAt(size: int, margin: int, step: int, i: nat): int {
    if margin + i * step < size - margin then margin + i * step else size - margin - 1
  }

  lemma CenterIs(size: int, margin: int, step: int, i: nat)
    requires step > 0 && i < |Centers(size, margin, step)|
    ensures Centers(size, margin, step)[i] == CenterAt(size, margin, step, i)
  {
    RegularBelow(size, margin, step, i);
  }

  /** An axis has a centre for every whole step short of the far margin, and one
      more when the rest is at least half a step. */
  lemma CentersCount(size: int, margin: int, step: int, n: nat)
    requires step > 0
    ensures |Centers(size, margin, step)| == n <==>
      || (n == 0 && size - margin <= margin)
      || (n > 0 && margin + (n - 1) * step < size - margin <= margin + n * step
          && (size - margin - 1) - (margin + (n - 1) * step) < step / 2)
      || (n > 1 && margin + (n - 2) * step < size - margin <= margin + (n - 1) * step
          && (size - margin - 1) - (margin + (n - 2) * step) >= step / 2)
  {
    var r := RegularCount(size, margin, step);
    RegularBelow(size, margin, step, n);
    if n > 0 { RegularBelow(size, margin, step, n - 1); }
    if n > 1 { RegularBelow(size, margin, step, n - 2); }
    RegularBelow(size, margin, step, 0);
    RegularBelow(size, margin, step, r);
    if r > 0 { RegularBelow(size, margin, step, r - 1); }
    hide RegularCount;
  }

  /** Five digits after each of r, c and a. */
  ghost predicate Formed(id: string) {
    && |id| == 18 && id[0] == 'r' && id[6] == 'c' && id[12] == 'a'
    && forall i :: 0 <= i < 18 && i != 0 && i != 6 && i != 12 ==> 48 <= id[i] as int <= 57
  }

  lemma FormedMeans(id: string)
    ensures IsCellId(id) <==> Formed(id)
  {
    if |id| == 18 {
      assert forall i :: 1 <= i < 6 ==> id[1..6][i-1] == id[i];
      assert forall i :: 7 <= i < 12 ==> id[7..12][i-7] == id[i];
      assert forall i :: 13 <= i < 18 ==> id[13..18][i-13] == id[i];
      assert forall i :: 0 <= i < 5 ==> id[1..6][i] == id[i+1] && id[7..12][i] == id[i+7] && id[13..18][i] == id[i+13];
    }
  }

  /** The digits after r count along the first axis, those after c along the
      second and those after a along the third; the cell reaches one radius to
      either side of the three centres. */
  lemma CellIs(id: string, shape: seq<int>, step: int, radius: int, volumeClearance: int)
    requires |shape| == 3 && step > 0
    ensures Cell(id, shape, step, radius, volumeClearance) == Err(MALFORMED) <==> !Formed(id)
    ensures Formed(id) ==> AllDigits(id[1..6]) && AllDigits(id[7..12]) && AllDigits(id[13..18])
    ensures Formed(id) ==>
      var margin := if radius >= volumeClearance then radius else volumeClearance;
      var r, c, a := ParseDigits(id[1..6]), ParseDigits(id[7..12]), ParseDigits(id[13..18]);
      var x, y, z := CenterAt(shape[0], margin, step, r), CenterAt(shape[1], margin, step, c), CenterAt(shape[2], margin, step, a);
      var cell := Cell(id, shape, step, radius, volumeClearance);
      && (cell == Err(OUTSIDE_GRID) <==>
            || r >= |Centers(shape[0], margin, step)| || c >= |Centers(shape[1], margin, step)|
            || a >= |Centers(shape[2], margin, step)|)
      && (cell.Ok? ==> cell.value == Geometry(Voxel(x, y, z), Voxel(x - radius, y - radius, z - radius),
                                              Voxel(x + radius, y + radius, z + radius)))
  {
    FormedMeans(id);
    var margin := Max(radius, volumeClearance);
    hide Formed, Centers, CenterAt;
    if IsCellId(id) {
      var at := Indices(id);
      forall i | 0 <= i < 3 && at[i] < |Centers(shape[i], margin, step)|
        ensures Centers(shape[i], margin, step)[at[i]] == CenterAt(shape[i], margin, step, at[i])
      {
        CenterIs(shape[i], margin, step, at[i]);
      }
    }
  }

  lemma {:induction false} ParseFixedWidth(a: string, b: string)
    requires AllDigits(a) && AllDigits(b) && |a| == |b| && ParseDigits(a) == ParseDigits(b)
    ensures a == b
  {
    if a != [] {
      var x, y := a[..|a|-1], b[..|b|-1];
      var p, q := a[|a|-1] as int - '0' as int, b[|b|-1] as int - '0' as int;
      assert IsDigit(a[|a|-1]) && IsDigit(b[|b|-1]);
      assert ParseDigits(x) * 10 + p == ParseDigits(y) * 10 + q;
      ParseFixedWidth(x, y);
      assert a == x + [a[|a|-1]] && b == y + [b[|b|-1]];
    }
  }

  lemma CellIdByIndices(a: string, b: string)
    requires IsCellId(a) && IsCellId(b) && Indices(a) == Indices(b)
    ensures a == b
  {
    assert Indices(a)[0] == Indices(b)[0] && Indices(a)[1] == Indices(b)[1] && Indices(a)[2] == Indices(b)[2];
    ParseFixedWidth(a[1..6], b[1..6]);
    ParseFixedWidth(a[7..12], b[7..12]);
    ParseFixedWidth(a[13..18], b[13..18]);
    forall i | 0 <= i < 18 ensures a[i] == b[i] {
      if 1 <= i < 6 { assert a[i] == a[1..6][i-1] && b[i] == b[1..6][i-1]; }
      if 7 <= i < 12 { assert a[i] == a[7..12][i-7] && b[i] == b[7..12][i-7]; }
      if 13 <= i < 18 { assert a[i] == a[13..18][i-13] && b[i] == b[13..18][i-13]; }
    }
  }

  lemma SameCenterSameIndex(size: int, margin: int, step: int, i: nat, j: nat)
    requires step >= 2 && i < |Centers(size, margin, step)| && j < |Centers(size, margin, step)|
    requires Centers(size, margin, step)[i] == Centers(size, margin, step)[j]
    ensures i == j
  {
    if i < j { CentersAscend(size, margin, step, i, j); }
    if j < i { CentersAscend(size, margin, step, j, i); }
  }

  /** Different ids name different cells. */
  lemma CellsDistinct(a: string, b: string, shape: seq<int>, step: int, radius: int, volumeClearance: int)
    requires |shape| == 3 && step >= 2
    requires var p, q := Cell(a, shape, step, radius, volumeClearance), Cell(b, shape, step, radius, volumeClearance);
      p.Ok? && q.Ok? && p.value.center == q.value.center
    ensures a == b
  {
    var margin := Max(radius, volumeClearance);
    var i, j := Indices(a), Indices(b);
    SameCenterSameIndex(shape[0], margin, step, i[0], j[0]);
    SameCenterSameIndex(shape[1], margin, step, i[1], j[1]);
    SameCenterSameIndex(shape[2], margin, step, i[2], j[2]);
    CellIdByIndices(a, b);
  }

  /** A named cell is its centre grown by the radius, and lies inside the volume. */
  lemma CellInsideVolume(id: string, shape: seq<int>, step: int, radius: int, volumeClearance: int)
    requires |shape| == 3 && step > 0 && radius >= 0 && Cell(id, shape, step, radius, volumeClearance).Ok?
    ensures var g := Cell(id, shape, step, radius, volumeClearance).value;
      && 0 <= g.low.x && g.high.x <= shape[0] - 1 && 0 <= g.low.y && g.high.y <= shape[1] - 1
      && 0 <= g.low.z && g.high.z <= shape[2] - 1
      && g.high.x - g.low.x == g.high.y - g.low.y == g.high.z - g.low.z == 2 * radius
  {
    var margin, at := Max(radius, volumeClearance), Indices(id);
    CubesInside(shape[0], margin, radius, step, at[0]);
    CubesInside(shape[1], margin, radius, step, at[1]);
    CubesInside(shape[2], margin, radius, step, at[2]);
  }

  ghost predicate InHalfOpen(v: Voxel, g: Geometry) {
    g.low.x <= v.x < g.high.x && g.low.y <= v.y < g.high.y && g.low.z <= v.z < g.high.z
  }

  /** An axis whose appended centre, if any, keeps a full cell's distance. */
  ghost predicate Spaced(size: int, margin: int, step: int, radius: int)
    requires step > 0
  {
    Appends(size, margin, step) ==> LastGap(size, margin, step) >= 2 * radius
  }

  lemma AxisApart(size: int, margin: int, step: int, radius: int, i: nat, j: nat, v: int)
    requires radius > 0 && step >= 2 * radius && Spaced(size, margin, step, radius)
    requires i < |Centers(size, margin, step)| && j < |Centers(size, margin, step)|
    requires Covers(Centers(size, margin, step)[i], radius, v) && Covers(Centers(size, margin, step)[j], radius, v)
    ensures i == j
  {
    CellsApart(size, margin, step, radius);
    hide Centers, Covers, Apart;
    var cs := Centers(size, margin, step);
    NotApart(cs[i], cs[j], radius, v);
    NotApart(cs[j], cs[i], radius, v);
  }

  lemma NotApart(a: int, b: int, radius: int, v: int)
    requires Covers(a, radius, v) && Covers(b, radius, v)
    ensures !Apart(a, b, radius)
  {}

  /** On a spaced grid no voxel belongs to two cells. */
  lemma CellsDisjoint(a: string, b: string, shape: seq<int>, step: int, radius: int, volumeClearance: int, v: Voxel)
    requires |shape| == 3 && radius > 0 && step >= 2 * radius
    requires forall i :: 0 <= i < 3 ==> Spaced(shape[i], Max(radius, volumeClearance), step, radius)
    requires var p, q := Cell(a, shape, step, radius, volumeClearance), Cell(b, shape, step, radius, volumeClearance);
      p.Ok? && q.Ok? && InHalfOpen(v, p.value) && InHalfOpen(v, q.value)
    ensures a == b
  {
    var margin := Max(radius, volumeClearance);
    var i, j := Indices(a), Indices(b);
    AxisApart(shape[0], margin, step, radius, i[0], j[0], v.x);
    AxisApart(shape[1], margin, step, radius, i[1], j[1], v.y);
    AxisApart(shape[2], margin, step, radius, i[2], j[2], v.z);
    CellIdByIndices(a, b);
  }
}

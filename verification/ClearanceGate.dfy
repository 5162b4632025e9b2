/** What the volume gate does to one query cube, in closed form
    (scripts/harness/analyze_candidate_clearance.py, query_cube_volume_gate_geometry). */
module ClearanceGate {
  import opened Wrappers
  import opened Ordering
  import opened Text
  import opened Voxels

  /** `math.ceil`. */
  function Ceil(r: real): int { -((-r).Floor) }

  datatype GateError = BOUNDS_SHAPE | LOW_EXCEEDS_HIGH | BAD_SHAPE | BAD_MINIMUM | NO_INTERSECTION

  datatype GateGeometry = GateGeometry(
    cubeCount: int, admissibleCount: int, fraction: real,
    admissibleBounds: Option<(Voxel, Voxel)>, inadmissibleFaces: seq<Face>,
    admitsWholeCube: bool, admitsNoVoxel: bool, minimum: int)

  predicate WellFormed(bounds: seq<seq<real>>, shape: seq<int>, minimum: int) {
    && |bounds| == 2 && |bounds[0]| == 3 && |bounds[1]| == 3
    && (forall i :: 0 <= i < 3 ==> bounds[0][i] <= bounds[1][i])
    && |shape| == 3 && (forall i :: 0 <= i < 3 ==> shape[i] >= 1)
    && minimum >= 0
  }

  // ---- the meaning: sets of voxels ----

  predicate InCube(v: Voxel, bounds: seq<seq<real>>)
    requires |bounds| == 2 && |bounds[0]| == 3 && |bounds[1]| == 3
  {
    forall i: Axis :: bounds[0][i] <= Coord(v, i) as real <= bounds[1][i]
  }

  function Extent(shape: seq<int>): Voxel
    requires |shape| == 3
  {
    Voxel(shape[0], shape[1], shape[2])
  }

  /** Distance to one face of the scanned volume. */
  function VolumeDistance(v: Voxel, shape: seq<int>, f: Face): int
    requires |shape| == 3
  {
    FaceDistance(v, Voxel(0, 0, 0), Extent(shape), true, f)
  }

  /** Distance to the nearest face of the scanned volume. */
  function VolumeClearance(v: Voxel, shape: seq<int>): int
    requires |shape| == 3
  {
    NearestFace(v, Voxel(0, 0, 0), Extent(shape), true)
  }

  /** The query cube clipped to the volume. */
  ghost function CubeVoxels(bounds: seq<seq<real>>, shape: seq<int>): set<Voxel>
    requires |bounds| == 2 && |bounds[0]| == 3 && |bounds[1]| == 3 && |shape| == 3
  {
    set x, y, z | 0 <= x < shape[0] && 0 <= y < shape[1] && 0 <= z < shape[2]
                  && InCube(Voxel(x, y, z), bounds) :: Voxel(x, y, z)
  }

  /** Those of its voxels the gate lets a candidate sit on. */
  ghost function AdmissibleVoxels(bounds: seq<seq<real>>, shape: seq<int>, minimum: int): set<Voxel>
    requires |bounds| == 2 && |bounds[0]| == 3 && |bounds[1]| == 3 && |shape| == 3
  {
    set v | v in CubeVoxels(bounds, shape) && VolumeClearance(v, shape) >= minimum
  }

  // ---- the closed form ----

  function CubeLow(low: real): int { Max(Ceil(low), 0) }

  function CubeHigh(high: real, size: int): int { Min(high.Floor, size - 1) }

  lemma AxisInterval(c: int, low: real, high: real, size: int)
    ensures 0 <= c < size && low <= c as real <= high <==> CubeLow(low) <= c <= CubeHigh(high, size)
  {}

  function LowCorner(bounds: seq<seq<real>>): Voxel
    requires |bounds| == 2 && |bounds[0]| == 3
  {
    Voxel(CubeLow(bounds[0][0]), CubeLow(bounds[0][1]), CubeLow(bounds[0][2]))
  }

  function HighCorner(bounds: seq<seq<real>>, shape: seq<int>): Voxel
    requires |bounds| == 2 && |bounds[1]| == 3 && |shape| == 3
  {
    Voxel(CubeHigh(bounds[1][0], shape[0]), CubeHigh(bounds[1][1], shape[1]), CubeHigh(bounds[1][2], shape[2]))
  }

  function OpenLow(bounds: seq<seq<real>>, minimum: int): Voxel
    requires |bounds| == 2 && |bounds[0]| == 3
  {
    var c := LowCorner(bounds);
    Voxel(Max(c.x, minimum), Max(c.y, minimum), Max(c.z, minimum))
  }

  function OpenHigh(bounds: seq<seq<real>>, shape: seq<int>, minimum: int): Voxel
    requires |bounds| == 2 && |bounds[1]| == 3 && |shape| == 3
  {
    var c := HighCorner(bounds, shape);
    Voxel(Min(c.x, shape[0] - 1 - minimum), Min(c.y, shape[1] - 1 - minimum), Min(c.z, shape[2] - 1 - minimum))
  }

  /** The clipped cube is a box of integer corners. */
  lemma CubeIsBox(bounds: seq<seq<real>>, shape: seq<int>)
    requires |bounds| == 2 && |bounds[0]| == 3 && |bounds[1]| == 3 && |shape| == 3
    ensures CubeVoxels(bounds, shape) == Box(LowCorner(bounds), HighCorner(bounds, shape))
  {
    var lo, hi := LowCorner(bounds), HighCorner(bounds, shape);
    BoxMembers(lo, hi);
    forall v: Voxel ensures v in CubeVoxels(bounds, shape) <==> v in Box(lo, hi) {
      CubeMember(v, bounds, shape);
      AxisInterval(v.x, bounds[0][0], bounds[1][0], shape[0]);
      AxisInterval(v.y, bounds[0][1], bounds[1][1], shape[1]);
      AxisInterval(v.z, bounds[0][2], bounds[1][2], shape[2]);
    }
  }

  lemma CubeMember(v: Voxel, bounds: seq<seq<real>>, shape: seq<int>)
    requires |bounds| == 2 && |bounds[0]| == 3 && |bounds[1]| == 3 && |shape| == 3
    ensures v in CubeVoxels(bounds, shape) <==>
      && 0 <= v.x < shape[0] && bounds[0][0] <= v.x as real <= bounds[1][0]
      && 0 <= v.y < shape[1] && bounds[0][1] <= v.y as real <= bounds[1][1]
      && 0 <= v.z < shape[2] && bounds[0][2] <= v.z as real <= bounds[1][2]
  {
    var zero: Axis, one: Axis, two: Axis := 0, 1, 2;
    assert v == Voxel(v.x, v.y, v.z);
    assert InCube(v, bounds) ==>
      Coord(v, zero) == v.x && Coord(v, one) == v.y && Coord(v, two) == v.z;
    if InCube(v, bounds) {
      assert bounds[0][zero] <= Coord(v, zero) as real <= bounds[1][zero];
      assert bounds[0][one] <= Coord(v, one) as real <= bounds[1][one];
      assert bounds[0][two] <= Coord(v, two) as real <= bounds[1][two];
    }
  }

  /** The admissible voxels are a smaller box. */
  lemma AdmissibleIsBox(bounds: seq<seq<real>>, shape: seq<int>, minimum: int)
    requires |bounds| == 2 && |bounds[0]| == 3 && |bounds[1]| == 3 && |shape| == 3
    ensures AdmissibleVoxels(bounds, shape, minimum)
         == Box(OpenLow(bounds, minimum), OpenHigh(bounds, shape, minimum))
  {
    CubeIsBox(bounds, shape);
    BoxMembers(LowCorner(bounds), HighCorner(bounds, shape));
    BoxMembers(OpenLow(bounds, minimum), OpenHigh(bounds, shape, minimum));
    hide CubeVoxels, Box;
    forall v ensures v in AdmissibleVoxels(bounds, shape, minimum)
                 <==> v in Box(OpenLow(bounds, minimum), OpenHigh(bounds, shape, minimum))
    {
      assert VolumeClearance(v, shape) >= minimum <==>
        minimum <= v.x <= shape[0] - 1 - minimum && minimum <= v.y <= shape[1] - 1 - minimum
        && minimum <= v.z <= shape[2] - 1 - minimum;
    }
  }

  /** A face is inadmissible when some voxel of the cube is too close to it. */
  ghost predicate Crowds(f: Face, bounds: seq<seq<real>>, shape: seq<int>, minimum: int)
    requires |bounds| == 2 && |bounds[0]| == 3 && |bounds[1]| == 3 && |shape| == 3
  {
    exists v :: v in CubeVoxels(bounds, shape) && VolumeDistance(v, shape, f) < minimum
  }

  lemma CrowdsClosedForm(f: Face, bounds: seq<seq<real>>, shape: seq<int>, minimum: int)
    requires |bounds| == 2 && |bounds[0]| == 3 && |bounds[1]| == 3 && |shape| == 3
    requires CubeVoxels(bounds, shape) != {}
    ensures Crowds(f, bounds, shape, minimum) <==>
      if f.high then Coord(HighCorner(bounds, shape), f.axis) > shape[f.axis] - 1 - minimum
      else Coord(LowCorner(bounds), f.axis) < minimum
  {
    CubeIsBox(bounds, shape);
    var lo, hi := LowCorner(bounds), HighCorner(bounds, shape);
    BoxMembers(lo, hi);
    hide CubeVoxels, Box;
    var v :| v in CubeVoxels(bounds, shape);
    assert InBox(v, lo, hi);
    assert InBox(lo, lo, hi) && InBox(hi, lo, hi);
    assert lo in CubeVoxels(bounds, shape) && hi in CubeVoxels(bounds, shape);
    assert VolumeDistance(lo, shape, f) == if f.high then shape[f.axis] - Coord(lo, f.axis) - 1 else Coord(lo, f.axis);
  }

  /** The whole cube is admitted exactly when no face crowds it. */
  lemma WholeCubeMeans(bounds: seq<seq<real>>, shape: seq<int>, minimum: int)
    requires |bounds| == 2 && |bounds[0]| == 3 && |bounds[1]| == 3 && |shape| == 3
    ensures |AdmissibleVoxels(bounds, shape, minimum)| == |CubeVoxels(bounds, shape)| <==>
      forall f: Face :: !Crowds(f, bounds, shape, minimum)
  {
    var all, some := CubeVoxels(bounds, shape), AdmissibleVoxels(bounds, shape, minimum);
    assert some <= all;
    if v :| v in all && v !in some {
      NearestIsMinimum(v, Voxel(0, 0, 0), Extent(shape), true);
      var f: Face :| NearestFace(v, Voxel(0, 0, 0), Extent(shape), true) == FaceDistance(v, Voxel(0, 0, 0), Extent(shape), true, f);
      assert VolumeDistance(v, shape, f) < minimum;
      assert Crowds(f, bounds, shape, minimum);
      SubsetSmaller(some, all, v);
    } else {
      assert some == all;
      forall f: Face ensures !Crowds(f, bounds, shape, minimum) {
        forall v | v in all ensures VolumeDistance(v, shape, f) >= minimum {
          NearestIsMinimum(v, Voxel(0, 0, 0), Extent(shape), true);
          assert v in some;
        }
      }
    }
  }

  lemma SubsetSmaller<T>(a: set<T>, b: set<T>, x: T)
    requires a <= b && x in b && x !in a
    ensures |a| < |b|
  {
    assert b == a + {x} + (b - a - {x});
  }

  // ---- the sorted list of face names: "x_high" < "x_low" < "y_high" < ... ----

  predicate FaceLe(a: Face, b: Face) { a.axis < b.axis || (a.axis == b.axis && (a.high || !b.high)) }

  ghost function FaceName(f: Face): string {
    ["xyz"[f.axis], '_'] + if f.high then "high" else "low"
  }

  /** Faces are listed by name. */
  lemma FaceLeIsByName(a: Face, b: Face)
    ensures FaceLe(a, b) <==> StrLe(FaceName(a), FaceName(b))
  {
    if a == b {
      StrLeTotal(FaceName(a), FaceName(a));
    } else if FaceLe(a, b) {
      NamesPart(a, b);
    } else {
      NamesPart(b, a);
      if StrLe(FaceName(a), FaceName(b)) {
        StrLeAntisymmetric(FaceName(a), FaceName(b));
      }
    }
  }

  lemma NamesPart(a: Face, b: Face)
    requires FaceLe(a, b) && a != b
    ensures StrLe(FaceName(a), FaceName(b)) && FaceName(a) != FaceName(b)
  {
    var s, t := FaceName(a), FaceName(b);
    StrLeMeans(s, t);
    hide StrLe;
    if a.axis == b.axis {
      assert s[..2] == t[..2] && s[2] == 'h' && t[2] == 'l';
      assert PartAt(s, t, 2);
    } else {
      assert s[0] == "xyz"[a.axis] && t[0] == "xyz"[b.axis];
      assert PartAt(s, t, 0);
    }
  }

  lemma FaceOrder()
    ensures Preorder(FaceLe)
  {}

  // ---- the function itself ----

  predicate BoundsShaped(bounds: seq<seq<real>>) { |bounds| == 2 && |bounds[0]| == 3 && |bounds[1]| == 3 }

  method QueryCubeVolumeGateGeometry(bounds: seq<seq<real>>, shape: seq<int>, minimum: int)
    returns (r: Result<GateGeometry, GateError>)
    ensures r == Err(BOUNDS_SHAPE) <==> !BoundsShaped(bounds)
    ensures r == Err(LOW_EXCEEDS_HIGH) <==>
      BoundsShaped(bounds) && exists i :: 0 <= i < 3 && bounds[0][i] > bounds[1][i]
    ensures r.Err? && r.error != NO_INTERSECTION <==> !WellFormed(bounds, shape, minimum)
    ensures r == Err(BAD_SHAPE) <==>
      && BoundsShaped(bounds) && (forall i :: 0 <= i < 3 ==> bounds[0][i] <= bounds[1][i])
      && (|shape| != 3 || exists i :: 0 <= i < 3 && shape[i] <= 0)
    ensures r == Err(BAD_MINIMUM) <==>
      && BoundsShaped(bounds) && (forall i :: 0 <= i < 3 ==> bounds[0][i] <= bounds[1][i])
      && |shape| == 3 && (forall i :: 0 <= i < 3 ==> shape[i] > 0) && minimum < 0
    ensures r == Err(NO_INTERSECTION) <==> WellFormed(bounds, shape, minimum) && CubeVoxels(bounds, shape) == {}
    ensures r.Ok? ==> Describes(r.value, bounds, shape, minimum)
  {
    hide CubeVoxels, AdmissibleVoxels, Describes, Crowds, Sorted, Span, CubeLow, CubeHigh;
    if !BoundsShaped(bounds) {
      return Err(BOUNDS_SHAPE);
    }
    var low, high := bounds[0], bounds[1];
    if exists i :: 0 <= i < 3 && low[i] > high[i] {
      return Err(LOW_EXCEEDS_HIGH);
    }
    if |shape| != 3 || exists i :: 0 <= i < 3 && shape[i] < 1 {
      return Err(BAD_SHAPE);
    }
    if minimum < 0 {
      return Err(BAD_MINIMUM);
    }
    var cubeCounts, openLow, openHigh, openCounts, faces := GateAxes(low, high, shape, minimum);
    CountsAre(bounds, shape, minimum, cubeCounts, openCounts);
    if exists i :: 0 <= i < 3 && cubeCounts[i] == 0 {
      return Err(NO_INTERSECTION);
    }
    var cubeVoxels := cubeCounts[0] * (cubeCounts[1] * cubeCounts[2]);
    var admissible := openCounts[0] * (openCounts[1] * openCounts[2]);
    var sorted := SortFaces(faces, bounds, shape, minimum);
    Assemble(bounds, shape, minimum, cubeVoxels, admissible, sorted);
    r := Ok(GateGeometry(cubeVoxels, admissible, Fraction(admissible, cubeVoxels),
                         if admissible != 0 then
                           Some((Voxel(openLow[0], openLow[1], openLow[2]), Voxel(openHigh[0], openHigh[1], openHigh[2])))
                         else None,
                         sorted, admissible == cubeVoxels, admissible == 0, minimum));
  }

  function Fraction(part: int, whole: int): real
    requires whole > 0
  {
    part as real / whole as real
  }

  /** The closed form means what it says about the two sets of voxels. */
  ghost predicate Describes(g: GateGeometry, bounds: seq<seq<real>>, shape: seq<int>, minimum: int)
    requires BoundsShaped(bounds) && |shape| == 3
  {
    var all, some := CubeVoxels(bounds, shape), AdmissibleVoxels(bounds, shape, minimum);
    && g.cubeCount == |all| && g.admissibleCount == |some| && g.minimum == minimum
    && |all| > 0 && g.fraction == Fraction(|some|, |all|)
    && (g.admitsWholeCube <==> some == all) && (g.admitsNoVoxel <==> some == {})
    && (g.admissibleBounds.None? <==> some == {})
    && (g.admissibleBounds.Some? ==> some == Box(g.admissibleBounds.value.0, g.admissibleBounds.value.1))
    && NoDuplicates(g.inadmissibleFaces) && Sorted(FaceLe, g.inadmissibleFaces)
    && (forall f: Face :: f in g.inadmissibleFaces <==> Crowds(f, bounds, shape, minimum))
    && (g.admitsWholeCube <==> g.inadmissibleFaces == [])
  }

  lemma Assemble(bounds: seq<seq<real>>, shape: seq<int>, minimum: int,
                 cubeVoxels: int, admissible: int, sorted: seq<Face>)
    requires BoundsShaped(bounds) && |shape| == 3 && CubeVoxels(bounds, shape) != {}
    requires cubeVoxels == |CubeVoxels(bounds, shape)| && admissible == |AdmissibleVoxels(bounds, shape, minimum)| && cubeVoxels > 0
    requires NoDuplicates(sorted) && Sorted(FaceLe, sorted)
    requires forall f: Face :: f in sorted <==> Crowds(f, bounds, shape, minimum)
    ensures Describes(GateGeometry(cubeVoxels, admissible, Fraction(admissible, cubeVoxels),
                                   if admissible != 0 then Some((OpenLow(bounds, minimum), OpenHigh(bounds, shape, minimum)))
                                   else None,
                                   sorted, admissible == cubeVoxels, admissible == 0, minimum),
                      bounds, shape, minimum)
  {
    AdmissibleIsBox(bounds, shape, minimum);
    WholeCubeMeans(bounds, shape, minimum);
    CountsDecide(bounds, shape, minimum);
    hide CubeVoxels, AdmissibleVoxels, Crowds, Box, OpenLow, OpenHigh, Sorted, NoDuplicates, Fraction;
    if sorted == [] {
      assert forall f: Face :: f !in sorted;
    } else {
      assert sorted[0] in sorted;
    }
  }

  /** Both counts are products of the per-axis counts. */
  lemma CountsAre(bounds: seq<seq<real>>, shape: seq<int>, minimum: int, cubeCounts: seq<int>, openCounts: seq<int>)
    requires BoundsShaped(bounds) && |shape| == 3 && |cubeCounts| == |openCounts| == 3
    requires forall i :: 0 <= i < 3 ==>
      && cubeCounts[i] == Span(CubeLow(bounds[0][i]), CubeHigh(bounds[1][i], shape[i]))
      && openCounts[i] == Span(Max(CubeLow(bounds[0][i]), minimum),
                               Min(CubeHigh(bounds[1][i], shape[i]), shape[i] - 1 - minimum))
    ensures |CubeVoxels(bounds, shape)| == cubeCounts[0] * (cubeCounts[1] * cubeCounts[2])
    ensures |AdmissibleVoxels(bounds, shape, minimum)| == openCounts[0] * (openCounts[1] * openCounts[2])
    ensures CubeVoxels(bounds, shape) == {} <==> exists i :: 0 <= i < 3 && cubeCounts[i] == 0
  {
    CubeIsBox(bounds, shape);
    AdmissibleIsBox(bounds, shape, minimum);
    BoxSize(LowCorner(bounds), HighCorner(bounds, shape));
    BoxSize(OpenLow(bounds, minimum), OpenHigh(bounds, shape, minimum));
    assert cubeCounts[0] >= 0 && cubeCounts[1] >= 0 && cubeCounts[2] >= 0;
    var a, b, c := cubeCounts[0], cubeCounts[1], cubeCounts[2];
    hide CubeVoxels, AdmissibleVoxels, Box;
    if a > 0 && b > 0 && c > 0 {
      Positive(a, b, c);
    } else {
      assert cubeCounts[0] == 0 || cubeCounts[1] == 0 || cubeCounts[2] == 0;
      Vanishes(a, b, c);
      EmptyByCount(CubeVoxels(bounds, shape));
    }
  }

  lemma EmptyByCount<T>(s: set<T>)
    ensures |s| == 0 <==> s == {}
  {}

  lemma Vanishes(a: int, b: int, c: int)
    requires a == 0 || b == 0 || c == 0
    ensures a * (b * c) == 0
  {}

  lemma Positive(a: int, b: int, c: int)
    requires a > 0 && b > 0 && c > 0
    ensures a * (b * c) > 0
  {}

  lemma CountsDecide(bounds: seq<seq<real>>, shape: seq<int>, minimum: int)
    requires |bounds| == 2 && |bounds[0]| == 3 && |bounds[1]| == 3 && |shape| == 3
    ensures |AdmissibleVoxels(bounds, shape, minimum)| == |CubeVoxels(bounds, shape)| <==>
      AdmissibleVoxels(bounds, shape, minimum) == CubeVoxels(bounds, shape)
  {
    var all, some := CubeVoxels(bounds, shape), AdmissibleVoxels(bounds, shape, minimum);
    if v :| v in all && v !in some {
      SubsetSmaller(some, all, v);
    } else {
      assert some == all;
    }
  }

  method SortFaces(faces: seq<Face>, ghost bounds: seq<seq<real>>, ghost shape: seq<int>, ghost minimum: int)
    returns (sorted: seq<Face>)
    requires BoundsShaped(bounds) && |shape| == 3
    requires CubeVoxels(bounds, shape) != {} && NoDuplicates(faces)
    requires forall f: Face :: f in faces <==>
      if f.high then CubeHigh(bounds[1][f.axis], shape[f.axis]) > shape[f.axis] - 1 - minimum
      else CubeLow(bounds[0][f.axis]) < minimum
    ensures NoDuplicates(sorted) && Sorted(FaceLe, sorted)
    ensures forall f: Face :: f in sorted <==> Crowds(f, bounds, shape, minimum)
  {
    sorted := Sort(FaceLe, faces);
    hide CubeVoxels, Crowds;
    FacesSorted(faces, bounds, shape, minimum);
  }

  lemma FacesSorted(faces: seq<Face>, bounds: seq<seq<real>>, shape: seq<int>, minimum: int)
    requires |bounds| == 2 && |bounds[0]| == 3 && |bounds[1]| == 3 && |shape| == 3
    requires CubeVoxels(bounds, shape) != {} && NoDuplicates(faces)
    requires forall f: Face :: f in faces <==>
      if f.high then Coord(HighCorner(bounds, shape), f.axis) > shape[f.axis] - 1 - minimum
      else Coord(LowCorner(bounds), f.axis) < minimum
    ensures var sorted := Sort(FaceLe, faces);
      && NoDuplicates(sorted) && Sorted(FaceLe, sorted)
      && forall f: Face :: f in sorted <==> Crowds(f, bounds, shape, minimum)
  {
    FaceOrder();
    SortSorted(FaceLe, faces);
    NoDuplicatesByCount(faces, Sort(FaceLe, faces));
    SameElements(Sort(FaceLe, faces), faces);
    forall f: Face ensures f in faces <==> Crowds(f, bounds, shape, minimum) {
      CrowdsClosedForm(f, bounds, shape, minimum);
    }
  }

  /** The per-axis loop. */
  method GateAxes(low: seq<real>, high: seq<real>, shape: seq<int>, minimum: int)
    returns (cubeCounts: seq<int>, openLow: seq<int>, openHigh: seq<int>, openCounts: seq<int>, faces: seq<Face>)
    requires |low| == |high| == |shape| == 3
    ensures |cubeCounts| == |openLow| == |openHigh| == |openCounts| == 3
    ensures forall i :: 0 <= i < 3 ==>
      && cubeCounts[i] == Span(CubeLow(low[i]), CubeHigh(high[i], shape[i]))
      && openLow[i] == Max(CubeLow(low[i]), minimum)
      && openHigh[i] == Min(CubeHigh(high[i], shape[i]), shape[i] - 1 - minimum)
      && openCounts[i] == Span(openLow[i], openHigh[i])
    ensures NoDuplicates(faces)
    ensures forall f: Face :: f in faces <==>
      if f.high then CubeHigh(high[f.axis], shape[f.axis]) > shape[f.axis] - 1 - minimum
      else CubeLow(low[f.axis]) < minimum
  {
    cubeCounts, openLow, openHigh, openCounts, faces := [], [], [], [], [];
    for axis := 0 to 3
      invariant |cubeCounts| == |openLow| == |openHigh| == |openCounts| == axis
      invariant forall i :: 0 <= i < axis ==>
        && cubeCounts[i] == Span(CubeLow(low[i]), CubeHigh(high[i], shape[i]))
        && openLow[i] == Max(CubeLow(low[i]), minimum)
        && openHigh[i] == Min(CubeHigh(high[i], shape[i]), shape[i] - 1 - minimum)
        && openCounts[i] == Span(openLow[i], openHigh[i])
      invariant NoDuplicates(faces)
      invariant forall f: Face :: f in faces <==> (f.axis < axis &&
        if f.high then CubeHigh(high[f.axis], shape[f.axis]) > shape[f.axis] - 1 - minimum
        else CubeLow(low[f.axis]) < minimum)
    {
      var size := shape[axis];
      var cubeLow := Max(Ceil(low[axis]), 0);
      var cubeHigh := Min(high[axis].Floor, size - 1);
      cubeCounts := cubeCounts + [Max(0, cubeHigh - cubeLow + 1)];
      var gateLow, gateHigh := minimum, size - 1 - minimum;
      if cubeLow < gateLow {
        faces := faces + [Face(axis, false)];
      }
      if cubeHigh > gateHigh {
        faces := faces + [Face(axis, true)];
      }
      var lo, hi := Max(cubeLow, gateLow), Min(cubeHigh, gateHigh);
      openLow, openHigh := openLow + [lo], openHigh + [hi];
      openCounts := openCounts + [Max(0, hi - lo + 1)];
    }
  }
}

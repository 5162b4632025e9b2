/** The clearance review of one attempt's candidates: causes, classification
    and the diagnostic margin sweep
    (scripts/harness/analyze_candidate_clearance.py, analyze_candidate_clearance).

    Coordinates are exact voxels, thresholds are real.  Everything the review
    checks about hashes, schemas and identities arrives as one flag. */
module ClearanceReview {
  import opened Wrappers
  import opened Voxels
  import opened ClearanceGate

  datatype Candidate = Candidate(id: string, at: Voxel)

  datatype CtStatus = CT_MATERIAL_NEARBY | NO_NEARBY_CT_MATERIAL

  datatype CtResult = CtResult(status: CtStatus, at: Voxel)

  datatype Cause = INSUFFICIENT_CELL_INTERIOR_CLEARANCE | INSUFFICIENT_VOLUME_INTERIOR_CLEARANCE

  /** A query region: a centre and a radius along each axis. */
  datatype Region = Region(center: Voxel, radius: Voxel)

  /** The volume, the region asked for, the one the provider searched,
      whether the seed policy pins the two together, and the two margins. */
  datatype Policy = Policy(
    shape: seq<int>, nominal: Region, effective: Region, fixedSeed: bool,
    minimumCell: real, minimumVolume: real)

  datatype Row = Row(
    id: string, at: Voxel, status: Option<CtStatus>,
    cellDistance: int, volumeDistance: int, causes: seq<Cause>, safe: bool)

  datatype Classification =
    | IMPLEMENTATION_OR_METADATA_DEFECT | CELL_BOUNDARY_ONLY | POLICY_MARGIN_UNCALIBRATED | TRUE_VOLUME_BOUNDARY

  predicate PolicyShaped(p: Policy) { |p.shape| == 3 }

  // ---- regions ----

  const FIXED_RADIUS_LIMIT: int := 4096
  const PROBE_RADIUS_LIMIT: int := 192

  function Low(r: Region): Voxel {
    Voxel(r.center.x - r.radius.x, r.center.y - r.radius.y, r.center.z - r.radius.z)
  }

  function High(r: Region): Voxel {
    Voxel(r.center.x + r.radius.x, r.center.y + r.radius.y, r.center.z + r.radius.z)
  }

  /** `query_radius`: the largest radius of the region searched. */
  function QueryRadius(p: Policy): int { Max(Max(p.effective.radius.x, p.effective.radius.y), p.effective.radius.z) }

  /** `_validate_region` */
  predicate RegionAccepted(r: Region, shape: seq<int>, limit: int)
    requires |shape| == 3
  {
    forall a: Axis :: 1 <= Coord(r.radius, a) <= limit && 0 <= Coord(r.center, a) < shape[a]
  }

  /** What any review needs of its regions; otherwise it raises. */
  predicate RegionsAccepted(p: Policy)
    requires PolicyShaped(p)
  {
    if p.fixedSeed then RegionAccepted(p.nominal, p.shape, FIXED_RADIUS_LIMIT) && p.effective == p.nominal
    else RegionAccepted(p.nominal, p.shape, PROBE_RADIUS_LIMIT) && RegionAccepted(p.effective, p.shape, PROBE_RADIUS_LIMIT)
  }

  // ---- one candidate ----

  function CellClearance(v: Voxel, p: Policy): int { NearestFace(v, Low(p.effective), High(p.effective), false) }

  function CausesOf(v: Voxel, status: Option<CtStatus>, p: Policy): seq<Cause>
    requires PolicyShaped(p)
  {
    if status != Some(CT_MATERIAL_NEARBY) then []
    else
      (if CellClearance(v, p) as real < p.minimumCell then [INSUFFICIENT_CELL_INTERIOR_CLEARANCE] else [])
      + (if VolumeClearance(v, p.shape) as real < p.minimumVolume then [INSUFFICIENT_VOLUME_INTERIOR_CLEARANCE] else [])
  }

  function StatusOf(id: string, ct: map<string, CtResult>): Option<CtStatus> {
    if id in ct then Some(ct[id].status) else None
  }

  function RowOf(c: Candidate, ct: map<string, CtResult>, p: Policy): Row
    requires PolicyShaped(p)
  {
    Row(c.id, c.at, StatusOf(c.id, ct), CellClearance(c.at, p), VolumeClearance(c.at, p.shape),
        CausesOf(c.at, StatusOf(c.id, ct), p), VolumeClearance(c.at, p.shape) >= QueryRadius(p))
  }

  predicate OutsideVolume(v: Voxel, p: Policy)
    requires PolicyShaped(p)
  {
    exists a: Axis :: Coord(v, a) < 0 || Coord(v, a) >= p.shape[a]
  }

  predicate OutsideCell(v: Voxel, p: Policy) {
    exists a: Axis :: Coord(v, a) < Coord(Low(p.effective), a) || Coord(v, a) >= Coord(High(p.effective), a)
  }

  /** A candidate nobody can argue with: named, new, placed and screened. */
  predicate Sound(c: Candidate, earlier: set<string>, ct: map<string, CtResult>, p: Policy)
    requires PolicyShaped(p)
  {
    && c.id != "" && c.id !in earlier && !OutsideVolume(c.at, p) && !OutsideCell(c.at, p)
    && c.id in ct && ct[c.id].at == c.at
  }

  // ---- a row, coordinate by coordinate ----

  /** Some face of the region searched is nearer than the margin. */
  ghost predicate NearCellFace(v: Voxel, r: Region, margin: real) {
    || (v.x - (r.center.x - r.radius.x)) as real < margin || (r.center.x + r.radius.x - v.x) as real < margin
    || (v.y - (r.center.y - r.radius.y)) as real < margin || (r.center.y + r.radius.y - v.y) as real < margin
    || (v.z - (r.center.z - r.radius.z)) as real < margin || (r.center.z + r.radius.z - v.z) as real < margin
  }

  /** The first or the last voxel of some axis of the volume is nearer than the margin. */
  ghost predicate NearVolumeFace(v: Voxel, shape: seq<int>, margin: real)
    requires |shape| == 3
  {
    || v.x as real < margin || (shape[0] - 1 - v.x) as real < margin
    || v.y as real < margin || (shape[1] - 1 - v.y) as real < margin
    || v.z as real < margin || (shape[2] - 1 - v.z) as real < margin
  }

  ghost predicate Least6(d: int, a: int, b: int, c: int, e: int, f: int, g: int) {
    && d <= a && d <= b && d <= c && d <= e && d <= f && d <= g
    && (d == a || d == b || d == c || d == e || d == f || d == g)
  }

  /** A row keeps its candidate's id and place; only material found near it gives
      causes, the cell's for the region searched before the volume's; and it is
      safe when a cube of the widest radius searched fits around it.  Its two
      distances are the least of six. */
  lemma RowIs(c: Candidate, ct: map<string, CtResult>, p: Policy)
    requires PolicyShaped(p)
    ensures var row, q := RowOf(c, ct, p), p.effective.radius;
      var near := c.id in ct && ct[c.id].status == CT_MATERIAL_NEARBY;
      && row.id == c.id && row.at == c.at
      && row.status == (if c.id in ct then Some(ct[c.id].status) else None)
      && row.causes ==
           (if near && NearCellFace(c.at, p.effective, p.minimumCell) then [INSUFFICIENT_CELL_INTERIOR_CLEARANCE] else [])
           + (if near && NearVolumeFace(c.at, p.shape, p.minimumVolume) then [INSUFFICIENT_VOLUME_INTERIOR_CLEARANCE] else [])
      && (row.safe <==> !NearVolumeFace(c.at, p.shape, q.x as real) && !NearVolumeFace(c.at, p.shape, q.y as real)
                        && !NearVolumeFace(c.at, p.shape, q.z as real))
    ensures Least6(RowOf(c, ct, p).cellDistance,
      c.at.x - (p.effective.center.x - p.effective.radius.x), p.effective.center.x + p.effective.radius.x - c.at.x,
      c.at.y - (p.effective.center.y - p.effective.radius.y), p.effective.center.y + p.effective.radius.y - c.at.y,
      c.at.z - (p.effective.center.z - p.effective.radius.z), p.effective.center.z + p.effective.radius.z - c.at.z)
    ensures Least6(RowOf(c, ct, p).volumeDistance,
      c.at.x, p.shape[0] - 1 - c.at.x, c.at.y, p.shape[1] - 1 - c.at.y, c.at.z, p.shape[2] - 1 - c.at.z)
  {
    CellFaces(c.at, p);
    VolumeFaces(c.at, p.shape, p.minimumVolume);
    SafeFaces(c.at, p);
    CellLeast(c.at, p);
    VolumeLeast(c.at, p.shape);
    hide CellClearance, VolumeClearance, QueryRadius, NearCellFace, NearVolumeFace, Least6;
  }

  /** A candidate is safe when no face is closer than the widest of the three radii. */
  lemma SafeFaces(v: Voxel, p: Policy)
    requires PolicyShaped(p)
    ensures var q := p.effective.radius;
      VolumeClearance(v, p.shape) >= QueryRadius(p) <==>
        !NearVolumeFace(v, p.shape, q.x as real) && !NearVolumeFace(v, p.shape, q.y as real) && !NearVolumeFace(v, p.shape, q.z as real)
  {
    var q := p.effective.radius;
    VolumeFaces(v, p.shape, q.x as real);
    VolumeFaces(v, p.shape, q.y as real);
    VolumeFaces(v, p.shape, q.z as real);
    hide VolumeClearance, NearVolumeFace;
  }

  lemma CellLeast(v: Voxel, p: Policy)
    ensures Least6(CellClearance(v, p),
      v.x - (p.effective.center.x - p.effective.radius.x), p.effective.center.x + p.effective.radius.x - v.x,
      v.y - (p.effective.center.y - p.effective.radius.y), p.effective.center.y + p.effective.radius.y - v.y,
      v.z - (p.effective.center.z - p.effective.radius.z), p.effective.center.z + p.effective.radius.z - v.z)
  {}

  lemma VolumeLeast(v: Voxel, shape: seq<int>)
    requires |shape| == 3
    ensures Least6(VolumeClearance(v, shape), v.x, shape[0] - 1 - v.x, v.y, shape[1] - 1 - v.y, v.z, shape[2] - 1 - v.z)
  {}

  lemma CellFaces(v: Voxel, p: Policy)
    ensures NearCellFace(v, p.effective, p.minimumCell) <==> CellClearance(v, p) as real < p.minimumCell
  {}

  lemma VolumeFaces(v: Voxel, shape: seq<int>, margin: real)
    requires |shape| == 3
    ensures NearVolumeFace(v, shape, margin) <==> VolumeClearance(v, shape) as real < margin
  {}

  /** Where it was asked to look does not matter to a row, only where the provider looked. */
  lemma NominalIsIdle(c: Candidate, ct: map<string, CtResult>, p: Policy, nominal: Region)
    requires PolicyShaped(p)
    ensures RowOf(c, ct, p.(nominal := nominal)) == RowOf(c, ct, p)
  {}

  // ---- a policy, coordinate by coordinate ----

  ghost predicate Between(lo: int, x: int, hi: int) { lo <= x && x <= hi }

  /** A region is accepted when every radius is from one up to the limit and its
      centre lies in the volume. */
  lemma RegionAcceptedMeans(r: Region, shape: seq<int>, limit: int)
    requires |shape| == 3
    ensures RegionAccepted(r, shape, limit) <==>
      && Between(1, r.radius.x, limit) && Between(1, r.radius.y, limit) && Between(1, r.radius.z, limit)
      && Between(0, r.center.x, shape[0] - 1) && Between(0, r.center.y, shape[1] - 1) && Between(0, r.center.z, shape[2] - 1)
  {
    var x: Axis, y: Axis, z: Axis := 0, 1, 2;
    if RegionAccepted(r, shape, limit) {
      assert 1 <= Coord(r.radius, x) <= limit && 0 <= Coord(r.center, x) < shape[x];
      assert 1 <= Coord(r.radius, y) <= limit && 0 <= Coord(r.center, y) < shape[y];
      assert 1 <= Coord(r.radius, z) <= limit && 0 <= Coord(r.center, z) < shape[z];
    }
  }

  /** A fixed seed pins the two regions together and allows 4096; any other lets
      them differ and allows 192. */
  lemma RegionsAcceptedMeans(p: Policy)
    requires PolicyShaped(p)
    ensures RegionsAccepted(p) <==>
      if p.fixedSeed then RegionAccepted(p.nominal, p.shape, 4096) && p.nominal == p.effective
      else RegionAccepted(p.nominal, p.shape, 192) && RegionAccepted(p.effective, p.shape, 192)
  {}

  /** What a review calls a defect of the policy: a negative margin, a volume
      margin under some radius searched, or a task region leaving the volume. */
  lemma PolicyDefectMeans(p: Policy)
    requires PolicyShaped(p) && RegionsAccepted(p)
    ensures var q, n := p.effective.radius, p.nominal;
      !PolicyDefect(p) <==>
        && p.minimumCell >= 0.0 && p.minimumVolume >= q.x as real && p.minimumVolume >= q.y as real && p.minimumVolume >= q.z as real
        && Between(0, n.center.x - n.radius.x, p.shape[0]) && Between(0, n.center.x + n.radius.x, p.shape[0])
        && Between(0, n.center.y - n.radius.y, p.shape[1]) && Between(0, n.center.y + n.radius.y, p.shape[1])
        && Between(0, n.center.z - n.radius.z, p.shape[2]) && Between(0, n.center.z + n.radius.z, p.shape[2])
  {
    RegionAcceptedMeans(p.nominal, p.shape, if p.fixedSeed then 4096 else 192);
    RegionAcceptedMeans(p.effective, p.shape, if p.fixedSeed then 4096 else 192);
    var x: Axis, y: Axis, z: Axis := 0, 1, 2;
    var n := p.nominal;
    assert Coord(Low(n), x) == n.center.x - n.radius.x && Coord(High(n), x) == n.center.x + n.radius.x;
    assert Coord(Low(n), y) == n.center.y - n.radius.y && Coord(High(n), y) == n.center.y + n.radius.y;
    assert Coord(Low(n), z) == n.center.z - n.radius.z && Coord(High(n), z) == n.center.z + n.radius.z;
    hide RegionAccepted;
  }

  /** A candidate is out of place when it leaves the volume or the region searched, whose high side is open. */
  lemma OutsideMeans(v: Voxel, p: Policy)
    requires PolicyShaped(p)
    ensures OutsideVolume(v, p) <==>
      !(Between(0, v.x, p.shape[0] - 1) && Between(0, v.y, p.shape[1] - 1) && Between(0, v.z, p.shape[2] - 1))
    ensures var c, q := p.effective.center, p.effective.radius;
      OutsideCell(v, p) <==>
        !(Between(c.x - q.x, v.x, c.x + q.x - 1) && Between(c.y - q.y, v.y, c.y + q.y - 1) && Between(c.z - q.z, v.z, c.z + q.z - 1))
  {
    var x: Axis, y: Axis, z: Axis := 0, 1, 2;
    var low, high := Low(p.effective), High(p.effective);
    assert Coord(v, x) == v.x && Coord(v, y) == v.y && Coord(v, z) == v.z;
    assert Coord(low, x) == low.x && Coord(low, y) == low.y && Coord(low, z) == low.z;
    assert Coord(high, x) == high.x && Coord(high, y) == high.y && Coord(high, z) == high.z;
  }

  // ---- all candidates ----

  function Ids(raw: seq<Candidate>): set<string> { set i | 0 <= i < |raw| && raw[i].id != "" :: raw[i].id }

  /** One row per distinct non-empty id, where it first appears. */
  function Rows(raw: seq<Candidate>, ct: map<string, CtResult>, p: Policy): seq<Row>
    requires PolicyShaped(p)
  {
    if raw == [] then []
    else
      var front, last := raw[..|raw|-1], raw[|raw|-1];
      if last.id == "" || last.id in Ids(front) then Rows(front, ct, p)
      else Rows(front, ct, p) + [RowOf(last, ct, p)]
  }

  predicate AllSound(raw: seq<Candidate>, ct: map<string, CtResult>, p: Policy)
    requires PolicyShaped(p)
  {
    forall i :: 0 <= i < |raw| ==> Sound(raw[i], Ids(raw[..i]), ct, p)
  }

  /** Thresholds and task bounds the review itself calls a defect. */
  predicate PolicyDefect(p: Policy)
    requires PolicyShaped(p)
  {
    || p.minimumCell < 0.0 || p.minimumVolume < 0.0 || QueryRadius(p) <= 0 || p.minimumVolume < QueryRadius(p) as real
    || exists a: Axis ::
         || p.shape[a] <= 0 || Coord(Low(p.nominal), a) < 0 || Coord(High(p.nominal), a) > p.shape[a]
         || Coord(Low(p.nominal), a) >= Coord(High(p.nominal), a)
  }

  method CandidateRow(c: Candidate, ct: map<string, CtResult>, p: Policy) returns (row: Row)
    requires PolicyShaped(p)
    ensures row == RowOf(c, ct, p)
  {
    var cellFaces := AxisDistances(c.at, Low(p.effective), High(p.effective), false);
    var volumeFaces := AxisDistances(c.at, Voxel(0, 0, 0), Extent(p.shape), true);
    var cell, volume := Least(cellFaces), Least(volumeFaces);
    var status := StatusOf(c.id, ct);
    var causes: seq<Cause> := [];
    if status == Some(CT_MATERIAL_NEARBY) {
      if cell as real < p.minimumCell {
        causes := causes + [INSUFFICIENT_CELL_INTERIOR_CLEARANCE];
      }
      if volume as real < p.minimumVolume {
        causes := causes + [INSUFFICIENT_VOLUME_INTERIOR_CLEARANCE];
      }
    }
    row := Row(c.id, c.at, status, cell, volume, causes, volume >= QueryRadius(p));
  }

  /** The row loop, with the defects it reports. */
  method CandidateRows(raw: seq<Candidate>, ct: map<string, CtResult>, p: Policy)
    returns (rows: seq<Row>, defective: bool)
    requires PolicyShaped(p)
    ensures rows == Rows(raw, ct, p)
    ensures defective <==> !AllSound(raw, ct, p) || ct.Keys != Ids(raw)
  {
    hide AllSound, Sound, Ids;
    rows, defective := [], false;
    NothingRaw(ct, p);
    var seen: set<string> := {};
    for i := 0 to |raw|
      invariant seen == Ids(raw[..i])
      invariant rows == Rows(raw[..i], ct, p)
      invariant defective <==> !AllSound(raw[..i], ct, p)
    {
      var c := raw[i];
      assert raw[..i+1][..i] == raw[..i];
      IdsStep(raw, i);
      SoundStep(raw, ct, p, i);
      SoundMeans(c, seen, ct, p);
      if c.id == "" || c.id in seen {
        defective := true;
      } else {
        seen := seen + {c.id};
        if OutsideVolume(c.at, p) || OutsideCell(c.at, p) || c.id !in ct || ct[c.id].at != c.at {
          defective := true;
        }
        var row := CandidateRow(c, ct, p);
        rows := rows + [row];
      }
    }
    assert raw[..|raw|] == raw;
    if ct.Keys != seen {
      defective := true;
    }
  }

  /** The smallest of six face distances. */
  function Least(faces: map<Face, int>): int
    requires faces.Keys == AllFaces
  {
    Min(Min(Min(faces[Face(0, false)], faces[Face(0, true)]), Min(faces[Face(1, false)], faces[Face(1, true)])),
        Min(faces[Face(2, false)], faces[Face(2, true)]))
  }

  lemma NothingRaw(ct: map<string, CtResult>, p: Policy)
    requires PolicyShaped(p)
    ensures AllSound([], ct, p) && Ids([]) == {}
  {}

  lemma SoundMeans(c: Candidate, earlier: set<string>, ct: map<string, CtResult>, p: Policy)
    requires PolicyShaped(p)
    ensures Sound(c, earlier, ct, p) <==>
      c.id != "" && c.id !in earlier && !(OutsideVolume(c.at, p) || OutsideCell(c.at, p) || c.id !in ct || ct[c.id].at != c.at)
  {}

  lemma IdsStep(raw: seq<Candidate>, i: nat)
    requires i < |raw|
    ensures Ids(raw[..i+1]) == Ids(raw[..i]) + if raw[i].id == "" then {} else {raw[i].id}
  {
    var more, less := raw[..i+1], raw[..i];
    assert forall j :: 0 <= j < i ==> more[j] == less[j];
    forall x | x in Ids(less) ensures x in Ids(more) {
      var j :| 0 <= j < |less| && less[j].id != "" && less[j].id == x;
      assert more[j].id == x;
    }
    if raw[i].id != "" {
      assert more[i].id == raw[i].id;
    }
  }

  lemma SoundStep(raw: seq<Candidate>, ct: map<string, CtResult>, p: Policy, i: nat)
    requires PolicyShaped(p) && i < |raw|
    ensures AllSound(raw[..i+1], ct, p) <==> AllSound(raw[..i], ct, p) && Sound(raw[i], Ids(raw[..i]), ct, p)
  {
    var more, less := raw[..i+1], raw[..i];
    assert more[i] == raw[i] && more[..i] == less;
    assert forall j :: 0 <= j < i ==> more[j] == less[j] && more[..j] == less[..j];
  }

  // ---- the verdict ----

  predicate Near(r: Row) { r.status == Some(CT_MATERIAL_NEARBY) }

  predicate Usable(r: Row) { Near(r) && r.causes == [] }

  predicate CellRejected(r: Row) { Near(r) && INSUFFICIENT_CELL_INTERIOR_CLEARANCE in r.causes }

  predicate VolumeRejected(r: Row) { Near(r) && INSUFFICIENT_VOLUME_INTERIOR_CLEARANCE in r.causes }

  function Classify(rows: seq<Row>, defective: bool): Classification {
    var anyNear := exists r :: r in rows && Near(r);
    var anyVolume := exists r :: r in rows && VolumeRejected(r);
    if defective then IMPLEMENTATION_OR_METADATA_DEFECT
    else if anyNear && (forall r :: r in rows && Near(r) ==> CellRejected(r)) && !anyVolume then CELL_BOUNDARY_ONLY
    else if (exists r :: r in rows && VolumeRejected(r) && r.safe)
         && !(exists r :: r in rows && VolumeRejected(r) && !r.safe)
         && !(exists r :: r in rows && CellRejected(r)) then POLICY_MARGIN_UNCALIBRATED
    else TRUE_VOLUME_BOUNDARY
  }

  /** The verdict, unless a region is refused outright. */
  function Review(raw: seq<Candidate>, ct: map<string, CtResult>, p: Policy, otherDefects: bool): Option<Classification>
    requires PolicyShaped(p)
  {
    if !RegionsAccepted(p) then None
    else Some(Classify(Rows(raw, ct, p),
                       otherDefects || PolicyDefect(p) || !AllSound(raw, ct, p) || ct.Keys != Ids(raw)))
  }

  lemma {:induction false} RowsMembers(raw: seq<Candidate>, ct: map<string, CtResult>, p: Policy)
    requires PolicyShaped(p)
    ensures forall r :: r in Rows(raw, ct, p) ==> exists i :: 0 <= i < |raw| && r == RowOf(raw[i], ct, p)
  {
    if raw != [] {
      var front := raw[..|raw|-1];
      RowsMembers(front, ct, p);
      forall r | r in Rows(raw, ct, p) ensures exists i :: 0 <= i < |raw| && r == RowOf(raw[i], ct, p) {
        if r in Rows(front, ct, p) {
          var i :| 0 <= i < |front| && r == RowOf(front[i], ct, p);
          assert raw[i] == front[i];
        } else {
          assert r == RowOf(raw[|raw|-1], ct, p);
        }
      }
    }
  }

  /** A CT-supported candidate is volume-rejected exactly when it is not one of
      the voxels the gate geometry counts as admissible. */
  lemma ReviewAgreesWithGate(c: Candidate, ct: map<string, CtResult>, p: Policy, bounds: seq<seq<real>>, minimum: int)
    requires PolicyShaped(p) && BoundsShaped(bounds) && p.minimumVolume == minimum as real
    requires c.id in ct && ct[c.id].status == CT_MATERIAL_NEARBY && c.at in CubeVoxels(bounds, p.shape)
    ensures VolumeRejected(RowOf(c, ct, p)) <==> c.at !in AdmissibleVoxels(bounds, p.shape, minimum)
  {}

  /** With sound candidates every one of them gets its row. */
  lemma {:induction false} SoundRows(raw: seq<Candidate>, ct: map<string, CtResult>, p: Policy)
    requires PolicyShaped(p) && AllSound(raw, ct, p)
    ensures |Rows(raw, ct, p)| == |raw| && forall i :: 0 <= i < |raw| ==> Rows(raw, ct, p)[i] == RowOf(raw[i], ct, p)
  {
    hide RowOf, OutsideVolume, OutsideCell;
    if raw != [] {
      var n := |raw| - 1;
      assert raw[..n+1] == raw;
      SoundStep(raw, ct, p, n);
      SoundRows(raw[..n], ct, p);
    }
  }

  /** Calling the margin uncalibrated means: no defect, every CT-supported
      candidate clears its cell and could hold its own query cube, and at least
      one of them is turned away by the margin all the same. */
  lemma UncalibratedMeans(raw: seq<Candidate>, ct: map<string, CtResult>, p: Policy)
    requires PolicyShaped(p) && RegionsAccepted(p) && AllSound(raw, ct, p) && ct.Keys == Ids(raw) && !PolicyDefect(p)
    ensures Review(raw, ct, p, false) == Some(POLICY_MARGIN_UNCALIBRATED) <==>
      (forall i :: 0 <= i < |raw| ==> ClearAt(raw[i], ct, p)) && (exists i :: 0 <= i < |raw| && HeldAt(raw[i], ct, p))
  {
    SoundRows(raw, ct, p);
    var rows := Rows(raw, ct, p);
    ClassifyMeans(rows);
    hide Rows, AllSound, Ids, Classify, Clear, Held, ClearAt, HeldAt, RowOf, RegionsAccepted, PolicyDefect;
    assert |rows| == |raw|;
    forall i | 0 <= i < |raw| ensures (Clear(rows[i]) <==> ClearAt(raw[i], ct, p)) && (Held(rows[i]) <==> HeldAt(raw[i], ct, p)) {
      RowMeans(raw, ct, p, i);
    }
  }

  /** Nothing but the margin stands against this row. */
  predicate Clear(r: Row) { Near(r) ==> !CellRejected(r) && (VolumeRejected(r) ==> r.safe) }

  predicate Held(r: Row) { VolumeRejected(r) }

  predicate ClearAt(c: Candidate, ct: map<string, CtResult>, p: Policy)
    requires PolicyShaped(p)
  {
    StatusOf(c.id, ct) == Some(CT_MATERIAL_NEARBY) ==>
      CellClearance(c.at, p) as real >= p.minimumCell && VolumeClearance(c.at, p.shape) >= QueryRadius(p)
  }

  predicate HeldAt(c: Candidate, ct: map<string, CtResult>, p: Policy)
    requires PolicyShaped(p)
  {
    StatusOf(c.id, ct) == Some(CT_MATERIAL_NEARBY) && (VolumeClearance(c.at, p.shape) as real) < p.minimumVolume
  }

  lemma RowMeans(raw: seq<Candidate>, ct: map<string, CtResult>, p: Policy, i: nat)
    requires PolicyShaped(p) && !PolicyDefect(p) && i < |raw| && i < |Rows(raw, ct, p)|
    requires Rows(raw, ct, p)[i] == RowOf(raw[i], ct, p)
    ensures Clear(Rows(raw, ct, p)[i]) <==> ClearAt(raw[i], ct, p)
    ensures Held(Rows(raw, ct, p)[i]) <==> HeldAt(raw[i], ct, p)
  {
    hide Rows, CellClearance, VolumeClearance;
  }

  lemma ClassifyMeans(rows: seq<Row>)
    ensures Classify(rows, false) == POLICY_MARGIN_UNCALIBRATED <==>
      (forall i :: 0 <= i < |rows| ==> Clear(rows[i])) && (exists i :: 0 <= i < |rows| && Held(rows[i]))
  {
    if Classify(rows, false) == POLICY_MARGIN_UNCALIBRATED {
      forall i | 0 <= i < |rows| ensures Clear(rows[i]) {
        assert rows[i] in rows;
      }
      var r :| r in rows && VolumeRejected(r) && r.safe;
      var k :| 0 <= k < |rows| && rows[k] == r;
      assert Held(rows[k]);
    } else if forall i :: 0 <= i < |rows| ==> Clear(rows[i]) {
      forall r | r in rows ensures !CellRejected(r) && (VolumeRejected(r) ==> r.safe) {
        var k :| 0 <= k < |rows| && rows[k] == r;
        assert Clear(rows[k]);
      }
      assert forall i :: 0 <= i < |rows| ==> rows[i] in rows;
    }
  }

  /** Each of the four verdicts, row by row. */
  lemma VerdictIs(rows: seq<Row>, defective: bool)
    ensures var v := Classify(rows, defective);
      && (v == IMPLEMENTATION_OR_METADATA_DEFECT <==> defective)
      && (v == CELL_BOUNDARY_ONLY <==>
            && !defective && (exists i :: 0 <= i < |rows| && rows[i].status == Some(CT_MATERIAL_NEARBY))
            && forall i :: 0 <= i < |rows| && rows[i].status == Some(CT_MATERIAL_NEARBY) ==>
                 INSUFFICIENT_CELL_INTERIOR_CLEARANCE in rows[i].causes && INSUFFICIENT_VOLUME_INTERIOR_CLEARANCE !in rows[i].causes)
      && (v == POLICY_MARGIN_UNCALIBRATED <==>
            && !defective
            && (exists i :: 0 <= i < |rows| && rows[i].status == Some(CT_MATERIAL_NEARBY)
                            && INSUFFICIENT_VOLUME_INTERIOR_CLEARANCE in rows[i].causes)
            && forall i :: 0 <= i < |rows| && rows[i].status == Some(CT_MATERIAL_NEARBY) ==>
                 && INSUFFICIENT_CELL_INTERIOR_CLEARANCE !in rows[i].causes
                 && (INSUFFICIENT_VOLUME_INTERIOR_CLEARANCE in rows[i].causes ==> rows[i].safe))
  {
    var v := Classify(rows, defective);
    forall r | r in rows ensures exists i :: 0 <= i < |rows| && rows[i] == r {}
    forall i | 0 <= i < |rows| ensures rows[i] in rows {}
    if !defective {
      ClassifyMeans(rows);
      assert (forall i :: 0 <= i < |rows| ==> Clear(rows[i])) <==>
        forall i :: 0 <= i < |rows| && rows[i].status == Some(CT_MATERIAL_NEARBY) ==>
          INSUFFICIENT_CELL_INTERIOR_CLEARANCE !in rows[i].causes
          && (INSUFFICIENT_VOLUME_INTERIOR_CLEARANCE in rows[i].causes ==> rows[i].safe);
    }
  }

  // ---- reachability of POLICY_MARGIN_UNCALIBRATED ----

  datatype MarginError = BAD_MARGIN | BAD_RADIUS

  function MarginVerdictReachable(minimum: int, queryRadius: int): Result<bool, MarginError> {
    if minimum < 0 then Err(BAD_MARGIN)
    else if queryRadius < 1 then Err(BAD_RADIUS)
    else Ok(minimum > queryRadius)
  }

  /** A voxel no nearer than `d` to any face needs a volume of that size. */
  lemma RoomAround(v: Voxel, shape: seq<int>, d: int)
    requires |shape| == 3 && VolumeClearance(v, shape) >= d
    ensures forall i :: 0 <= i < 3 ==> shape[i] >= 2 * d + 1
  {
    assert v.x >= d && v.y >= d && v.z >= d;
    assert shape[0] - v.x - 1 >= d && shape[1] - v.y - 1 >= d && shape[2] - v.z - 1 >= d;
  }

  /** The verdict needs a margin wider than the query radius, and room for a query cube. */
  lemma UncalibratedNeedsMargin(raw: seq<Candidate>, ct: map<string, CtResult>, p: Policy, otherDefects: bool)
    requires PolicyShaped(p)
    requires Review(raw, ct, p, otherDefects) == Some(POLICY_MARGIN_UNCALIBRATED)
    ensures 1 <= QueryRadius(p) <= FIXED_RADIUS_LIMIT && p.minimumVolume > QueryRadius(p) as real
    ensures QueryRadius(p) > PROBE_RADIUS_LIMIT ==> p.fixedSeed
    ensures forall i :: 0 <= i < 3 ==> p.shape[i] >= 2 * QueryRadius(p) + 1
  {
    hide AllSound, Ids;
    var rows := Rows(raw, ct, p);
    RowsMembers(raw, ct, p);
    hide Rows;
    var r :| r in rows && VolumeRejected(r) && r.safe;
    var i :| 0 <= i < |raw| && r == RowOf(raw[i], ct, p);
    RoomAround(raw[i].at, p.shape, QueryRadius(p));
  }

  ghost predicate Uncalibrated(raw: seq<Candidate>, ct: map<string, CtResult>, p: Policy) {
    PolicyShaped(p) && Review(raw, ct, p, false) == Some(POLICY_MARGIN_UNCALIBRATED)
  }

  /** Some candidates, screen and cell policy produce the verdict here. */
  ghost predicate Witnessed(shape: seq<int>, minimum: int, queryRadius: int) {
    exists raw, ct, p ::
      Uncalibrated(raw, ct, p) && p.shape == shape && p.minimumVolume == minimum as real && QueryRadius(p) == queryRadius
  }

  function CornerPolicy(shape: seq<int>, minimum: int, q: int): Policy {
    Policy(shape, Region(Voxel(q, q, q), Voxel(q, q, q)), Region(Voxel(q, q, q), Voxel(q, q, q)), true, 0.0, minimum as real)
  }

  /** The centre of a fixed region in the volume's corner is exactly the query
      radius away from three faces: held back for the margin, and safe. */
  lemma CornerRow(id: string, shape: seq<int>, minimum: int, q: int, ct: map<string, CtResult>)
    requires |shape| == 3 && 1 <= q < minimum && q <= FIXED_RADIUS_LIMIT
    requires forall i :: 0 <= i < 3 ==> shape[i] >= 2 * q + 1
    requires id in ct && ct[id].status == CT_MATERIAL_NEARBY
    ensures var p := CornerPolicy(shape, minimum, q);
      && QueryRadius(p) == q && RegionsAccepted(p) && !PolicyDefect(p)
      && !OutsideVolume(Voxel(q, q, q), p) && !OutsideCell(Voxel(q, q, q), p)
      && var r := RowOf(Candidate(id, Voxel(q, q, q)), ct, p);
         r.safe && r.causes == [INSUFFICIENT_VOLUME_INTERIOR_CLEARANCE]
  {
    var v, p := Voxel(q, q, q), CornerPolicy(shape, minimum, q);
    assert Low(p.effective) == Voxel(0, 0, 0) && High(p.effective) == Voxel(2 * q, 2 * q, 2 * q);
    assert VolumeClearance(v, shape) == q;
    assert CellClearance(v, p) >= 0;
  }

  /** One such candidate, alone, witnesses the verdict. */
  lemma UncalibratedWitness(shape: seq<int>, minimum: int, queryRadius: int)
    requires |shape| == 3 && 1 <= queryRadius < minimum && queryRadius <= FIXED_RADIUS_LIMIT
    requires forall i :: 0 <= i < 3 ==> shape[i] >= 2 * queryRadius + 1
    ensures Witnessed(shape, minimum, queryRadius)
  {
    var c := Candidate("m7-1", Voxel(queryRadius, queryRadius, queryRadius));
    var raw, ct := [c], map["m7-1" := CtResult(CT_MATERIAL_NEARBY, c.at)];
    var p := CornerPolicy(shape, minimum, queryRadius);
    CornerRow(c.id, shape, minimum, queryRadius, ct);
    hide QueryRadius, RegionsAccepted, PolicyDefect, OutsideVolume, OutsideCell, CellClearance, VolumeClearance, CausesOf;
    assert raw[..0] == [] && Ids([]) == {};
    assert Rows(raw[..0], ct, p) == [];
    var r := RowOf(c, ct, p);
    assert Rows(raw, ct, p) == [r];
    assert Sound(raw[0], Ids(raw[..0]), ct, p);
    assert AllSound(raw, ct, p);
    IdsStep(raw, 0);
    assert raw[..1] == raw;
    assert ct.Keys == {"m7-1"} == Ids(raw);
    assert r in [r] && VolumeRejected(r);
    assert Classify([r], false) == POLICY_MARGIN_UNCALIBRATED;
    assert Uncalibrated(raw, ct, p);
  }

  /** So the verdict is reachable in a volume exactly when the advertised
      condition holds, the volume holds one whole query cube, and the radius is
      one a region may have. */
  lemma ReachableExactly(shape: seq<int>, minimum: int, queryRadius: int)
    requires |shape| == 3 && MarginVerdictReachable(minimum, queryRadius).Ok?
    ensures Witnessed(shape, minimum, queryRadius) <==>
      && MarginVerdictReachable(minimum, queryRadius).value && queryRadius <= FIXED_RADIUS_LIMIT
      && forall i :: 0 <= i < 3 ==> shape[i] >= 2 * queryRadius + 1
  {
    if Witnessed(shape, minimum, queryRadius) {
      var raw, ct, p :|
        Uncalibrated(raw, ct, p) && p.shape == shape && p.minimumVolume == minimum as real && QueryRadius(p) == queryRadius;
      UncalibratedNeedsMargin(raw, ct, p, false);
    }
    if MarginVerdictReachable(minimum, queryRadius).value && queryRadius <= FIXED_RADIUS_LIMIT
       && forall i :: 0 <= i < 3 ==> shape[i] >= 2 * queryRadius + 1 {
      UncalibratedWitness(shape, minimum, queryRadius);
    }
  }

  /** The advertised condition alone is not enough: not in the smallest volume
      with room for the region itself, nor for a radius no region may have. */
  lemma ReachableClaimTooStrong()
    ensures MarginVerdictReachable(2, 1) == Ok(true) && !Witnessed([2, 2, 2], 2, 1)
    ensures MarginVerdictReachable(6000, 5000) == Ok(true) && !Witnessed([10001, 10001, 10001], 6000, 5000)
  {
    ReachableExactly([2, 2, 2], 2, 1);
    ReachableExactly([10001, 10001, 10001], 6000, 5000);
    assert [2, 2, 2][0] == 2;
  }

  // ---- the margin sweep ----

  const SENSITIVITY_PERCENTAGES: seq<int> := [100, 75, 50, 25, 0]

  function Threshold(p: Policy, percentage: int): real { p.minimumVolume * percentage as real / 100.0 }

  /** CT-supported rows the sweep keeps at a threshold. */
  predicate Keeps(r: Row, p: Policy, threshold: real) {
    Near(r) && r.cellDistance as real >= p.minimumCell && r.volumeDistance as real >= threshold
  }

  function Retained(rows: seq<Row>, p: Policy, threshold: real): seq<Row> {
    if rows == [] then []
    else if Keeps(rows[|rows|-1], p, threshold) then Retained(rows[..|rows|-1], p, threshold) + [rows[|rows|-1]]
    else Retained(rows[..|rows|-1], p, threshold)
  }

  function CountUsable(rows: seq<Row>): nat {
    if rows == [] then 0
    else CountUsable(rows[..|rows|-1]) + if Usable(rows[|rows|-1]) then 1 else 0
  }

  function CountSafe(rows: seq<Row>): nat {
    if rows == [] then 0
    else CountSafe(rows[..|rows|-1]) + if rows[|rows|-1].safe then 1 else 0
  }

  datatype Sweep = Sweep(percentage: int, threshold: real, retained: nat, safeRetained: nat)

  method Sensitivity(rows: seq<Row>, p: Policy) returns (sweep: seq<Sweep>)
    ensures |sweep| == |SENSITIVITY_PERCENTAGES|
    ensures forall i :: 0 <= i < |sweep| ==>
      && sweep[i].percentage == SENSITIVITY_PERCENTAGES[i]
      && sweep[i].threshold == Threshold(p, sweep[i].percentage)
      && sweep[i].retained == |Retained(rows, p, sweep[i].threshold)|
      && sweep[i].safeRetained == CountSafe(Retained(rows, p, sweep[i].threshold))
  {
    sweep := [];
    for i := 0 to |SENSITIVITY_PERCENTAGES|
      invariant |sweep| == i
      invariant forall k :: 0 <= k < i ==>
        && sweep[k].percentage == SENSITIVITY_PERCENTAGES[k]
        && sweep[k].threshold == Threshold(p, sweep[k].percentage)
        && sweep[k].retained == |Retained(rows, p, sweep[k].threshold)|
        && sweep[k].safeRetained == CountSafe(Retained(rows, p, sweep[k].threshold))
    {
      var percentage := SENSITIVITY_PERCENTAGES[i];
      var threshold := p.minimumVolume * percentage as real / 100.0;
      var retained := Retained(rows, p, threshold);
      sweep := sweep + [Sweep(percentage, threshold, |retained|, CountSafe(retained))];
    }
  }

  /** A lower threshold keeps everything a higher one keeps, in order. */
  lemma {:induction false} RetainedNested(rows: seq<Row>, p: Policy, high: real, low: real)
    requires low <= high
    ensures Retained(Retained(rows, p, low), p, high) == Retained(rows, p, high)
    ensures forall r :: r in Retained(rows, p, high) ==> r in Retained(rows, p, low)
    ensures |Retained(rows, p, high)| <= |Retained(rows, p, low)|
  {
    if rows != [] {
      var front, last := rows[..|rows|-1], rows[|rows|-1];
      RetainedNested(front, p, high, low);
      if Keeps(last, p, low) {
        var kept := Retained(front, p, low) + [last];
        assert kept[..|kept|-1] == Retained(front, p, low);
      }
    }
  }

  /** So, for the non-negative margins the review accepts, the sweep only grows. */
  lemma SweepGrows(rows: seq<Row>, p: Policy, i: nat, j: nat)
    requires p.minimumVolume >= 0.0 && i <= j < |SENSITIVITY_PERCENTAGES|
    ensures forall r :: r in Retained(rows, p, Threshold(p, SENSITIVITY_PERCENTAGES[i])) ==>
                        r in Retained(rows, p, Threshold(p, SENSITIVITY_PERCENTAGES[j]))
    ensures |Retained(rows, p, Threshold(p, SENSITIVITY_PERCENTAGES[i]))|
         <= |Retained(rows, p, Threshold(p, SENSITIVITY_PERCENTAGES[j]))|
  {
    ThresholdMonotone(p.minimumVolume, SENSITIVITY_PERCENTAGES[j] as real, SENSITIVITY_PERCENTAGES[i] as real);
    RetainedNested(rows, p, Threshold(p, SENSITIVITY_PERCENTAGES[i]), Threshold(p, SENSITIVITY_PERCENTAGES[j]));
  }

  lemma ThresholdMonotone(m: real, a: real, b: real)
    requires m >= 0.0 && a <= b
    ensures m * a / 100.0 <= m * b / 100.0
  {}

  /** Computed from its own coordinate, as every reported row is. */
  predicate Computed(r: Row, p: Policy)
    requires PolicyShaped(p)
  {
    && r.cellDistance == CellClearance(r.at, p) && r.volumeDistance == VolumeClearance(r.at, p.shape)
    && r.causes == CausesOf(r.at, r.status, p) && (r.safe <==> r.volumeDistance >= QueryRadius(p))
  }

  lemma {:induction false} UsableByThreshold(rows: seq<Row>, p: Policy)
    requires PolicyShaped(p) && forall r :: r in rows ==> Computed(r, p)
    ensures |Retained(rows, p, p.minimumVolume)| == CountUsable(rows)
  {
    hide CellClearance, VolumeClearance, QueryRadius;
    if rows != [] {
      var front, last := rows[..|rows|-1], rows[|rows|-1];
      assert rows == front + [last];
      UsableByThreshold(front, p);
      assert Computed(last, p);
    }
  }

  /** The full-margin row of the sweep is the usable count. */
  lemma FullMarginIsUsable(raw: seq<Candidate>, ct: map<string, CtResult>, p: Policy)
    requires PolicyShaped(p)
    ensures var rows := Rows(raw, ct, p); |Retained(rows, p, Threshold(p, SENSITIVITY_PERCENTAGES[0]))| == CountUsable(rows)
  {
    RowsMembers(raw, ct, p);
    UsableByThreshold(Rows(raw, ct, p), p);
  }

  lemma {:induction false} SafeByThreshold(rows: seq<Row>, p: Policy, a: real, b: real)
    requires PolicyShaped(p) && a <= QueryRadius(p) as real && b <= QueryRadius(p) as real
    requires forall r :: r in rows ==> Computed(r, p)
    ensures CountSafe(Retained(rows, p, a)) == CountSafe(Retained(rows, p, b))
  {
    hide CellClearance, VolumeClearance, CausesOf, QueryRadius;
    if rows != [] {
      var front, last := rows[..|rows|-1], rows[|rows|-1];
      assert rows == front + [last];
      SafeByThreshold(front, p, a, b);
      assert Computed(last, p);
      SafePush(Retained(front, p, a), last);
      SafePush(Retained(front, p, b), last);
    }
  }

  /** Once the threshold is at or below the query radius, lowering it further
      frees no physically safe candidate. */
  lemma SafeCountSettles(raw: seq<Candidate>, ct: map<string, CtResult>, p: Policy, a: real, b: real)
    requires PolicyShaped(p) && a <= QueryRadius(p) as real && b <= QueryRadius(p) as real
    ensures var rows := Rows(raw, ct, p); CountSafe(Retained(rows, p, a)) == CountSafe(Retained(rows, p, b))
  {
    RowsMembers(raw, ct, p);
    SafeByThreshold(Rows(raw, ct, p), p, a, b);
  }

  lemma SafePush(rows: seq<Row>, r: Row)
    ensures CountSafe(rows + [r]) == CountSafe(rows) + if r.safe then 1 else 0
  {
    assert (rows + [r])[..|rows|] == rows;
  }
}

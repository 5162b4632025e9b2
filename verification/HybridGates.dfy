/** The cross-field checks on gate evaluations and surface comparisons
    (framework/contracts/hybrid_surface_contracts.py). */
module HybridGates {
  import opened Ordering

  datatype Status = PASS | FAIL | UNMEASURED

  // ---- summaries ----

  function Summarize(statuses: seq<Status>): Status {
    if FAIL in statuses then FAIL
    else if UNMEASURED in statuses then UNMEASURED
    else PASS
  }

  function Flatten(groups: seq<seq<Status>>): seq<Status> {
    if groups == [] then [] else Flatten(groups[..|groups|-1]) + groups[|groups|-1]
  }

  function Summaries(groups: seq<seq<Status>>): (r: seq<Status>)
    ensures |r| == |groups|
  {
    seq(|groups|, i requires 0 <= i < |groups| => Summarize(groups[i]))
  }

  lemma {:induction false} FlattenHas(groups: seq<seq<Status>>, s: Status)
    ensures s in Flatten(groups) <==> exists i :: 0 <= i < |groups| && s in groups[i]
  {
    if groups != [] {
      FlattenHas(groups[..|groups|-1], s);
    }
  }

  /** Summarizing in groups first, in any grouping and any order, gives the same summary. */
  lemma SummarizeFolds(groups: seq<seq<Status>>, all: seq<Status>)
    requires multiset(all) == multiset(Flatten(groups))
    ensures Summarize(Summaries(groups)) == Summarize(all)
  {
    SameElements(all, Flatten(groups));
    FlattenHas(groups, FAIL);
    FlattenHas(groups, UNMEASURED);
    var summaries := Summaries(groups);
    forall s | s == FAIL || s == UNMEASURED
      ensures (exists i :: 0 <= i < |groups| && summaries[i] == s) <==> s in summaries
    {}
    if FAIL in all {
      var i :| 0 <= i < |groups| && FAIL in groups[i];
      assert summaries[i] == FAIL;
    } else if UNMEASURED in all {
      var i :| 0 <= i < |groups| && UNMEASURED in groups[i];
      assert summaries[i] == UNMEASURED;
    }
  }

  // ---- gate evaluations ----

  datatype GateName = G2 | G3 | G4 | G5

  datatype Gate = Gate(status: Status, requirements: seq<Status>)

  datatype Recommendation = PILOT_PASS | KEEP_EXPERIMENTAL | REJECT_FOR_TARGET | BLOCKED_UNMEASURED

  datatype Evaluation = Evaluation(roi: seq<int>, gates: seq<(GateName, Gate)>, overall: Status, recommendation: Recommendation)

  datatype GateError = ROI | GATE_STATUS(name: GateName) | OVERALL | RECOMMENDED

  /** What the schema has already established: six bounds, and the four gates
      once each, in whatever order the document lists them. */
  ghost predicate WellFormed(doc: Evaluation) {
    && |doc.roi| == 6
    && (forall i, j :: 0 <= i < j < |doc.gates| ==> doc.gates[i].0 != doc.gates[j].0)
    && forall name: GateName :: Listed(doc, name)
  }

  ghost predicate Listed(doc: Evaluation, name: GateName) { exists i :: 0 <= i < |doc.gates| && doc.gates[i].0 == name }

  ghost function GateOf(doc: Evaluation, name: GateName): (g: Gate)
    requires WellFormed(doc)
    ensures (name, g) in doc.gates
  {
    assert Listed(doc, name);
    var i :| 0 <= i < |doc.gates| && doc.gates[i].0 == name;
    assert doc.gates[i] == (name, doc.gates[i].1);
    doc.gates[i].1
  }

  predicate PositiveRoi(roi: seq<int>)
    requires |roi| == 6
  {
    forall i :: 0 <= i < 3 ==> roi[i] < roi[i+3]
  }

  /** The low bound of every axis lies below its high one, three places on. */
  lemma RoiMeans(roi: seq<int>)
    requires |roi| == 6
    ensures PositiveRoi(roi) <==> roi[0] < roi[3] && roi[1] < roi[4] && roi[2] < roi[5]
  {
    if PositiveRoi(roi) {
      assert roi[0] < roi[0+3] && roi[1] < roi[1+3] && roi[2] < roi[2+3];
    }
  }

  function Statuses(gates: seq<(GateName, Gate)>): (r: seq<Status>)
    ensures |r| == |gates|
  {
    seq(|gates|, i requires 0 <= i < |gates| => gates[i].1.status)
  }

  function Recommend(g2: Status, g3: Status, g4: Status, g5: Status): Recommendation {
    var geometry := [g2, g3, g4];
    if g2 == PASS && g3 == PASS && g4 == PASS then
      if g5 == PASS then PILOT_PASS else if g5 == FAIL then KEEP_EXPERIMENTAL else BLOCKED_UNMEASURED
    else if FAIL in geometry then REJECT_FOR_TARGET
    else BLOCKED_UNMEASURED
  }

  /** Every status the document declares is the one implied below it. */
  ghost predicate Consistent(doc: Evaluation)
    requires WellFormed(doc)
  {
    && PositiveRoi(doc.roi)
    && (forall i :: 0 <= i < |doc.gates| ==> doc.gates[i].1.status == Summarize(doc.gates[i].1.requirements))
    && doc.overall == Summarize(Statuses(doc.gates))
    && doc.recommendation == Recommend(GateOf(doc, G2).status, GateOf(doc, G3).status, GateOf(doc, G4).status, GateOf(doc, G5).status)
  }

  /** `_gate_evaluation_semantics` */
  method GateSemantics(doc: Evaluation) returns (errors: seq<GateError>)
    requires WellFormed(doc)
    ensures errors == [] <==> Consistent(doc)
  {
    errors := if PositiveRoi(doc.roi) then [] else [ROI];
    ghost var roiErrors := errors;
    var statuses: map<GateName, Status> := map[];
    var values: seq<Status> := [];
    for i := 0 to |doc.gates|
      invariant errors == [] <==> roiErrors == [] && forall k :: 0 <= k < i ==> doc.gates[k].1.status == Summarize(doc.gates[k].1.requirements)
      invariant forall k :: 0 <= k < i ==> doc.gates[k].0 in statuses && statuses[doc.gates[k].0] == doc.gates[k].1.status
      invariant values == Statuses(doc.gates)[..i]
    {
      var (name, gate) := doc.gates[i];
      if gate.status != Summarize(gate.requirements) {
        errors := errors + [GATE_STATUS(name)];
      }
      statuses := statuses[name := gate.status];
      values := values + [gate.status];
    }
    assert Statuses(doc.gates)[..|doc.gates|] == Statuses(doc.gates);
    if doc.overall != Summarize(values) {
      errors := errors + [OVERALL];
    }
    forall name: GateName ensures name in statuses && statuses[name] == GateOf(doc, name).status {
      assert (name, GateOf(doc, name)) in doc.gates;
    }
    if doc.recommendation != Recommend(statuses[G2], statuses[G3], statuses[G4], statuses[G5]) {
      errors := errors + [RECOMMENDED];
    }
  }

  ghost function Requirements(doc: Evaluation): (r: seq<seq<Status>>)
    ensures |r| == |doc.gates|
  {
    seq(|doc.gates|, i requires 0 <= i < |doc.gates| => doc.gates[i].1.requirements)
  }

  ghost predicate Geometric(name: GateName) { name != G5 }

  /** Some requirement of some gate in a group has this status. */
  ghost predicate Somewhere(doc: Evaluation, geometric: bool, s: Status) {
    exists i :: 0 <= i < |doc.gates| && Geometric(doc.gates[i].0) == geometric && s in doc.gates[i].1.requirements
  }

  /** An accepted evaluation says of the requirements themselves, listed in any
      order: overall is their summary; it passes the pilot exactly when every one
      passed; rejects the target exactly when a geometry one failed; stays
      experimental exactly when all geometry passed and a G5 one failed. */
  lemma AcceptedMeans(doc: Evaluation, all: seq<Status>)
    requires WellFormed(doc) && Consistent(doc)
    requires multiset(all) == multiset(Flatten(Requirements(doc)))
    ensures doc.overall == Summarize(all)
    ensures doc.recommendation == PILOT_PASS <==> forall s :: s in all ==> s == PASS
    ensures doc.recommendation == REJECT_FOR_TARGET <==> Somewhere(doc, true, FAIL)
    ensures doc.recommendation == KEEP_EXPERIMENTAL <==>
      !Somewhere(doc, true, FAIL) && !Somewhere(doc, true, UNMEASURED) && Somewhere(doc, false, FAIL)
  {
    assert Statuses(doc.gates) == Summaries(Requirements(doc));
    SummarizeFolds(Requirements(doc), all);
    assert (forall s :: s in all ==> s == PASS) <==> FAIL !in all && UNMEASURED !in all;
    GatesAndRequirements(doc, FAIL);
    GatesAndRequirements(doc, UNMEASURED);
    PassMeans(doc);
    OverallMeans(doc);
    hide WellFormed, Somewhere, Flatten, GateOf, Statuses;
  }

  /** A gate in the group fails exactly when one of its requirements does, and
      is unmeasured exactly when one of them is and none fails. */
  lemma GatesAndRequirements(doc: Evaluation, s: Status)
    requires WellFormed(doc) && Consistent(doc)
    ensures Somewhere(doc, true, s) <==>
      s in GateOf(doc, G2).requirements || s in GateOf(doc, G3).requirements || s in GateOf(doc, G4).requirements
    ensures Somewhere(doc, false, s) <==> s in GateOf(doc, G5).requirements
  {
    hide Consistent;
    forall name: GateName, t | t in GateOf(doc, name).requirements ensures Somewhere(doc, Geometric(name), t) {
      assert (name, GateOf(doc, name)) in doc.gates;
    }
    if Somewhere(doc, true, s) {
      var i :| 0 <= i < |doc.gates| && Geometric(doc.gates[i].0) && s in doc.gates[i].1.requirements;
      OnlyGate(doc, i);
    }
    if Somewhere(doc, false, s) {
      var i :| 0 <= i < |doc.gates| && !Geometric(doc.gates[i].0) && s in doc.gates[i].1.requirements;
      OnlyGate(doc, i);
    }
  }

  lemma OnlyGate(doc: Evaluation, i: nat)
    requires WellFormed(doc) && i < |doc.gates|
    ensures GateOf(doc, doc.gates[i].0) == doc.gates[i].1
  {
    var name := doc.gates[i].0;
    var j :| 0 <= j < |doc.gates| && doc.gates[j] == (name, GateOf(doc, name));
  }

  lemma PassMeans(doc: Evaluation)
    requires WellFormed(doc) && Consistent(doc)
    ensures forall name: GateName :: GateOf(doc, name).status == Summarize(GateOf(doc, name).requirements)
  {
    forall name: GateName ensures GateOf(doc, name).status == Summarize(GateOf(doc, name).requirements) {
      assert (name, GateOf(doc, name)) in doc.gates;
    }
  }

  lemma OverallMeans(doc: Evaluation)
    requires WellFormed(doc) && Consistent(doc)
    ensures doc.overall == PASS <==> forall name: GateName :: GateOf(doc, name).status == PASS
  {
    var statuses := Statuses(doc.gates);
    forall i | 0 <= i < |doc.gates| ensures statuses[i] == GateOf(doc, doc.gates[i].0).status { OnlyGate(doc, i); }
    forall name: GateName ensures GateOf(doc, name).status in statuses {
      assert (name, GateOf(doc, name)) in doc.gates;
      var i :| 0 <= i < |doc.gates| && doc.gates[i] == (name, GateOf(doc, name));
      assert statuses[i] == GateOf(doc, name).status;
    }
  }

  // ---- comparisons ----

  datatype Class = CONSENSUS | SCROLLFIESTA_ONLY | VC3D_ONLY | DISAGREEMENT

  const CLASSES := [CONSENSUS, SCROLLFIESTA_ONLY, VC3D_ONLY, DISAGREEMENT]

  datatype Region = Region(kind: Class, area: real, vc3d: seq<string>, scrollfiesta: seq<string>)

  datatype Surface = Surface(id: string, sha256: string, profile: string)

  datatype Comparison = Comparison(
    roi: seq<int>, vc3d: Surface, scrollfiesta: Surface, sheetSeparation: real, agreementDistance: real,
    regions: seq<Region>, areas: map<Class, real>, counts: map<Class, int>,
    distances: (real, real, real), aggregate: map<Class, real>)

  datatype ComparisonError =
    | BAD_ROI | SAME_ID | SAME_CONTENT | VC3D_PROFILE | SCROLLFIESTA_PROFILE | AGREEMENT | COMPONENTS(region: nat)
    | AREA(kind: Class) | COUNT(kind: Class) | DISTANCES | AGGREGATE(kind: Class)

  ghost predicate SchemaValid(doc: Comparison) {
    |doc.roi| == 6 && forall k: Class :: k in doc.areas && k in doc.counts && k in doc.aggregate
  }

  const AREA_TOLERANCE: real := 0.00000001

  /** `math.isclose` with no relative tolerance. */
  predicate Close(a: real, b: real, tolerance: real) { -tolerance <= a - b <= tolerance }

  function AreaOf(regions: seq<Region>, k: Class): real {
    if regions == [] then 0.0
    else AreaOf(regions[..|regions|-1], k) + (if regions[|regions|-1].kind == k then regions[|regions|-1].area else 0.0)
  }

  function CountOf(regions: seq<Region>, k: Class): nat {
    if regions == [] then 0
    else CountOf(regions[..|regions|-1], k) + (if regions[|regions|-1].kind == k then 1 else 0)
  }

  function TotalArea(regions: seq<Region>): real {
    if regions == [] then 0.0 else TotalArea(regions[..|regions|-1]) + regions[|regions|-1].area
  }

  /** The components a region of its class must name, and must not. */
  predicate RightComponents(r: Region) {
    && (r.kind == CONSENSUS ==> r.vc3d != [] && r.scrollfiesta != [])
    && (r.kind == SCROLLFIESTA_ONLY ==> r.vc3d == [] && r.scrollfiesta != [])
    && (r.kind == VC3D_ONLY ==> r.vc3d != [] && r.scrollfiesta == [])
  }

  predicate StartsWith(s: string, prefix: string) { prefix <= s }

  function Expected(separation: real): real { if 0.5 * separation < 2.0 then 0.5 * separation else 2.0 }

  /** Two different surfaces of the right families, compared over a real box at
      the prescribed distance. */
  ghost predicate Identified(doc: Comparison)
    requires |doc.roi| == 6
  {
    && PositiveRoi(doc.roi)
    && doc.vc3d.id != doc.scrollfiesta.id && doc.vc3d.sha256 != doc.scrollfiesta.sha256
    && StartsWith(doc.vc3d.profile, "segmentation.vc3d") && StartsWith(doc.scrollfiesta.profile, "segmentation.scrollfiesta")
    && Close(doc.agreementDistance, Expected(doc.sheetSeparation), 0.000000001)
  }

  ghost predicate Agrees(doc: Comparison)
    requires SchemaValid(doc)
  {
    && Identified(doc)
    && (forall i :: 0 <= i < |doc.regions| ==> RightComponents(doc.regions[i]))
    && (forall k: Class :: Close(doc.areas[k], AreaOf(doc.regions, k), AREA_TOLERANCE))
    && (forall k: Class :: doc.counts[k] == CountOf(doc.regions, k))
    && doc.distances.0 <= doc.distances.1 <= doc.distances.2
    && (forall k: Class :: Close(doc.aggregate[k], AreaOf(doc.regions, k), AREA_TOLERANCE))
  }

  ghost predicate Begins(s: string, prefix: string) { |prefix| <= |s| && s[..|prefix|] == prefix }

  ghost predicate Within(a: real, b: real, gap: real) { a <= b + gap && b <= a + gap }

  ghost predicate FromBoth(r: Region) { |r.vc3d| > 0 && |r.scrollfiesta| > 0 }

  ghost predicate FromVc3d(r: Region) { |r.vc3d| > 0 && |r.scrollfiesta| == 0 }

  ghost predicate FromScrollfiesta(r: Region) { |r.vc3d| == 0 && |r.scrollfiesta| > 0 }

  /** A region of consensus comes from both backends, a one-sided one from that
      side alone, and a disagreement from anything. */
  ghost predicate Sided(r: Region) {
    match r.kind
    case CONSENSUS => FromBoth(r)
    case SCROLLFIESTA_ONLY => FromScrollfiesta(r)
    case VC3D_ONLY => FromVc3d(r)
    case DISAGREEMENT => true
  }

  lemma SidedMeans(r: Region)
    ensures RightComponents(r) <==> Sided(r)
  {}

  /** Two voxels apart, or half the distance between sheets where that is less. */
  lemma IdentifiedMeans(doc: Comparison)
    requires |doc.roi| == 6
    ensures Identified(doc) <==>
      && doc.roi[0] < doc.roi[3] && doc.roi[1] < doc.roi[4] && doc.roi[2] < doc.roi[5]
      && doc.vc3d.id != doc.scrollfiesta.id && doc.vc3d.sha256 != doc.scrollfiesta.sha256
      && Begins(doc.vc3d.profile, "segmentation.vc3d") && Begins(doc.scrollfiesta.profile, "segmentation.scrollfiesta")
      && (doc.sheetSeparation >= 4.0 ==> Within(doc.agreementDistance, 2.0, 0.000000001))
      && (doc.sheetSeparation <= 4.0 ==> Within(2.0 * doc.agreementDistance, doc.sheetSeparation, 0.000000002))
  {
    RoiMeans(doc.roi);
    hide PositiveRoi;
  }

  /** What an accepted comparison is, in full. */
  lemma AgreesMeans(doc: Comparison)
    requires SchemaValid(doc)
    ensures Agrees(doc) <==>
      && Identified(doc)
      && (forall i :: 0 <= i < |doc.regions| ==> Sided(doc.regions[i]))
      && (forall k: Class :: doc.counts[k] == CountOf(doc.regions, k))
      && (forall k: Class :: Within(doc.areas[k], AreaOf(doc.regions, k), 0.00000001))
      && (forall k: Class :: Within(doc.aggregate[k], AreaOf(doc.regions, k), 0.00000001))
      && doc.distances.0 <= doc.distances.1 && doc.distances.1 <= doc.distances.2
  {
    forall i | 0 <= i < |doc.regions| ensures RightComponents(doc.regions[i]) <==> Sided(doc.regions[i]) {
      SidedMeans(doc.regions[i]);
    }
    hide Identified, AreaOf, CountOf, RightComponents, Sided;
  }

  lemma AllListed()
    ensures forall k: Class :: k in CLASSES
  {
    forall k: Class ensures k in CLASSES {
      match k
      case CONSENSUS => assert k == CLASSES[0];
      case SCROLLFIESTA_ONLY => assert k == CLASSES[1];
      case VC3D_ONLY => assert k == CLASSES[2];
      case DISAGREEMENT => assert k == CLASSES[3];
    }
  }

  method CheckComponents(r: Region, i: nat) returns (errors: seq<ComparisonError>)
    ensures errors == [] <==> RightComponents(r)
    ensures forall e :: e in errors ==> e == COMPONENTS(i)
  {
    errors := [];
    if r.kind == CONSENSUS && (r.vc3d == [] || r.scrollfiesta == []) {
      errors := errors + [COMPONENTS(i)];
    }
    if r.kind == SCROLLFIESTA_ONLY && (r.vc3d != [] || r.scrollfiesta == []) {
      errors := errors + [COMPONENTS(i)];
    }
    if r.kind == VC3D_ONLY && (r.vc3d == [] || r.scrollfiesta != []) {
      errors := errors + [COMPONENTS(i)];
    }
  }

  /** The regions' sums, in one pass. */
  method Observe(regions: seq<Region>) returns (areas: map<Class, real>, counts: map<Class, int>, errors: seq<ComparisonError>)
    ensures forall k: Class :: k in areas && areas[k] == AreaOf(regions, k) && k in counts && counts[k] == CountOf(regions, k)
    ensures errors == [] <==> forall i :: 0 <= i < |regions| ==> RightComponents(regions[i])
    ensures forall e :: e in errors ==> e.COMPONENTS? && e.region < |regions| && !RightComponents(regions[e.region])
  {
    AllListed();
    hide RightComponents;
    areas := map k | k in CLASSES :: 0.0;
    counts := map k | k in CLASSES :: 0;
    errors := [];
    for i := 0 to |regions|
      invariant forall k: Class :: k in areas && areas[k] == AreaOf(regions[..i], k) && k in counts && counts[k] == CountOf(regions[..i], k)
      invariant errors == [] <==> forall j :: 0 <= j < i ==> RightComponents(regions[j])
      invariant forall e :: e in errors ==> e.COMPONENTS? && e.region < i && !RightComponents(regions[e.region])
    {
      var r := regions[i];
      assert regions[..i+1][..i] == regions[..i];
      areas := areas[r.kind := areas[r.kind] + r.area];
      counts := counts[r.kind := counts[r.kind] + 1];
      var wrong := CheckComponents(r, i);
      errors := errors + wrong;
    }
    assert regions[..|regions|] == regions;
  }

  /** The classes whose declared area is not what was observed. */
  method Departures(declared: map<Class, real>, observed: map<Class, real>) returns (wrong: seq<Class>)
    requires forall k: Class :: k in declared && k in observed
    ensures forall k: Class :: k in wrong <==> !Close(declared[k], observed[k], AREA_TOLERANCE)
    ensures wrong == [] <==> forall k: Class :: Close(declared[k], observed[k], AREA_TOLERANCE)
  {
    wrong := [];
    for c := 0 to 4
      invariant forall k: Class :: k in wrong <==> k in CLASSES[..c] && !Close(declared[k], observed[k], AREA_TOLERANCE)
    {
      assert CLASSES[..c+1] == CLASSES[..c] + [CLASSES[c]];
      if !Close(declared[CLASSES[c]], observed[CLASSES[c]], AREA_TOLERANCE) {
        wrong := wrong + [CLASSES[c]];
      }
    }
    AllListed();
    assert CLASSES[..4] == CLASSES;
    assert wrong != [] ==> wrong[0] in wrong;
  }

  method Miscounts(declared: map<Class, int>, observed: map<Class, int>) returns (wrong: seq<Class>)
    requires forall k: Class :: k in declared && k in observed
    ensures forall k: Class :: k in wrong <==> declared[k] != observed[k]
    ensures wrong == [] <==> forall k: Class :: declared[k] == observed[k]
  {
    wrong := [];
    for c := 0 to 4
      invariant forall k: Class :: k in wrong <==> k in CLASSES[..c] && declared[k] != observed[k]
    {
      assert CLASSES[..c+1] == CLASSES[..c] + [CLASSES[c]];
      if declared[CLASSES[c]] != observed[CLASSES[c]] {
        wrong := wrong + [CLASSES[c]];
      }
    }
    AllListed();
    assert CLASSES[..4] == CLASSES;
    assert wrong != [] ==> wrong[0] in wrong;
  }

  method CheckIdentity(doc: Comparison) returns (errors: seq<ComparisonError>)
    requires |doc.roi| == 6
    ensures errors == [] <==> Identified(doc)
  {
    hide Close, Expected, StartsWith, PositiveRoi;
    errors := if PositiveRoi(doc.roi) then [] else [BAD_ROI];
    if doc.vc3d.id == doc.scrollfiesta.id {
      errors := errors + [SAME_ID];
    }
    if doc.vc3d.sha256 == doc.scrollfiesta.sha256 {
      errors := errors + [SAME_CONTENT];
    }
    if !StartsWith(doc.vc3d.profile, "segmentation.vc3d") {
      errors := errors + [VC3D_PROFILE];
    }
    if !StartsWith(doc.scrollfiesta.profile, "segmentation.scrollfiesta") {
      errors := errors + [SCROLLFIESTA_PROFILE];
    }
    if !Close(doc.agreementDistance, Expected(doc.sheetSeparation), 0.000000001) {
      errors := errors + [AGREEMENT];
    }
  }

  /** `_comparison_semantics` */
  method ComparisonSemantics(doc: Comparison) returns (errors: seq<ComparisonError>)
    requires SchemaValid(doc)
    ensures errors == [] <==> Agrees(doc)
  {
    hide AreaOf, CountOf, RightComponents, Close, Identified;
    errors := CheckIdentity(doc);
    var areas, counts, wrong := Observe(doc.regions);
    errors := errors + wrong;
    var areaErrors := Departures(doc.areas, areas);
    errors := errors + seq(|areaErrors|, i requires 0 <= i < |areaErrors| => AREA(areaErrors[i]));
    var countErrors := Miscounts(doc.counts, counts);
    errors := errors + seq(|countErrors|, i requires 0 <= i < |countErrors| => COUNT(countErrors[i]));
    if !(doc.distances.0 <= doc.distances.1 <= doc.distances.2) {
      errors := errors + [DISTANCES];
    }
    var aggregateErrors := Departures(doc.aggregate, areas);
    errors := errors + seq(|aggregateErrors|, i requires 0 <= i < |aggregateErrors| => AGGREGATE(aggregateErrors[i]));
  }

  /** Every region is in exactly one class, so the classes add up to the whole. */
  lemma {:induction false} ClassesPartition(regions: seq<Region>)
    ensures CountOf(regions, CONSENSUS) + CountOf(regions, SCROLLFIESTA_ONLY) + CountOf(regions, VC3D_ONLY) + CountOf(regions, DISAGREEMENT) == |regions|
    ensures AreaOf(regions, CONSENSUS) + AreaOf(regions, SCROLLFIESTA_ONLY) + AreaOf(regions, VC3D_ONLY) + AreaOf(regions, DISAGREEMENT) == TotalArea(regions)
  {
    if regions != [] {
      ClassesPartition(regions[..|regions|-1]);
    }
  }

  /** An accepted comparison accounts for every region once and for all the area
      to within the tolerance of each class, in its summary and in its aggregate. */
  lemma ComparisonConserves(doc: Comparison)
    requires SchemaValid(doc) && Agrees(doc)
    ensures doc.counts[CONSENSUS] + doc.counts[SCROLLFIESTA_ONLY] + doc.counts[VC3D_ONLY] + doc.counts[DISAGREEMENT] == |doc.regions|
    ensures Close(doc.areas[CONSENSUS] + doc.areas[SCROLLFIESTA_ONLY] + doc.areas[VC3D_ONLY] + doc.areas[DISAGREEMENT],
                  TotalArea(doc.regions), 4.0 * AREA_TOLERANCE)
    ensures Close(doc.aggregate[CONSENSUS] + doc.aggregate[SCROLLFIESTA_ONLY] + doc.aggregate[VC3D_ONLY] + doc.aggregate[DISAGREEMENT],
                  TotalArea(doc.regions), 4.0 * AREA_TOLERANCE)
    ensures forall k: Class :: Close(doc.areas[k], doc.aggregate[k], 2.0 * AREA_TOLERANCE)
  {
    ClassesPartition(doc.regions);
    hide AreaOf, CountOf, TotalArea;
  }
}

/** The stage-survival receipt and how its overall state is derived
    (scripts/harness/run_first_letters_positive_control.py). */
module SurvivalMatrix {
  import opened Wrappers

  datatype State = PASS | FAILED | INCOMPLETE | NOT_RUN | UNKNOWN(text: string)

  datatype Row = Row(
    boundary: string, state: State, reason: string, elapsed: real,
    identity: map<string, string>, inputs: seq<string>, outputHashes: map<string, string>, counts: map<string, string>,
    declared: map<string, string>, detail: Option<string>)

  datatype ControlState = CONTROL_PASS | CONTROL_FAILED | CONTROL_INCOMPLETE

  /** The overall state, and the boundary that owns it. */
  datatype Outcome = Outcome(state: ControlState, first: Option<string>)

  datatype Body = Body(schema: string, bindings: map<string, string>, stages: seq<Row>, outcome: Option<Outcome>)

  datatype Receipt = Receipt(body: Body, hash: Option<Digest<Body>>)

  datatype ReceiptError = NO_SCHEMA | UNKNOWN_SCHEMA | NO_STAGES | WRONG_BOUNDARIES

  const NOT_REACHED := "PREREQUISITE_NOT_REACHED"

  // ---- shapes ----

  const SCHEMA := "campaignx.first_letters_stage_survival.v1"
  const PUBLIC_SCHEMA := "campaignx.public_ink_stage_survival.v1"
  const SEGMENTATION_SCHEMA := "campaignx.public_segmentation_stage_survival.v1"

  const BOUNDARIES := ["P0", "P1", "P2", "QC", "P3", "P4", "P5", "P7", "HUMAN_REVIEW"]
  const PUBLIC_BOUNDARIES := ["PUBLIC_SOURCE", "SCALE", "CHECKPOINT", "INK", "LIVENESS", "HUMAN_REVIEW"]
  const SEGMENTATION_BOUNDARIES := ["PUBLIC_SOURCE", "INTAKE", "GROW", "GEOMETRY", "PHYSICAL_QC", "FLATTEN"]

  function Shape(schema: string): Option<seq<string>> {
    if schema == SCHEMA then Some(BOUNDARIES)
    else if schema == PUBLIC_SCHEMA then Some(PUBLIC_BOUNDARIES)
    else if schema == SEGMENTATION_SCHEMA then Some(SEGMENTATION_BOUNDARIES)
    else None
  }

  function Boundaries(rows: seq<Row>): (r: seq<string>)
    ensures |r| == |rows|
  {
    seq(|rows|, i requires 0 <= i < |rows| => rows[i].boundary)
  }

  // ---- evaluation ----

  /** The first row that did not pass, or the number of rows. */
  function FirstNonPass(rows: seq<Row>): (k: nat)
    ensures k <= |rows|
    ensures forall j :: 0 <= j < k ==> rows[j].state == PASS
    ensures k < |rows| ==> rows[k].state != PASS
  {
    if rows == [] then 0
    else
      var k := FirstNonPass(rows[..|rows|-1]);
      if k < |rows| - 1 || rows[|rows|-1].state != PASS then k else |rows|
  }

  function Unreached(row: Row): Row {
    row.(state := NOT_RUN, reason := NOT_REACHED, elapsed := 0.0, identity := map[], outputHashes := map[], counts := map[])
  }

  function Normalized(rows: seq<Row>): (r: seq<Row>)
    ensures |r| == |rows|
  {
    seq(|rows|, j requires 0 <= j < |rows| => if j <= FirstNonPass(rows) then rows[j] else Unreached(rows[j]))
  }

  function Derived(rows: seq<Row>): Outcome {
    var k := FirstNonPass(rows);
    if k == |rows| then Outcome(CONTROL_PASS, None)
    else Outcome(if rows[k].state == FAILED then CONTROL_FAILED else CONTROL_INCOMPLETE, Some(rows[k].boundary))
  }

  function Defect(body: Body): Option<ReceiptError> {
    if body.schema == "" then Some(NO_SCHEMA)
    else if Shape(body.schema) == None then Some(UNKNOWN_SCHEMA)
    else if body.stages == [] then Some(NO_STAGES)
    else if Boundaries(body.stages) != Shape(body.schema).value then Some(WRONG_BOUNDARIES)
    else None
  }

  function Evaluate(r: Receipt): Result<Receipt, ReceiptError> {
    if Defect(r.body).Some? then Err(Defect(r.body).value)
    else
      var body := r.body.(stages := Normalized(r.body.stages), outcome := Some(Derived(r.body.stages)));
      Ok(Receipt(body, Some(Sha256(body))))
  }

  /** The evaluator on rows it was handed, which it copies and leaves alone. */
  method EvaluateSurvivalMatrix(schema: string, bindings: map<string, string>, rows: array<Row>) returns (r: Result<Receipt, ReceiptError>)
    ensures forall hash, outcome :: r == Evaluate(Receipt(Body(schema, bindings, rows[..], outcome), hash))
  {
    var defect := Defect(Body(schema, bindings, rows[..], None));
    if defect.Some? {
      return Err(defect.value);
    }
    var stages := new Row[rows.Length](i requires 0 <= i < rows.Length reads rows => rows[i]);
    var first := 0;
    while first < stages.Length && stages[first].state == PASS
      invariant 0 <= first <= stages.Length
      invariant forall j :: 0 <= j < first ==> stages[j].state == PASS
    {
      first := first + 1;
    }
    assert stages[..] == rows[..];
    FirstIs(rows[..], first);
    var outcome := Outcome(CONTROL_PASS, None);
    if first < stages.Length {
      outcome := Outcome(if stages[first].state == FAILED then CONTROL_FAILED else CONTROL_INCOMPLETE, Some(stages[first].boundary));
      for j := first + 1 to stages.Length
        invariant forall i :: 0 <= i < stages.Length ==> stages[i] == if first < i < j then Unreached(rows[i]) else rows[i]
      {
        stages[j] := Unreached(stages[j]);
      }
    }
    assert stages[..] == Normalized(rows[..]);
    var body := Body(schema, bindings, stages[..], Some(outcome));
    r := Ok(Receipt(body, Some(Sha256(body))));
  }

  lemma FirstIs(rows: seq<Row>, k: nat)
    requires k <= |rows| && (forall j :: 0 <= j < k ==> rows[j].state == PASS) && (k < |rows| ==> rows[k].state != PASS)
    ensures FirstNonPass(rows) == k
  {
    var f := FirstNonPass(rows);
  }

  lemma FirstIsBefore(rows: seq<Row>, k: nat)
    requires k < |rows| && rows[k].state != PASS
    ensures FirstNonPass(rows) <= k
  {
    var f := FirstNonPass(rows);
  }

  // ---- what an evaluation says ----

  lemma NormalizedKeepsFirst(rows: seq<Row>)
    ensures FirstNonPass(Normalized(rows)) == FirstNonPass(rows)
    ensures Normalized(Normalized(rows)) == Normalized(rows) && Boundaries(Normalized(rows)) == Boundaries(rows)
  {
    FirstIs(Normalized(rows), FirstNonPass(rows));
    assert forall row :: Unreached(Unreached(row)) == Unreached(row);
  }

  /** Evaluating twice is evaluating once. */
  lemma EvaluateIdempotent(r: Receipt)
    requires Evaluate(r).Ok?
    ensures Evaluate(Evaluate(r).value) == Evaluate(r)
  {
    hide Shape, FirstNonPass;
    NormalizedKeepsFirst(r.body.stages);
  }

  /** The control passes exactly when every row passes; failed exactly when the
      first row that did not pass failed; that row is the one it names, and of
      the rows after it only what the control declared is left. */
  lemma OutcomeMeans(r: Receipt)
    requires Evaluate(r).Ok?
    ensures var rows, e := r.body.stages, Evaluate(r).value.body;
      && e.outcome.Some? && |e.stages| == |rows|
      && (e.outcome.value.state == CONTROL_PASS <==> forall i :: 0 <= i < |rows| ==> rows[i].state == PASS)
      && (e.outcome.value.state == CONTROL_PASS <==> e.outcome.value.first == None)
      && (e.outcome.value.state == CONTROL_FAILED <==>
            exists k :: 0 <= k < |rows| && rows[k].state == FAILED && forall j :: 0 <= j < k ==> rows[j].state == PASS)
      && (forall k :: 0 <= k < |rows| && (forall j :: 0 <= j < k ==> rows[j].state == PASS) && rows[k].state != PASS ==>
            && e.outcome.value.first == Some(rows[k].boundary)
            && (forall j :: 0 <= j <= k ==> e.stages[j] == rows[j])
            && forall j :: k < j < |rows| ==>
                 e.stages[j] == Row(rows[j].boundary, NOT_RUN, "PREREQUISITE_NOT_REACHED", 0.0, map[], rows[j].inputs,
                                    map[], map[], rows[j].declared, rows[j].detail))
      && (e.outcome.value.state == CONTROL_PASS ==> e.stages == rows)
  {
    var rows := r.body.stages;
    hide Shape, Boundaries;
    forall k | 0 <= k < |rows| && (forall j :: 0 <= j < k ==> rows[j].state == PASS) && rows[k].state != PASS
      ensures FirstNonPass(rows) == k
    {
      FirstIs(rows, k);
    }
    var f := FirstNonPass(rows);
    hide FirstNonPass;
    assert f < |rows| ==> !(forall i :: 0 <= i < |rows| ==> rows[i].state == PASS) by {
      if f < |rows| { assert rows[f].state != PASS; }
    }
  }

  /** Nothing after the first row that did not pass can bring the control back:
      receipts alike up to there come out alike. */
  lemma LaterRowsAreIdle(a: Receipt, b: Receipt, k: nat)
    requires Evaluate(a).Ok? && Evaluate(b).Ok? && a.body.schema == b.body.schema
    requires k < |a.body.stages| && k < |b.body.stages| && a.body.stages[..k+1] == b.body.stages[..k+1]
    requires a.body.stages[k].state != PASS
    ensures Evaluate(a).value.body.outcome == Evaluate(b).value.body.outcome
  {
    var f := FirstNonPass(a.body.stages);
    FirstIsBefore(a.body.stages, k);
    assert forall j :: 0 <= j <= k ==> a.body.stages[j] == a.body.stages[..k+1][j] == b.body.stages[..k+1][j] == b.body.stages[j];
    FirstIs(b.body.stages, f);
    hide Shape, Boundaries, FirstNonPass;
  }

  /** Nor does anything found out about a later row survive: receipts alike up
      to there, and later in what was declared of each row, end with the same
      stages. */
  lemma LaterEvidenceIsIdle(a: Receipt, b: Receipt, k: nat)
    requires Evaluate(a).Ok? && Evaluate(b).Ok? && |a.body.stages| == |b.body.stages|
    requires k < |a.body.stages| && a.body.stages[..k+1] == b.body.stages[..k+1] && a.body.stages[k].state != PASS
    requires forall j :: k < j < |a.body.stages| ==>
      var x, y := a.body.stages[j], b.body.stages[j];
      x.boundary == y.boundary && x.inputs == y.inputs && x.declared == y.declared && x.detail == y.detail
    ensures Evaluate(a).value.body.stages == Evaluate(b).value.body.stages
  {
    var x, y, f := a.body.stages, b.body.stages, FirstNonPass(a.body.stages);
    FirstIsBefore(x, k);
    assert forall j :: 0 <= j <= k ==> x[j] == x[..k+1][j] == y[..k+1][j] == y[j];
    FirstIs(y, f);
    hide Shape, Boundaries, FirstNonPass;
    forall j | 0 <= j < |x| ensures Normalized(x)[j] == Normalized(y)[j] {}
  }

  ghost predicate Known(schema: string) {
    || schema == "campaignx.first_letters_stage_survival.v1" || schema == "campaignx.public_ink_stage_survival.v1"
    || schema == "campaignx.public_segmentation_stage_survival.v1"
  }

  /** A receipt is evaluated exactly when it names one of the three controls and
      brings that control's rows, in order. */
  lemma EvaluatesWhen(r: Receipt)
    ensures var rows := r.body.stages;
      Evaluate(r).Ok? <==>
        || (r.body.schema == "campaignx.first_letters_stage_survival.v1" && |rows| == 9
            && rows[0].boundary == "P0" && rows[1].boundary == "P1" && rows[2].boundary == "P2" && rows[3].boundary == "QC"
            && rows[4].boundary == "P3" && rows[5].boundary == "P4" && rows[6].boundary == "P5" && rows[7].boundary == "P7"
            && rows[8].boundary == "HUMAN_REVIEW")
        || (r.body.schema == "campaignx.public_ink_stage_survival.v1" && |rows| == 6
            && rows[0].boundary == "PUBLIC_SOURCE" && rows[1].boundary == "SCALE" && rows[2].boundary == "CHECKPOINT"
            && rows[3].boundary == "INK" && rows[4].boundary == "LIVENESS" && rows[5].boundary == "HUMAN_REVIEW")
        || (r.body.schema == "campaignx.public_segmentation_stage_survival.v1" && |rows| == 6
            && rows[0].boundary == "PUBLIC_SOURCE" && rows[1].boundary == "INTAKE" && rows[2].boundary == "GROW"
            && rows[3].boundary == "GEOMETRY" && rows[4].boundary == "PHYSICAL_QC" && rows[5].boundary == "FLATTEN")
    ensures Evaluate(r) == Err(NO_SCHEMA) <==> r.body.schema == ""
    ensures Evaluate(r) == Err(UNKNOWN_SCHEMA) <==> r.body.schema != "" && !Known(r.body.schema)
    ensures Evaluate(r) == Err(NO_STAGES) <==> Known(r.body.schema) && r.body.stages == []
    ensures Evaluate(r) == Err(WRONG_BOUNDARIES) ==> Known(r.body.schema) && r.body.stages != []
    ensures Evaluate(r).Ok? ==>
      var e := Evaluate(r).value;
      e.hash == Some(Sha256(e.body)) && e.body.schema == r.body.schema && e.body.bindings == r.body.bindings
  {
    var rows := r.body.stages;
    var shape := Shape(r.body.schema);
    assert |SCHEMA| == 41 && |PUBLIC_SCHEMA| == 38 && |SEGMENTATION_SCHEMA| == 47;
    if shape.Some? && |rows| == |shape.value| {
      assert Boundaries(rows) == shape.value <==> forall i :: 0 <= i < |rows| ==> rows[i].boundary == shape.value[i];
    }
    hide Normalized, Derived;
  }

  /** No receipt can be read as another control's. */
  lemma ShapesDiffer(a: string, b: string)
    requires Shape(a).Some? && Shape(a) == Shape(b)
    ensures a == b
  {
    assert |BOUNDARIES| == 9 && |PUBLIC_BOUNDARIES| == 6 && |SEGMENTATION_BOUNDARIES| == 6;
    assert PUBLIC_BOUNDARIES[1][0] == 'S' && SEGMENTATION_BOUNDARIES[1][0] == 'I';
  }

  lemma SchemaOwnsRows(a: Receipt, b: Receipt)
    requires Evaluate(a).Ok? && Evaluate(b).Ok? && Boundaries(a.body.stages) == Boundaries(b.body.stages)
    ensures a.body.schema == b.body.schema
  {
    ShapesDiffer(a.body.schema, b.body.schema);
    hide Shape;
  }
}

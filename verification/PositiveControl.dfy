/** One run of the nine-boundary positive control against a panel that may
    answer, refuse, time out or break at any point
    (scripts/harness/run_first_letters_positive_control.py). */
module PositiveControl {
  import opened Wrappers
  import opened SurvivalMatrix
  import opened Text

  // ---- what a run does to the platform ----

  datatype Mutation = PREFLIGHT | MANUAL_SEED | FLATTEN | RENDER | SCREEN | ADJUDICATE | REVIEW

  /** How a mutation ended, as far as the runner could tell, the wait for the
      job it queued included. */
  datatype Reply = ANSWERED | ALREADY_PLACED | REFUSED | AMBIGUOUS | TIMED_OUT | BROKEN

  datatype Posted = Posted(mutation: Mutation, reply: Reply)

  /** Every mutation there is, in the only order they come. */
  const SCRIPT := [PREFLIGHT, MANUAL_SEED, FLATTEN, RENDER, SCREEN, ADJUDICATE, REVIEW]

  /** How many of them belong to boundaries before the k-th. */
  function Before(k: nat): (n: nat)
    ensures n <= 7
  {
    if k <= 1 then 0 else if k <= 4 then 2 else if k <= 9 then k - 2 else 7
  }

  const NO_RETRY := "AMBIGUOUS_MUTATION_NO_RETRY_UNTIL_READBACK"

  /** Each mutation at most once, in order. */
  ghost predicate InScript(posts: seq<Posted>) {
    |posts| <= |SCRIPT| && forall i :: 0 <= i < |posts| ==> posts[i].mutation == SCRIPT[i]
  }

  predicate Went(p: Posted) { p.reply == ANSWERED || (p.reply == ALREADY_PLACED && p.mutation == MANUAL_SEED) }

  predicate Unclear(p: Posted) { p.reply == AMBIGUOUS || p.reply == TIMED_OUT }

  /** Everything before the boundary was answered, and nothing after it was sent. */
  ghost predicate Complete(posts: seq<Posted>, k: nat) {
    InScript(posts) && |posts| == Before(k) && forall i :: 0 <= i < |posts| ==> Went(posts[i])
  }

  /** The run is somewhere inside the k-th boundary. */
  ghost predicate Within(posts: seq<Posted>, k: nat) {
    InScript(posts) && Before(k) <= |posts| <= Before(k + 1) && forall i :: 0 <= i < |posts| - 1 ==> Went(posts[i])
  }

  // ---- rows ----

  datatype Evidence = Evidence(
    identity: map<string, string>, inputs: seq<string>, outputHashes: map<string, string>, counts: map<string, string>, detail: string)

  /** `_set_result` */
  function Decided(row: Row, state: State, reason: string, started: real, now: real, e: Evidence): Row {
    row.(state := state, reason := reason, elapsed := if now < started then 0.0 else now - started,
         identity := e.identity, inputs := e.inputs, outputHashes := e.outputHashes, counts := e.counts,
         detail := if e.detail == "" then row.detail else Some(if |e.detail| <= 600 then e.detail else e.detail[..600]))
  }

  /** A result replaces what the row says of the run and keeps what the control
      declared; time never runs back, and a detail is cut at 600 characters and
      kept from before if there is none. */
  lemma DecidedMeans(row: Row, state: State, reason: string, started: real, now: real, e: Evidence)
    ensures var d := Decided(row, state, reason, started, now, e);
      && d.boundary == row.boundary && d.declared == row.declared && d.state == state && d.reason == reason
      && d.elapsed >= 0.0 && (now >= started ==> d.elapsed == now - started) && (now < started ==> d.elapsed == 0.0)
      && d.identity == e.identity && d.inputs == e.inputs && d.outputHashes == e.outputHashes && d.counts == e.counts
      && (e.detail == "" ==> d.detail == row.detail)
      && (e.detail != "" ==> d.detail.Some? && |d.detail.value| <= 600 && d.detail.value <= e.detail
                             && (|e.detail| <= 600 ==> d.detail.value == e.detail) && (|e.detail| > 600 ==> |d.detail.value| == 600))
  {}

  /** `_row` */
  function Blank(boundary: string, declared: map<string, string>): Row {
    Row(boundary, NOT_RUN, NOT_REACHED, 0.0, map[], [], map[], map[], declared, None)
  }

  predicate IsBlank(row: Row) { row == Blank(row.boundary, row.declared) }

  const NO_CANDIDATES := ["ZERO_RAW_M7_CANDIDATES", "ZERO_POST_CT_CANDIDATES",
                          "ZERO_POST_CLEARANCE_CANDIDATES", "ZERO_PACKET_LIMITED_CANDIDATES"]

  /** What each boundary can fail for, rather than come up short: only
      discovery and growth, physical QC, the ink map and the adjudication can. */
  function Failures(k: nat): seq<string> {
    if k == 1 then NO_CANDIDATES + ["NO_SURVIVOR_INSIDE_DECLARED_TOLERANCE", "GROW_REJECTED", "TINY_SURFACE_DIAGNOSTIC_ONLY"]
    else if k == 3 then ["PHYSICAL_QC_TERMINAL_INCOMPATIBLE"]
    else if k == 6 then ["P5_DEGENERATE_OR_EMPTY"]
    else if k == 7 then ["P7_ROUTE_CONTRADICTS_KNOWN_POSITIVE"]
    else []
  }

  // ---- what a reason tells of the mutations ----

  /** The reasons a boundary gives before it has sent anything of its own. */
  function Early(k: nat): seq<string> {
    if k == 0 then ["CONTROL_INCOMPLETE_STALE"]
    else if k == 2 then ["P2_SURFACE_LINEAGE_MISSING", "P2_CURRENT_JOB_EVIDENCE_MISSING", "GEOMETRY_NONTERMINAL"]
    else if k == 3 then ["PHYSICAL_QC_NONTERMINAL", "PHYSICAL_QC_HASH_BOUND_RECEIPT_MISSING",
                         "PHYSICAL_QC_CURRENT_JOB_EVIDENCE_MISSING", "PHYSICAL_QC_TERMINAL_INCOMPATIBLE"]
    else if k == 5 then ["ORIENTATION_UNPROVEN"]
    else if k == 6 then ["P5_LATERAL_METRIC_UNPROVEN", "P5_MODEL_NOT_INSTALLED"]
    else if k == 7 then ["P7_BBOX_INPUT_MISSING", "P7_ROI_UNPROVEN", "P7_PHYSICAL_SCALE_MISSING"]
    else []
  }

  /** The reasons P1 gives between its preflight and its seed. */
  const DISCOVERY := ["PREFLIGHT_HANDLE_MISSING", "PREFLIGHT_JOB_NOT_FOUND", "PREFLIGHT_SOURCE_UNAVAILABLE",
                      "PREFLIGHT_DID_NOT_FINISH_WITHIN_THE_WAIT", "MISSING_CONTENT_BOUND_DISCOVERY_EVIDENCE",
                      "ZERO_RAW_M7_CANDIDATES", "ZERO_POST_CT_CANDIDATES", "ZERO_POST_CLEARANCE_CANDIDATES",
                      "ZERO_PACKET_LIMITED_CANDIDATES", "NO_SURVIVOR_INSIDE_DECLARED_TOLERANCE"]

  /** The reasons a boundary gives once all its mutations are sent. */
  function Late(k: nat): seq<string> {
    if k == 1 then ["MANUAL_SEED_PROVENANCE_MISSING", "GROW_NONTERMINAL_TIMEOUT", "GROW_REJECTED",
                    "TINY_SURFACE_DIAGNOSTIC_ONLY", "MISSING_CANONICAL_GROW_ARTIFACT"]
    else if k == 4 then ["P3_REFUSED_BY_THE_PLATFORM", "MISSING_HASH_BOUND_FLATTENED_ARTIFACT", "P3_CURRENT_JOB_EVIDENCE_MISSING"]
    else if k == 5 then ["P4_REFUSED_BY_THE_PLATFORM", "P4_INPUT_LINEAGE_MISMATCH", "INCOMPLETE_RENDER_MANIFEST"]
    else if k == 6 then ["P5_REFUSED_BY_THE_PLATFORM", "P5_INPUT_OR_MODEL_LINEAGE_MISMATCH", "P5_DEGENERATE_OR_EMPTY"]
    else if k == 7 then ["P7_REFUSED_BY_THE_PLATFORM", "P7_INPUT_LINEAGE_MISMATCH", "P7_ROUTE_CONTRADICTS_KNOWN_POSITIVE",
                         "MISSING_HASH_BOUND_P7_PACKET"]
    else if k == 8 then ["HUMAN_REVIEW_REFUSED_BY_THE_PLATFORM", "HUMAN_REVIEW_ROUTING_MISSING"]
    else []
  }

  const UNEXPECTED := ["UNEXPECTED_FAILURE", "UNEXPECTED_REFUSAL"]

  /** What a boundary asks of what it reads, in order, by the reason it would
      stop with.  P1 also asks about the seed it placed itself, if it did. */
  function Questions(k: nat): (qs: seq<string>)
    ensures k == 1 ==> |qs| == 15 && qs[..10] == DISCOVERY
  {
    if k == 0 then ["CONTROL_INCOMPLETE_STALE"]
    else if k == 1 then
      DISCOVERY + ["GROW_NONTERMINAL_TIMEOUT", "GROW_REJECTED", "MANUAL_SEED_PROVENANCE_MISSING",
                   "TINY_SURFACE_DIAGNOSTIC_ONLY", "MISSING_CANONICAL_GROW_ARTIFACT"]
    else if k == 2 then ["P2_SURFACE_LINEAGE_MISSING"]
    else if k == 3 then Early(3)
    else if k == 4 then ["MISSING_HASH_BOUND_FLATTENED_ARTIFACT", "P3_CURRENT_JOB_EVIDENCE_MISSING", "MISSING_HASH_BOUND_FLATTENED_ARTIFACT"]
    else if k == 5 then ["ORIENTATION_UNPROVEN", "P4_INPUT_LINEAGE_MISMATCH", "INCOMPLETE_RENDER_MANIFEST"]
    else if k == 6 then ["P5_LATERAL_METRIC_UNPROVEN", "P5_MODEL_NOT_INSTALLED", "P5_INPUT_OR_MODEL_LINEAGE_MISMATCH", "P5_DEGENERATE_OR_EMPTY"]
    else if k == 7 then ["P7_BBOX_INPUT_MISSING", "P7_ROI_UNPROVEN", "P7_PHYSICAL_SCALE_MISSING", "P7_INPUT_LINEAGE_MISMATCH",
                         "P7_ROUTE_CONTRADICTS_KNOWN_POSITIVE", "MISSING_HASH_BOUND_P7_PACKET"]
    else if k == 8 then ["HUMAN_REVIEW_ROUTING_MISSING"]
    else []
  }

  /** One of the k-th boundary's own reasons, given when exactly that many mutations had been sent. */
  predicate Tells(k: nat, reason: string, n: nat) {
    || (reason in Early(k) && n == Before(k))
    || (k == 1 && reason in DISCOVERY && n == 1)
    || (reason in Late(k) && n == Before(k + 1))
  }

  /** A row that stopped the run accounts for the mutations.  Its reason is the
      panel's own word, or an escape's; or it is the boundary's, and then it says
      how many mutations had been sent, or that the last of them was unclear.  A
      failed row is never an escape, a refusal or the panel's word. */
  ghost predicate Accounts(row: Row, k: nat, posts: seq<Posted>, said: set<string>) {
    && (|| (row.state == INCOMPLETE && (row.reason in said || row.reason in UNEXPECTED))
        || (row.state == INCOMPLETE && row.reason == NO_RETRY && Before(k) < |posts| && Unclear(posts[|posts|-1]))
        || Tells(k, row.reason, |posts|))
    && (row.state == FAILED ==> forall i :: 0 <= i < |posts| ==> Went(posts[i]))
    && (posts != [] && Unclear(posts[|posts|-1]) ==> row.state == INCOMPLETE && row.reason == NO_RETRY)
  }

  // Where the reasons part, letter by letter.

  lemma SeedLetters(reason: string)
    requires reason in Late(1)
    ensures |reason| > 9 && reason[0] in ['M', 'G', 'T'] && (reason[0] == 'M' ==> reason[1] == 'A' || reason[9] == 'A')
  {}

  lemma ScreenLetters(reason: string)
    requires reason in Late(6)
    ensures |reason| > 3 && reason[3] in ['R', 'I', 'D']
  {}

  lemma AdjudicationLetters(reason: string)
    requires reason in Late(7)
    ensures |reason| > 5 && (reason[0] == 'P' ==> reason[3] == 'I' || (reason[3] == 'R' && reason[5] in ['F', 'U']))
  {}

  lemma SeedReasonsDiffer(reason: string)
    requires reason in DISCOVERY
    ensures reason !in Late(1)
  {
    assert reason[0] in ['P', 'M', 'Z', 'N'] && (reason[0] == 'M' ==> |reason| > 9 && reason[1] == 'I' && reason[9] == 'O');
    hide DISCOVERY, Late;
    if reason in Late(1) { SeedLetters(reason); }
  }

  lemma ScreenReasonsDiffer(reason: string)
    requires reason in Early(6)
    ensures reason !in Late(6)
  {
    assert reason[3] in ['L', 'M'];
    hide Early, Late;
    if reason in Late(6) { ScreenLetters(reason); }
  }

  lemma AdjudicationReasonsDiffer(reason: string)
    requires reason in Early(7)
    ensures reason !in Late(7)
  {
    assert reason[0] == 'P' && (reason[3] in ['B', 'P'] || (reason[3] == 'R' && reason[5] == 'I'));
    hide Early, Late;
    if reason in Late(7) { AdjudicationLetters(reason); }
  }

  lemma EarlyIsNotLate(k: nat, reason: string)
    requires reason in Early(k)
    ensures k != 1 && reason !in Late(k)
  {
    if k == 6 {
      ScreenReasonsDiffer(reason);
    } else if k == 7 {
      AdjudicationReasonsDiffer(reason);
    } else if k == 5 {
      assert reason[0] == 'O' && forall i :: 0 <= i < 3 ==> Late(5)[i][0] in ['P', 'I'];
    }
  }

  /** Neither an escape's reason nor the unclear one is a boundary's. */
  predicate Plain(reason: string) { reason !in UNEXPECTED && reason != NO_RETRY }

  lemma PlainFirst(reason: string)
    requires reason != "" && reason[0] != 'U' && reason[0] != 'A'
    ensures Plain(reason)
  {
    assert UNEXPECTED[0][0] == UNEXPECTED[1][0] == 'U' && NO_RETRY[0] == 'A';
  }

  lemma EarlyIsPlain(k: nat, reason: string)
    requires reason in Early(k)
    ensures Plain(reason)
  {
    assert |reason| > 0 && reason[0] in ['C', 'P', 'G', 'O'];
    hide Early, Plain;
    PlainFirst(reason);
  }

  lemma DiscoveryIsPlain(reason: string)
    requires reason in DISCOVERY
    ensures Plain(reason)
  {
    assert |reason| > 0 && reason[0] in ['P', 'M', 'Z', 'N'];
    hide DISCOVERY, Plain;
    PlainFirst(reason);
  }

  lemma LateIsPlain(k: nat, reason: string)
    requires reason in Late(k)
    ensures Plain(reason)
  {
    assert |reason| > 0 && reason[0] in ['M', 'G', 'T', 'P', 'I', 'H'];
    hide Late, Plain;
    PlainFirst(reason);
  }

  lemma UnclearIsExpected()
    ensures NO_RETRY !in UNEXPECTED
  {
    assert UNEXPECTED[0][0] == UNEXPECTED[1][0] == 'U' && NO_RETRY[0] == 'A';
  }

  /** A reason the panel did not send says what was never sent: a boundary's
      early reason, none of its own mutations; one from discovery, no seed. */
  lemma ReasonSaysWhatWasSent(row: Row, k: nat, posts: seq<Posted>, said: set<string>)
    requires Within(posts, k) && Accounts(row, k, posts, said) && row.reason !in said
    ensures row.reason in Early(k) ==> |posts| == Before(k)
    ensures k == 1 && row.reason in DISCOVERY ==> |posts| == 1
    ensures row.reason in Late(k) ==> |posts| == Before(k + 1)
    ensures row.reason == NO_RETRY ==> Before(k) < |posts| && Unclear(posts[|posts|-1])
  {
    hide Early, Late, DISCOVERY, UNEXPECTED, NO_RETRY;
    if row.reason in Early(k) {
      EarlyIsNotLate(k, row.reason);
      EarlyIsPlain(k, row.reason);
    } else if row.reason in Late(k) {
      LateIsPlain(k, row.reason);
      if k == 1 && row.reason in DISCOVERY { SeedReasonsDiffer(row.reason); }
    } else if k == 1 && row.reason in DISCOVERY {
      DiscoveryIsPlain(row.reason);
    }
    UnclearIsExpected();
  }

  /** An early reason is proof that nothing of the boundary's own was sent
      exactly when the panel never used that code itself. */
  lemma EarlyReasonProves(k: nat, reason: string, said: set<string>)
    requires reason in Early(k) && k in {5, 6, 7}
    ensures reason !in said <==>
      forall row: Row, posts :: row.reason == reason && Within(posts, k) && Accounts(row, k, posts, said) ==> |posts| == Before(k)
  {
    forall row: Row, posts | row.reason == reason && Within(posts, k) && Accounts(row, k, posts, said) && reason !in said
      ensures |posts| == Before(k)
    {
      ReasonSaysWhatWasSent(row, k, posts, said);
    }
    if reason in said {
      var row := Blank("", map[]).(state := INCOMPLETE, reason := reason);
      var posts := seq(k - 1, i requires 0 <= i < k - 1 => Posted(SCRIPT[i], if i < k - 2 then ANSWERED else REFUSED));
      assert Within(posts, k) && Accounts(row, k, posts, said) && |posts| == Before(k) + 1;
    }
  }

  /** A refused or unclear mutation leaves an incomplete row that accounts for it. */
  lemma UnansweredAccounts(row: Row, k: nat, posts: seq<Posted>, said: set<string>, refused: Option<string>)
    requires posts != [] && Before(k) < |posts| && row.state == INCOMPLETE
    requires
      || (Unclear(posts[|posts|-1]) && row.reason == NO_RETRY)
      || (!Unclear(posts[|posts|-1]) && (row.reason in said || (refused == Some(row.reason) && row.reason in Late(k) && |posts| == Before(k + 1))))
    ensures Accounts(row, k, posts, said)
  {
    hide Early, Late, DISCOVERY, UNEXPECTED, NO_RETRY;
  }

  predicate Stops(row: Row, k: nat) { row.state == INCOMPLETE || (row.state == FAILED && row.reason in Failures(k)) }

  /** PASS up to the k-th row and nothing decided from there on. */
  ghost predicate Reached(rows: seq<Row>, k: nat) {
    && Boundaries(rows) == BOUNDARIES && k <= |rows|
    && (forall j :: 0 <= j < k ==> rows[j].state == PASS)
    && (forall j :: k <= j < |rows| ==> IsBlank(rows[j]))
  }

  /** PASS up to the k-th row, which stopped the run, and nothing after it. */
  ghost predicate StoppedAt(rows: seq<Row>, k: nat) {
    && Boundaries(rows) == BOUNDARIES && k < |rows|
    && (forall j :: 0 <= j < k ==> rows[j].state == PASS)
    && Stops(rows[k], k)
    && (forall j :: k < j < |rows| ==> IsBlank(rows[j]))
  }

  lemma DecideRow(rows: seq<Row>, k: nat, row: Row)
    requires Reached(rows, k) && k < |rows| && row.boundary == rows[k].boundary
    ensures row.state == PASS ==> Reached(rows[k := row], k + 1)
    ensures Stops(row, k) ==> StoppedAt(rows[k := row], k)
  {
    assert Boundaries(rows[k := row]) == Boundaries(rows);
  }

  // ---- an escaped failure ----

  predicate Undecided(s: State) { s == NOT_RUN || s == UNKNOWN("") }

  function FirstUndecided(rows: seq<Row>): (k: nat)
    ensures k <= |rows| && (forall j :: 0 <= j < k ==> !Undecided(rows[j].state))
    ensures k < |rows| ==> Undecided(rows[k].state)
  {
    if rows == [] then 0
    else
      var k := FirstUndecided(rows[..|rows|-1]);
      if k < |rows| - 1 || Undecided(rows[|rows|-1].state) then k else |rows|
  }

  function Refusal(detail: string): Evidence { Evidence(map[], [], map[], map[], detail) }

  function Recorded(rows: seq<Row>, reason: string, detail: string): seq<Row> {
    var k := FirstUndecided(rows);
    if k < |rows| then rows[k := Decided(rows[k], INCOMPLETE, reason, 0.0, 0.0, Refusal(detail))] else rows
  }

  /** `_record_unexpected_refusal` */
  method RecordUnexpectedRefusal(rows: array<Row>, reason: string, detail: string)
    modifies rows
    ensures rows[..] == Recorded(old(rows[..]), reason, detail)
  {
    for i := 0 to rows.Length
      invariant rows[..] == old(rows[..])
      invariant forall j :: 0 <= j < i ==> !Undecided(rows[j].state)
    {
      if Undecided(rows[i].state) {
        FirstUndecidedIs(rows[..], i);
        rows[i] := Decided(rows[i], INCOMPLETE, reason, 0.0, 0.0, Refusal(detail));
        return;
      }
    }
  }

  lemma FirstUndecidedIs(rows: seq<Row>, k: nat)
    requires k < |rows| && (forall j :: 0 <= j < k ==> !Undecided(rows[j].state)) && Undecided(rows[k].state)
    ensures FirstUndecided(rows) == k
  {
    var f := FirstUndecided(rows);
  }

  /** On any rows, a failure that escaped goes on the first whose state is not
      run or blank, and changes nothing where there is none. */
  lemma RecordedMeans(rows: seq<Row>, k: nat, reason: string, detail: string)
    requires k <= |rows| && forall j :: 0 <= j < k ==> rows[j].state != NOT_RUN && rows[j].state != UNKNOWN("")
    requires k < |rows| ==> rows[k].state == NOT_RUN || rows[k].state == UNKNOWN("")
    ensures |Recorded(rows, reason, detail)| == |rows|
    ensures forall j :: 0 <= j < |rows| && j != k ==> Recorded(rows, reason, detail)[j] == rows[j]
    ensures k < |rows| ==> var row := Recorded(rows, reason, detail)[k];
      && row.state == INCOMPLETE && row.reason == reason && row.elapsed == 0.0 && row.boundary == rows[k].boundary
      && row.identity == map[] && row.inputs == [] && row.outputHashes == map[] && row.counts == map[]
  {
    var f := FirstUndecided(rows);
    assert f < |rows| ==> Undecided(rows[f].state);
    assert f == k;
  }

  /** A failure lands on the boundary the run had reached, and on no other row. */
  lemma EscapeLands(rows: seq<Row>, k: nat, reason: string, detail: string)
    requires Reached(rows, k) && k < |rows|
    ensures StoppedAt(Recorded(rows, reason, detail), k)
    ensures Recorded(rows, reason, detail)[k].state == INCOMPLETE && Recorded(rows, reason, detail)[k].reason == reason
    ensures forall j :: 0 <= j < |rows| && j != k ==> Recorded(rows, reason, detail)[j] == rows[j]
  {
    FirstUndecidedIs(rows, k);
    DecideRow(rows, k, Decided(rows[k], INCOMPLETE, reason, 0.0, 0.0, Refusal(detail)));
    hide Boundaries, FirstUndecided;
  }

  // ---- geometry certification ----

  /** What P2 reads back: the certification state, whether everything else the
      finalizer's evidence needs is there, the P2 job it knows, and whether
      everything else that job's evidence needs is there. */
  datatype Certification = Certification(geometry: string, finalizerRest: bool, jobId: string, jobRest: bool)

  const CERTIFIED := "GEOMETRY_CERTIFIED"

  function AtFinalization(c: Certification): bool { c.geometry == CERTIFIED && c.finalizerRest }

  function P2Verdict(c: Certification): (State, string) {
    if !(AtFinalization(c) || (c.jobId != "" && c.jobRest)) then (INCOMPLETE, "P2_CURRENT_JOB_EVIDENCE_MISSING")
    else if c.geometry != CERTIFIED then
      if "GEOMETRY_REJECTED" <= c.geometry then (FAILED, "GEOMETRY_REJECTED") else (INCOMPLETE, "GEOMETRY_NONTERMINAL")
    else (PASS, if AtFinalization(c) then "PASS_ALREADY_CERTIFIED_AT_FINALIZATION" else "GEOMETRY_CERTIFIED")
  }

  /** Every answer of P2: certified at finalization or by a P2 job, rejected,
      neither yet, or not known for want of evidence. */
  lemma P2VerdictIs(c: Certification)
    ensures var known := (c.geometry == "GEOMETRY_CERTIFIED" && c.finalizerRest) || (c.jobId != "" && c.jobRest);
      && (!known <==> P2Verdict(c) == (INCOMPLETE, "P2_CURRENT_JOB_EVIDENCE_MISSING"))
      && (known && c.geometry == "GEOMETRY_CERTIFIED" ==>
            P2Verdict(c) == (PASS, if c.finalizerRest then "PASS_ALREADY_CERTIFIED_AT_FINALIZATION" else "GEOMETRY_CERTIFIED"))
      && (known && c.geometry != "GEOMETRY_CERTIFIED" ==>
            P2Verdict(c) == if "GEOMETRY_REJECTED" <= c.geometry then (FAILED, "GEOMETRY_REJECTED") else (INCOMPLETE, "GEOMETRY_NONTERMINAL"))
  {
    assert "P2_CURRENT_JOB_EVIDENCE_MISSING"[0] == 'P' && "GEOMETRY_NONTERMINAL"[0] == 'G';
  }

  /** A rejected geometry is reported as a failure only for a P2 job the runner
      knows about; it never queues one, so to it a rejection is missing evidence. */
  lemma RejectionNeedsJob(c: Certification)
    ensures P2Verdict(c).0 == FAILED <==> c.jobId != "" && c.jobRest && "GEOMETRY_REJECTED" <= c.geometry
    ensures c.jobId == "" && "GEOMETRY_REJECTED" <= c.geometry ==> P2Verdict(c) == (INCOMPLETE, "P2_CURRENT_JOB_EVIDENCE_MISSING")
  {
    assert CERTIFIED[9] == 'C' && "GEOMETRY_REJECTED"[9] == 'R';
    if "GEOMETRY_REJECTED" <= c.geometry {
      assert c.geometry[9] == "GEOMETRY_REJECTED"[9];
    }
  }

  // ---- the run ----

  datatype Progress = PASSED | STOPPED | ESCAPED

  /** What a reply makes of the boundary: only some refusals are results. */
  function ResultOf(m: Mutation, reply: Reply, refused: Option<string>): Progress {
    if Went(Posted(m, reply)) then PASSED
    else if reply == AMBIGUOUS || reply == TIMED_OUT || (reply == REFUSED && refused.Some?) then STOPPED
    else ESCAPED
  }

  class Control {
    const rows: array<Row>
    ghost var posts: seq<Posted>
    ghost var said: set<string>  // the reason codes the panel sent
    ghost var held: seq<string>  // the questions answered well, in order

    constructor (declared: seq<map<string, string>>)
      requires |declared| == 9
      ensures Reached(rows[..], 0) && posts == [] && said == {} && held == [] && fresh(rows) && rows.Length == 9
    {
      rows := new Row[9](i requires 0 <= i < 9 => Blank(BOUNDARIES[i], declared[i]));
      posts := [];
      said := {};
      held := [];
      new;
      assert Boundaries(rows[..]) == BOUNDARIES;
    }

    /** Where the k-th boundary leaves the run. */
    ghost predicate After(k: nat, p: Progress)
      reads this`posts, this`said, rows
    {
      match p
      case PASSED => Reached(rows[..], k + 1) && Complete(posts, k + 1)
      case STOPPED =>
        StoppedAt(rows[..], k) && Within(posts, k) && Accounts(rows[k], k, posts, said)
      case ESCAPED =>
        && (posts != [] ==> !Unclear(posts[|posts|-1]))
        && ((Reached(rows[..], k) && Within(posts, k)) || (k < 8 && Reached(rows[..], k + 1) && Complete(posts, k + 1)))
    }

    /** Inside the k-th boundary, with the first n mutations answered. */
    ghost predicate At(k: nat, n: nat)
      reads this`posts, rows
    {
      && k < 9 && Reached(rows[..], k) && InScript(posts) && |posts| == n && Before(k) <= n <= Before(k + 1)
      && forall i :: 0 <= i < |posts| ==> Went(posts[i])
    }

    /** `_set_result` on the boundary the run has reached. */
    method Settle(k: nat, state: State, reason: string)
      requires k < 9 && Reached(rows[..], k)
      requires state == PASS || state == INCOMPLETE || (state == FAILED && reason in Failures(k))
      modifies rows
      ensures rows[..] == old(rows[..])[k := rows[k]] && rows[k].state == state && rows[k].reason == reason
      ensures if state == PASS then Reached(rows[..], k + 1) else StoppedAt(rows[..], k)
    {
      var evidence: Evidence := *;
      var started: real, now: real := *, *;
      DecideRow(rows[..], k, Decided(rows[k], state, reason, started, now, evidence));
      rows[k] := Decided(rows[k], state, reason, started, now, evidence);
    }

    /** The boundary stops the run, with a reason that accounts for what was sent. */
    method Stop(k: nat, ghost n: nat, state: State, reason: string)
      requires At(k, n)
      requires state == INCOMPLETE || (state == FAILED && reason in Failures(k))
      requires Tells(k, reason, n) || (state == INCOMPLETE && reason in said)
      modifies rows
      ensures After(k, STOPPED) && rows[k].state == state && rows[k].reason == reason
    {
      hide Reached, StoppedAt, Tells, Failures;
      Settle(k, state, reason);
    }

    /** One condition on what was read: it may hold, stop the run here, or break. */
    method Ask(k: nat, ghost n: nat, state: State, reason: string, ghost question: string) returns (p: Progress)
      requires At(k, n)
      requires state == INCOMPLETE || (state == FAILED && reason in Failures(k))
      requires Tells(k, reason, n) || (state == INCOMPLETE && reason in said)
      modifies this`held, rows
      ensures p == PASSED ==> At(k, n) && held == old(held) + [question]
      ensures p != PASSED ==> After(k, p)
      ensures p == STOPPED ==> rows[k].state == state && rows[k].reason == reason
    {
      hide Reached, StoppedAt, Tells, Failures, Accounts;
      p := *;
      if p == STOPPED {
        Stop(k, n, state, reason);
      }
      held := held + [question];
    }

    method Guard(k: nat, ghost n: nat, state: State, reason: string) returns (p: Progress)
      requires At(k, n)
      requires state == INCOMPLETE || (state == FAILED && reason in Failures(k))
      requires Tells(k, reason, n)
      modifies this`held, rows
      ensures p == PASSED ==> At(k, n) && held == old(held) + [reason]
      ensures p != PASSED ==> After(k, p)
      ensures p == STOPPED ==> rows[k].state == state && rows[k].reason == reason
    {
      hide Tells, Failures, At, After;
      p := Ask(k, n, state, reason, reason);
    }

    /** The boundary passes. */
    method Pass(k: nat, reason: string)
      requires k < 9 && At(k, Before(k + 1))
      modifies rows
      ensures After(k, PASSED)
    {
      hide Reached, StoppedAt;
      Settle(k, PASS, reason);
    }

    /** What still runs once the row has passed may escape too. */
    method Afterwards(k: nat) returns (p: Progress)
      requires k < 8 && After(k, PASSED)
      ensures After(k, p) && p != STOPPED
    {
      var ok: bool := *;
      p := if ok then PASSED else ESCAPED;
    }

    /** A read: it comes back, or whatever it raises escapes. */
    method Fetch(k: nat, ghost n: nat) returns (p: Progress)
      requires At(k, n)
      ensures p == PASSED || p == ESCAPED
      ensures p == ESCAPED ==> After(k, p)
    {
      hide Reached, StoppedAt;
      var ok: bool := *;
      p := if ok then PASSED else ESCAPED;
    }

    /** A reason code of the panel's own choosing. */
    method Hear() returns (code: string)
      modifies this`said
      ensures said == old(said) + {code}
    {
      code := *;
      said := said + {code};
    }

    /** `_refusal_reason`: the panel's code, or the runner's if it sent none. */
    method RefusalReason(fallback: string) returns (reason: string)
      modifies this`said
      ensures reason == fallback || reason in said
    {
      var any: bool := *;
      reason := fallback;
      if any {
        reason := Hear();
      }
    }

    /** A mutation, sent once. */
    method Post(m: Mutation) returns (reply: Reply)
      modifies this`posts
      ensures posts == old(posts) + [Posted(m, reply)]
      ensures reply == ALREADY_PLACED ==> m == MANUAL_SEED
    {
      reply := *;
      if reply == ALREADY_PLACED && m != MANUAL_SEED {
        reply := REFUSED;
      }
      posts := posts + [Posted(m, reply)];
    }

    /** What a mutation's reply leaves when it was not answered: an unclear one is
        never retried, a refused one is a result where the boundary catches it,
        and anything else escapes. */
    method Unanswered(k: nat, ghost n: nat, reply: Reply, refused: Option<string>) returns (p: Progress)
      requires k < 9 && Reached(rows[..], k) && InScript(posts) && |posts| == n + 1 && Before(k) <= n < Before(k + 1)
      requires forall i :: 0 <= i < n ==> Went(posts[i])
      requires reply == posts[n].reply && !Went(posts[n])
      requires refused.Some? ==> refused.value in Late(k) && n + 1 == Before(k + 1)
      modifies this`said, rows
      ensures After(k, p) && p == ResultOf(posts[n].mutation, reply, refused)
      ensures p == STOPPED ==> rows[k].state == INCOMPLETE
      ensures reply in {AMBIGUOUS, TIMED_OUT} ==> rows[k].reason == NO_RETRY
      ensures reply == REFUSED && refused.Some? ==> rows[k].reason == refused.value || rows[k].reason in said
    {
      hide Reached, StoppedAt, Accounts, Late, NO_RETRY;
      if reply == AMBIGUOUS || reply == TIMED_OUT {
        Settle(k, INCOMPLETE, NO_RETRY);
        UnansweredAccounts(rows[k], k, posts, said, None);
        return STOPPED;
      }
      if reply == REFUSED && refused.Some? {
        var reason := RefusalReason(refused.value);
        Settle(k, INCOMPLETE, reason);
        UnansweredAccounts(rows[k], k, posts, said, refused);
        return STOPPED;
      }
      p := ESCAPED;
    }

    /** A mutation sent once, and the job it may have queued waited for. */
    method Send(k: nat, n: nat, m: Mutation, waits: bool, refused: Option<string>) returns (p: Progress, reply: Reply)
      requires At(k, n) && n < Before(k + 1) && SCRIPT[n] == m
      requires refused.Some? ==> refused.value in Late(k) && n + 1 == Before(k + 1)
      modifies this`posts, this`said, rows
      ensures posts == old(posts) + [Posted(m, reply)] && p == ResultOf(m, reply, refused)
      ensures p == PASSED <==> reply == ANSWERED || reply == ALREADY_PLACED
      ensures reply == ALREADY_PLACED ==> m == MANUAL_SEED
      ensures p == STOPPED <==> reply in {AMBIGUOUS, TIMED_OUT} || (reply == REFUSED && refused.Some?)
      ensures p == PASSED ==> At(k, n + 1)
      ensures p != PASSED ==> After(k, p)
      ensures p == STOPPED ==> rows[k].state == INCOMPLETE
      ensures reply in {AMBIGUOUS, TIMED_OUT} ==> rows[k].reason == NO_RETRY
      ensures reply == REFUSED && refused.Some? ==> rows[k].reason == refused.value || rows[k].reason in said
    {
      hide Reached, StoppedAt, Accounts, Late, NO_RETRY;
      reply := Post(m);
      if waits && reply == ANSWERED {
        reply := *;
        reply := if reply == ALREADY_PLACED then BROKEN else reply;
        posts := posts[n := Posted(m, reply)];
      }
      p := PASSED;
      if !Went(Posted(m, reply)) {
        p := Unanswered(k, n, reply, refused);
      }
    }

    /** A job queued and waited for, with every refusal a result. */
    method Job(k: nat, n: nat, m: Mutation, refused: string) returns (p: Progress, ghost reply: Reply)
      requires At(k, n) && n + 1 == Before(k + 1) && SCRIPT[n] == m && m != MANUAL_SEED && refused in Late(k)
      modifies this`posts, this`said, rows
      ensures posts == old(posts) + [Posted(m, reply)] && p == ResultOf(m, reply, Some(refused))
      ensures p == PASSED <==> reply == ANSWERED
      ensures p == STOPPED <==> reply in {AMBIGUOUS, TIMED_OUT, REFUSED}
      ensures p == PASSED ==> At(k, n + 1)
      ensures p != PASSED ==> After(k, p)
      ensures p == STOPPED ==> rows[k].state == INCOMPLETE
      ensures reply in {AMBIGUOUS, TIMED_OUT} ==> rows[k].reason == NO_RETRY
      ensures reply == REFUSED ==> rows[k].reason == refused || rows[k].reason in said
    {
      hide At, After, Accounts, Late, NO_RETRY;
      p, reply := Send(k, n, m, true, Some(refused));
    }

    method P0() returns (p: Progress)
      requires At(0, 0)
      modifies this`held, rows
      ensures After(0, p)
      ensures p == PASSED ==> held == old(held) + Questions(0)
    {
      hide At, After, Accounts;
      p := Fetch(0, 0);
      if p != PASSED { return; }
      p := Guard(0, 0, INCOMPLETE, "CONTROL_INCOMPLETE_STALE");
      if p != PASSED { return; }
      Pass(0, "EXACT_RUNTIME_BINDING");
    }

    method P1() returns (p: Progress, ghost own: seq<string>)
      requires At(1, 0)
      modifies this`posts, this`said, this`held, rows
      ensures After(1, p)
      ensures own == [] || own == ["MANUAL_SEED_PROVENANCE_MISSING"]
      ensures p == PASSED ==> held == old(held) + Questions(1)[..10] + own + Questions(1)[10..]
    {
      hide At, After, Accounts, Late, Early, Tells;
      own := [];
      p := Discover();
      if p != PASSED { return; }
      assert Questions(1)[..10] == DISCOVERY;
      hide Questions, DISCOVERY;
      p, own := Grow();
      if p != PASSED { return; }
      Pass(1, "DISCOVERY_AND_MANUAL_GROW_SURVIVED");
      p := Afterwards(1);
    }

    /** `_await_preflight` */
    method AwaitPreflight() returns (p: Progress)
      requires At(1, 1)
      modifies this`said, this`held, rows
      ensures p == PASSED ==> At(1, 1) && held == old(held) + DISCOVERY[..4]
      ensures p != PASSED ==> After(1, p)
    {
      hide At, After, Accounts;
      p := Guard(1, 1, INCOMPLETE, "PREFLIGHT_HANDLE_MISSING");
      if p != PASSED { return; }
      p := Guard(1, 1, INCOMPLETE, "PREFLIGHT_JOB_NOT_FOUND");
      if p != PASSED { return; }
      var reason := RefusalReason("PREFLIGHT_SOURCE_UNAVAILABLE");
      p := Ask(1, 1, INCOMPLETE, reason, "PREFLIGHT_SOURCE_UNAVAILABLE");
      if p != PASSED { return; }
      p := Guard(1, 1, INCOMPLETE, "PREFLIGHT_DID_NOT_FINISH_WITHIN_THE_WAIT");
    }

    /** P1, up to the candidates that survived. */
    method Discover() returns (p: Progress)
      requires At(1, 0)
      modifies this`posts, this`said, this`held, rows
      ensures p == PASSED ==> At(1, 1) && held == old(held) + DISCOVERY
      ensures p != PASSED ==> After(1, p)
    {
      hide At, After, Accounts;
      p := Fetch(1, 0);
      if p != PASSED { return; }
      var reply: Reply;
      p, reply := Send(1, 0, PREFLIGHT, false, None);
      if p != PASSED { return; }
      p := AwaitPreflight();
      if p != PASSED { return; }
      p := Guard(1, 1, INCOMPLETE, "MISSING_CONTENT_BOUND_DISCOVERY_EVIDENCE");
      if p != PASSED { return; }
      for i := 0 to 4
        invariant At(1, 1) && held == old(held) + DISCOVERY[..5+i]
      {
        assert Failures(1)[i] == NO_CANDIDATES[i];
        p := Guard(1, 1, FAILED, NO_CANDIDATES[i]);
        if p != PASSED { return; }
      }
      assert Failures(1)[4] == "NO_SURVIVOR_INSIDE_DECLARED_TOLERANCE";
      p := Guard(1, 1, FAILED, "NO_SURVIVOR_INSIDE_DECLARED_TOLERANCE");
    }

    /** P1, from the human seed to a surface worth having. */
    method Grow() returns (p: Progress, ghost own: seq<string>)
      requires At(1, 1)
      modifies this`posts, this`said, this`held, rows
      ensures own == [] || own == ["MANUAL_SEED_PROVENANCE_MISSING"]
      ensures p == PASSED ==> At(1, 2) && held == old(held) + own + Questions(1)[10..]
      ensures p != PASSED ==> After(1, p)
    {
      hide At, After, Accounts, Late, Early, Tells;
      p, own := Place();
      if p != PASSED { return; }
      p := Grown();
    }

    /** The seed, placed now or found placed. */
    method Place() returns (p: Progress, ghost own: seq<string>)
      requires At(1, 1)
      modifies this`posts, this`said, this`held, rows
      ensures own == [] || own == ["MANUAL_SEED_PROVENANCE_MISSING"]
      ensures p == PASSED ==> At(1, 2) && held == old(held) + own && (own == [] ==> posts[1].reply == ALREADY_PLACED)
      ensures p != PASSED ==> After(1, p)
    {
      hide Accounts, Reached, StoppedAt;
      own := [];
      p := Fetch(1, 1);
      if p != PASSED { return; }
      var reply: Reply;
      p, reply := Send(1, 1, MANUAL_SEED, false, None);
      if p != PASSED { return; }
      if reply == ANSWERED {
        p := Guard(1, 2, INCOMPLETE, "MANUAL_SEED_PROVENANCE_MISSING");
        own := ["MANUAL_SEED_PROVENANCE_MISSING"];
      }
    }

    /** What grew from it. */
    method Grown() returns (p: Progress)
      requires At(1, 2)
      modifies this`held, rows
      ensures p == PASSED ==> At(1, 2) && held == old(held) + Questions(1)[10..]
      ensures p != PASSED ==> After(1, p)
    {
      hide At, After, Accounts;
      p := Guard(1, 2, INCOMPLETE, "GROW_NONTERMINAL_TIMEOUT");
      if p != PASSED { return; }
      p := Fetch(1, 2);
      if p != PASSED { return; }
      assert Failures(1)[5] == "GROW_REJECTED" && Failures(1)[6] == "TINY_SURFACE_DIAGNOSTIC_ONLY";
      p := Guard(1, 2, FAILED, "GROW_REJECTED");
      if p != PASSED { return; }
      p := Guard(1, 2, INCOMPLETE, "MANUAL_SEED_PROVENANCE_MISSING");
      if p != PASSED { return; }
      p := Guard(1, 2, FAILED, "TINY_SURFACE_DIAGNOSTIC_ONLY");
      if p != PASSED { return; }
      p := Guard(1, 2, INCOMPLETE, "MISSING_CANONICAL_GROW_ARTIFACT");
      hide Tells, Late, Early, Failures;
    }

    method P2() returns (p: Progress)
      requires At(2, 2)
      modifies this`held, rows
      ensures After(2, p)
      ensures p == PASSED ==> held == old(held) + Questions(2)
    {
      hide At, After, Accounts;
      p := Guard(2, 2, INCOMPLETE, "P2_SURFACE_LINEAGE_MISSING");
      if p != PASSED { return; }
      p := Fetch(2, 2);
      if p != PASSED { return; }
      var geometry: string, finalizerRest: bool, jobRest: bool := *, *, *;
      var certification := Certification(geometry, finalizerRest, "", jobRest);
      RejectionNeedsJob(certification);
      var (state, reason) := P2Verdict(certification);
      if state == PASS {
        Pass(2, reason);
        return PASSED;
      }
      Stop(2, 2, state, reason);
      p := STOPPED;
    }

    method QC() returns (p: Progress)
      requires At(3, 2)
      modifies this`held, rows
      ensures After(3, p)
      ensures p == PASSED ==> held == old(held) + Questions(3)
    {
      hide At, After, Accounts;
      p := Guard(3, 2, INCOMPLETE, "PHYSICAL_QC_NONTERMINAL");
      if p != PASSED { return; }
      p := Guard(3, 2, INCOMPLETE, "PHYSICAL_QC_HASH_BOUND_RECEIPT_MISSING");
      if p != PASSED { return; }
      p := Guard(3, 2, INCOMPLETE, "PHYSICAL_QC_CURRENT_JOB_EVIDENCE_MISSING");
      if p != PASSED { return; }
      p := Guard(3, 2, FAILED, "PHYSICAL_QC_TERMINAL_INCOMPATIBLE");
      if p != PASSED { return; }
      Pass(3, "PHYSICAL_QC_DOWNSTREAM_COMPATIBLE");
    }

    method P3() returns (p: Progress)
      requires At(4, 2)
      modifies this`posts, this`said, this`held, rows
      ensures After(4, p)
      ensures p == PASSED ==> held == old(held) + Questions(4)
    {
      hide At, After, Accounts;
      ghost var reply: Reply;
      p, reply := Job(4, 2, FLATTEN, "P3_REFUSED_BY_THE_PLATFORM");
      if p != PASSED { return; }
      p := Fetch(4, 3);
      if p != PASSED { return; }
      p := Guard(4, 3, INCOMPLETE, "MISSING_HASH_BOUND_FLATTENED_ARTIFACT");
      if p != PASSED { return; }
      p := Guard(4, 3, INCOMPLETE, "P3_CURRENT_JOB_EVIDENCE_MISSING");
      if p != PASSED { return; }
      p := Guard(4, 3, INCOMPLETE, "MISSING_HASH_BOUND_FLATTENED_ARTIFACT");
      if p != PASSED { return; }
      Pass(4, "HASH_BOUND_FLATTENED_ARTIFACT");
    }

    method P4() returns (p: Progress)
      requires At(5, 3)
      modifies this`posts, this`said, this`held, rows
      ensures After(5, p)
      ensures p == PASSED ==> held == old(held) + Questions(5)
    {
      hide At, After, Accounts;
      p := Fetch(5, 3);
      if p != PASSED { return; }
      p := Guard(5, 3, INCOMPLETE, "ORIENTATION_UNPROVEN");
      if p != PASSED { return; }
      ghost var reply: Reply;
      p, reply := Job(5, 3, RENDER, "P4_REFUSED_BY_THE_PLATFORM");
      if p != PASSED { return; }
      p := Guard(5, 4, INCOMPLETE, "P4_INPUT_LINEAGE_MISMATCH");
      if p != PASSED { return; }
      p := Guard(5, 4, INCOMPLETE, "INCOMPLETE_RENDER_MANIFEST");
      if p != PASSED { return; }
      Pass(5, "COMPLETE_HASH_BOUND_LAYER_MANIFEST");
    }

    method P5() returns (p: Progress)
      requires At(6, 4)
      modifies this`posts, this`said, this`held, rows
      ensures After(6, p)
      ensures p == PASSED ==> held == old(held) + Questions(6)
    {
      hide At, After, Accounts;
      p := Guard(6, 4, INCOMPLETE, "P5_LATERAL_METRIC_UNPROVEN");
      if p != PASSED { return; }
      p := Guard(6, 4, INCOMPLETE, "P5_MODEL_NOT_INSTALLED");
      if p != PASSED { return; }
      ghost var reply: Reply;
      p, reply := Job(6, 4, SCREEN, "P5_REFUSED_BY_THE_PLATFORM");
      if p != PASSED { return; }
      p := Screened();
      if p != PASSED { return; }
      Pass(6, "ALIVE_HASH_BOUND_PROBABILITY_MAP");
    }

    /** The map the screening made. */
    method Screened() returns (p: Progress)
      requires At(6, 5)
      modifies this`held, rows
      ensures p == PASSED ==> At(6, 5) && held == old(held) + Questions(6)[2..]
      ensures p != PASSED ==> After(6, p)
    {
      hide At, After, Accounts;
      p := Guard(6, 5, INCOMPLETE, "P5_INPUT_OR_MODEL_LINEAGE_MISMATCH");
      if p != PASSED { return; }
      p := Guard(6, 5, FAILED, "P5_DEGENERATE_OR_EMPTY");
    }

    method P7() returns (p: Progress)
      requires At(7, 5)
      modifies this`posts, this`said, this`held, rows
      ensures After(7, p)
      ensures p == PASSED ==> held == old(held) + Questions(7)
    {
      hide At, After, Accounts, Late, Early, Tells;
      p := Locate();
      if p != PASSED { return; }
      p := Adjudicate();
      if p != PASSED { return; }
      Pass(7, "KNOWN_POSITIVE_ROUTED_TO_REVIEW");
    }

    /** P7, up to the region to adjudicate. */
    method Locate() returns (p: Progress)
      requires At(7, 5)
      modifies this`held, rows
      ensures p == PASSED ==> At(7, 5) && held == old(held) + Questions(7)[..3]
      ensures p != PASSED ==> After(7, p)
    {
      hide At, After, Accounts;
      p := Guard(7, 5, INCOMPLETE, "P7_BBOX_INPUT_MISSING");
      if p != PASSED { return; }
      p := Fetch(7, 5);
      if p != PASSED { return; }
      p := Guard(7, 5, INCOMPLETE, "P7_ROI_UNPROVEN");
      if p != PASSED { return; }
      p := Guard(7, 5, INCOMPLETE, "P7_PHYSICAL_SCALE_MISSING");
    }

    /** P7, from the job to its packet. */
    method Adjudicate() returns (p: Progress)
      requires At(7, 5)
      modifies this`posts, this`said, this`held, rows
      ensures p == PASSED ==> At(7, 6) && held == old(held) + Questions(7)[3..]
      ensures p != PASSED ==> After(7, p)
    {
      hide At, After, Accounts;
      ghost var reply: Reply;
      p, reply := Job(7, 5, ADJUDICATE, "P7_REFUSED_BY_THE_PLATFORM");
      if p != PASSED { return; }
      p := Guard(7, 6, INCOMPLETE, "P7_INPUT_LINEAGE_MISMATCH");
      if p != PASSED { return; }
      p := Fetch(7, 6);
      if p != PASSED { return; }
      p := Guard(7, 6, FAILED, "P7_ROUTE_CONTRADICTS_KNOWN_POSITIVE");
      if p != PASSED { return; }
      p := Guard(7, 6, INCOMPLETE, "MISSING_HASH_BOUND_P7_PACKET");
    }

    method HumanReview() returns (p: Progress)
      requires At(8, 6)
      modifies this`posts, this`said, this`held, rows
      ensures After(8, p)
      ensures p == PASSED ==> held == old(held) + Questions(8)
    {
      hide At, After, Accounts;
      p := Fetch(8, 6);
      if p != PASSED { return; }
      var reply: Reply;
      p, reply := Send(8, 6, REVIEW, false, Some("HUMAN_REVIEW_REFUSED_BY_THE_PLATFORM"));
      if p != PASSED { return; }
      p := Fetch(8, 7);
      if p != PASSED { return; }
      p := Guard(8, 7, INCOMPLETE, "HUMAN_REVIEW_ROUTING_MISSING");
      if p != PASSED { return; }
      Pass(8, "HUMAN_REVIEW_PACKET_ROUTED");
    }

    /** A boundary that passed leaves the run at the next one. */
    lemma Onward(k: nat)
      requires k < 8 && After(k, PASSED)
      ensures At(k + 1, Before(k + 1))
    {}

    /** `_run_boundaries`: k is the boundary the run came to, or nine. */
    method RunBoundaries() returns (p: Progress, ghost k: nat)
      requires Reached(rows[..], 0) && posts == []
      modifies this`posts, this`said, this`held, rows
      ensures k < 9 && After(k, p) && (p == PASSED ==> k == 8)
      ensures p == PASSED ==> Asked(held, 9)
    {
      hide Reached, StoppedAt, InScript, Asked, Questions, Accounts, After;
      assert InScript(posts) by { Nothing(posts); }
      assert At(0, 0);
      hide At;
      k := 0;
      p := P0();
      if p != PASSED { return; }
      AskedFirst(held);
      Onward(0);
      k := 1;
      ghost var own;
      ghost var before := held;
      p, own := P1();
      if p != PASSED { return; }
      AskedSplit(held, before, own);
      Onward(1);
      k, before := 2, held;
      p := P2();
      if p != PASSED { return; }
      AskedNext(held, before, 2);
      Onward(2);
      k, before := 3, held;
      p := QC();
      if p != PASSED { return; }
      AskedNext(held, before, 3);
      Onward(3);
      k, before := 4, held;
      p := P3();
      if p != PASSED { return; }
      AskedNext(held, before, 4);
      Onward(4);
      k, before := 5, held;
      p := P4();
      if p != PASSED { return; }
      AskedNext(held, before, 5);
      Onward(5);
      k, before := 6, held;
      p := P5();
      if p != PASSED { return; }
      AskedNext(held, before, 6);
      Onward(6);
      k, before := 7, held;
      p := P7();
      if p != PASSED { return; }
      AskedNext(held, before, 7);
      Onward(7);
      k, before := 8, held;
      p := HumanReview();
      if p != PASSED { return; }
      AskedNext(held, before, 8);
    }
  }

  /** Every question of the boundaries before the k-th was answered well. */
  ghost predicate Asked(held: seq<string>, k: nat) { forall b: nat, q :: b < k && q in Questions(b) ==> q in held }

  lemma AskedFirst(held: seq<string>)
    requires forall q :: q in Questions(0) ==> q in held
    ensures Asked(held, 1)
  {
    hide Questions;
  }

  lemma AskedNext(held: seq<string>, before: seq<string>, k: nat)
    requires Asked(before, k) && held == before + Questions(k)
    ensures Asked(held, k + 1)
  {
    hide Questions;
  }

  lemma AskedSplit(held: seq<string>, before: seq<string>, own: seq<string>)
    requires Asked(before, 1) && |Questions(1)| >= 10 && held == before + Questions(1)[..10] + own + Questions(1)[10..]
    ensures Asked(held, 2)
  {
    hide Questions;
    forall q | q in Questions(1) ensures q in held {
      assert Questions(1) == Questions(1)[..10] + Questions(1)[10..];
    }
  }

  /** A control with a row that did not pass does not pass. */
  lemma PassNeedsAll(r: Receipt, k: nat)
    requires k < |r.body.stages| && r.body.stages[k].state != PASS
    ensures Evaluate(r).Ok? ==> Evaluate(r).value.body.outcome != Some(Outcome(CONTROL_PASS, None))
  {
    if Evaluate(r).Ok? {
      OutcomeMeans(r);
      hide Evaluate;
    }
  }

  lemma Nothing(posts: seq<Posted>)
    requires posts == []
    ensures InScript(posts)
  {}

  // ---- the whole run ----

  /** A receipt and the mutations behind it: rows that passed, at most one that
      did not, and rows never reached; every mutation sent at most once, in
      order, after everything before it passed and was answered; and an unclear
      reply the end of the run, on its own boundary, as incomplete. */
  ghost predicate Honest(receipt: Receipt, posts: seq<Posted>, said: set<string>) {
    var stages := receipt.body.stages;
    var k := FirstNonPass(stages);
    && (Reached(stages, 9) || StoppedAt(stages, k)) && Evaluate(receipt) == Ok(receipt)
    && Within(posts, k)
    && (k < 9 ==> k < |stages| && Accounts(stages[k], k, posts, said))
    && receipt.body.outcome.Some?
    && (receipt.body.outcome.value.state == CONTROL_PASS <==> k == 9)
    && (receipt.body.outcome.value.state == CONTROL_PASS ==> Complete(posts, 9))
    && receipt.body.outcome.value.first == if k == 9 then None else Some(BOUNDARIES[k])
  }

  lemma EvaluatedRunIsHonest(rows: seq<Row>, posts: seq<Posted>, said: set<string>, k: nat, r: Receipt)
    requires
      || (k == 9 && Reached(rows, 9) && Complete(posts, 9))
      || (StoppedAt(rows, k) && Within(posts, k) && Accounts(rows[k], k, posts, said))
    requires r.body.schema == SCHEMA && r.body.stages == rows
    ensures Evaluate(r).Ok? && Evaluate(r).value.body.stages == rows && Honest(Evaluate(r).value, posts, said)
  {
    assert |rows| == |BOUNDARIES| == 9;
    FirstIs(rows, k);
    assert Normalized(rows) == rows;
    assert rows != [] && Shape(SCHEMA) == Some(BOUNDARIES);
    EvaluateIdempotent(r);
    assert k < 9 ==> rows[k].boundary == Boundaries(rows)[k];
    assert k == 9 ==> Went(posts[|posts|-1]);
    hide FirstNonPass, Shape;
  }

  /** What a receipt alone proves was never sent, if its reason is not one the
      panel sent: nothing of the boundary's own, or, from discovery, no seed. */
  lemma NeverSent(receipt: Receipt, posts: seq<Posted>, said: set<string>)
    requires Honest(receipt, posts, said)
    ensures var k := FirstNonPass(receipt.body.stages);
      k < 9 && receipt.body.stages[k].reason !in said ==>
        && (receipt.body.stages[k].reason in Early(k) ==> forall p :: p in posts ==> p.mutation in SCRIPT[..Before(k)])
        && (k == 1 && receipt.body.stages[k].reason in DISCOVERY ==> forall p :: p in posts ==> p.mutation == PREFLIGHT)
  {
    hide Reached, StoppedAt, Early, DISCOVERY, Evaluate, FirstNonPass;
    var k := FirstNonPass(receipt.body.stages);
    if k < 9 && receipt.body.stages[k].reason !in said {
      ReasonSaysWhatWasSent(receipt.body.stages[k], k, posts, said);
      assert forall i :: 0 <= i < |posts| ==> posts[i].mutation == SCRIPT[i];
    }
  }

  datatype Setup = Setup(
    rightSchema: bool, mission: string, submittedBy: string, revision: string, keepsValidation: bool, contentBlind: bool)

  datatype SetupError = WRONG_SCHEMA | UNNAMED | UNVALIDATED | NOT_BLIND

  /** What escapes is recorded on the row the run had reached, as incomplete, by
      the panel's code or as unexpected. */
  method Escape(control: Control, ghost k: nat)
    requires k < 9 && Reached(control.rows[..], k) && Within(control.posts, k)
    requires control.posts != [] ==> !Unclear(control.posts[|control.posts|-1])
    modifies control`said, control.rows
    ensures k < control.rows.Length && StoppedAt(control.rows[..], k)
    ensures Accounts(control.rows[k], k, control.posts, control.said)
  {
    hide Reached, StoppedAt, InScript, Tells, Within;
    var refused: bool, detail: string := *, *;
    var reason := "UNEXPECTED_FAILURE";
    if refused {
      reason := control.RefusalReason("UNEXPECTED_REFUSAL");
    }
    LengthNine(control.rows[..], k);
    EscapeLands(control.rows[..], k, reason, detail);
    RecordUnexpectedRefusal(control.rows, reason, detail);
  }

  /** Where a run that came to its k-th boundary ends, once whatever escaped is on its row. */
  method Land(control: Control, p: Progress, ghost k: nat) returns (ghost end: nat)
    requires k < 9 && control.After(k, p) && (p == PASSED ==> k == 8)
    modifies control`said, control.rows
    ensures if p == PASSED then end == 9 && Reached(control.rows[..], 9) && Complete(control.posts, 9)
            else end < control.rows.Length && StoppedAt(control.rows[..], end) && Within(control.posts, end)
                 && Accounts(control.rows[end], end, control.posts, control.said)
  {
    hide Reached, InScript, Accounts;
    end := k;
    if p == PASSED {
      end := 9;
    } else if p == ESCAPED {
      end := if Reached(control.rows[..], k) && Within(control.posts, k) then k else k + 1;
      Escape(control, end);
    }
  }

  /** `run_positive_control` */
  method RunPositiveControl(setup: Setup, declared: seq<map<string, string>>, bindings: map<string, string>)
    returns (r: Result<Receipt, SetupError>, ghost posts: seq<Posted>, ghost said: set<string>, ghost held: seq<string>)
    requires |declared| == 9
    ensures r.Ok? <==>
      && setup.rightSchema && setup.keepsValidation && setup.contentBlind
      && Strip(setup.mission) != "" && Strip(setup.submittedBy) != "" && Strip(setup.revision) != ""
    ensures r.Err? ==> posts == []
    ensures r.Ok? ==> Honest(r.value, posts, said)
    ensures r.Ok? && r.value.body.outcome == Some(Outcome(CONTROL_PASS, None)) ==> Asked(held, 9)
  {
    posts, said, held := [], {}, [];
    hide Strip, Reached, StoppedAt, InScript, Evaluate, Honest, Asked;
    if !setup.rightSchema {
      return Err(WRONG_SCHEMA), posts, said, held;
    }
    if Strip(setup.mission) == "" || Strip(setup.submittedBy) == "" || Strip(setup.revision) == "" {
      return Err(UNNAMED), posts, said, held;
    }
    if !setup.keepsValidation {
      return Err(UNVALIDATED), posts, said, held;
    }
    if !setup.contentBlind {
      return Err(NOT_BLIND), posts, said, held;
    }
    var control := new Control(declared);
    var p: Progress;
    ghost var k: nat;
    p, k := control.RunBoundaries();
    k := Land(control, p, k);
    posts, said, held := control.posts, control.said, control.held;
    var evaluated := EvaluateSurvivalMatrix(SCHEMA, bindings, control.rows);
    if k < 9 {
      assert control.rows[..][k].state != PASS by { StoppedState(control.rows[..], k); }
      PassNeedsAll(Receipt(Body(SCHEMA, bindings, control.rows[..], None), None), k);
    }
    EvaluatedRunIsHonest(control.rows[..], posts, said, k, Receipt(Body(SCHEMA, bindings, control.rows[..], None), None));
    r := Ok(evaluated.value);
  }

  lemma StoppedState(rows: seq<Row>, k: nat)
    requires StoppedAt(rows, k)
    ensures k < |rows| && rows[k].state != PASS
  {}

  lemma LengthNine(rows: seq<Row>, k: nat)
    requires Reached(rows, k)
    ensures |rows| == 9
  {}
}

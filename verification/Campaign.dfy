/** One First Letters campaign as a sequence of transactional waves
    (scripts/harness/run_first_letters_campaign.py).

    The control plane is adversarial: every reply is arbitrary, and any call may
    raise.  The panel keeps a ghost trace of the calls made, and the theorems
    are about that trace. */
module Campaign {
  import opened Wrappers
  import opened Text

  // ---- what the control plane says ----

  datatype Budget = Budget(planned: Option<int>, receiptSha: string)

  datatype ScrollRow = ScrollRow(
    sampleId: Option<string>, requestedSampleId: Option<string>,
    queueAdmitted: bool, blockers: seq<string>, budget: Budget)

  datatype Queue = Queue(available: bool, reason: string, active: set<string>, attemptCount: int)

  datatype Pause = Pause(active: bool, decision: string)

  datatype Readiness = Readiness(
    sha: string, revision: string, controlled: bool, blockers: seq<string>,
    pause: Pause, scrolls: seq<ScrollRow>, queue: Queue)

  datatype ArtifactRow = ArtifactRow(kind: string, sha: Option<string>)

  const VETTING_PACKET_KIND := "vetting-packet"

  predicate IsSha256(s: string) { |s| == 64 && AllHex(s) }

  /** The hash-bound vetting packets among the P7 artifacts. */
  function ReviewPackets(rows: seq<ArtifactRow>): set<string> {
    set i | 0 <= i < |rows| && rows[i].kind == VETTING_PACKET_KIND && rows[i].sha.Some?
            && IsSha256(rows[i].sha.value) :: rows[i].sha.value
  }

  /** A list that holds something a person has to look at: a vetting packet
      under a digest of 64 lower-case hexadecimal digits. */
  ghost predicate AwaitsPerson(rows: seq<ArtifactRow>) {
    exists i :: 0 <= i < |rows| && rows[i].kind == "vetting-packet" && rows[i].sha.Some? && |rows[i].sha.value| == 64
                && forall k :: 0 <= k < 64 ==> '0' <= rows[i].sha.value[k] <= '9' || 'a' <= rows[i].sha.value[k] <= 'f'
  }

  /** What is found on a list is exactly the digests of such packets. */
  lemma PacketFound(rows: seq<ArtifactRow>, sha: string)
    ensures sha in ReviewPackets(rows) <==>
      exists i :: 0 <= i < |rows| && rows[i] == ArtifactRow("vetting-packet", Some(sha)) && AwaitsPerson([rows[i]])
  {
    forall i | 0 <= i < |rows|
      ensures AwaitsPerson([rows[i]]) <==> rows[i].kind == VETTING_PACKET_KIND && rows[i].sha.Some? && IsSha256(rows[i].sha.value)
    {
      assert [rows[i]][0] == rows[i];
    }
    if sha in ReviewPackets(rows) {
      var i :| 0 <= i < |rows| && rows[i].kind == VETTING_PACKET_KIND && rows[i].sha == Some(sha) && IsSha256(sha);
      assert rows[i].kind == "vetting-packet";
    }
  }

  lemma PacketsAwaitPerson(rows: seq<ArtifactRow>)
    ensures ReviewPackets(rows) != {} <==> AwaitsPerson(rows)
  {
    if AwaitsPerson(rows) {
      var i :| 0 <= i < |rows| && rows[i].kind == "vetting-packet" && rows[i].sha.Some? && |rows[i].sha.value| == 64
               && forall k :: 0 <= k < 64 ==> '0' <= rows[i].sha.value[k] <= '9' || 'a' <= rows[i].sha.value[k] <= 'f';
      assert rows[i].sha.value in ReviewPackets(rows);
    }
    if s :| s in ReviewPackets(rows) {
      PacketFound(rows, s);
      var i :| 0 <= i < |rows| && rows[i] == ArtifactRow("vetting-packet", Some(s)) && AwaitsPerson([rows[i]]);
      assert [rows[i]][0] == rows[i];
    }
  }

  /** The first row that names the sample under either of its ids. */
  function ScrollState(rows: seq<ScrollRow>, sample: string): Option<ScrollRow> {
    if rows == [] then None
    else if Names(rows[0], sample) then Some(rows[0])
    else ScrollState(rows[1..], sample)
  }

  lemma {:induction false} ScrollStateIsFirst(rows: seq<ScrollRow>, sample: string)
    ensures ScrollState(rows, sample) == None <==> forall i :: 0 <= i < |rows| ==> !Names(rows[i], sample)
    ensures forall i :: 0 <= i < |rows| && Names(rows[i], sample) && (forall j :: 0 <= j < i ==> !Names(rows[j], sample))
              ==> ScrollState(rows, sample) == Some(rows[i])
  {
    if rows != [] && !Names(rows[0], sample) {
      ScrollStateIsFirst(rows[1..], sample);
      assert forall i :: 0 < i < |rows| ==> rows[i] == rows[1..][i-1];
      forall i | 0 <= i < |rows| && Names(rows[i], sample) && (forall j :: 0 <= j < i ==> !Names(rows[j], sample))
        ensures ScrollState(rows, sample) == Some(rows[i])
      {
        assert rows[1..][i-1] == rows[i];
        assert forall j :: 0 <= j < i - 1 ==> rows[1..][j] == rows[j+1];
      }
    }
  }

  predicate Names(row: ScrollRow, sample: string) {
    row.sampleId == Some(sample) || row.requestedSampleId == Some(sample)
  }

  // ---- the calls made, in order ----

  datatype PostOutcome =
    | Ambiguous(detail: string)                             // the mutation may or may not have committed
    | Refused                                               // any other exception
    | Created(inserted: Option<int>, generated: Option<int>) // None: not an integer

  datatype Event =
    | Read(readiness: Readiness)
    | ReadFailed
    | Packets(rows: seq<ArtifactRow>)
    | PacketsFailed
    | Post(sample: string, maxTasks: int, receiptSha: string, outcome: PostOutcome)

  class Panel {
    ghost var trace: seq<Event>

    constructor ()
      ensures trace == []
    {
      trace := [];
    }

    method ReadReadiness() returns (r: Option<Readiness>)
      modifies this
      ensures trace == old(trace) + [if r.Some? then Read(r.value) else ReadFailed]
    {
      r := *;
      trace := trace + [if r.Some? then Read(r.value) else ReadFailed];
    }

    method ReadArtifacts() returns (r: Option<seq<ArtifactRow>>)
      modifies this
      ensures trace == old(trace) + [if r.Some? then Packets(r.value) else PacketsFailed]
    {
      r := *;
      trace := trace + [if r.Some? then Packets(r.value) else PacketsFailed];
    }

    method PostRun(sample: string, maxTasks: int, receiptSha: string) returns (r: PostOutcome)
      modifies this
      ensures trace == old(trace) + [Post(sample, maxTasks, receiptSha, r)]
    {
      r := *;
      trace := trace + [Post(sample, maxTasks, receiptSha, r)];
    }
  }

  /** A monotone clock in its own ticks; sleeping always moves it. */
  class Clock {
    var now: int

    constructor () {
    }

    method Tick() returns (t: int)
      modifies this
      ensures t == now >= old(now)
    {
      var drift: nat :| drift >= 0;
      now := now + drift;
      t := now;
    }

    method Sleep(ticks: int)
      modifies this
      ensures now > old(now)
    {
      var drift: nat :| drift >= 0;
      now := now + 1 + drift;
    }
  }

  // ---- the ledger ----

  datatype StopReason =
    | READINESS_BLOCKED | FROZEN_AMBIGUOUS_WAVE_POST | HUMAN_REVIEW_PACKET_ROUTED
    | MISSION_IS_NOT_A_CONTROLLED_CAMPAIGN | PAUSE_CANDIDATE_STARVATION | SCROLL_NOT_ADMITTED
    | QUEUE_STATE_UNREADABLE | WAVE_LIMIT_REACHED | WAVE_DID_NOT_REACH_TERMINAL

  datatype WaveOutcome = AMBIGUOUS_NOT_RETRIED | OVER_BUDGET_INSERT | TERMINAL | NOT_TERMINAL

  datatype Wave = Wave(
    index: int, readinessSha: string, budgetReceiptSha: string,
    budgeted: int, requested: int, baselineAttempts: int, baselineActive: set<string>,
    enqueued: Option<int>, generated: Option<int>,
    activeAtClose: set<string>, closingAttempts: Option<int>, pauseAfter: Option<Pause>,
    outcome: WaveOutcome)

  datatype LedgerBody = LedgerBody(
    sample: string, revision: string, openingSha: string, closingSha: string,
    maximumWaves: int, waves: seq<Wave>, blockers: seq<string>,
    openingPackets: set<string>, reviewPackets: set<string>,
    stoppedBecause: Option<StopReason>, stoppedDetail: string)

  function Stopped(body: LedgerBody, because: StopReason, detail: string, readiness: Readiness): LedgerBody {
    body.(stoppedBecause := Some(because), stoppedDetail := detail, closingSha := readiness.sha, blockers := readiness.blockers)
  }

  class Ledger {
    var body: LedgerBody
    var contentSha: Option<Digest<LedgerBody>>

    constructor (body: LedgerBody)
      ensures this.body == body && contentSha == None
    {
      this.body := body;
      contentSha := None;
    }

    ghost predicate Sealed()
      reads this
    {
      contentSha == Some(Sha256(body)) && body.stoppedBecause.Some?
    }

    /** Drops any earlier seal and binds the digest to what the ledger says now. */
    method Seal()
      modifies this
      ensures body == old(body) && contentSha == Some(Sha256(body))
    {
      contentSha := None;
      contentSha := Some(Sha256(body));
    }

    method Stop(because: StopReason, detail: string, readiness: Readiness)
      modifies this
      ensures Sealed() && body == Stopped(old(body), because, detail, readiness)
    {
      body := body.(stoppedBecause := Some(because), stoppedDetail := detail);
      body := body.(closingSha := readiness.sha, blockers := readiness.blockers);
      Seal();
    }
  }

  // ---- what a lawful campaign looks like from the outside ----

  /** This read says go, and the POST asks for exactly its budget. */
  ghost predicate Justifies(r: Readiness, e: Event) {
    && e.Post?
    && r.blockers == [] && !r.pause.active && r.queue.available
    && ScrollState(r.scrolls, e.sample).Some?
    && ScrollState(r.scrolls, e.sample).value.queueAdmitted
    && ScrollState(r.scrolls, e.sample).value.budget == Budget(Some(e.maxTasks), e.receiptSha)
    && e.maxTasks >= 1
  }

  /** The control plane's answer could be read, and it kept to the budget. */
  ghost predicate WithinBudget(e: Event) {
    e.Post? && e.outcome.Created? && e.outcome.inserted.Some? && e.outcome.inserted.value <= e.maxTasks
  }

  /** Wave i was decided at `b`: a readiness read, then no review packet, then the POST. */
  ghost predicate WaveAt(tr: seq<Event>, sample: string, b: nat) {
    && b + 2 < |tr| && tr[b].Read? && tr[b+1].Packets? && ReviewPackets(tr[b+1].rows) == {}
    && Justifies(tr[b].readiness, tr[b+2]) && tr[b+2].sample == sample
  }

  /** A wait beginning at `start` ends with the read at `c`: every read before it
      still showed a task outside the baseline. */
  ghost predicate Waited(tr: seq<Event>, start: nat, c: nat, baseline: set<string>) {
    && start <= c < |tr| && (forall k :: start <= k <= c ==> tr[k].Read?)
    && forall k :: start <= k < c ==> tr[k].readiness.queue.active - baseline != {}
  }

  /** The wave decided at `b` stayed within budget, and the next one is decided
      from the read at `c` that ended the wait for it. */
  ghost predicate Followed(tr: seq<Event>, b: nat, c: nat) {
    && b + 2 < c < |tr| && tr[b].Read? && tr[c].Read? && WithinBudget(tr[b+2])
    && Waited(tr, b + 3, c, tr[b].readiness.queue.active)
    && tr[c].readiness.queue.active <= tr[b].readiness.queue.active
  }

  ghost predicate Lawful(tr: seq<Event>, sample: string, maximumWaves: int, bases: seq<nat>) {
    && (bases != [] ==> bases[0] == 0 && |bases| <= maximumWaves && tr != [] && tr[0].Read? && tr[0].readiness.controlled)
    && (forall i :: 0 <= i < |bases| ==> WaveAt(tr, sample, bases[i]))
    && (forall i, j :: 0 <= i < j < |bases| && j == i + 1 ==> Followed(tr, bases[i], bases[j]))
    && (forall k :: 0 <= k < |tr| && tr[k].Post? ==> k >= 2 && k - 2 in bases)
  }

  /** What a ledger row says of its decision and its POST. */
  ghost predicate RowOpens(w: Wave, index: int, base: Readiness, post: Event)
    requires post.Post?
  {
    && w.index == index && w.readinessSha == base.sha
    && w.budgetReceiptSha == post.receiptSha && w.budgeted == w.requested == post.maxTasks
    && w.baselineActive == base.queue.active && w.baselineAttempts == base.queue.attemptCount
    && (w.outcome == AMBIGUOUS_NOT_RETRIED <==> post.outcome.Ambiguous?)
    && (w.outcome == OVER_BUDGET_INSERT <==> post.outcome.Created? && !WithinBudget(post))
    && (w.outcome in {TERMINAL, NOT_TERMINAL} <==> WithinBudget(post))
    && (post.outcome.Ambiguous? ==> w.enqueued == w.generated == None)
    && (post.outcome.Created? ==> w.enqueued == post.outcome.inserted && w.generated == post.outcome.generated)
  }

  /** What it says of the end of its wait is what the read at `c` showed. */
  ghost predicate ClosedAt(w: Wave, tr: seq<Event>, b: nat, c: nat)
    requires b < |tr| && tr[b].Read?
  {
    && Waited(tr, b + 3, c, tr[b].readiness.queue.active)
    && w.activeAtClose == tr[c].readiness.queue.active - tr[b].readiness.queue.active
    && w.closingAttempts == Some(tr[c].readiness.queue.attemptCount) && w.pauseAfter == Some(tr[c].readiness.pause)
    && w.outcome == if w.activeAtClose == {} then TERMINAL else NOT_TERMINAL
  }

  /** The trace ends with that read and a packet list. */
  ghost predicate EndsWith(w: Wave, tr: seq<Event>, b: nat) {
    && b < |tr| && tr[b].Read? && |tr| >= 2 && ClosedAt(w, tr, b, |tr| - 2)
    && tr[|tr|-2].Read? && tr[|tr|-1].Packets? && LastRead(tr) == Some(tr[|tr|-2].readiness)
  }

  /** One ledger row tells the truth about one POST and the wait for it: a
      terminal wave's last read is followed by its packets, one that ran out of
      time ends the trace, and the other rows have no close. */
  ghost predicate RowTells(w: Wave, index: int, tr: seq<Event>, b: nat)
    requires b + 2 < |tr| && tr[b].Read? && tr[b+2].Post?
  {
    && RowOpens(w, index, tr[b].readiness, tr[b+2])
    && (w.outcome == TERMINAL ==> exists c: nat :: ClosedAt(w, tr, b, c) && c + 1 < |tr| && tr[c+1].Packets?)
    && (w.outcome == NOT_TERMINAL ==> ClosedAt(w, tr, b, |tr| - 1))
    && (w.outcome in {AMBIGUOUS_NOT_RETRIED, OVER_BUDGET_INSERT} ==>
          w.activeAtClose == {} && w.closingAttempts == None && w.pauseAfter == None)
  }

  /** One row per POST, numbered from one, only the last of them unfinished. */
  ghost predicate LedgerTells(waves: seq<Wave>, tr: seq<Event>, sample: string, bases: seq<nat>) {
    && |waves| == |bases|
    && (forall i :: 0 <= i < |bases| ==> WaveAt(tr, sample, bases[i]) && RowTells(waves[i], i + 1, tr, bases[i]))
    && (forall i :: 0 <= i < |bases| - 1 ==> waves[i].outcome == TERMINAL)
  }

  // ---- why it stopped, as far as the calls show ----

  /** The last readiness read. */
  ghost function LastRead(tr: seq<Event>): Option<Readiness> {
    if tr == [] then None
    else if tr[|tr|-1].Read? then Some(tr[|tr|-1].readiness)
    else LastRead(tr[..|tr|-1])
  }

  /** The packets last listed, if any were. */
  ghost function LastPackets(tr: seq<Event>): set<string> {
    if tr == [] then {}
    else if tr[|tr|-1].Packets? then ReviewPackets(tr[|tr|-1].rows)
    else LastPackets(tr[..|tr|-1])
  }

  lemma {:induction false} LastReadIs(tr: seq<Event>, c: nat)
    requires c < |tr| && tr[c].Read? && forall k :: c < k < |tr| ==> !tr[k].Read?
    ensures LastRead(tr) == Some(tr[c].readiness)
    decreases |tr|
  {
    if c < |tr| - 1 {
      LastReadIs(tr[..|tr|-1], c);
    }
  }

  lemma {:induction false} LastPacketsIs(tr: seq<Event>, c: nat)
    requires c < |tr| && tr[c].Packets? && forall k :: c < k < |tr| ==> !tr[k].Packets?
    ensures LastPackets(tr) == ReviewPackets(tr[c].rows)
    decreases |tr|
  {
    if c < |tr| - 1 {
      LastPacketsIs(tr[..|tr|-1], c);
    }
  }

  /** The reason and the detail, given only the calls and how many waves they hold.
      A campaign ends with the read that condemned it, with an over-budget POST,
      or with a packet list and what the read before it says. */
  ghost function WhyStopped(tr: seq<Event>, sample: string, maximumWaves: int, waves: nat): (StopReason, string)
    requires tr != [] && LastRead(tr).Some?
  {
    var last, read := tr[|tr|-1], LastRead(tr).value;
    if last.Post? then (SCROLL_NOT_ADMITTED, OVER_BUDGET)
    else if last.Packets? then
      if ReviewPackets(last.rows) != {} then (HUMAN_REVIEW_PACKET_ROUTED, if waves == 0 then PACKET_WAITING else PACKET_ROUTED)
      else if waves > 0 && read.pause.active then (PAUSE_CANDIDATE_STARVATION, read.pause.decision)
      else if waves >= maximumWaves then (WAVE_LIMIT_REACHED, BOUND_REACHED)
      else
        match Decide(read, sample)
        case Halt(because, detail) => (because, detail)
        case Go(_, _) => (WAVE_LIMIT_REACHED, BOUND_REACHED)
    else if waves == 0 then (MISSION_IS_NOT_A_CONTROLLED_CAMPAIGN, NO_BINDING)
    else if |tr| > 1 && tr[|tr|-2].Post? && tr[|tr|-2].outcome.Ambiguous? then
      (FROZEN_AMBIGUOUS_WAVE_POST, tr[|tr|-2].outcome.detail)
    else (WAVE_DID_NOT_REACH_TERMINAL, IN_FLIGHT)
  }

  /** A person is only ever named for a packet on the last list. */
  lemma HumanReviewWhen(tr: seq<Event>, sample: string, maximumWaves: int, waves: nat)
    requires tr != [] && LastRead(tr).Some?
    ensures WhyStopped(tr, sample, maximumWaves, waves).0 == HUMAN_REVIEW_PACKET_ROUTED <==>
      tr[|tr|-1].Packets? && AwaitsPerson(tr[|tr|-1].rows)
  {
    hide ReviewPackets, AwaitsPerson, LastRead, Decide, OVER_BUDGET, PACKET_WAITING, PACKET_ROUTED, BOUND_REACHED, NO_BINDING, IN_FLIGHT;
    if tr[|tr|-1].Packets? { PacketsAwaitPerson(tr[|tr|-1].rows); }
    NoReadNamesPerson(LastRead(tr).value, sample);
  }

  lemma NoReadNamesPerson(r: Readiness, sample: string)
    ensures Decide(r, sample).Halt? ==> Decide(r, sample).because != HUMAN_REVIEW_PACKET_ROUTED
  {
    hide ScrollState;
  }

  /** No list but perhaps the last holds anything for a person. */
  ghost predicate NoPacketBefore(tr: seq<Event>, end: nat)
    requires end <= |tr|
  {
    forall p :: 0 <= p < end && tr[p].Packets? ==> ReviewPackets(tr[p].rows) == {}
  }

  ghost predicate SomeListAwaits(tr: seq<Event>) { exists p :: 0 <= p < |tr| && tr[p].Packets? && AwaitsPerson(tr[p].rows) }

  lemma LastListAwaits(tr: seq<Event>)
    requires tr != [] && NoPacketBefore(tr, |tr| - 1)
    ensures SomeListAwaits(tr) <==> tr[|tr|-1].Packets? && AwaitsPerson(tr[|tr|-1].rows)
  {
    forall p | 0 <= p < |tr| && tr[p].Packets? ensures AwaitsPerson(tr[p].rows) <==> ReviewPackets(tr[p].rows) != {} {
      PacketsAwaitPerson(tr[p].rows);
    }
    hide ReviewPackets, AwaitsPerson;
  }

  const OVER_BUDGET := "more inserted tasks than the frozen budget allows"
  const PACKET_WAITING := "a packet is already awaiting a person"
  const PACKET_ROUTED := "a person decides next"
  const BOUND_REACHED := "the requested bound was reached"
  const NO_BINDING := "no campaign binding"
  const IN_FLIGHT := "work still in flight"

  /** The closing half of a ledger: its read, its packets and its reason are those of the calls. */
  ghost predicate StopTells(body: LedgerBody, tr: seq<Event>, sample: string, waves: nat) {
    && tr != [] && LastRead(tr).Some?
    && body.closingSha == LastRead(tr).value.sha && body.blockers == LastRead(tr).value.blockers
    && body.reviewPackets == LastPackets(tr)
    && body.stoppedBecause == Some(WhyStopped(tr, sample, body.maximumWaves, waves).0)
    && body.stoppedDetail == WhyStopped(tr, sample, body.maximumWaves, waves).1
  }

  /** The opening half: what the first two calls said. */
  ghost predicate OpeningTells(body: LedgerBody, tr: seq<Event>, sample: string, maximumWaves: int) {
    && body.sample == sample && body.maximumWaves == maximumWaves
    && tr != [] && tr[0].Read? && body.openingSha == tr[0].readiness.sha && body.revision == tr[0].readiness.revision
    && body.openingPackets == if |tr| > 1 && tr[1].Packets? then ReviewPackets(tr[1].rows) else {}
  }

  /** What changes in a ledger as one wave is run: its row, and the close. */
  ghost predicate OnlyCloses(before: LedgerBody, after: LedgerBody, w: Wave) {
    after == before.(waves := before.waves + [w], closingSha := after.closingSha, blockers := after.blockers,
                     reviewPackets := after.reviewPackets, stoppedBecause := after.stoppedBecause,
                     stoppedDetail := after.stoppedDetail)
  }

  datatype Outcome =
    | Invalid                                                     // ValueError: fewer than one wave asked for
    | Returned                                                    // a sealed ledger
    | Frozen(waveIndex: int, detail: string, readback: Readiness) // CampaignFrozen, with its sealed ledger
    | Escaped                                                     // some other exception; no ledger

  // ---- the orchestrator ----

  /** Polls until no task outside the baseline is active, or the deadline passes. */
  method WaitForWave(panel: Panel, clock: Clock, baseline: set<string>, waitTicks: int, pollTicks: int)
    returns (reached: bool, readiness: Option<Readiness>)
    modifies panel, clock
    ensures |panel.trace| > |old(panel.trace)| && panel.trace[..|old(panel.trace)|] == old(panel.trace)
    ensures forall k :: |old(panel.trace)| <= k < |panel.trace| ==> panel.trace[k].Read? || panel.trace[k].ReadFailed?
    ensures readiness.Some? ==>
      panel.trace[|panel.trace| - 1] == Read(readiness.value) && Waited(panel.trace, |old(panel.trace)|, |panel.trace| - 1, baseline)
    ensures readiness.Some? ==> (reached <==> readiness.value.queue.active - baseline == {})
    ensures readiness.Some? && !reached ==> clock.now >= old(clock.now) + waitTicks
  {
    ghost var before := panel.trace;
    var started := clock.Tick();
    var deadline := started + waitTicks;
    readiness := panel.ReadReadiness();
    while readiness.Some?
      invariant |before| < |panel.trace| && panel.trace[..|before|] == before
      invariant forall k :: |before| <= k < |panel.trace| ==> panel.trace[k].Read? || panel.trace[k].ReadFailed?
      invariant readiness.Some? ==>
        panel.trace[|panel.trace| - 1] == Read(readiness.value) && Waited(panel.trace, |before|, |panel.trace| - 1, baseline)
      invariant clock.now >= started >= old(clock.now)
      decreases readiness.Some?, deadline - clock.now
    {
      var outstanding := readiness.value.queue.active - baseline;
      if outstanding == {} {
        return true, readiness;
      }
      var t := clock.Tick();
      if t >= deadline {
        return false, readiness;
      }
      clock.Sleep(pollTicks);
      readiness := panel.ReadReadiness();
    }
    reached := false;
  }

  datatype Decision = Go(planned: int, receiptSha: string) | Halt(because: StopReason, detail: string)

  /** Whether one readiness read allows a wave, checked in the control plane's order. */
  function Decide(r: Readiness, sample: string): Decision {
    if r.blockers != [] then Halt(READINESS_BLOCKED, r.blockers[0])
    else if r.pause.active then Halt(PAUSE_CANDIDATE_STARVATION, r.pause.decision)
    else
      var scroll := ScrollState(r.scrolls, sample);
      if scroll.None? then Halt(SCROLL_NOT_ADMITTED, "not a scroll of this campaign")
      else if !scroll.value.queueAdmitted then
        Halt(SCROLL_NOT_ADMITTED, if scroll.value.blockers == [] then "None: None" else scroll.value.blockers[0])
      else if scroll.value.budget.planned.None? || scroll.value.budget.planned.value < 1 then
        Halt(SCROLL_NOT_ADMITTED, "the current budget authorizes no tasks")
      else if !r.queue.available then Halt(QUEUE_STATE_UNREADABLE, r.queue.reason)
      else Go(scroll.value.budget.planned.value, scroll.value.budget.receiptSha)
  }

  /** A wave goes out exactly when the read justifies that POST, and no other POST. */
  lemma DecideIsJustified(r: Readiness, e: Event)
    requires e.Post?
    ensures Decide(r, e.sample) == Go(e.maxTasks, e.receiptSha) <==> Justifies(r, e)
    ensures Decide(r, e.sample).Halt? <==> forall f: Event :: f.Post? && f.sample == e.sample ==> !Justifies(r, f)
  {
    var d := Decide(r, e.sample);
    if d.Go? {
      var f := Post(e.sample, d.planned, d.receiptSha, Refused);
      assert Justifies(r, f);
    }
  }

  /** Why a read allows no wave, reason by reason, each only where no earlier one applies. */
  lemma DecideHaltsWhen(r: Readiness, sample: string)
    ensures var d := Decide(r, sample);
      var named := exists i :: 0 <= i < |r.scrolls| && (r.scrolls[i].sampleId == Some(sample) || r.scrolls[i].requestedSampleId == Some(sample));
      && (d.Halt? && d.because == READINESS_BLOCKED <==> r.blockers != [])
      && (r.blockers != [] ==> d.detail == r.blockers[0])
      && (d.Halt? && d.because == PAUSE_CANDIDATE_STARVATION <==> r.blockers == [] && r.pause.active)
      && (r.blockers == [] && r.pause.active ==> d.detail == r.pause.decision)
      && (d.Halt? && d.because == QUEUE_STATE_UNREADABLE ==> !r.queue.available && d.detail == r.queue.reason)
      && (r.blockers == [] && !r.pause.active && !named ==> d == Halt(SCROLL_NOT_ADMITTED, "not a scroll of this campaign"))
      && (r.blockers == [] && !r.pause.active && named ==>
            exists i :: 0 <= i < |r.scrolls| && FirstNaming(r.scrolls, sample, i)
              && var scroll := r.scrolls[i];
                 && (!scroll.queueAdmitted ==>
                       d == Halt(SCROLL_NOT_ADMITTED, if scroll.blockers == [] then "None: None" else scroll.blockers[0]))
                 && (scroll.queueAdmitted && (scroll.budget.planned.None? || scroll.budget.planned.value < 1) ==>
                       d == Halt(SCROLL_NOT_ADMITTED, "the current budget authorizes no tasks"))
                 && (scroll.queueAdmitted && scroll.budget.planned.Some? && scroll.budget.planned.value >= 1 ==>
                       d == if r.queue.available then Go(scroll.budget.planned.value, scroll.budget.receiptSha)
                            else Halt(QUEUE_STATE_UNREADABLE, r.queue.reason)))
  {
    FirstNamed(r.scrolls, sample);
    hide ScrollState, FirstNaming, Names;
  }

  /** The first scroll that names the sample under either id. */
  ghost predicate FirstNaming(rows: seq<ScrollRow>, sample: string, i: nat) {
    && i < |rows| && (rows[i].sampleId == Some(sample) || rows[i].requestedSampleId == Some(sample))
    && forall j :: 0 <= j < i ==> rows[j].sampleId != Some(sample) && rows[j].requestedSampleId != Some(sample)
  }

  lemma {:induction false} FirstNamed(rows: seq<ScrollRow>, sample: string)
    ensures ScrollState(rows, sample) == None <==>
      forall i :: 0 <= i < |rows| ==> rows[i].sampleId != Some(sample) && rows[i].requestedSampleId != Some(sample)
    ensures ScrollState(rows, sample).Some? ==>
      exists i: nat :: FirstNaming(rows, sample, i) && i < |rows| && ScrollState(rows, sample) == Some(rows[i])
  {
    ScrollStateIsFirst(rows, sample);
    if ScrollState(rows, sample).Some? {
      var i := 0;
      while !Names(rows[i], sample)
        invariant 0 <= i < |rows| && forall j :: 0 <= j < i ==> !Names(rows[j], sample)
        invariant exists k :: i <= k < |rows| && Names(rows[k], sample)
        decreases |rows| - i
      {
        i := i + 1;
      }
      assert FirstNaming(rows, sample, i);
    }
  }

  datatype Step = Next(readiness: Readiness) | Done(outcome: Outcome)

  /** The answer to an ambiguous POST: its row, one readback, and a sealed ledger. */
  method Freeze(panel: Panel, ledger: Ledger, index: int, row: Wave, detail: string) returns (step: Step)
    modifies panel, ledger
    ensures |panel.trace| == |old(panel.trace)| + 1 && panel.trace[..|old(panel.trace)|] == old(panel.trace)
    ensures panel.trace[|old(panel.trace)|].Read? || panel.trace[|old(panel.trace)|].ReadFailed?
    ensures ledger.body.waves == old(ledger.body.waves) + [row]
    ensures step.Done? && (step.outcome.Escaped? || step.outcome.Frozen?)
    ensures step.outcome.Frozen? ==>
      && step.outcome.waveIndex == index && step.outcome.detail == detail
      && panel.trace[|old(panel.trace)|] == Read(step.outcome.readback)
      && ledger.Sealed()
      && ledger.body == Stopped(old(ledger.body).(waves := old(ledger.body.waves) + [row]),
                                FROZEN_AMBIGUOUS_WAVE_POST, detail, step.outcome.readback)
  {
    ledger.body := ledger.body.(waves := ledger.body.waves + [row]);
    var readback := panel.ReadReadiness();
    if readback.None? {
      return Done(Escaped);
    }
    ledger.body := ledger.body.(closingSha := readback.value.sha);
    ledger.Stop(FROZEN_AMBIGUOUS_WAVE_POST, detail, readback.value);
    step := Done(Frozen(index, detail, readback.value));
  }

  /** The packets after a wave that ended: a new one stops the campaign, then a
      pause does, and otherwise it goes on. */
  method CloseWave(panel: Panel, ledger: Ledger, closing: Readiness, openingPackets: set<string>) returns (step: Step)
    modifies panel, ledger
    ensures |panel.trace| == |old(panel.trace)| + 1 && panel.trace[..|old(panel.trace)|] == old(panel.trace)
    ensures var call := panel.trace[|old(panel.trace)|];
      if !call.Packets? then call.PacketsFailed? && step == Done(Escaped) && ledger.body == old(ledger.body)
      else
        var listed := old(ledger.body).(reviewPackets := ReviewPackets(call.rows));
        if !(ReviewPackets(call.rows) <= openingPackets) then
          step == Done(Returned) && ledger.Sealed()
          && ledger.body == Stopped(listed, HUMAN_REVIEW_PACKET_ROUTED, PACKET_ROUTED, closing)
        else if closing.pause.active then
          step == Done(Returned) && ledger.Sealed()
          && ledger.body == Stopped(listed, PAUSE_CANDIDATE_STARVATION, closing.pause.decision, closing)
        else step == Next(closing) && ledger.body == listed
  {
    var rows := panel.ReadArtifacts();
    if rows.None? {
      return Done(Escaped);
    }
    var packets := ReviewPackets(rows.value);
    ledger.body := ledger.body.(reviewPackets := packets);
    if packets - openingPackets != {} {
      ledger.Stop(HUMAN_REVIEW_PACKET_ROUTED, PACKET_ROUTED, closing);
      return Done(Returned);
    }
    NoneLeft(packets, openingPackets);
    if closing.pause.active {
      ledger.Stop(PAUSE_CANDIDATE_STARVATION, closing.pause.decision, closing);
      return Done(Returned);
    }
    step := Next(closing);
  }

  /** The row as a POST goes out. */
  function OpeningRow(index: int, base: Readiness, planned: int, receiptSha: string): Wave {
    Wave(index, base.sha, receiptSha, planned, planned, base.queue.attemptCount,
         base.queue.active, None, None, {}, None, None, AMBIGUOUS_NOT_RETRIED)
  }

  /** A campaign at its POST: the read it was decided by, no packet, and the POST. */
  ghost predicate Posting(tr: seq<Event>, b: nat) {
    |tr| == b + 3 && tr[b].Read? && tr[b+1].Packets? && ReviewPackets(tr[b+1].rows) == {} && tr[b+2].Post?
  }

  /** Closing the row of a POST within budget keeps what it says of the POST. */
  lemma RowCloses(row: Wave, w: Wave, index: int, base: Readiness, post: Event)
    requires post.Post? && WithinBudget(post) && RowOpens(row.(outcome := TERMINAL), index, base, post)
    requires w.outcome in {TERMINAL, NOT_TERMINAL}
    requires w == row.(activeAtClose := w.activeAtClose, closingAttempts := w.closingAttempts,
                       pauseAfter := w.pauseAfter, outcome := w.outcome)
    ensures RowOpens(w, index, base, post)
  {}

  /** The wait for a wave within budget, its row, and the packets after it. */
  method FollowWave(panel: Panel, clock: Clock, ledger: Ledger, index: nat, sample: string, row: Wave, ghost b: nat,
                    openingPackets: set<string>, waitTicks: int, pollTicks: int)
    returns (step: Step, ghost wave: Wave)
    requires Posting(panel.trace, b) && WithinBudget(panel.trace[b+2]) && index >= 1 && openingPackets == {}
    requires row.baselineActive == panel.trace[b].readiness.queue.active
    requires RowOpens(row.(outcome := TERMINAL), index, panel.trace[b].readiness, panel.trace[b+2])
    requires ledger.body.reviewPackets == {}
    modifies panel, clock, ledger
    ensures old(panel.trace) < panel.trace && forall k :: b + 2 < k < |panel.trace| ==> !panel.trace[k].Post?
    ensures forall k :: b + 2 < k < |panel.trace| - 1 ==> !panel.trace[k].Packets?
    ensures step != Done(Escaped) ==>
      RowTells(wave, index, panel.trace, b) && OnlyCloses(old(ledger.body), ledger.body, wave)
    ensures step.Next? ==> Continues(panel.trace, b, wave, step.readiness, ledger.body)
    ensures step.Done? ==> step.outcome.Returned? || step.outcome.Escaped?
    ensures step == Done(Returned) ==> ledger.Sealed() && StopTells(ledger.body, panel.trace, sample, index)
    ensures step == Done(Returned) && wave.outcome == TERMINAL ==> EndsWith(wave, panel.trace, b)
  {
    hide RowOpens, ReviewPackets, WithinBudget;
    wave := row;
    var reached, settled := WaitForWave(panel, clock, row.baselineActive, waitTicks, pollTicks);
    if settled.None? {
      return Done(Escaped), wave;
    }
    var closing := settled.value;
    var closed := row.(activeAtClose := closing.queue.active - row.baselineActive,
                       closingAttempts := Some(closing.queue.attemptCount), pauseAfter := Some(closing.pause),
                       outcome := if reached then TERMINAL else NOT_TERMINAL);
    wave := closed;
    ledger.body := ledger.body.(waves := ledger.body.waves + [closed], closingSha := closing.sha);
    ghost var waited, c := panel.trace, |panel.trace| - 1;
    assert ClosedAt(wave, waited, b, c);
    RowCloses(row, wave, index, waited[b].readiness, waited[b+2]);
    if !reached {
      LastReadIs(waited, c);
      LastPacketsIs(waited, b + 1);
      ledger.Stop(WAVE_DID_NOT_REACH_TERMINAL, IN_FLIGHT, closing);
      return Done(Returned), wave;
    }
    step := CloseWave(panel, ledger, closing, openingPackets);
    ClosedPrefix(wave, waited, panel.trace, b, c);
    LastReadIs(panel.trace, c);
    NoneLeft(closing.queue.active, row.baselineActive);
    hide ClosedAt, Waited, LastRead;
  }

  lemma ClosedPrefix(w: Wave, tr: seq<Event>, next: seq<Event>, b: nat, c: nat)
    requires b < |tr| && tr[b].Read? && tr <= next && ClosedAt(w, tr, b, c)
    ensures ClosedAt(w, next, b, c)
  {
    WaitedPrefix(tr, next, b + 3, c, tr[b].readiness.queue.active);
    assert next[b] == tr[b] && next[c] == tr[c];
  }

  /** A wave that ended clean: the last two calls are the read that ended its
      wait and an empty packet list, and the ledger has noted both. */
  ghost predicate Continues(tr: seq<Event>, b: nat, w: Wave, readiness: Readiness, body: LedgerBody) {
    && b + 4 < |tr| && tr[b].Read? && tr[b+2].Post? && WithinBudget(tr[b+2]) && w.outcome == TERMINAL
    && tr[|tr|-2] == Read(readiness) && tr[|tr|-1].Packets? && ReviewPackets(tr[|tr|-1].rows) == {}
    && !readiness.pause.active
    && ClosedAt(w, tr, b, |tr| - 2) && readiness.queue.active <= tr[b].readiness.queue.active
    && body.reviewPackets == {} && body.closingSha == readiness.sha
  }

  /** Everything after the decision: one POST, its reading, the wait, the packets. */
  method RunWave(panel: Panel, clock: Clock, ledger: Ledger, index: nat, sample: string, readiness: Readiness,
                 planned: int, receiptSha: string, openingPackets: set<string>, waitTicks: int, pollTicks: int)
    returns (step: Step, ghost wave: Wave)
    requires |panel.trace| >= 2 && panel.trace[|panel.trace|-2] == Read(readiness)
    requires panel.trace[|panel.trace|-1].Packets? && ReviewPackets(panel.trace[|panel.trace|-1].rows) == {}
    requires index >= 1 && openingPackets == {} == ledger.body.reviewPackets
    modifies panel, clock, ledger
    ensures old(panel.trace) < panel.trace && panel.trace[|old(panel.trace)|].Post?
    ensures var post := panel.trace[|old(panel.trace)|];
      post.sample == sample && post.maxTasks == planned && post.receiptSha == receiptSha
    ensures forall k :: |old(panel.trace)| < k < |panel.trace| ==> !panel.trace[k].Post?
    ensures forall k :: |old(panel.trace)| < k < |panel.trace| - 1 ==> !panel.trace[k].Packets?
    ensures step != Done(Escaped) ==>
      && RowTells(wave, index, panel.trace, |old(panel.trace)| - 2)
      && OnlyCloses(old(ledger.body), ledger.body, wave)
    ensures step.Next? ==> Continues(panel.trace, |old(panel.trace)| - 2, wave, step.readiness, ledger.body)
    ensures step.Done? ==> step.outcome.Returned? || step.outcome.Frozen? || step.outcome.Escaped?
    ensures step.Done? && !step.outcome.Escaped? ==>
      ledger.Sealed() && StopTells(ledger.body, panel.trace, sample, index)
    ensures step.Done? && step.outcome.Frozen? ==>
      && step.outcome.waveIndex == index
      && panel.trace[|old(panel.trace)|].outcome == Ambiguous(step.outcome.detail)
      && panel.trace[|old(panel.trace)|+1..] == [Read(step.outcome.readback)]
    ensures step == Done(Returned) ==> wave.outcome != AMBIGUOUS_NOT_RETRIED
    ensures step == Done(Returned) && wave.outcome == TERMINAL ==> EndsWith(wave, panel.trace, |old(panel.trace)| - 2)
  {
    hide ReviewPackets;
    ghost var b := |panel.trace| - 2;
    var row := OpeningRow(index, readiness, planned, receiptSha);
    wave := row;
    var created := panel.PostRun(sample, planned, receiptSha);
    assert Posting(panel.trace, b);
    if created.Refused? {
      return Done(Escaped), wave;
    }
    if created.Ambiguous? {
      step := Freeze(panel, ledger, index, row, created.detail);
      LastPacketsIs(panel.trace, b + 1);
      return step, wave;
    }
    row := row.(enqueued := created.inserted, generated := created.generated);
    if created.inserted.None? || created.inserted.value > planned {
      row := row.(outcome := OVER_BUDGET_INSERT);
      wave := row;
      ledger.body := ledger.body.(waves := ledger.body.waves + [row]);
      ledger.Stop(SCROLL_NOT_ADMITTED, OVER_BUDGET, readiness);
      LastReadIs(panel.trace, b);
      LastPacketsIs(panel.trace, b + 1);
      return Done(Returned), wave;
    }
    step, wave := FollowWave(panel, clock, ledger, index, sample, row, b, openingPackets, waitTicks, pollTicks);
  }

  /** The opening reads: the binding, and whether a person is already waiting. */
  method OpenCampaign(panel: Panel, sample: string, maximumWaves: int)
    returns (step: Step, ledger: Ledger?, openingPackets: set<string>)
    modifies panel
    ensures fresh(ledger) || ledger == null
    ensures Lawful(panel.trace, sample, maximumWaves, []) && LedgerTells([], panel.trace, sample, [])
    ensures step.Next? ==>
      && ledger != null && ledger.body.waves == [] && openingPackets == {} == ledger.body.reviewPackets
      && Poised(panel.trace, sample, maximumWaves, [], step.readiness, []) && NoPacketBefore(panel.trace, |panel.trace|)
    ensures step.Next? || step == Done(Returned) ==> ledger != null && OpeningTells(ledger.body, panel.trace, sample, maximumWaves)
    ensures step.Done? ==> step.outcome == Escaped || step.outcome == Returned
    ensures step == Done(Returned) ==>
      && ledger.Sealed() && ledger.body.waves == [] && StopTells(ledger.body, panel.trace, sample, 0)
      && NoPacketBefore(panel.trace, |panel.trace| - 1)
      && ledger.body.stoppedBecause in {Some(MISSION_IS_NOT_A_CONTROLLED_CAMPAIGN), Some(HUMAN_REVIEW_PACKET_ROUTED)}
  {
    panel.trace := [];
    ledger := null;
    openingPackets := {};
    var firstRead := panel.ReadReadiness();
    if firstRead.None? {
      return Done(Escaped), null, {};
    }
    var opening := firstRead.value;
    ledger := new Ledger(LedgerBody(sample, opening.revision, opening.sha, opening.sha, maximumWaves,
                                    [], opening.blockers, {}, {}, None, ""));
    if !opening.controlled {
      ledger.Stop(MISSION_IS_NOT_A_CONTROLLED_CAMPAIGN, NO_BINDING, opening);
      return Done(Returned), ledger, {};
    }
    var rows := panel.ReadArtifacts();
    if rows.None? {
      return Done(Escaped), ledger, {};
    }
    openingPackets := ReviewPackets(rows.value);
    ledger.body := ledger.body.(openingPackets := openingPackets, reviewPackets := openingPackets);
    if openingPackets != {} {
      ledger.Stop(HUMAN_REVIEW_PACKET_ROUTED, PACKET_WAITING, opening);
      return Done(Returned), ledger, openingPackets;
    }
    step := Next(opening);
  }

  method RunCampaign(panel: Panel, clock: Clock, sample: string, maximumWaves: int, waitTicks: int, pollTicks: int)
    returns (out: Outcome, ledger: Ledger?, ghost bases: seq<nat>)
    modifies panel, clock
    ensures fresh(ledger) || ledger == null
    ensures out.Invalid? <==> maximumWaves < 1
    ensures out.Invalid? ==> panel.trace == []
    ensures Lawful(panel.trace, sample, maximumWaves, bases)
    ensures out.Returned? || out.Frozen? ==>
      && ledger != null && ledger.Sealed() && LedgerTells(ledger.body.waves, panel.trace, sample, bases)
      && OpeningTells(ledger.body, panel.trace, sample, maximumWaves)
      && StopTells(ledger.body, panel.trace, sample, |bases|)
    ensures out.Frozen? ==>
      && bases != [] && out.waveIndex == |bases|
      && FrozenTells(panel.trace, bases[|bases|-1], out.detail, out.readback)
    ensures out.Returned? ==>
      (ledger.body.stoppedBecause == Some(HUMAN_REVIEW_PACKET_ROUTED) <==> SomeListAwaits(panel.trace))
    ensures out.Returned? && bases != [] ==>
      var last := ledger.body.waves[|bases|-1];
      last.outcome != AMBIGUOUS_NOT_RETRIED && (last.outcome == TERMINAL ==> EndsWith(last, panel.trace, bases[|bases|-1]))
  {
    hide Lawful, LedgerTells, ReviewPackets, WithinBudget, Followed, Waited, ScrollState, RowTells, ClosedAt,
      LastRead, LastPackets, WhyStopped, StopTells, AwaitsPerson, SomeListAwaits, EndsWith;
    bases := [];
    NothingYet(sample, maximumWaves);
    if maximumWaves < 1 {
      panel.trace := [];
      return Invalid, null, bases;
    }
    var opening, book, openingPackets := OpenCampaign(panel, sample, maximumWaves);
    ledger := book;
    if opening.Done? {
      if opening.outcome.Returned? { StoppedForPerson(ledger.body, panel.trace, sample, 0); }
      return opening.outcome, ledger, bases;
    }
    var readiness := opening.readiness;
    for index := 1 to maximumWaves + 1
      invariant ledger != null && fresh(ledger)
      invariant |bases| == index - 1 <= maximumWaves
      invariant Poised(panel.trace, sample, maximumWaves, bases, readiness, ledger.body.waves)
      invariant OpeningTells(ledger.body, panel.trace, sample, maximumWaves) && ledger.body.reviewPackets == {}
      invariant NoPacketBefore(panel.trace, |panel.trace|)
    {
      var decision := Decide(readiness, sample);
      if decision.Halt? {
        ghost var book := ledger.body;
        ledger.Stop(decision.because, decision.detail, readiness);
        PoisedStops(panel.trace, sample, maximumWaves, bases, readiness, book);
        StoppedForPerson(ledger.body, panel.trace, sample, |bases|);
        return Returned, ledger, bases;
      }
      ghost var tr, was, waves := panel.trace, bases, ledger.body.waves;
      var step, wave := RunWave(panel, clock, ledger, index, sample, readiness, decision.planned,
                                decision.receiptSha, openingPackets, waitTicks, pollTicks);
      bases := bases + [|tr| - 2];
      assert panel.trace[0] == tr[0] && panel.trace[1] == tr[1];
      WaveRecorded(tr, panel.trace, sample, maximumWaves, was, readiness, waves, wave);
      NothingBeforeLast(tr, panel.trace);
      if step.Done? {
        if step.outcome.Returned? { StoppedForPerson(ledger.body, panel.trace, sample, |bases|); }
        return step.outcome, ledger, bases;
      }
      WaveSettled(tr, panel.trace, sample, maximumWaves, was, readiness, waves, wave, step.readiness, ledger.body);
      readiness := step.readiness;
    }
    ghost var last := ledger.body;
    ledger.Stop(WAVE_LIMIT_REACHED, BOUND_REACHED, readiness);
    PoisedStops(panel.trace, sample, maximumWaves, bases, readiness, last);
    StoppedForPerson(ledger.body, panel.trace, sample, |bases|);
    out := Returned;
  }

  /** One more POST, and no list after it but perhaps the last. */
  lemma NothingBeforeLast(tr: seq<Event>, next: seq<Event>)
    requires NoPacketBefore(tr, |tr|) && tr < next && next[|tr|].Post?
    requires forall k :: |tr| < k < |next| - 1 ==> !next[k].Packets?
    ensures NoPacketBefore(next, |next| - 1)
  {
    forall p | 0 <= p < |next| - 1 && next[p].Packets? ensures ReviewPackets(next[p].rows) == {} {
      assert p < |tr| && next[p] == tr[p];
    }
  }

  lemma StoppedForPerson(body: LedgerBody, tr: seq<Event>, sample: string, waves: nat)
    requires StopTells(body, tr, sample, waves) && NoPacketBefore(tr, |tr| - 1)
    ensures body.stoppedBecause == Some(HUMAN_REVIEW_PACKET_ROUTED) <==> SomeListAwaits(tr)
  {
    HumanReviewWhen(tr, sample, body.maximumWaves, waves);
    LastListAwaits(tr);
    hide WhyStopped, SomeListAwaits, AwaitsPerson, NoPacketBefore;
  }

  /** The freeze: the ambiguous POST, then one readback, then nothing more. */
  ghost predicate FrozenTells(tr: seq<Event>, b: nat, detail: string, readback: Readiness) {
    |tr| == b + 4 && tr[b+2].Post? && tr[b+2].outcome == Ambiguous(detail) && tr[b+3] == Read(readback)
  }

  /** Ready for another decision: everything so far is lawful and finished, and
      the last two calls were a readiness read and an empty packet list. */
  ghost predicate Poised(tr: seq<Event>, sample: string, maximumWaves: int, bases: seq<nat>,
                         readiness: Readiness, waves: seq<Wave>) {
    && Lawful(tr, sample, maximumWaves, bases) && LedgerTells(waves, tr, sample, bases)
    && |waves| == |bases| && (forall i :: 0 <= i < |waves| ==> waves[i].outcome == TERMINAL)
    && |tr| >= 2 && tr[0].Read? && tr[0].readiness.controlled
    && tr[|tr|-2] == Read(readiness) && tr[|tr|-1].Packets? && ReviewPackets(tr[|tr|-1].rows) == {}
    && (if bases == [] then |tr| == 2 else Followed(tr, bases[|bases|-1], |tr| - 2) && !readiness.pause.active)
  }

  lemma NothingYet(sample: string, maximumWaves: int)
    ensures Lawful([], sample, maximumWaves, [])
  {
    NothingPosted([], sample, maximumWaves);
  }

  /** A poised campaign stops for what its last read says, or at its bound. */
  lemma PoisedStops(tr: seq<Event>, sample: string, maximumWaves: int, bases: seq<nat>, readiness: Readiness, body: LedgerBody)
    requires Poised(tr, sample, maximumWaves, bases, readiness, body.waves)
    requires body.reviewPackets == {} && body.maximumWaves == maximumWaves
    ensures var d := Decide(readiness, sample);
      |bases| < maximumWaves && d.Halt? ==> StopTells(Stopped(body, d.because, d.detail, readiness), tr, sample, |bases|)
    ensures |bases| >= maximumWaves ==> StopTells(Stopped(body, WAVE_LIMIT_REACHED, BOUND_REACHED, readiness), tr, sample, |bases|)
    ensures bases != [] ==> EndsWith(body.waves[|bases|-1], tr, bases[|bases|-1])
  {
    SettledEnds(tr, sample, maximumWaves, bases, readiness, body.waves);
    LastReadIs(tr, |tr| - 2);
    hide Decide, Lawful, LedgerTells, Followed, EndsWith;
  }

  lemma SettledEnds(tr: seq<Event>, sample: string, maximumWaves: int, bases: seq<nat>, readiness: Readiness, waves: seq<Wave>)
    requires Poised(tr, sample, maximumWaves, bases, readiness, waves)
    ensures bases != [] ==> EndsWith(waves[|bases|-1], tr, bases[|bases|-1])
  {
    LastReadIs(tr, |tr| - 2);
    hide ReviewPackets, WithinBudget, LastRead;
    if bases != [] {
      var n, b := |bases| - 1, bases[|bases|-1];
      assert RowTells(waves[n], n + 1, tr, b) && waves[n].outcome == TERMINAL && Followed(tr, b, |tr| - 2);
      var c: nat :| ClosedAt(waves[n], tr, b, c) && c + 1 < |tr| && tr[c+1].Packets?;
      CloseIsUnique(waves[n], tr, b, c, |tr| - 2);
    }
  }

  lemma NoneLeft<T>(a: set<T>, b: set<T>)
    requires a - b == {}
    ensures a <= b
  {
    forall x | x in a ensures x in b {
      assert x in b || x in a - b;
    }
  }

  lemma WaitedPrefix(tr: seq<Event>, next: seq<Event>, start: nat, c: nat, baseline: set<string>)
    requires tr <= next && Waited(tr, start, c, baseline)
    ensures Waited(next, start, c, baseline)
  {
    assert forall k :: 0 <= k < |tr| ==> next[k] == tr[k];
  }

  lemma WaveAtPrefix(tr: seq<Event>, next: seq<Event>, sample: string, b: nat)
    requires tr <= next && WaveAt(tr, sample, b)
    ensures WaveAt(next, sample, b)
  {
    assert next[b] == tr[b] && next[b+1] == tr[b+1] && next[b+2] == tr[b+2];
  }

  lemma FollowedPrefix(tr: seq<Event>, next: seq<Event>, b: nat, c: nat)
    requires tr <= next && Followed(tr, b, c)
    ensures Followed(next, b, c)
  {
    assert next[b] == tr[b] && next[c] == tr[c] && next[b+2] == tr[b+2];
    WaitedPrefix(tr, next, b + 3, c, tr[b].readiness.queue.active);
  }

  lemma NothingPosted(tr: seq<Event>, sample: string, maximumWaves: int)
    requires forall k :: 0 <= k < |tr| ==> !tr[k].Post?
    ensures Lawful(tr, sample, maximumWaves, [])
  {}

  /** Reads and failures change nothing about what was decided. */
  lemma LawfulPrefix(tr: seq<Event>, next: seq<Event>, sample: string, maximumWaves: int, bases: seq<nat>)
    requires tr <= next && Lawful(tr, sample, maximumWaves, bases)
    requires forall k :: |tr| <= k < |next| ==> !next[k].Post?
    ensures Lawful(next, sample, maximumWaves, bases)
  {
    forall i | 0 <= i < |bases| ensures WaveAt(next, sample, bases[i]) { WaveAtPrefix(tr, next, sample, bases[i]); }
    forall i, j | 0 <= i < j < |bases| && j == i + 1 ensures Followed(next, bases[i], bases[j]) {
      FollowedPrefix(tr, next, bases[i], bases[j]);
    }
    assert forall k :: 0 <= k < |tr| ==> next[k] == tr[k];
  }

  /** More calls change nothing about rows that are closed. */
  lemma LedgerTellsPrefix(waves: seq<Wave>, tr: seq<Event>, next: seq<Event>, sample: string, bases: seq<nat>)
    requires tr <= next && LedgerTells(waves, tr, sample, bases)
    requires forall i :: 0 <= i < |waves| ==> waves[i].outcome == TERMINAL
    ensures LedgerTells(waves, next, sample, bases)
  {
    forall i | 0 <= i < |bases|
      ensures WaveAt(next, sample, bases[i]) && RowTells(waves[i], i + 1, next, bases[i])
    {
      var b := bases[i];
      WaveAtPrefix(tr, next, sample, b);
      var c: nat :| ClosedAt(waves[i], tr, b, c) && c + 1 < |tr| && tr[c+1].Packets?;
      ClosedPrefix(waves[i], tr, next, b, c);
      assert next[b] == tr[b] && next[b+2] == tr[b+2] && next[c+1] == tr[c+1];
    }
  }

  /** Appending a justified POST to a lawful, settled trace keeps it lawful. */
  lemma LawfulPost(tr: seq<Event>, next: seq<Event>, sample: string, maximumWaves: int, bases: seq<nat>, b: nat)
    requires Lawful(tr, sample, maximumWaves, bases) && |bases| < maximumWaves
    requires tr != [] && tr[0].Read? && tr[0].readiness.controlled
    requires tr <= next && |next| == |tr| + 1 && b + 2 == |tr| && WaveAt(next, sample, b)
    requires if bases == [] then b == 0 else Followed(tr, bases[|bases|-1], b)
    ensures Lawful(next, sample, maximumWaves, bases + [b])
  {
    var more := bases + [b];
    forall i | 0 <= i < |more| ensures WaveAt(next, sample, more[i]) {
      if i < |bases| { WaveAtPrefix(tr, next, sample, bases[i]); }
    }
    forall i, j | 0 <= i < j < |more| && j == i + 1 ensures Followed(next, more[i], more[j]) {
      FollowedPrefix(tr, next, more[i], more[j]);
    }
    forall k | 0 <= k < |next| && next[k].Post? ensures k >= 2 && k - 2 in more {
      if k == |tr| {
        assert more[|bases|] == b;
      } else {
        assert next[k] == tr[k];
      }
    }
  }

  lemma LedgerTellsPush(waves: seq<Wave>, tr: seq<Event>, sample: string, bases: seq<nat>, w: Wave, b: nat)
    requires LedgerTells(waves, tr, sample, bases) && WaveAt(tr, sample, b)
    requires forall i :: 0 <= i < |waves| ==> waves[i].outcome == TERMINAL
    requires RowTells(w, |bases| + 1, tr, b)
    ensures LedgerTells(waves + [w], tr, sample, bases + [b])
  {}

  /** One wave's calls and its ledger row extend a lawful campaign. */
  lemma WaveRecorded(tr: seq<Event>, next: seq<Event>, sample: string, maximumWaves: int, bases: seq<nat>,
                     readiness: Readiness, waves: seq<Wave>, w: Wave)
    requires Poised(tr, sample, maximumWaves, bases, readiness, waves) && |bases| < maximumWaves
    requires tr < next && next[|tr|].Post? && next[|tr|].sample == sample
    requires Decide(readiness, sample) == Go(next[|tr|].maxTasks, next[|tr|].receiptSha)
    requires forall k :: |tr| < k < |next| ==> !next[k].Post?
    ensures Lawful(next, sample, maximumWaves, bases + [|tr| - 2])
    ensures WaveAt(next, sample, |tr| - 2)
    ensures RowTells(w, |bases| + 1, next, |tr| - 2) ==>
      LedgerTells(waves + [w], next, sample, bases + [|tr| - 2])
  {
    var mid := next[..|tr|+1];
    var b := |tr| - 2;
    DecideIsJustified(readiness, next[|tr|]);
    assert mid[b] == tr[b] && mid[b+1] == tr[b+1] && mid[b+2] == next[|tr|];
    assert WaveAt(mid, sample, b);
    LawfulPost(tr, mid, sample, maximumWaves, bases, b);
    LawfulPrefix(mid, next, sample, maximumWaves, bases + [b]);
    LedgerTellsPrefix(waves, tr, next, sample, bases);
    WaveAtPrefix(mid, next, sample, b);
    if RowTells(w, |bases| + 1, next, b) {
      LedgerTellsPush(waves, next, sample, bases, w, b);
    }
  }

  /** A wave that ended clean leaves the campaign ready for the next decision. */
  lemma WaveSettled(tr: seq<Event>, next: seq<Event>, sample: string, maximumWaves: int, bases: seq<nat>,
                    readiness: Readiness, waves: seq<Wave>, w: Wave, after: Readiness, body: LedgerBody)
    requires Poised(tr, sample, maximumWaves, bases, readiness, waves) && tr < next
    requires Lawful(next, sample, maximumWaves, bases + [|tr| - 2])
    requires LedgerTells(waves + [w], next, sample, bases + [|tr| - 2])
    requires Continues(next, |tr| - 2, w, after, body)
    ensures Poised(next, sample, maximumWaves, bases + [|tr| - 2], after, waves + [w])
  {
    assert next[0] == tr[0] && next[|tr|-2] == tr[|tr|-2];
    assert Followed(next, |tr| - 2, |next| - 2);
  }

  // ---- what lawfulness means to somebody who only sees the calls ----

  ghost predicate IsPost(tr: seq<Event>, k: nat) { k < |tr| && tr[k].Post? }

  lemma {:induction false} BasesAscend(tr: seq<Event>, sample: string, maximumWaves: int, bases: seq<nat>, i: nat, j: nat)
    requires Lawful(tr, sample, maximumWaves, bases) && i < j < |bases|
    ensures bases[i] + 2 < bases[j] && WithinBudget(tr[bases[i] + 2])
  {
    if i + 1 == j {
      assert Followed(tr, bases[i], bases[j]);
    } else {
      BasesAscend(tr, sample, maximumWaves, bases, i, j - 1);
      assert Followed(tr, bases[j-1], bases[j]);
    }
  }

  /** There are as many POSTs as decisions, so at most `maximumWaves` of them. */
  lemma PostsAreBounded(tr: seq<Event>, sample: string, maximumWaves: int, bases: seq<nat>)
    requires Lawful(tr, sample, maximumWaves, bases) && maximumWaves >= 0
    ensures |set k | 0 <= k < |tr| && tr[k].Post?| == |bases| <= maximumWaves
  {
    var posts := set k | 0 <= k < |tr| && tr[k].Post?;
    forall i, j | 0 <= i < j < |bases| ensures bases[i] < bases[j] { BasesAscend(tr, sample, maximumWaves, bases, i, j); }
    forall k ensures k in posts <==> k in Shifted(bases) {
      if k in posts {
        var i :| 0 <= i < |bases| && bases[i] == k - 2;
      }
      if k in Shifted(bases) {
        var i :| 0 <= i < |bases| && bases[i] + 2 == k;
        assert WaveAt(tr, sample, bases[i]);
      }
    }
    assert posts == Shifted(bases);
    ShiftedSize(bases);
  }

  ghost function Shifted(bases: seq<nat>): set<int> { set i | 0 <= i < |bases| :: bases[i] + 2 }

  lemma {:induction false} ShiftedSize(bases: seq<nat>)
    requires forall i, j :: 0 <= i < j < |bases| ==> bases[i] < bases[j]
    ensures |Shifted(bases)| == |bases|
  {
    if bases != [] {
      var rest, b := bases[..|bases|-1], bases[|bases|-1];
      ShiftedSize(rest);
      ShiftedPush(rest, b);
      assert bases == rest + [b];
      assert b + 2 !in Shifted(rest);
    }
  }

  lemma ShiftedPush(rest: seq<nat>, b: nat)
    ensures Shifted(rest + [b]) == Shifted(rest) + {b + 2}
  {
    var all := rest + [b];
    assert forall i :: 0 <= i < |rest| ==> all[i] == rest[i];
    forall x | x in Shifted(rest) + {b + 2} ensures x in Shifted(all) {
      if x == b + 2 {
        assert all[|rest|] + 2 == x;
      } else {
        var i :| 0 <= i < |rest| && rest[i] + 2 == x;
        assert all[i] + 2 == x;
      }
    }
  }

  /** Every POST asks for exactly the budget of a read that says go, taken after
      every earlier POST and followed by an empty packet list; and every earlier
      POST was readable and within budget.  In particular nothing follows an
      ambiguous POST, so no POST is ever a retry of one. */
  lemma EveryPostIsJustified(tr: seq<Event>, sample: string, maximumWaves: int, bases: seq<nat>, k: nat)
    requires Lawful(tr, sample, maximumWaves, bases) && IsPost(tr, k)
    ensures k >= 2 && tr[k-2].Read? && Justifies(tr[k-2].readiness, tr[k])
    ensures tr[k-1].Packets? && ReviewPackets(tr[k-1].rows) == {}
    ensures tr[0].Read? && tr[0].readiness.controlled
    ensures forall p: nat :: p < k && IsPost(tr, p) ==> p < k - 2 && WithinBudget(tr[p])
  {
    var j := PostBase(tr, sample, maximumWaves, bases, k);
    hide Lawful, Justifies, ReviewPackets, WithinBudget;
    forall p: nat | p < k && IsPost(tr, p) ensures p < k - 2 && WithinBudget(tr[p]) {
      var i := PostBase(tr, sample, maximumWaves, bases, p);
      OrderOfBases(tr, sample, maximumWaves, bases, i, j);
    }
  }

  /** The decision behind a POST. */
  lemma PostBase(tr: seq<Event>, sample: string, maximumWaves: int, bases: seq<nat>, k: nat) returns (j: nat)
    requires Lawful(tr, sample, maximumWaves, bases) && IsPost(tr, k)
    ensures j < |bases| && bases[j] + 2 == k && WaveAt(tr, sample, bases[j])
    ensures tr[0].Read? && tr[0].readiness.controlled
  {
    hide Justifies, ReviewPackets, Followed;
    j :| 0 <= j < |bases| && bases[j] == k - 2;
  }

  /** Every list read before a decision's POST is empty of packets. */
  lemma {:induction false} ListsBeforeAreEmpty(tr: seq<Event>, sample: string, maximumWaves: int, bases: seq<nat>, j: nat)
    requires Lawful(tr, sample, maximumWaves, bases) && j < |bases|
    ensures bases[j] + 2 <= |tr| && NoPacketBefore(tr, bases[j] + 2)
  {
    assert WaveAt(tr, sample, bases[j]);
    if j > 0 {
      var b, c := bases[j-1], bases[j];
      ListsBeforeAreEmpty(tr, sample, maximumWaves, bases, j - 1);
      assert Followed(tr, b, c) && WaveAt(tr, sample, b);
      hide Lawful, Justifies, WithinBudget, ReviewPackets;
      forall p | b + 2 <= p < c + 2 && tr[p].Packets? ensures p == c + 1 {}
    }
  }

  /** No POST ever follows a list that holds something for a person. */
  lemma NoPostPastPacket(tr: seq<Event>, sample: string, maximumWaves: int, bases: seq<nat>, p: nat, k: nat)
    requires Lawful(tr, sample, maximumWaves, bases) && IsPost(tr, k) && p < k && tr[p].Packets?
    ensures !AwaitsPerson(tr[p].rows)
  {
    var j := PostBase(tr, sample, maximumWaves, bases, k);
    ListsBeforeAreEmpty(tr, sample, maximumWaves, bases, j);
    PacketsAwaitPerson(tr[p].rows);
    hide Lawful, WaveAt, ReviewPackets, AwaitsPerson;
  }

  lemma OrderOfBases(tr: seq<Event>, sample: string, maximumWaves: int, bases: seq<nat>, i: nat, j: nat)
    requires Lawful(tr, sample, maximumWaves, bases) && i < |bases| && j < |bases| && bases[i] < bases[j]
    ensures i < j && bases[i] + 2 < bases[j] && bases[i] + 2 < |tr| && WithinBudget(tr[bases[i] + 2])
  {
    assert WaveAt(tr, sample, bases[i]);
    hide Lawful;
    if i < j {
      BasesAscend(tr, sample, maximumWaves, bases, i, j);
    } else if j < i {
      BasesAscend(tr, sample, maximumWaves, bases, j, i);
    }
  }

  /** Between two POSTs, every task that was not already running when the first
      was decided has been seen gone by the read that decided the second. */
  lemma NextWaveWaits(tr: seq<Event>, sample: string, maximumWaves: int, bases: seq<nat>, p: nat, k: nat)
    requires Lawful(tr, sample, maximumWaves, bases)
    requires IsPost(tr, p) && IsPost(tr, k) && p < k && forall m: nat :: p < m < k ==> !IsPost(tr, m)
    ensures p >= 2 && k >= 2 && p < k - 2 && tr[p-2].Read? && tr[k-2].Read?
    ensures tr[k-2].readiness.queue.active - tr[p-2].readiness.queue.active == {}
  {
    var i := PostBase(tr, sample, maximumWaves, bases, p);
    var j := PostBase(tr, sample, maximumWaves, bases, k);
    hide Justifies, ReviewPackets, WithinBudget;
    OrderOfBases(tr, sample, maximumWaves, bases, i, j);
    assert Followed(tr, bases[i], bases[i+1]) && WaveAt(tr, sample, bases[i+1]);
    BasesAscend(tr, sample, maximumWaves, bases, i, i + 1);
    assert IsPost(tr, bases[i+1] + 2);
    hide Lawful;
    if i + 1 < j {
      BasesAscend(tr, sample, maximumWaves, bases, i + 1, j);
    }
  }

  // ---- what a terminal row is worth ----

  /** What a queue reading says of the tasks still running: everything if it
      could be read, and nothing otherwise. */
  predicate Reports(queue: Queue, running: set<string>) { queue.available ==> queue.active == running }

  /** The wave's own tasks were really gone: whatever was running, given that
      reading, was already running when the wave was decided. */
  ghost predicate ListedAsGone(baseline: set<string>, closing: Queue) {
    forall running :: Reports(closing, running) ==> running <= baseline
  }

  /** No wait ends twice. */
  lemma CloseIsUnique(w: Wave, tr: seq<Event>, b: nat, c: nat, d: nat)
    requires b < |tr| && tr[b].Read? && ClosedAt(w, tr, b, c) && w.outcome == TERMINAL
    requires Waited(tr, b + 3, d, tr[b].readiness.queue.active)
    requires tr[d].readiness.queue.active - tr[b].readiness.queue.active == {}
    ensures c == d
  {
    assert tr[c].readiness.queue.active - tr[b].readiness.queue.active == {};
  }

  lemma SameClose(w: Wave, tr: seq<Event>, b: nat, c: nat, d: nat)
    requires b < |tr| && tr[b].Read? && ClosedAt(w, tr, b, c) && ClosedAt(w, tr, b, d) && w.outcome == TERMINAL
    ensures c == d
  {
    CloseIsUnique(w, tr, b, c, d);
  }

  /** A TERMINAL row's own tasks were really gone exactly when its closing read
      could read the queue; a queue nobody could read ends the wait as an empty one. */
  lemma TerminalRowMeans(w: Wave, tr: seq<Event>, b: nat, c: nat)
    requires b < |tr| && tr[b].Read? && ClosedAt(w, tr, b, c) && w.outcome == TERMINAL
    ensures ListedAsGone(tr[b].readiness.queue.active, tr[c].readiness.queue) <==> tr[c].readiness.queue.available
  {
    var baseline, closing := tr[b].readiness.queue.active, tr[c].readiness.queue;
    NoneLeft(closing.active, baseline);
    if !closing.available {
      var name := Longer(baseline);
      assert Reports(closing, {name}) && name in {name};
    }
  }

  /** A name no set holds. */
  lemma {:induction false} Longer(names: set<string>) returns (name: string)
    ensures name !in names && forall n :: n in names ==> |n| < |name|
    decreases |names|
  {
    name := "x";
    if n :| n in names {
      var rest := Longer(names - {n});
      name := rest + n + "x";
    }
  }

  /** And every wave followed by another one really was: the read that ended its
      wait is the one the next was decided from. */
  lemma FollowedRowsAreGone(waves: seq<Wave>, tr: seq<Event>, sample: string, maximumWaves: int, bases: seq<nat>, i: nat)
    requires Lawful(tr, sample, maximumWaves, bases) && LedgerTells(waves, tr, sample, bases) && i + 1 < |bases|
    ensures WaveAt(tr, sample, bases[i]) && WaveAt(tr, sample, bases[i+1])
    ensures waves[i].outcome == TERMINAL && ClosedAt(waves[i], tr, bases[i], bases[i+1])
    ensures ListedAsGone(tr[bases[i]].readiness.queue.active, tr[bases[i+1]].readiness.queue)
  {
    var b, next := bases[i], bases[i+1];
    assert RowTells(waves[i], i + 1, tr, b) && waves[i].outcome == TERMINAL && Followed(tr, b, next);
    var c: nat :| ClosedAt(waves[i], tr, b, c) && c + 1 < |tr| && tr[c+1].Packets?;
    CloseIsUnique(waves[i], tr, b, c, next);
    assert WaveAt(tr, sample, next);
    TerminalRowMeans(waves[i], tr, b, next);
  }

  /** The tasks of the i-th wave were really gone at its close. */
  ghost predicate Gone(waves: seq<Wave>, tr: seq<Event>, bases: seq<nat>, i: nat)
    requires |waves| == |bases| && i < |bases|
  {
    var b := bases[i];
    b < |tr| && tr[b].Read? && forall c: nat :: ClosedAt(waves[i], tr, b, c) ==>
      ListedAsGone(tr[b].readiness.queue.active, tr[c].readiness.queue)
  }

  lemma FollowedIsGone(waves: seq<Wave>, tr: seq<Event>, sample: string, maximumWaves: int, bases: seq<nat>, i: nat)
    requires Lawful(tr, sample, maximumWaves, bases) && LedgerTells(waves, tr, sample, bases) && i + 1 < |bases|
    ensures |waves| == |bases| && Gone(waves, tr, bases, i)
  {
    assert |waves| == |bases|;
    FollowedRowsAreGone(waves, tr, sample, maximumWaves, bases, i);
    hide Lawful, LedgerTells, ListedAsGone, WaveAt;
    forall c: nat | ClosedAt(waves[i], tr, bases[i], c)
      ensures ListedAsGone(tr[bases[i]].readiness.queue.active, tr[c].readiness.queue)
    {
      SameClose(waves[i], tr, bases[i], c, bases[i+1]);
    }
  }

  lemma LastIsGoneWhen(waves: seq<Wave>, tr: seq<Event>, bases: seq<nat>)
    requires bases != [] && |waves| == |bases|
    requires waves[|bases|-1].outcome == TERMINAL && EndsWith(waves[|bases|-1], tr, bases[|bases|-1])
    ensures Gone(waves, tr, bases, |bases| - 1) <==> LastRead(tr).value.queue.available
  {
    var n, b := |bases| - 1, bases[|bases|-1];
    TerminalRowMeans(waves[n], tr, b, |tr| - 2);
    hide ListedAsGone;
    forall c: nat | ClosedAt(waves[n], tr, b, c) ensures c == |tr| - 2 { SameClose(waves[n], tr, b, c, |tr| - 2); }
  }

  /** So all the waves a campaign calls terminal really were exactly when its
      very last read could read the queue. */
  lemma TerminalLedgerMeans(waves: seq<Wave>, tr: seq<Event>, sample: string, maximumWaves: int, bases: seq<nat>)
    requires Lawful(tr, sample, maximumWaves, bases) && LedgerTells(waves, tr, sample, bases) && bases != []
    requires waves[|bases|-1].outcome == TERMINAL && EndsWith(waves[|bases|-1], tr, bases[|bases|-1])
    ensures LastRead(tr).value.queue.available <==> forall i :: 0 <= i < |bases| ==> Gone(waves, tr, bases, i)
  {
    assert |waves| == |bases|;
    hide Gone, Lawful, LedgerTells, EndsWith, LastRead;
    LastIsGoneWhen(waves, tr, bases);
    forall i | 0 <= i < |bases| - 1 ensures Gone(waves, tr, bases, i) {
      FollowedIsGone(waves, tr, sample, maximumWaves, bases, i);
    }
  }

  /** The last one need not have been: the panel answers a database error with an
      empty list, the row says TERMINAL, and the sealed ledger is the lawful one
      of a campaign that reached its bound. */
  lemma UnreadableQueueCloses(sample: string)
    ensures var queue := Queue(true, "", {}, 0);
      var go := Readiness("r1", "", true, [], Pause(false, ""),
                          [ScrollRow(Some(sample), None, true, [], Budget(Some(1), "b1"))], queue);
      var closing := go.(sha := "r2", queue := Queue(false, "the database is down", {}, 0));
      var tr := [Read(go), Packets([]), Post(sample, 1, "b1", Created(Some(1), Some(1))), Read(closing), Packets([])];
      var w := OpeningRow(1, go, 1, "b1").(enqueued := Some(1), generated := Some(1), closingAttempts := Some(0),
                                           pauseAfter := Some(Pause(false, "")), outcome := TERMINAL);
      && Lawful(tr, sample, 1, [0]) && LedgerTells([w], tr, sample, [0])
      && LastRead(tr) == Some(closing) && WhyStopped(tr, sample, 1, 1) == (WAVE_LIMIT_REACHED, BOUND_REACHED)
      && Reports(closing.queue, {"task-1"}) && !ListedAsGone(go.queue.active, closing.queue)
  {
    var queue := Queue(true, "", {}, 0);
    var go := Readiness("r1", "", true, [], Pause(false, ""),
                        [ScrollRow(Some(sample), None, true, [], Budget(Some(1), "b1"))], queue);
    var closing := go.(sha := "r2", queue := Queue(false, "the database is down", {}, 0));
    var tr := [Read(go), Packets([]), Post(sample, 1, "b1", Created(Some(1), Some(1))), Read(closing), Packets([])];
    var w := OpeningRow(1, go, 1, "b1").(enqueued := Some(1), generated := Some(1), closingAttempts := Some(0),
                                         pauseAfter := Some(Pause(false, "")), outcome := TERMINAL);
    assert ReviewPackets([]) == {};
    assert ScrollState(go.scrolls, sample) == Some(go.scrolls[0]);
    assert Justifies(go, tr[2]) && WaveAt(tr, sample, 0);
    assert Waited(tr, 3, 3, {});
    assert ClosedAt(w, tr, 0, 3);
    LastReadIs(tr, 3);
    assert "task-1" in {"task-1"} && !({"task-1"} <= go.queue.active);
  }
}

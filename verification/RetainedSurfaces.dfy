/** The pass that advances retained surfaces through P3, P4 and P5
    (scripts/harness/queue_retained_surfaces.py).

    A pass decides everything from one listing of the newest jobs and then
    posts, while the fleet keeps moving underneath it.  The state machine below
    lets anything happen to the fleet between any two posts, anybody's jobs
    included, and says what the script itself can be held to. */
module RetainedSurfaces {
  import opened Wrappers
  import opened Ordering

  // ---- jobs ----

  datatype Phase = P3 | P4 | P5 | OtherPhase(name: string)

  datatype JobState = Live(name: string) | Succeeded | Failed | Cancelled

  /** The runner's own summary on stdout: not parsable, silent, or a count. */
  datatype Summary = Unparsable | Silent | Flat(count: int)

  datatype Job = Job(
    id: string, phase: Phase, surfaceId: string, flattenedSurface: string,
    profile: string, layerStack: Option<string>, state: JobState, summary: Summary)

  function Key(j: Job): string { if j.surfaceId != "" then j.surfaceId else j.flattenedSurface }

  /** Filed under this surface; a job naming no surface is filed nowhere. */
  predicate Keyed(j: Job, surface: string) { Key(j) == surface && surface != "" }

  /** Whether a P3 actually produced a sheet; an unreadable summary is believed. */
  predicate Flattened(j: Job) { j.summary.Unparsable? || (j.summary.Flat? && j.summary.count != 0) }

  datatype Status = AnyStatus | FlattenedSuccess | EmptySuccess | Pending | Success | Failure | NotCancelled

  datatype Criterion = Criterion(phase: Phase, surface: string, profile: Option<string>, status: Status)

  predicate HasStatus(j: Job, s: Status) {
    match s
    case AnyStatus => true
    case FlattenedSuccess => j.state.Succeeded? && Flattened(j)
    case EmptySuccess => j.state.Succeeded? && !Flattened(j)
    case Pending => j.state.Live?
    case Success => j.state.Succeeded?
    case Failure => j.state.Failed?
    case NotCancelled => !j.state.Cancelled?
  }

  predicate Meets(j: Job, c: Criterion) {
    j.phase == c.phase && Keyed(j, c.surface) && (c.profile.Some? ==> j.profile == c.profile.value) && HasStatus(j, c.status)
  }

  function Select(jobs: seq<Job>, c: Criterion): seq<Job> {
    if jobs == [] then []
    else if Meets(jobs[|jobs|-1], c) then Select(jobs[..|jobs|-1], c) + [jobs[|jobs|-1]]
    else Select(jobs[..|jobs|-1], c)
  }

  function OnSurface(jobs: seq<Job>, surface: string): seq<Job> {
    if jobs == [] then []
    else if Keyed(jobs[|jobs|-1], surface) then OnSurface(jobs[..|jobs|-1], surface) + [jobs[|jobs|-1]]
    else OnSurface(jobs[..|jobs|-1], surface)
  }

  lemma {:induction false} SelectMembers(jobs: seq<Job>, c: Criterion)
    ensures forall j :: j in Select(jobs, c) <==> j in jobs && Meets(j, c)
    ensures Select(jobs, c) == [] <==> forall i :: 0 <= i < |jobs| ==> !Meets(jobs[i], c)
  {
    if jobs != [] {
      var front := jobs[..|jobs|-1];
      SelectMembers(front, c);
      assert jobs == front + [jobs[|jobs|-1]];
    }
  }

  /** Looking inside one surface's bucket finds what looking everywhere finds. */
  lemma {:induction false} BucketSelect(jobs: seq<Job>, surface: string, c: Criterion)
    requires c.surface == surface
    ensures Select(OnSurface(jobs, surface), c) == Select(jobs, c)
  {
    if jobs != [] {
      var front, last := jobs[..|jobs|-1], jobs[|jobs|-1];
      BucketSelect(front, surface, c);
      if Keyed(last, surface) {
        var bucket := OnSurface(front, surface) + [last];
        assert bucket[..|bucket|-1] == OnSurface(front, surface);
      }
    }
  }

  // ---- the decisions, each from one snapshot ----

  datatype SurfaceStep = Wait | PostP3 | PostP4 | Lanes(p4: Job)

  function DecideSurface(jobs: seq<Job>, s: string): SurfaceStep {
    var empties := Select(jobs, Criterion(P3, s, None, EmptySuccess));
    if Select(jobs, Criterion(P3, s, None, FlattenedSuccess)) == [] then
      if |empties| >= 2 then Wait
      else if empties == [] && Select(jobs, Criterion(P3, s, None, Pending)) != [] then Wait
      else PostP3
    else
      var p4s := Select(jobs, Criterion(P4, s, None, AnyStatus));
      if p4s == [] then PostP4
      else if p4s[0].state.Succeeded? then Lanes(p4s[0])
      else Wait
  }

  datatype LaneStep = LaneDone | LaneWait | PostP5

  function DecideLane(jobs: seq<Job>, s: string, profile: string): LaneStep {
    if Select(jobs, Criterion(P5, s, Some(profile), Success)) != [] then LaneDone
    else if Select(jobs, Criterion(P5, s, Some(profile), Pending)) != [] then LaneWait
    else if |Select(jobs, Criterion(P5, s, Some(profile), Failure))| >= 3 then LaneWait
    else PostP5
  }

  lemma BucketDecides(jobs: seq<Job>, s: string, profile: string)
    ensures DecideSurface(OnSurface(jobs, s), s) == DecideSurface(jobs, s)
    ensures DecideLane(OnSurface(jobs, s), s, profile) == DecideLane(jobs, s, profile)
  {
    forall c: Criterion | c.surface == s ensures Select(OnSurface(jobs, s), c) == Select(jobs, c) {
      BucketSelect(jobs, s, c);
    }
  }

  // ---- what a pass posts ----

  datatype Lane = Lane(profile: string, checkpoint: string)

  datatype Request = Request(phase: Phase, surface: string, profile: string, layerStack: Option<string>)

  function LanePosts(view: seq<Job>, s: string, p4: Job, lanes: seq<Lane>): seq<Request> {
    if lanes == [] then []
    else
      var last := lanes[|lanes|-1];
      LanePosts(view, s, p4, lanes[..|lanes|-1])
      + if DecideLane(view, s, last.profile) == PostP5 then [Request(P5, s, last.profile, Some(p4.id))] else []
  }

  function SurfacePosts(view: seq<Job>, s: string, lanes: seq<Lane>): seq<Request> {
    match DecideSurface(view, s)
    case Wait => []
    case PostP3 => [Request(P3, s, "", None)]
    case PostP4 => [Request(P4, s, "", None)]
    case Lanes(p4) => LanePosts(view, s, p4, lanes)
  }

  function PassPosts(view: seq<Job>, surfaces: seq<string>, lanes: seq<Lane>): seq<Request> {
    if surfaces == [] then []
    else PassPosts(view, surfaces[..|surfaces|-1], lanes) + SurfacePosts(view, surfaces[|surfaces|-1], lanes)
  }

  /** The job a request becomes: queued, with its surface under the phase's own parameter. */
  predicate Becomes(r: Request, j: Job) {
    && j.phase == r.phase && j.state.Live? && j.layerStack == r.layerStack
    && (r.phase == P5 ==> j.profile == r.profile)
    && (if r.phase == P4 then j.surfaceId == "" && j.flattenedSurface == r.surface
        else j.surfaceId == r.surface && j.flattenedSurface == "")
  }

  /** Why the snapshot allows a request. */
  ghost predicate Warranted(view: seq<Job>, r: Request) {
    match r.phase
    case P3 => DecideSurface(view, r.surface) == PostP3
    case P4 => DecideSurface(view, r.surface) == PostP4
    case P5 =>
      && DecideSurface(view, r.surface).Lanes? && r.layerStack == Some(DecideSurface(view, r.surface).p4.id)
      && DecideLane(view, r.surface, r.profile) == PostP5
    case _ => false
  }

  /** Two requests for the same slot. */
  predicate SameSlot(a: Request, b: Request) {
    a.phase == b.phase && a.surface == b.surface && (a.phase == P5 ==> a.profile == b.profile)
  }

  ghost predicate Distinct(rs: seq<Request>) {
    forall i, j :: 0 <= i < j < |rs| ==> !SameSlot(rs[i], rs[j])
  }

  ghost predicate DistinctLanes(lanes: seq<Lane>) {
    forall i, j :: 0 <= i < j < |lanes| ==> lanes[i].profile != lanes[j].profile
  }

  lemma {:induction false} LanePostsWarranted(view: seq<Job>, s: string, p4: Job, lanes: seq<Lane>)
    requires DecideSurface(view, s) == Lanes(p4)
    ensures forall r :: r in LanePosts(view, s, p4, lanes) ==> Warranted(view, r) && r.phase == P5 && r.surface == s
    ensures forall profile ::
      (exists r :: r in LanePosts(view, s, p4, lanes) && r.profile == profile) <==>
      DecideLane(view, s, profile) == PostP5 && Lists(lanes, profile)
  {
    if lanes != [] {
      var front, last := lanes[..|lanes|-1], lanes[|lanes|-1];
      LanePostsWarranted(view, s, p4, front);
      hide DecideSurface, DecideLane;
      var more := LanePosts(view, s, p4, front);
      assert lanes == front + [last];
      ListsPush(front, last);
      if DecideLane(view, s, last.profile) == PostP5 {
        var r := Request(P5, s, last.profile, Some(p4.id));
        assert LanePosts(view, s, p4, lanes) == more + [r];
        assert forall x :: x in more + [r] <==> x in more || x == r;
      }
      hide LanePosts, Lists;
    }
  }

  ghost predicate Lists(lanes: seq<Lane>, profile: string) { exists i :: 0 <= i < |lanes| && lanes[i].profile == profile }

  lemma ListsPush(front: seq<Lane>, last: Lane)
    ensures forall profile :: Lists(front + [last], profile) <==> Lists(front, profile) || last.profile == profile
  {
    var lanes := front + [last];
    assert lanes[|front|] == last;
    forall profile | Lists(front, profile) ensures Lists(lanes, profile) {
      var i :| 0 <= i < |front| && front[i].profile == profile;
      assert lanes[i].profile == profile;
    }
  }

  lemma SurfacePostsWarranted(view: seq<Job>, s: string, lanes: seq<Lane>)
    ensures forall r :: r in SurfacePosts(view, s, lanes) ==> Warranted(view, r) && r.surface == s
  {
    var d := DecideSurface(view, s);
    if d.Lanes? {
      LanePostsWarranted(view, s, d.p4, lanes);
    }
  }

  /** Everything a pass posts is warranted by its listing. */
  lemma {:induction false} PassPostsWarranted(view: seq<Job>, surfaces: seq<string>, lanes: seq<Lane>)
    ensures forall r :: r in PassPosts(view, surfaces, lanes) ==> Warranted(view, r) && r.surface in surfaces
  {
    if surfaces != [] {
      PassPostsWarranted(view, surfaces[..|surfaces|-1], lanes);
      SurfacePostsWarranted(view, surfaces[|surfaces|-1], lanes);
    }
  }

  // ---- when a pass asks for one slot twice ----

  lemma DistinctConcat(a: seq<Request>, b: seq<Request>)
    ensures Distinct(a + b) <==> Distinct(a) && Distinct(b) && forall x, y :: x in a && y in b ==> !SameSlot(x, y)
  {
    var both := a + b;
    hide SameSlot;
    if Distinct(both) {
      forall x, y | x in a && y in b ensures !SameSlot(x, y) {
        var i :| 0 <= i < |a| && a[i] == x;
        var j :| 0 <= j < |b| && b[j] == y;
        assert both[i] == x && both[|a| + j] == y;
      }
      forall i, j | 0 <= i < j < |b| ensures !SameSlot(b[i], b[j]) {
        assert both[|a| + i] == b[i] && both[|a| + j] == b[j];
      }
      forall i, j | 0 <= i < j < |a| ensures !SameSlot(a[i], a[j]) {
        assert both[i] == a[i] && both[j] == a[j];
      }
    }
    if Distinct(a) && Distinct(b) && forall x, y :: x in a && y in b ==> !SameSlot(x, y) {
      forall i, j | 0 <= i < j < |both| ensures !SameSlot(both[i], both[j]) {
        if i < |a| <= j {
          assert a[i] in a && b[j - |a|] in b;
        }
      }
    }
  }

  /** No profile with something to post is listed twice. */
  ghost predicate LanesOnce(view: seq<Job>, s: string, lanes: seq<Lane>) {
    forall i, j :: 0 <= i < j < |lanes| && lanes[i].profile == lanes[j].profile ==> DecideLane(view, s, lanes[i].profile) != PostP5
  }

  lemma {:induction false} LanesRepeat(view: seq<Job>, s: string, p4: Job, lanes: seq<Lane>)
    requires DecideSurface(view, s) == Lanes(p4)
    ensures Distinct(LanePosts(view, s, p4, lanes)) <==> LanesOnce(view, s, lanes)
  {
    if lanes != [] {
      var front, last := lanes[..|lanes|-1], lanes[|lanes|-1];
      LanesRepeat(view, s, p4, front);
      LanePostsWarranted(view, s, p4, front);
      hide DecideSurface, DecideLane;
      var more := LanePosts(view, s, p4, front);
      LanesOncePush(view, s, front, last);
      assert lanes == front + [last];
      if DecideLane(view, s, last.profile) == PostP5 {
        var r := Request(P5, s, last.profile, Some(p4.id));
        DistinctConcat(more, [r]);
        assert forall x :: x in more ==> (SameSlot(x, r) <==> x.profile == last.profile);
        assert (exists x :: x in more && x.profile == last.profile) <==> Lists(front, last.profile);
      } else {
        assert LanePosts(view, s, p4, lanes) == more;
      }
    }
  }

  lemma LanesOncePush(view: seq<Job>, s: string, front: seq<Lane>, last: Lane)
    ensures LanesOnce(view, s, front + [last]) <==>
      && LanesOnce(view, s, front)
      && (DecideLane(view, s, last.profile) == PostP5 ==> !Lists(front, last.profile))
  {
    hide DecideLane;
    var lanes := front + [last];
    assert forall i :: 0 <= i < |front| ==> lanes[i] == front[i];
    assert lanes[|front|] == last;
  }

  /** A pass asks for some slot twice exactly when a surface with anything to
      post is listed twice, or an open surface has a lane to post listed twice. */
  ghost predicate AsksOnce(view: seq<Job>, surfaces: seq<string>, lanes: seq<Lane>) {
    && (forall i, j :: 0 <= i < j < |surfaces| && surfaces[i] == surfaces[j] ==> SurfacePosts(view, surfaces[i], lanes) == [])
    && (forall i :: 0 <= i < |surfaces| && DecideSurface(view, surfaces[i]).Lanes? ==> LanesOnce(view, surfaces[i], lanes))
  }

  lemma {:induction false} PassRepeatsWhen(view: seq<Job>, surfaces: seq<string>, lanes: seq<Lane>)
    ensures Distinct(PassPosts(view, surfaces, lanes)) <==> AsksOnce(view, surfaces, lanes)
  {
    if surfaces == [] {
      return;
    }
    hide SurfacePosts, AsksOnce, Distinct, SameSlot, DecideSurface, LanesOnce;
    var front, s := surfaces[..|surfaces|-1], surfaces[|surfaces|-1];
    assert surfaces == front + [s];
    PassRepeatsWhen(view, front, lanes);
    SurfaceRepeats(view, s, lanes);
    SurfaceAgain(view, front, s, lanes);
    AsksOncePush(view, front, s, lanes);
    DistinctConcat(PassPosts(view, front, lanes), SurfacePosts(view, s, lanes));
  }

  lemma SurfaceRepeats(view: seq<Job>, s: string, lanes: seq<Lane>)
    ensures Distinct(SurfacePosts(view, s, lanes)) <==> (DecideSurface(view, s).Lanes? ==> LanesOnce(view, s, lanes))
  {
    var d := DecideSurface(view, s);
    if d.Lanes? {
      LanesRepeat(view, s, d.p4, lanes);
    }
  }

  lemma AsksOncePush(view: seq<Job>, front: seq<string>, s: string, lanes: seq<Lane>)
    ensures AsksOnce(view, front + [s], lanes) <==>
      && AsksOnce(view, front, lanes) && (s in front ==> SurfacePosts(view, s, lanes) == [])
      && (DecideSurface(view, s).Lanes? ==> LanesOnce(view, s, lanes))
  {
    hide SurfacePosts, DecideSurface, LanesOnce;
    var surfaces := front + [s];
    assert forall i :: 0 <= i < |front| ==> surfaces[i] == front[i];
    assert surfaces[|front|] == s;
  }

  /** A surface's posts clash with an earlier part of the pass exactly when it was in that part and has any. */
  lemma {:induction false} SurfaceAgain(view: seq<Job>, front: seq<string>, s: string, lanes: seq<Lane>)
    ensures (forall x, y :: x in PassPosts(view, front, lanes) && y in SurfacePosts(view, s, lanes) ==> !SameSlot(x, y))
      <==> (s in front ==> SurfacePosts(view, s, lanes) == [])
  {
    PassPostsWarranted(view, front, lanes);
    SurfacePostsWarranted(view, s, lanes);
    if s in front && SurfacePosts(view, s, lanes) != [] {
      PostedInPass(view, front, s, lanes);
      var y := SurfacePosts(view, s, lanes)[0];
      assert y in PassPosts(view, front, lanes) && y in SurfacePosts(view, s, lanes) && SameSlot(y, y);
    }
  }

  lemma {:induction false} PostedInPass(view: seq<Job>, surfaces: seq<string>, s: string, lanes: seq<Lane>)
    requires s in surfaces
    ensures forall r :: r in SurfacePosts(view, s, lanes) ==> r in PassPosts(view, surfaces, lanes)
  {
    hide SurfacePosts;
    if surfaces[|surfaces|-1] != s {
      PostedInPass(view, surfaces[..|surfaces|-1], s, lanes);
    }
  }

  /** Without repeated surfaces or lanes no slot is asked for twice. */
  lemma AsksOnceWhen(view: seq<Job>, surfaces: seq<string>, lanes: seq<Lane>)
    requires NoDuplicates(surfaces) && DistinctLanes(lanes)
    ensures Distinct(PassPosts(view, surfaces, lanes))
  {
    hide SurfacePosts, DecideSurface, DecideLane;
    PassRepeatsWhen(view, surfaces, lanes);
  }

  // ---- the listing ----

  /** What one read of the job list returns at most. */
  const LIMIT: nat := 500

  /** Where in the fleet the newest LIMIT jobs begin. */
  function Start(jobs: seq<Job>): (n: nat)
    ensures n <= |jobs| && (n == 0 <==> |jobs| <= LIMIT)
  {
    if |jobs| <= LIMIT then 0 else |jobs| - LIMIT
  }

  /** The fleet keeps its jobs in the order they were created; a listing is newest first. */
  function NewestFirst(jobs: seq<Job>, from: nat): (r: seq<Job>)
    requires from <= |jobs|
    ensures |r| == |jobs| - from
  {
    seq(|jobs| - from, i requires 0 <= i < |jobs| - from => jobs[|jobs|-1-i])
  }

  function Listing(jobs: seq<Job>): seq<Job> { NewestFirst(jobs, Start(jobs)) }

  /** A read lists the newest 500 jobs of the fleet, newest first. */
  lemma ListingIs(jobs: seq<Job>)
    ensures |Listing(jobs)| == if |jobs| < 500 then |jobs| else 500
    ensures forall i :: 0 <= i < |Listing(jobs)| ==> Listing(jobs)[i] == jobs[|jobs| - 1 - i]
  {}

  /** How many jobs from a position on meet a criterion. */
  function CountFrom(jobs: seq<Job>, from: nat, c: Criterion): nat
    requires from <= |jobs|
    decreases |jobs| - from
  {
    if from == |jobs| then 0 else (if Meets(jobs[from], c) then 1 else 0) + CountFrom(jobs, from + 1, c)
  }

  lemma SelectPush(front: seq<Job>, j: Job, c: Criterion)
    ensures Select(front + [j], c) == if Meets(j, c) then Select(front, c) + [j] else Select(front, c)
  {
    hide Meets;
    assert (front + [j])[..|front|] == front;
  }

  lemma {:induction false} CountListed(jobs: seq<Job>, from: nat, c: Criterion)
    requires from <= |jobs|
    ensures |Select(NewestFirst(jobs, from), c)| == CountFrom(jobs, from, c)
    decreases |jobs| - from
  {
    if from < |jobs| {
      CountListed(jobs, from + 1, c);
      SelectPush(NewestFirst(jobs, from + 1), jobs[from], c);
      assert NewestFirst(jobs, from) == NewestFirst(jobs, from + 1) + [jobs[from]];
    }
  }

  lemma ListedWhen(jobs: seq<Job>, from: nat, c: Criterion)
    requires from <= |jobs|
    ensures Select(NewestFirst(jobs, from), c) == [] <==> forall k :: from <= k < |jobs| ==> !Meets(jobs[k], c)
    ensures forall j :: j in Select(NewestFirst(jobs, from), c) ==> exists k :: from <= k < |jobs| && jobs[k] == j && Meets(j, c)
  {
    var view := NewestFirst(jobs, from);
    SelectMembers(view, c);
    hide Select, Meets;
    forall k | from <= k < |jobs| ensures jobs[k] == view[|jobs|-1-k] {}
    forall j | j in Select(view, c) ensures exists k :: from <= k < |jobs| && jobs[k] == j && Meets(j, c) {
      var i :| 0 <= i < |view| && view[i] == j;
      assert jobs[|jobs|-1-i] == j;
    }
  }

  lemma {:induction false} CountNone(jobs: seq<Job>, from: nat, c: Criterion)
    requires from <= |jobs|
    ensures CountFrom(jobs, from, c) == 0 <==> forall k :: from <= k < |jobs| ==> !Meets(jobs[k], c)
    decreases |jobs| - from
  {
    hide Meets;
    if from < |jobs| {
      CountNone(jobs, from + 1, c);
    }
  }

  // ---- what a listing decides, in terms of the fleet behind it ----

  /** Its surface id names the surface, or it has none and the flattened one does. */
  ghost predicate Filed(j: Job, s: string) {
    s != "" && (j.surfaceId == s || (j.surfaceId == "" && j.flattenedSurface == s))
  }

  ghost predicate IsP4Of(j: Job, s: string) { j.phase == P4 && Filed(j, s) }

  ghost predicate InLane(j: Job, s: string, profile: string) { j.phase == P5 && Filed(j, s) && j.profile == profile }

  /** Live or succeeded: the lane needs nothing more. */
  ghost predicate Holds(j: Job) { j.state.Live? || j.state.Succeeded? }

  /** A P3 of the surface that succeeded with a sheet: its summary cannot be
      read, or counts something. */
  ghost predicate IsSheet(j: Job, s: string) {
    j.phase == P3 && Filed(j, s) && j.state == Succeeded && (j.summary == Unparsable || (j.summary.Flat? && j.summary.count != 0))
  }

  /** One that succeeded with nothing: its summary says nothing, or counts none. */
  ghost predicate IsEmptyP3(j: Job, s: string) {
    j.phase == P3 && Filed(j, s) && j.state == Succeeded && (j.summary == Silent || j.summary == Flat(0))
  }

  ghost predicate IsLiveP3(j: Job, s: string) { j.phase == P3 && Filed(j, s) && j.state.Live? }

  /** What the script's criteria find is what these say. */
  lemma CriteriaMean(j: Job, s: string)
    ensures Meets(j, Criterion(P3, s, None, FlattenedSuccess)) <==> IsSheet(j, s)
    ensures Meets(j, Criterion(P3, s, None, EmptySuccess)) <==> IsEmptyP3(j, s)
    ensures Meets(j, Criterion(P3, s, None, Pending)) <==> IsLiveP3(j, s)
    ensures Meets(j, Criterion(P4, s, None, AnyStatus)) <==> IsP4Of(j, s)
  {}

  lemma LaneCriteriaMean(j: Job, s: string, profile: string)
    ensures Meets(j, Criterion(P5, s, Some(profile), Success)) <==> InLane(j, s, profile) && j.state == Succeeded
    ensures Meets(j, Criterion(P5, s, Some(profile), Pending)) <==> InLane(j, s, profile) && j.state.Live?
    ensures Meets(j, Criterion(P5, s, Some(profile), Failure)) <==> InLane(j, s, profile) && j.state == Failed
    ensures Meets(j, Criterion(P5, s, Some(profile), NotCancelled)) <==> InLane(j, s, profile) && j.state != Cancelled
  {}

  /** A count is the number of positions. */
  lemma {:induction false} CountIsSize(jobs: seq<Job>, from: nat, c: Criterion)
    requires from <= |jobs|
    ensures CountFrom(jobs, from, c) == |set k | from <= k < |jobs| && Meets(jobs[k], c)|
    decreases |jobs| - from
  {
    hide Meets;
    var all := set k | from <= k < |jobs| && Meets(jobs[k], c);
    if from < |jobs| {
      CountIsSize(jobs, from + 1, c);
      var rest := set k | from + 1 <= k < |jobs| && Meets(jobs[k], c);
      if Meets(jobs[from], c) {
        assert all == rest + {from};
      } else {
        assert all == rest;
      }
    } else {
      assert all == {};
    }
  }

  /** The listed P3 jobs of the surface that succeeded with nothing. */
  ghost function EmptyP3s(jobs: seq<Job>, from: nat, s: string): set<nat> {
    set k: nat | from <= k < |jobs| && IsEmptyP3(jobs[k], s)
  }

  ghost function FailedP5s(jobs: seq<Job>, from: nat, s: string, profile: string): set<nat> {
    set k: nat | from <= k < |jobs| && InLane(jobs[k], s, profile) && jobs[k].state == Failed
  }

  lemma EmptyCount(jobs: seq<Job>, from: nat, s: string)
    requires from <= |jobs|
    ensures CountFrom(jobs, from, Criterion(P3, s, None, EmptySuccess)) == |EmptyP3s(jobs, from, s)|
  {
    var c := Criterion(P3, s, None, EmptySuccess);
    CountIsSize(jobs, from, c);
    forall k | from <= k < |jobs| ensures Meets(jobs[k], c) <==> IsEmptyP3(jobs[k], s) { CriteriaMean(jobs[k], s); }
    hide Meets, IsEmptyP3, CountFrom;
    assert (set k | from <= k < |jobs| && Meets(jobs[k], c)) == EmptyP3s(jobs, from, s);
  }

  lemma FailedCount(jobs: seq<Job>, from: nat, s: string, profile: string)
    requires from <= |jobs|
    ensures CountFrom(jobs, from, Criterion(P5, s, Some(profile), Failure)) == |FailedP5s(jobs, from, s, profile)|
  {
    var c := Criterion(P5, s, Some(profile), Failure);
    CountIsSize(jobs, from, c);
    forall k | from <= k < |jobs| ensures Meets(jobs[k], c) <==> InLane(jobs[k], s, profile) && jobs[k].state == Failed {
      LaneCriteriaMean(jobs[k], s, profile);
    }
    hide Meets, InLane, CountFrom;
    assert (set k | from <= k < |jobs| && Meets(jobs[k], c)) == FailedP5s(jobs, from, s, profile);
  }

  lemma P3ByCount(jobs: seq<Job>, from: nat, s: string)
    requires from <= |jobs|
    ensures DecideSurface(NewestFirst(jobs, from), s) == PostP3 <==>
      && (forall k :: from <= k < |jobs| ==> !IsSheet(jobs[k], s))
      && (|| CountFrom(jobs, from, Criterion(P3, s, None, EmptySuccess)) == 1
          || (&& CountFrom(jobs, from, Criterion(P3, s, None, EmptySuccess)) == 0
              && forall k :: from <= k < |jobs| ==> !Meets(jobs[k], Criterion(P3, s, None, Pending))))
  {
    ListedWhen(jobs, from, Criterion(P3, s, None, FlattenedSuccess));
    ListedWhen(jobs, from, Criterion(P3, s, None, Pending));
    CountListed(jobs, from, Criterion(P3, s, None, EmptySuccess));
    hide Select, Meets, NewestFirst, CountFrom;
  }

  /** P3 goes out exactly when no listed one produced a sheet, and either one
      listed success was empty, or none was and no listed P3 is under way. */
  lemma P3PostedWhen(jobs: seq<Job>, from: nat, s: string)
    requires from <= |jobs|
    ensures DecideSurface(NewestFirst(jobs, from), s) == PostP3 <==>
      && (forall k :: from <= k < |jobs| ==> !IsSheet(jobs[k], s))
      && (|| |EmptyP3s(jobs, from, s)| == 1
          || (|EmptyP3s(jobs, from, s)| == 0 && forall k :: from <= k < |jobs| ==> !IsLiveP3(jobs[k], s)))
  {
    P3ByCount(jobs, from, s);
    EmptyCount(jobs, from, s);
    forall k | from <= k < |jobs| ensures Meets(jobs[k], Criterion(P3, s, None, Pending)) <==> IsLiveP3(jobs[k], s) {
      CriteriaMean(jobs[k], s);
    }
    hide Meets, IsSheet, IsLiveP3, DecideSurface, CountFrom, EmptyP3s;
  }

  /** A P3 is requeued beside one still under way exactly when there was one
      empty success and nothing flattened: the one-retry bound does not hold. */
  lemma SecondLiveP3(jobs: seq<Job>, from: nat, s: string, k: nat)
    requires from <= k < |jobs| && IsLiveP3(jobs[k], s)
    ensures DecideSurface(NewestFirst(jobs, from), s) == PostP3 <==>
      (forall i :: from <= i < |jobs| ==> !IsSheet(jobs[i], s)) && |EmptyP3s(jobs, from, s)| == 1
  {
    P3PostedWhen(jobs, from, s);
    hide IsSheet, IsLiveP3, DecideSurface, EmptyP3s;
  }

  /** P4 goes out exactly when a listed P3 flattened and no P4 is listed, whatever became of any. */
  lemma P4PostedWhen(jobs: seq<Job>, from: nat, s: string)
    requires from <= |jobs|
    ensures DecideSurface(NewestFirst(jobs, from), s) == PostP4 <==>
      && (exists k :: from <= k < |jobs| && IsSheet(jobs[k], s))
      && (forall k :: from <= k < |jobs| ==> !IsP4Of(jobs[k], s))
  {
    ListedWhen(jobs, from, Criterion(P3, s, None, FlattenedSuccess));
    ListedWhen(jobs, from, Criterion(P4, s, None, AnyStatus));
    assert forall k :: from <= k < |jobs| ==> (Meets(jobs[k], Criterion(P4, s, None, AnyStatus)) <==> IsP4Of(jobs[k], s));
    hide Select, Meets, NewestFirst, IsP4Of;
  }

  /** The lanes open exactly when a listed P3 flattened and the newest listed P4 succeeded. */
  lemma LanesOpenWhen(jobs: seq<Job>, from: nat, s: string)
    requires from <= |jobs|
    ensures DecideSurface(NewestFirst(jobs, from), s).Lanes? <==>
      && (exists k :: from <= k < |jobs| && IsSheet(jobs[k], s))
      && (exists k :: IsNewestP4(jobs, from, s, k) && jobs[k].state.Succeeded?)
    ensures DecideSurface(NewestFirst(jobs, from), s).Lanes? ==>
      exists k :: IsNewestP4(jobs, from, s, k) && jobs[k].state.Succeeded? && jobs[k] == DecideSurface(NewestFirst(jobs, from), s).p4
  {
    var c := Criterion(P4, s, None, AnyStatus);
    ListedWhen(jobs, from, Criterion(P3, s, None, FlattenedSuccess));
    ListedWhen(jobs, from, c);
    FirstIsNewest(jobs, from, s);
    assert forall k :: from <= k < |jobs| ==> (Meets(jobs[k], c) <==> IsP4Of(jobs[k], s));
    hide Select, Meets, NewestFirst, IsP4Of;
    var p4s := Select(NewestFirst(jobs, from), c);
    if p4s != [] {
      var k :| IsNewestP4(jobs, from, s, k) && jobs[k] == p4s[0];
      assert forall i :: IsNewestP4(jobs, from, s, i) ==> i == k;
    }
  }

  ghost predicate IsNewestP4(jobs: seq<Job>, from: nat, s: string, k: int) {
    from <= k < |jobs| && IsP4Of(jobs[k], s) && forall i :: k < i < |jobs| ==> !IsP4Of(jobs[i], s)
  }

  lemma {:induction false} FirstIsNewest(jobs: seq<Job>, from: nat, s: string)
    requires from <= |jobs|
    ensures var p4s := Select(NewestFirst(jobs, from), Criterion(P4, s, None, AnyStatus));
      p4s != [] ==> exists k :: IsNewestP4(jobs, from, s, k) && jobs[k] == p4s[0]
    decreases |jobs| - from
  {
    if from < |jobs| {
      FirstIsNewest(jobs, from + 1, s);
      OneMoreP4(jobs, from, s);
      hide Select, IsP4Of, NewestFirst;
      var rest := Select(NewestFirst(jobs, from + 1), Criterion(P4, s, None, AnyStatus));
      if rest != [] {
        var k :| IsNewestP4(jobs, from + 1, s, k) && jobs[k] == rest[0];
        assert IsNewestP4(jobs, from, s, k);
      } else if IsP4Of(jobs[from], s) {
        assert IsNewestP4(jobs, from, s, from);
      }
    }
  }

  lemma OneMoreP4(jobs: seq<Job>, from: nat, s: string)
    requires from < |jobs|
    ensures var c := Criterion(P4, s, None, AnyStatus);
      var rest := Select(NewestFirst(jobs, from + 1), c);
      && Select(NewestFirst(jobs, from), c) == (if IsP4Of(jobs[from], s) then rest + [jobs[from]] else rest)
      && (rest == [] <==> forall i :: from < i < |jobs| ==> !IsP4Of(jobs[i], s))
  {
    var c := Criterion(P4, s, None, AnyStatus);
    ListedWhen(jobs, from + 1, c);
    SelectPush(NewestFirst(jobs, from + 1), jobs[from], c);
    assert NewestFirst(jobs, from) == NewestFirst(jobs, from + 1) + [jobs[from]];
    assert forall k :: from <= k < |jobs| ==> (Meets(jobs[k], c) <==> IsP4Of(jobs[k], s));
    hide Select, Meets, IsP4Of, NewestFirst;
  }

  lemma P5ByCount(jobs: seq<Job>, from: nat, s: string, profile: string)
    requires from <= |jobs|
    ensures DecideLane(NewestFirst(jobs, from), s, profile) == PostP5 <==>
      && (forall k :: from <= k < |jobs| && InLane(jobs[k], s, profile) ==> !Holds(jobs[k]))
      && CountFrom(jobs, from, Criterion(P5, s, Some(profile), Failure)) < 3
  {
    var success, pending := Criterion(P5, s, Some(profile), Success), Criterion(P5, s, Some(profile), Pending);
    ListedWhen(jobs, from, success);
    ListedWhen(jobs, from, pending);
    CountListed(jobs, from, Criterion(P5, s, Some(profile), Failure));
    assert forall k :: from <= k < |jobs| ==>
      (InLane(jobs[k], s, profile) && Holds(jobs[k]) <==> Meets(jobs[k], success) || Meets(jobs[k], pending));
    hide Select, Meets, NewestFirst, InLane, Holds, CountFrom;
  }

  /** P5 goes out exactly when no listed job of the lane is live or succeeded and
      fewer than three failed; the lane is done exactly when one succeeded. */
  lemma P5PostedWhen(jobs: seq<Job>, from: nat, s: string, profile: string)
    requires from <= |jobs|
    ensures DecideLane(NewestFirst(jobs, from), s, profile) == PostP5 <==>
      && (forall k :: from <= k < |jobs| && InLane(jobs[k], s, profile) ==> !jobs[k].state.Live? && jobs[k].state != Succeeded)
      && |FailedP5s(jobs, from, s, profile)| < 3
    ensures DecideLane(NewestFirst(jobs, from), s, profile) == LaneDone <==>
      exists k :: from <= k < |jobs| && InLane(jobs[k], s, profile) && jobs[k].state == Succeeded
  {
    P5ByCount(jobs, from, s, profile);
    FailedCount(jobs, from, s, profile);
    var done := Criterion(P5, s, Some(profile), Success);
    ListedWhen(jobs, from, done);
    forall k | from <= k < |jobs| ensures Meets(jobs[k], done) <==> InLane(jobs[k], s, profile) && jobs[k].state == Succeeded {
      LaneCriteriaMean(jobs[k], s, profile);
    }
    hide Meets, InLane, CountFrom, FailedP5s, Select, NewestFirst;
  }

  // ---- what a listing too short to show everything repeats ----

  /** A P4 is posted for a surface that has one exactly when every P4 of it has
      dropped out of the listing and a P3 that flattened has not. */
  lemma SecondP4When(jobs: seq<Job>, s: string)
    ensures DecideSurface(Listing(jobs), s) == PostP4 && (exists k :: 0 <= k < |jobs| && IsP4Of(jobs[k], s)) <==>
      && (exists k :: Start(jobs) <= k < |jobs| && IsSheet(jobs[k], s))
      && (forall k :: Start(jobs) <= k < |jobs| ==> !IsP4Of(jobs[k], s))
      && (exists k :: 0 <= k < Start(jobs) && IsP4Of(jobs[k], s))
  {
    P4PostedWhen(jobs, Start(jobs), s);
    hide IsP4Of, IsSheet, DecideSurface, NewestFirst;
  }

  /** A P3 is posted for a surface already flattened exactly when every P3 that
      flattened it has dropped out, and what is still listed would allow one. */
  lemma P3AgainWhen(jobs: seq<Job>, s: string)
    ensures DecideSurface(Listing(jobs), s) == PostP3 && (exists k :: 0 <= k < |jobs| && IsSheet(jobs[k], s)) <==>
      && (forall k :: Start(jobs) <= k < |jobs| ==> !IsSheet(jobs[k], s))
      && (exists k :: 0 <= k < Start(jobs) && IsSheet(jobs[k], s))
      && (|| CountFrom(jobs, Start(jobs), Criterion(P3, s, None, EmptySuccess)) == 1
          || (&& CountFrom(jobs, Start(jobs), Criterion(P3, s, None, EmptySuccess)) == 0
              && forall k :: Start(jobs) <= k < |jobs| ==> !Meets(jobs[k], Criterion(P3, s, None, Pending))))
  {
    P3ByCount(jobs, Start(jobs), s);
    hide IsSheet, DecideSurface, NewestFirst, CountFrom, Meets;
  }

  /** A lane is posted although the whole fleet would have held it back exactly
      when what held it back has dropped out: something live or succeeded, or
      enough failures to make three with those still listed. */
  lemma P5AgainWhen(jobs: seq<Job>, s: string, profile: string)
    ensures DecideLane(Listing(jobs), s, profile) == PostP5 && DecideLane(NewestFirst(jobs, 0), s, profile) != PostP5 <==>
      && (forall k :: Start(jobs) <= k < |jobs| && InLane(jobs[k], s, profile) ==> !Holds(jobs[k]))
      && CountFrom(jobs, Start(jobs), Criterion(P5, s, Some(profile), Failure)) < 3
      && (|| (exists k :: 0 <= k < Start(jobs) && InLane(jobs[k], s, profile) && Holds(jobs[k]))
          || CountFrom(jobs, 0, Criterion(P5, s, Some(profile), Failure)) >= 3)
  {
    P5ByCount(jobs, Start(jobs), s, profile);
    P5ByCount(jobs, 0, s, profile);
    hide InLane, Holds, DecideLane, NewestFirst, CountFrom;
  }

  ghost function DoneP3(s: string): Job { Job("p3", P3, s, "", "", None, Succeeded, Unparsable) }

  ghost function DoneP4(s: string): Job { Job("p4", P4, "", s, "", None, Succeeded, Silent) }

  /** A job of some other phase that names no surface. */
  ghost function Bystander(): Job { Job("p7", OtherPhase("P7"), "", "", "", None, Live("pending"), Silent) }

  ghost function Crowd(n: nat): (r: seq<Job>)
    ensures |r| == n
  {
    seq(n, i => Bystander())
  }

  /** One job over the limit is enough: with the surface's P4 the oldest of 501,
      a pass posts a second P4. */
  lemma CrowdedOutP4(s: string)
    requires s != ""
    ensures var jobs := [DoneP4(s), DoneP3(s)] + Crowd(LIMIT - 1);
      PassPosts(Listing(jobs), [s], []) == [Request(P4, s, "", None)] && IsP4Of(jobs[0], s)
  {
    var jobs := [DoneP4(s), DoneP3(s)] + Crowd(LIMIT - 1);
    assert Start(jobs) == 1 && jobs[0] == DoneP4(s) && jobs[1] == DoneP3(s);
    assert IsP4Of(jobs[0], s) && IsSheet(jobs[1], s);
    assert forall k :: 2 <= k < |jobs| ==> jobs[k] == Bystander();
    SecondP4When(jobs, s);
    OnePass(Listing(jobs), s);
  }

  /** And with its only flattened P3 the oldest, a pass flattens it again. */
  lemma CrowdedOutP3(s: string)
    requires s != ""
    ensures var jobs := [DoneP3(s)] + Crowd(LIMIT);
      PassPosts(Listing(jobs), [s], []) == [Request(P3, s, "", None)] && IsSheet(jobs[0], s)
  {
    var jobs, empty := [DoneP3(s)] + Crowd(LIMIT), Criterion(P3, s, None, EmptySuccess);
    assert Start(jobs) == 1 && jobs[0] == DoneP3(s) && IsSheet(jobs[0], s);
    assert forall k :: 1 <= k < |jobs| ==> jobs[k] == Bystander();
    CountNone(jobs, 1, empty);
    P3AgainWhen(jobs, s);
    OnePass(Listing(jobs), s);
  }

  lemma OnePass(view: seq<Job>, s: string)
    ensures PassPosts(view, [s], []) == SurfacePosts(view, s, [])
  {
    assert [s][..0] == [];
    assert PassPosts(view, [], []) == [];
    hide SurfacePosts;
  }

  ghost function EmptyP3(s: string): Job { Job("p3", P3, s, "", "", None, Succeeded, Flat(0)) }

  ghost function LiveP3(s: string): Job { Job("p3", P3, s, "", "", None, Live("pending"), Silent) }

  /** One empty success and the P3 jobs that n later passes have queued. */
  ghost function Backlog(s: string, n: nat): (r: seq<Job>)
    ensures |r| == n + 1
  {
    [EmptyP3(s)] + seq(n, i => LiveP3(s))
  }

  /** Passes over one empty success go on queueing P3 jobs beside each other,
      and stop only when those jobs themselves have pushed it out of the listing. */
  lemma P3RetriesFillListing(s: string, n: nat)
    requires s != ""
    ensures PassPosts(Listing(Backlog(s, n)), [s], []) == if n < LIMIT then [Request(P3, s, "", None)] else []
    ensures forall k :: 1 <= k <= n ==> Meets(Backlog(s, n)[k], Criterion(P3, s, None, Pending))
  {
    var jobs, empty := Backlog(s, n), Criterion(P3, s, None, EmptySuccess);
    var from := Start(jobs);
    assert jobs[0] == EmptyP3(s) && forall k :: 1 <= k < |jobs| ==> jobs[k] == LiveP3(s);
    BacklogMeets(s);
    hide Meets, Backlog;
    CountNone(jobs, if from == 0 then 1 else from, empty);
    P3ByCount(jobs, from, s);
    P4PostedWhen(jobs, from, s);
    LanesOpenWhen(jobs, from, s);
    OnePass(Listing(jobs), s);
    hide DecideSurface;
    if n >= LIMIT {
      assert Meets(jobs[from], Criterion(P3, s, None, Pending));
    }
  }

  lemma BacklogMeets(s: string)
    requires s != ""
    ensures !IsSheet(EmptyP3(s), s) && !IsSheet(LiveP3(s), s)
    ensures Meets(EmptyP3(s), Criterion(P3, s, None, EmptySuccess)) && !Meets(LiveP3(s), Criterion(P3, s, None, EmptySuccess))
    ensures !Meets(EmptyP3(s), Criterion(P3, s, None, Pending)) && Meets(LiveP3(s), Criterion(P3, s, None, Pending))
  {}

  // ---- the fleet, and what the script did to it ----

  /** A live job may move to any state; a finished one never changes again. */
  predicate Progress(a: Job, b: Job) {
    b == a.(state := b.state, summary := b.summary) && (!a.state.Live? ==> b == a)
  }

  /** The fleet moves: its jobs progress, and anybody's jobs of any kind arrive. */
  predicate Evolves(a: seq<Job>, b: seq<Job>) {
    |a| <= |b| && forall i :: 0 <= i < |a| ==> Progress(a[i], b[i])
  }

  ghost predicate HasFlattened(jobs: seq<Job>, s: string) { exists k :: 0 <= k < |jobs| && IsSheet(jobs[k], s) }

  ghost predicate HasRendered(jobs: seq<Job>, s: string, id: string) {
    exists k :: 0 <= k < |jobs| && IsP4Of(jobs[k], s) && jobs[k].state.Succeeded? && jobs[k].id == id
  }

  /** The script's own P5 jobs of a lane, from a position on, that were not cancelled. */
  ghost function OwnTries(jobs: seq<Job>, own: set<nat>, from: nat, s: string, profile: string): nat
    requires from <= |jobs|
    decreases |jobs| - from
  {
    if from == |jobs| then 0
    else
      (if from in own && InLane(jobs[from], s, profile) && !jobs[from].state.Cancelled? then 1 else 0)
      + OwnTries(jobs, own, from + 1, s, profile)
  }

  /** Of the script's own P5 jobs in a lane: at most one live or succeeded, at
      most three not cancelled, each over a P4 that succeeded. */
  ghost predicate OwnLaneSafe(jobs: seq<Job>, own: set<nat>, s: string, profile: string) {
    && (forall i, j :: i in own && j in own && i < j < |jobs| && InLane(jobs[i], s, profile) && InLane(jobs[j], s, profile) ==>
          !(Holds(jobs[i]) && Holds(jobs[j])))
    && OwnTries(jobs, own, 0, s, profile) <= 3
    && (forall i :: i in own && i < |jobs| && InLane(jobs[i], s, profile) ==>
          jobs[i].layerStack.Some? && HasRendered(jobs, s, jobs[i].layerStack.value))
  }

  /** Of its own P4 jobs of a surface: at most one, after a P3 that really flattened. */
  ghost predicate OwnSurfaceSafe(jobs: seq<Job>, own: set<nat>, s: string) {
    && (forall i, j :: i in own && j in own && i < j < |jobs| ==> !(IsP4Of(jobs[i], s) && IsP4Of(jobs[j], s)))
    && (forall i :: i in own && i < |jobs| && IsP4Of(jobs[i], s) ==> HasFlattened(jobs, s))
    && forall profile :: OwnLaneSafe(jobs, own, s, profile)
  }

  ghost predicate OwnSafe(jobs: seq<Job>, own: set<nat>) {
    (forall i :: i in own ==> i < |jobs|) && forall s :: OwnSurfaceSafe(jobs, own, s)
  }

  ghost predicate ForSlot(j: Job, r: Request) {
    j.phase == r.phase && Key(j) == r.surface && (r.phase == P5 ==> j.profile == r.profile)
  }

  /** Since the read: the jobs then progressed, and what the script has added answers a post of this pass. */
  ghost predicate Extends(seen: seq<Job>, jobs: seq<Job>, own: set<nat>, made: seq<Request>) {
    && Evolves(seen, jobs)
    && (forall i :: i in own ==> i < |jobs|)
    && (forall i :: i in own && |seen| <= i ==> exists m :: 0 <= m < |made| && ForSlot(jobs[i], made[m]))
  }

  /** Everything the script had posted by then was on the listing. */
  ghost predicate Visible(seen: seq<Job>, own: set<nat>) { forall i :: i in own && i < |seen| ==> Start(seen) <= i }

  lemma EvolvesTransitive(a: seq<Job>, b: seq<Job>, c: seq<Job>)
    requires Evolves(a, b) && Evolves(b, c)
    ensures Evolves(a, c)
  {
    forall i | 0 <= i < |a| ensures Progress(a[i], c[i]) {
      assert Progress(a[i], b[i]) && Progress(b[i], c[i]);
    }
  }

  lemma EnvKeepsExtends(seen: seq<Job>, jobs: seq<Job>, next: seq<Job>, own: set<nat>, made: seq<Request>)
    requires Extends(seen, jobs, own, made) && Evolves(jobs, next)
    ensures Extends(seen, next, own, made)
  {
    EvolvesTransitive(seen, jobs, next);
    forall i | i in own && |seen| <= i ensures exists m :: 0 <= m < |made| && ForSlot(next[i], made[m]) {
      assert Progress(jobs[i], next[i]);
      var m :| 0 <= m < |made| && ForSlot(jobs[i], made[m]);
      assert ForSlot(next[i], made[m]);
    }
  }

  // ---- counting the script's own tries ----

  lemma {:induction false} TriesNone(jobs: seq<Job>, own: set<nat>, from: nat, s: string, profile: string)
    requires from <= |jobs| && forall i :: i in own && from <= i < |jobs| ==> !InLane(jobs[i], s, profile)
    ensures OwnTries(jobs, own, from, s, profile) == 0
    decreases |jobs| - from
  {
    if from < |jobs| {
      TriesNone(jobs, own, from + 1, s, profile);
    }
  }

  lemma {:induction false} TriesEvolve(jobs: seq<Job>, next: seq<Job>, own: set<nat>, from: nat, s: string, profile: string)
    requires Evolves(jobs, next) && from <= |jobs| && forall i :: i in own ==> i < |jobs|
    ensures OwnTries(next, own, from, s, profile) <= OwnTries(jobs, own, from, s, profile)
    decreases |jobs| - from
  {
    if from < |jobs| {
      TriesEvolve(jobs, next, own, from + 1, s, profile);
      assert Progress(jobs[from], next[from]);
    } else {
      TriesNone(next, own, from, s, profile);
    }
  }

  lemma {:induction false} TriesPush(jobs: seq<Job>, j: Job, own: set<nat>, from: nat, s: string, profile: string)
    requires from <= |jobs|
    ensures OwnTries(jobs + [j], own + {|jobs|}, from, s, profile)
         == OwnTries(jobs, own, from, s, profile) + if InLane(j, s, profile) && !j.state.Cancelled? then 1 else 0
    decreases |jobs| - from
  {
    hide InLane;
    var next := jobs + [j];
    if from < |jobs| {
      TriesPush(jobs, j, own, from + 1, s, profile);
      assert next[from] == jobs[from];
    } else {
      assert next[from] == j;
      assert OwnTries(next, own + {|jobs|}, from + 1, s, profile) == 0;
    }
  }

  /** What lies before a position adds nothing if none of it is the script's. */
  lemma {:induction false} TriesSkip(jobs: seq<Job>, own: set<nat>, from: nat, to: nat, s: string, profile: string)
    requires from <= to <= |jobs| && forall i :: i in own && from <= i < to ==> !InLane(jobs[i], s, profile) || jobs[i].state.Cancelled?
    ensures OwnTries(jobs, own, from, s, profile) == OwnTries(jobs, own, to, s, profile)
    decreases |jobs| - from
  {
    if from < to {
      TriesSkip(jobs, own, from + 1, to, s, profile);
    }
  }

  /** Where the read found nothing live or succeeded, the script's tries since
      the listing began are among the failures it counted. */
  lemma {:induction false} TriesWereListed(seen: seq<Job>, jobs: seq<Job>, own: set<nat>, from: nat, s: string, profile: string)
    requires Evolves(seen, jobs) && from <= |seen|
    requires forall i :: from <= i < |seen| && InLane(seen[i], s, profile) ==> !Holds(seen[i])
    requires forall i :: i in own && |seen| <= i < |jobs| ==> !InLane(jobs[i], s, profile)
    ensures OwnTries(jobs, own, from, s, profile) <= CountFrom(seen, from, Criterion(P5, s, Some(profile), Failure))
    decreases |seen| - from
  {
    if from < |seen| {
      TriesWereListed(seen, jobs, own, from + 1, s, profile);
      assert Progress(seen[from], jobs[from]);
    } else {
      TriesNone(jobs, own, from, s, profile);
    }
  }

  // ---- nothing anybody else does breaks it ----

  lemma EnvKeepsLane(jobs: seq<Job>, next: seq<Job>, own: set<nat>, s: string, profile: string)
    requires OwnLaneSafe(jobs, own, s, profile) && Evolves(jobs, next) && forall i :: i in own ==> i < |jobs|
    ensures OwnLaneSafe(next, own, s, profile)
  {
    TriesEvolve(jobs, next, own, 0, s, profile);
    forall i | i in own
      ensures (InLane(next[i], s, profile) <==> InLane(jobs[i], s, profile)) && (Holds(next[i]) ==> Holds(jobs[i]))
      ensures next[i].layerStack == jobs[i].layerStack
    {
      assert Progress(jobs[i], next[i]);
    }
    forall id | HasRendered(jobs, s, id) ensures HasRendered(next, s, id) {
      RenderedStays(jobs, next, s, id);
    }
  }

  lemma RenderedStays(jobs: seq<Job>, next: seq<Job>, s: string, id: string)
    requires HasRendered(jobs, s, id) && Evolves(jobs, next)
    ensures HasRendered(next, s, id)
  {
    var k :| 0 <= k < |jobs| && IsP4Of(jobs[k], s) && jobs[k].state.Succeeded? && jobs[k].id == id;
    assert Progress(jobs[k], next[k]);
  }

  lemma FlattenedStays(jobs: seq<Job>, next: seq<Job>, s: string)
    requires HasFlattened(jobs, s) && Evolves(jobs, next)
    ensures HasFlattened(next, s)
  {
    var k :| 0 <= k < |jobs| && IsSheet(jobs[k], s);
    assert Progress(jobs[k], next[k]);
  }

  /** No movement of the fleet, and no job of anybody else's, breaks what the
      script is held to. */
  lemma EnvKeepsSafe(jobs: seq<Job>, next: seq<Job>, own: set<nat>)
    requires OwnSafe(jobs, own) && Evolves(jobs, next)
    ensures OwnSafe(next, own)
  {
    forall s ensures OwnSurfaceSafe(next, own, s) {
      assert OwnSurfaceSafe(jobs, own, s);
      forall profile ensures OwnLaneSafe(next, own, s, profile) {
        assert OwnLaneSafe(jobs, own, s, profile);
        EnvKeepsLane(jobs, next, own, s, profile);
      }
      hide OwnLaneSafe, HasFlattened;
      forall i | i in own ensures IsP4Of(next[i], s) <==> IsP4Of(jobs[i], s) {
        assert Progress(jobs[i], next[i]);
      }
      if HasFlattened(jobs, s) {
        FlattenedStays(jobs, next, s);
      }
    }
  }

  // ---- a post ----

  lemma P4WarrantMeans(seen: seq<Job>, r: Request)
    requires r.phase == P4 && Warranted(Listing(seen), r)
    ensures forall k :: Start(seen) <= k < |seen| ==> !IsP4Of(seen[k], r.surface)
    ensures HasFlattened(seen, r.surface)
  {
    P4PostedWhen(seen, Start(seen), r.surface);
    hide DecideSurface, IsSheet;
  }

  lemma P5WarrantMeans(seen: seq<Job>, r: Request)
    requires r.phase == P5 && Warranted(Listing(seen), r)
    ensures forall k :: Start(seen) <= k < |seen| && InLane(seen[k], r.surface, r.profile) ==> !Holds(seen[k])
    ensures CountFrom(seen, Start(seen), Criterion(P5, r.surface, Some(r.profile), Failure)) < 3
    ensures r.layerStack.Some? && HasRendered(seen, r.surface, r.layerStack.value)
  {
    P5ByCount(seen, Start(seen), r.surface, r.profile);
    LanesOpenWhen(seen, Start(seen), r.surface);
    hide DecideSurface, DecideLane, CountFrom;
  }

  /** Nothing the script added since the read is in the slot asked for. */
  lemma SlotStillOpen(seen: seq<Job>, jobs: seq<Job>, own: set<nat>, made: seq<Request>, r: Request)
    requires Extends(seen, jobs, own, made) && forall m :: 0 <= m < |made| ==> !SameSlot(made[m], r)
    ensures forall i :: i in own && |seen| <= i ==> !ForSlot(jobs[i], r)
  {
    forall i | i in own && |seen| <= i ensures !ForSlot(jobs[i], r) {
      var m :| 0 <= m < |made| && ForSlot(jobs[i], made[m]);
      assert !SameSlot(made[m], r);
    }
  }

  /** When a P4 goes out, the script already has one on the surface exactly when
      one had dropped out of the listing. */
  lemma OwnSecondP4When(seen: seq<Job>, jobs: seq<Job>, own: set<nat>, made: seq<Request>, r: Request)
    requires Extends(seen, jobs, own, made) && r.phase == P4 && Warranted(Listing(seen), r)
    requires forall m :: 0 <= m < |made| ==> !SameSlot(made[m], r)
    ensures (exists i :: i in own && IsP4Of(jobs[i], r.surface)) <==>
      exists i :: i in own && i < Start(seen) && IsP4Of(seen[i], r.surface)
  {
    P4WarrantMeans(seen, r);
    SlotStillOpen(seen, jobs, own, made, r);
    forall i | i in own
      ensures IsP4Of(jobs[i], r.surface) <==> i < Start(seen) && IsP4Of(seen[i], r.surface)
    {
      if i < |seen| {
        assert Progress(seen[i], jobs[i]);
      } else {
        assert !ForSlot(jobs[i], r);
      }
    }
    hide IsP4Of, Extends, Warranted;
  }

  /** When a P5 goes out, a live or succeeded one of the script's own is in the
      lane exactly when it had dropped out of the listing. */
  lemma OwnSecondHolderWhen(seen: seq<Job>, jobs: seq<Job>, own: set<nat>, made: seq<Request>, r: Request)
    requires Extends(seen, jobs, own, made) && r.phase == P5 && Warranted(Listing(seen), r)
    requires forall m :: 0 <= m < |made| ==> !SameSlot(made[m], r)
    ensures (exists i :: i in own && InLane(jobs[i], r.surface, r.profile) && Holds(jobs[i])) <==>
      exists i :: i in own && i < Start(seen) && InLane(jobs[i], r.surface, r.profile) && Holds(jobs[i])
  {
    P5WarrantMeans(seen, r);
    SlotStillOpen(seen, jobs, own, made, r);
    forall i | i in own && |seen| <= i ensures !InLane(jobs[i], r.surface, r.profile) {
      assert !ForSlot(jobs[i], r);
    }
    forall i | i in own && Start(seen) <= i < |seen| ensures !(InLane(jobs[i], r.surface, r.profile) && Holds(jobs[i])) {
      assert Progress(seen[i], jobs[i]);
    }
    hide InLane, Holds, Extends, Warranted;
  }

  /** And it is the script's fourth try or later only if an uncancelled one of
      its own had dropped out of the listing. */
  lemma OwnFourthTryWhen(seen: seq<Job>, jobs: seq<Job>, own: set<nat>, made: seq<Request>, r: Request)
    requires Extends(seen, jobs, own, made) && r.phase == P5 && Warranted(Listing(seen), r)
    requires forall m :: 0 <= m < |made| ==> !SameSlot(made[m], r)
    requires OwnTries(jobs, own, 0, r.surface, r.profile) >= 3
    ensures exists i :: i in own && i < Start(seen) && InLane(jobs[i], r.surface, r.profile) && !jobs[i].state.Cancelled?
  {
    var from := Start(seen);
    P5WarrantMeans(seen, r);
    SlotStillOpen(seen, jobs, own, made, r);
    forall i | i in own && |seen| <= i < |jobs| ensures !InLane(jobs[i], r.surface, r.profile) {
      assert !ForSlot(jobs[i], r);
    }
    TriesWereListed(seen, jobs, own, from, r.surface, r.profile);
    hide InLane, Holds, Extends, Warranted, CountFrom, OwnTries;
    if forall i :: i in own && i < from ==> !InLane(jobs[i], r.surface, r.profile) || jobs[i].state.Cancelled? {
      TriesSkip(jobs, own, 0, from, r.surface, r.profile);
    }
  }

  lemma PostKeepsLane(seen: seq<Job>, jobs: seq<Job>, own: set<nat>, made: seq<Request>, r: Request, j: Job, s: string, profile: string)
    requires OwnLaneSafe(jobs, own, s, profile) && Extends(seen, jobs, own, made) && Visible(seen, own)
    requires Warranted(Listing(seen), r) && Becomes(r, j) && forall m :: 0 <= m < |made| ==> !SameSlot(made[m], r)
    ensures OwnLaneSafe(jobs + [j], own + {|jobs|}, s, profile)
  {
    var next := jobs + [j];
    TriesPush(jobs, j, own, 0, s, profile);
    RenderedKept(jobs, j, s);
    assert forall i :: i in own ==> next[i] == jobs[i];
    if InLane(j, s, profile) {
      LaneWasOpen(seen, jobs, own, made, r);
    }
    hide Extends, Warranted, OwnTries, InLane, Holds, HasRendered, Visible;
  }

  lemma LaneWasOpen(seen: seq<Job>, jobs: seq<Job>, own: set<nat>, made: seq<Request>, r: Request)
    requires Extends(seen, jobs, own, made) && Visible(seen, own) && r.phase == P5
    requires Warranted(Listing(seen), r) && forall m :: 0 <= m < |made| ==> !SameSlot(made[m], r)
    ensures forall i :: i in own ==> !(InLane(jobs[i], r.surface, r.profile) && Holds(jobs[i]))
    ensures OwnTries(jobs, own, 0, r.surface, r.profile) <= 2
    ensures r.layerStack.Some? && HasRendered(jobs, r.surface, r.layerStack.value)
  {
    OwnSecondHolderWhen(seen, jobs, own, made, r);
    if OwnTries(jobs, own, 0, r.surface, r.profile) >= 3 {
      OwnFourthTryWhen(seen, jobs, own, made, r);
    }
    P5WarrantMeans(seen, r);
    RenderedStays(seen, jobs, r.surface, r.layerStack.value);
    hide Warranted, OwnTries, InLane, Holds, HasRendered, CountFrom;
  }

  lemma RenderedKept(jobs: seq<Job>, j: Job, s: string)
    ensures forall id :: HasRendered(jobs, s, id) ==> HasRendered(jobs + [j], s, id)
  {
    forall id | HasRendered(jobs, s, id) ensures HasRendered(jobs + [j], s, id) {
      assert Evolves(jobs, jobs + [j]);
      RenderedStays(jobs, jobs + [j], s, id);
    }
  }

  lemma PostKeepsP4(seen: seq<Job>, jobs: seq<Job>, own: set<nat>, made: seq<Request>, r: Request, j: Job, s: string)
    requires OwnSurfaceSafe(jobs, own, s) && Extends(seen, jobs, own, made) && Visible(seen, own)
    requires Warranted(Listing(seen), r) && Becomes(r, j) && forall m :: 0 <= m < |made| ==> !SameSlot(made[m], r)
    ensures var next, more := jobs + [j], own + {|jobs|};
      && (forall i, k :: i in more && k in more && i < k < |next| ==> !(IsP4Of(next[i], s) && IsP4Of(next[k], s)))
      && (forall i :: i in more && i < |next| && IsP4Of(next[i], s) ==> HasFlattened(next, s))
  {
    var next := jobs + [j];
    assert forall i :: i in own ==> next[i] == jobs[i];
    assert Evolves(jobs, next);
    if HasFlattened(jobs, s) {
      FlattenedStays(jobs, next, s);
    }
    if IsP4Of(j, s) {
      assert r.phase == P4 && r.surface == s;
      OwnSecondP4When(seen, jobs, own, made, r);
      P4WarrantMeans(seen, r);
      FlattenedStays(seen, jobs, s);
      FlattenedStays(jobs, next, s);
    }
    hide HasFlattened, Warranted, OwnLaneSafe, IsP4Of;
  }

  /** A warranted post into a slot this pass has not used breaks nothing the
      script is held to, however far the fleet has moved since the read,
      provided the read showed everything the script had posted. */
  lemma PostKeepsSafe(seen: seq<Job>, jobs: seq<Job>, own: set<nat>, made: seq<Request>, r: Request, j: Job)
    requires OwnSafe(jobs, own) && Extends(seen, jobs, own, made) && Visible(seen, own)
    requires Warranted(Listing(seen), r) && Becomes(r, j) && forall m :: 0 <= m < |made| ==> !SameSlot(made[m], r)
    ensures OwnSafe(jobs + [j], own + {|jobs|}) && Visible(seen, own + {|jobs|})
  {
    hide Warranted, Extends, OwnLaneSafe;
    forall s ensures OwnSurfaceSafe(jobs + [j], own + {|jobs|}, s) {
      assert OwnSurfaceSafe(jobs, own, s);
      PostKeepsP4(seen, jobs, own, made, r, j, s);
      forall profile ensures OwnLaneSafe(jobs + [j], own + {|jobs|}, s, profile) {
        assert OwnLaneSafe(jobs, own, s, profile);
        PostKeepsLane(seen, jobs, own, made, r, j, s, profile);
      }
    }
    assert |seen| <= |jobs| by { ExtendsGrows(seen, jobs, own, made); }
  }

  lemma ExtendsGrows(seen: seq<Job>, jobs: seq<Job>, own: set<nat>, made: seq<Request>)
    requires Extends(seen, jobs, own, made)
    ensures |seen| <= |jobs|
  {}

  lemma PostExtends(seen: seq<Job>, jobs: seq<Job>, own: set<nat>, made: seq<Request>, r: Request, j: Job)
    requires Extends(seen, jobs, own, made) && Becomes(r, j)
    ensures Extends(seen, jobs + [j], own + {|jobs|}, made + [r])
  {
    var next, more := jobs + [j], made + [r];
    forall i | i in own + {|jobs|} && |seen| <= i ensures exists m :: 0 <= m < |more| && ForSlot(next[i], more[m]) {
      if i < |jobs| {
        var m :| 0 <= m < |made| && ForSlot(jobs[i], made[m]);
        assert more[m] == made[m] && next[i] == jobs[i];
      } else {
        assert more[|made|] == r && next[i] == j;
      }
    }
  }

  // ---- any number of passes, interleaved with anything ----

  /** A post that became a job: what it asked for, the fleet its pass had read, and the fleet it joined. */
  datatype Landing = Landing(request: Request, seen: seq<Job>, jobs: seq<Job>)

  datatype Config = Config(
    jobs: seq<Job>, own: set<nat>, seen: seq<Job>, made: seq<Request>, pending: seq<Request>, landed: seq<Landing>)

  datatype Step =
    | FleetMoves
    | PassBegins(surfaces: seq<string>, lanes: seq<Lane>)  // reads the newest jobs; whatever was pending is dropped
    | PostLands(job: Job)                                   // the next pending request becomes a job

  ghost predicate Next(c: Config, step: Step, d: Config) {
    match step
    case FleetMoves => d == c.(jobs := d.jobs) && Evolves(c.jobs, d.jobs)
    case PassBegins(surfaces, lanes) =>
      d == c.(seen := c.jobs, made := [], pending := PassPosts(Listing(c.jobs), surfaces, lanes))
    case PostLands(job) =>
      && c.pending != [] && Becomes(c.pending[0], job)
      && d == Config(c.jobs + [job], c.own + {|c.jobs|}, c.seen, c.made + [c.pending[0]], c.pending[1..],
                     c.landed + [Landing(c.pending[0], c.seen, c.jobs)])
  }

  ghost predicate IsRun(cs: seq<Config>, steps: seq<Step>) {
    && |cs| == |steps| + 1 && (exists jobs :: cs[0] == Config(jobs, {}, jobs, [], [], []))
    && forall i, j :: 0 <= i < |steps| && j == i + 1 ==> Next(cs[i], steps[i], cs[j])
  }

  /** What every post that landed had behind it. */
  ghost predicate LandedWell(l: Landing) {
    && Evolves(l.seen, l.jobs) && Warranted(Listing(l.seen), l.request)
    && match l.request.phase
       case P3 =>
         && (forall k :: Start(l.seen) <= k < |l.seen| ==> !IsSheet(l.seen[k], l.request.surface))
         && (forall k :: 0 <= k < |l.jobs| && IsSheet(l.jobs[k], l.request.surface) ==>
               k < Start(l.seen) || |l.seen| <= k || l.seen[k].state.Live?)
       case P4 => HasFlattened(l.jobs, l.request.surface)
       case P5 => l.request.layerStack.Some? && HasRendered(l.jobs, l.request.surface, l.request.layerStack.value)
       case _ => false
  }

  lemma LandingIsWarranted(seen: seq<Job>, jobs: seq<Job>, r: Request)
    requires Evolves(seen, jobs) && Warranted(Listing(seen), r)
    ensures LandedWell(Landing(r, seen, jobs))
  {
    match r.phase
    case P3 =>
      P3ByCount(seen, Start(seen), r.surface);
      hide DecideSurface, Meets;
      forall k | 0 <= k < |jobs| && IsSheet(jobs[k], r.surface) && Start(seen) <= k < |seen| ensures seen[k].state.Live? {
        assert Progress(seen[k], jobs[k]);
      }
    case P4 =>
      P4WarrantMeans(seen, r);
      FlattenedStays(seen, jobs, r.surface);
      hide DecideSurface;
    case P5 =>
      P5WarrantMeans(seen, r);
      RenderedStays(seen, jobs, r.surface, r.layerStack.value);
      hide DecideSurface, DecideLane;
    case _ =>
  }

  ghost predicate Warrants(c: Config) {
    && Extends(c.seen, c.jobs, c.own, c.made)
    && (forall i :: 0 <= i < |c.pending| ==> Warranted(Listing(c.seen), c.pending[i]))
    && (forall i :: 0 <= i < |c.landed| ==> LandedWell(c.landed[i]))
  }

  lemma NextKeepsWarrants(c: Config, step: Step, d: Config)
    requires Warrants(c) && Next(c, step, d)
    ensures Warrants(d)
  {
    hide Extends, Warranted, Evolves, LandedWell, Listing, Becomes;
    match step
    case FleetMoves => EnvKeepsExtends(c.seen, c.jobs, d.jobs, c.own, c.made);
    case PassBegins(surfaces, lanes) =>
      PassPostsWarranted(Listing(c.jobs), surfaces, lanes);
      NothingSince(c.seen, c.jobs, c.own, c.made);
    case PostLands(job) =>
      PostExtends(c.seen, c.jobs, c.own, c.made, c.pending[0], job);
      ExtendsEvolves(c.seen, c.jobs, c.own, c.made);
      LandingIsWarranted(c.seen, c.jobs, c.pending[0]);
  }

  lemma NothingSince(seen: seq<Job>, jobs: seq<Job>, own: set<nat>, made: seq<Request>)
    requires Extends(seen, jobs, own, made)
    ensures Extends(jobs, jobs, own, [])
  {}

  lemma ExtendsEvolves(seen: seq<Job>, jobs: seq<Job>, own: set<nat>, made: seq<Request>)
    requires Extends(seen, jobs, own, made)
    ensures Evolves(seen, jobs)
  {}

  /** Whatever else happens on the platform, however long its job list and
      whatever the command line: every P3 that lands had no listed P3 that
      flattened, and one that exists by then was unlisted at the read or
      flattened since; every P4 lands after a P3 that flattened; every P5 over a
      P4 that succeeded. */
  lemma {:induction false} EveryLandingIsWarranted(cs: seq<Config>, steps: seq<Step>, n: nat)
    requires IsRun(cs, steps) && n < |cs|
    ensures Warrants(cs[n])
  {
    if n > 0 {
      EveryLandingIsWarranted(cs, steps, n - 1);
      hide Warrants;
      assert Next(cs[n-1], steps[n-1], cs[n]);
      NextKeepsWarrants(cs[n-1], steps[n-1], cs[n]);
    }
  }

  /** A pass that reads a listing showing everything the script has posted, and
      asks for no slot twice. */
  ghost predicate Careful(c: Config, step: Step) {
    step.PassBegins? ==>
      && (forall i :: i in c.own ==> Start(c.jobs) <= i)
      && Distinct(PassPosts(Listing(c.jobs), step.surfaces, step.lanes))
  }

  /** A short enough job list, with no surface or lane repeated, makes it so. */
  lemma CarefulWhen(c: Config, surfaces: seq<string>, lanes: seq<Lane>)
    requires |c.jobs| <= LIMIT && NoDuplicates(surfaces) && DistinctLanes(lanes)
    ensures Careful(c, PassBegins(surfaces, lanes))
  {
    AsksOnceWhen(Listing(c.jobs), surfaces, lanes);
  }

  ghost predicate Good(c: Config) {
    Warrants(c) && OwnSafe(c.jobs, c.own) && Visible(c.seen, c.own) && Distinct(c.made + c.pending)
  }

  lemma NextKeepsGood(c: Config, step: Step, d: Config)
    requires Good(c) && Next(c, step, d) && Careful(c, step)
    ensures Good(d)
  {
    NextKeepsWarrants(c, step, d);
    assert Extends(c.seen, c.jobs, c.own, c.made);
    assert c.pending != [] ==> Warranted(Listing(c.seen), c.pending[0]);
    hide Warrants, OwnSafe, Extends, Warranted, Evolves, Listing, Becomes;
    match step
    case FleetMoves => EnvKeepsSafe(c.jobs, d.jobs, c.own);
    case PassBegins(surfaces, lanes) =>
      assert d.made + d.pending == PassPosts(Listing(c.jobs), surfaces, lanes);
    case PostLands(job) =>
      var all, r := c.made + c.pending, c.pending[0];
      assert all[|c.made|] == r;
      forall m | 0 <= m < |c.made| ensures !SameSlot(c.made[m], r) {
        assert all[m] == c.made[m];
      }
      PostKeepsSafe(c.seen, c.jobs, c.own, c.made, r, job);
      assert d.made + d.pending == all;
  }

  /** Over every run whose reads show everything the script has posted, against
      any environment: it posts at most one P4 per surface; it never has two P5
      live or succeeded in a lane; and without cancellations it posts at most
      three. */
  lemma {:induction false} EveryRunIsSafe(cs: seq<Config>, steps: seq<Step>, n: nat)
    requires IsRun(cs, steps) && n < |cs| && forall i :: 0 <= i < |steps| ==> Careful(cs[i], steps[i])
    ensures Good(cs[n])
  {
    if n == 0 {
      NothingPosted(cs[0].jobs);
    } else {
      EveryRunIsSafe(cs, steps, n - 1);
      hide Good;
      assert Next(cs[n-1], steps[n-1], cs[n]);
      NextKeepsGood(cs[n-1], steps[n-1], cs[n]);
    }
  }

  lemma NothingPosted(jobs: seq<Job>)
    ensures OwnSafe(jobs, {})
  {
    forall s, profile ensures OwnLaneSafe(jobs, {}, s, profile) {
      TriesNone(jobs, {}, 0, s, profile);
    }
  }

  // ---- a surface nobody will render again ----

  /** With a sheet listed, the surface waits exactly when its newest listed P4
      has not succeeded, whether it still may or not. */
  lemma WaitsOnP4When(jobs: seq<Job>, from: nat, s: string, k: nat)
    requires from <= |jobs| && IsNewestP4(jobs, from, s, k)
    requires exists m :: from <= m < |jobs| && IsSheet(jobs[m], s)
    ensures DecideSurface(NewestFirst(jobs, from), s) == Wait <==> !jobs[k].state.Succeeded?
  {
    P3ByCount(jobs, from, s);
    P4PostedWhen(jobs, from, s);
    LanesOpenWhen(jobs, from, s);
    hide DecideSurface, NewestFirst, IsSheet, IsP4Of, CountFrom, Meets;
    assert forall i :: IsNewestP4(jobs, from, s, i) ==> i == k;
  }

  /** A listed sheet, a newest P4 that ended without success, and nothing pending for the surface. */
  ghost predicate Stuck(c: Config, s: string, k: nat, m: nat) {
    && Start(c.jobs) <= k < |c.jobs| && Start(c.jobs) <= m < |c.jobs|
    && IsSheet(c.jobs[m], s) && IsP4Of(c.jobs[k], s) && !Holds(c.jobs[k])
    && (forall i :: k < i < |c.jobs| ==> !IsP4Of(c.jobs[i], s))
    && (forall i :: 0 <= i < |c.pending| ==> c.pending[i].surface != s)
  }

  /** Nobody else posts a P4 for the surface, and the two jobs stay listed. */
  ghost predicate LeftAlone(c: Config, step: Step, d: Config, s: string, k: nat, m: nat) {
    && Start(d.jobs) <= k && Start(d.jobs) <= m
    && (step.FleetMoves? ==> forall i :: |c.jobs| <= i < |d.jobs| ==> !IsP4Of(d.jobs[i], s))
  }

  lemma StuckPostsNothing(c: Config, s: string, k: nat, m: nat, surfaces: seq<string>, lanes: seq<Lane>)
    requires Stuck(c, s, k, m)
    ensures forall r :: r in PassPosts(Listing(c.jobs), surfaces, lanes) ==> r.surface != s
  {
    assert IsNewestP4(c.jobs, Start(c.jobs), s, k);
    WaitsOnP4When(c.jobs, Start(c.jobs), s, k);
    PassPostsWarranted(Listing(c.jobs), surfaces, lanes);
    hide DecideSurface, NewestFirst, IsSheet, IsP4Of, PassPosts;
  }

  lemma NextKeepsStuck(c: Config, step: Step, d: Config, s: string, k: nat, m: nat)
    requires Stuck(c, s, k, m) && Next(c, step, d) && LeftAlone(c, step, d, s, k, m)
    ensures Stuck(d, s, k, m)
    ensures |c.landed| <= |d.landed| && forall i :: |c.landed| <= i < |d.landed| ==> d.landed[i].request.surface != s
  {
    match step
    case FleetMoves =>
      assert forall i :: 0 <= i < |c.jobs| ==> Progress(c.jobs[i], d.jobs[i]);
    case PassBegins(surfaces, lanes) =>
      StuckPostsNothing(c, s, k, m, surfaces, lanes);
      hide PassPosts, Listing;
      assert forall i :: 0 <= i < |d.pending| ==> d.pending[i] in PassPosts(Listing(c.jobs), surfaces, lanes);
    case PostLands(job) =>
      assert Key(job) == c.pending[0].surface;
  }

  /** Once the newest P4 failed or was cancelled, no pass ever posts anything for
      the surface again: it is neither rendered again nor flattened again, and
      its lanes never open. */
  lemma {:induction false} StuckForever(cs: seq<Config>, steps: seq<Step>, first: nat, n: nat, s: string, k: nat, m: nat)
    requires IsRun(cs, steps) && first <= n < |cs| && Stuck(cs[first], s, k, m)
    requires forall i :: first <= i < |steps| ==> LeftAlone(cs[i], steps[i], cs[i+1], s, k, m)
    ensures Stuck(cs[n], s, k, m) && |cs[first].landed| <= |cs[n].landed|
    ensures forall i :: |cs[first].landed| <= i < |cs[n].landed| ==> cs[n].landed[i].request.surface != s
    decreases n
  {
    if first < n {
      StuckForever(cs, steps, first, n - 1, s, k, m);
      hide Stuck, LeftAlone;
      assert Next(cs[n-1], steps[n-1], cs[n]) && LeftAlone(cs[n-1], steps[n-1], cs[n-1+1], s, k, m);
      NextKeepsStuck(cs[n-1], steps[n-1], cs[n], s, k, m);
      LandedGrows(cs[n-1], steps[n-1], cs[n]);
    }
  }

  lemma LandedGrows(c: Config, step: Step, d: Config)
    requires Next(c, step, d)
    ensures c.landed <= d.landed
  {}

  // ---- and nobody else ----

  /** The whole fleet's P4 and P5 jobs of a surface, not only the script's. */
  ghost predicate SurfaceSafe(jobs: seq<Job>, s: string) {
    && (forall i, j :: 0 <= i < j < |jobs| ==> !(IsP4Of(jobs[i], s) && IsP4Of(jobs[j], s)))
    && (forall profile, i, j :: 0 <= i < j < |jobs| && InLane(jobs[i], s, profile) && InLane(jobs[j], s, profile) ==>
          !(Holds(jobs[i]) && Holds(jobs[j])))
    && (forall profile :: CountFrom(jobs, 0, Criterion(P5, s, Some(profile), NotCancelled)) <= 3)
  }

  /** Nobody but the script has posted P4 or P5 for this surface. */
  ghost predicate Alone(jobs: seq<Job>, own: set<nat>, s: string) {
    forall i :: 0 <= i < |jobs| && (jobs[i].phase == P4 || jobs[i].phase == P5) && Keyed(jobs[i], s) ==> i in own
  }

  lemma {:induction false} AllTriesAreOwn(jobs: seq<Job>, own: set<nat>, from: nat, s: string, profile: string)
    requires Alone(jobs, own, s) && from <= |jobs|
    ensures CountFrom(jobs, from, Criterion(P5, s, Some(profile), NotCancelled)) == OwnTries(jobs, own, from, s, profile)
    decreases |jobs| - from
  {
    if from < |jobs| {
      AllTriesAreOwn(jobs, own, from + 1, s, profile);
    }
  }

  /** Where nobody else posts on a surface, the guarantees are the fleet's. */
  lemma AloneIsSafe(jobs: seq<Job>, own: set<nat>, s: string)
    requires OwnSafe(jobs, own) && Alone(jobs, own, s)
    ensures SurfaceSafe(jobs, s)
  {
    assert OwnSurfaceSafe(jobs, own, s);
    forall profile ensures CountFrom(jobs, 0, Criterion(P5, s, Some(profile), NotCancelled)) <= 3 {
      assert OwnLaneSafe(jobs, own, s, profile);
      AllTriesAreOwn(jobs, own, 0, s, profile);
    }
    hide CountFrom, OwnTries;
    forall profile, i, j | 0 <= i < j < |jobs| && InLane(jobs[i], s, profile) && InLane(jobs[j], s, profile)
      ensures !(Holds(jobs[i]) && Holds(jobs[j]))
    {
      assert OwnLaneSafe(jobs, own, s, profile);
    }
  }

  ghost function P5Job(s: string, profile: string, stack: string): Job {
    Job("p5", P5, s, "", profile, Some(stack), Live("pending"), Silent)
  }

  /** Where somebody else does, a careful pass can land beside them: a P5 of
      theirs arriving after the read leaves two live in the lane. */
  lemma ForeignPostSharesLane(s: string, lane: Lane)
    requires s != ""
    ensures var first := [DoneP3(s), DoneP4(s)];
      var theirs := P5Job(s, lane.profile, "p4");
      var ask := Request(P5, s, lane.profile, Some("p4"));
      var c := Config(first, {}, first, [], [], []);
      var read := c.(pending := [ask]);
      var moved := read.(jobs := first + [theirs]);
      var done := Config(first + [theirs, theirs], {3}, first, [ask], [], [Landing(ask, first, first + [theirs])]);
      && Next(c, PassBegins([s], [lane]), read) && Careful(c, PassBegins([s], [lane]))
      && Next(read, FleetMoves, moved) && Next(moved, PostLands(theirs), done)
      && !SurfaceSafe(done.jobs, s)
  {
    var first := [DoneP3(s), DoneP4(s)];
    var theirs := P5Job(s, lane.profile, "p4");
    OpenSurfacePosts(s, lane);
    hide DecideSurface, DecideLane, Listing, PassPosts;
    assert first + [theirs] + [theirs] == first + [theirs, theirs];
    var jobs := first + [theirs, theirs];
    assert jobs[2] == theirs == jobs[3] && InLane(theirs, s, lane.profile) && Holds(theirs);
    assert !SurfaceSafe(jobs, s);
    hide SurfaceSafe, InLane, Holds;
    assert Start(first) == 0;
  }

  lemma OpenSurfacePosts(s: string, lane: Lane)
    requires s != ""
    ensures PassPosts(Listing([DoneP3(s), DoneP4(s)]), [s], [lane]) == [Request(P5, s, lane.profile, Some("p4"))]
  {
    var view, ask := Listing([DoneP3(s), DoneP4(s)]), Request(P5, s, lane.profile, Some("p4"));
    OpenSurface(s);
    LaneIsIdle(s, lane);
    hide DecideSurface, DecideLane, Listing;
    assert [lane][..0] == [] && [s][..0] == [];
    assert LanePosts(view, s, DoneP4(s), [lane]) == [ask];
    assert SurfacePosts(view, s, [lane]) == [ask];
  }

  lemma OpenSurface(s: string)
    requires s != ""
    ensures DecideSurface(Listing([DoneP3(s), DoneP4(s)]), s) == Lanes(DoneP4(s))
  {
    var jobs := [DoneP3(s), DoneP4(s)];
    assert IsSheet(jobs[0], s) && IsP4Of(jobs[1], s) && !IsP4Of(jobs[0], s);
    assert IsNewestP4(jobs, 0, s, 1);
    LanesOpenWhen(jobs, 0, s);
    hide DecideSurface, IsSheet, IsP4Of, NewestFirst;
  }

  lemma LaneIsIdle(s: string, lane: Lane)
    ensures DecideLane(Listing([DoneP3(s), DoneP4(s)]), s, lane.profile) == PostP5
  {
    var jobs, failed := [DoneP3(s), DoneP4(s)], Criterion(P5, s, Some(lane.profile), Failure);
    CountNone(jobs, 0, failed);
    P5ByCount(jobs, 0, s, lane.profile);
    hide DecideLane, NewestFirst;
  }

  // ---- the lanes a command line asks for ----

  const LANES := ["9um", "timesformer", "timesformer-large"]

  function OnlyLanes(chosen: seq<string>): seq<string> {
    if chosen == [] then []
    else OnlyLanes(chosen[..|chosen|-1]) + if chosen[|chosen|-1] in LANES then [chosen[|chosen|-1]] else []
  }

  function ChosenLanes(argument: seq<string>): seq<string> {
    var chosen := if argument == [] then ["9um"] else argument;
    if "all" in chosen then LANES
    else if "both" in chosen then ["9um", "timesformer"] + OnlyLanes(chosen)
    else FirstOccurrences(chosen)
  }

  lemma {:induction false} OnlyLanesMembers(chosen: seq<string>)
    ensures forall x :: x in OnlyLanes(chosen) <==> x in chosen && x in LANES
  {
    if chosen != [] {
      OnlyLanesMembers(chosen[..|chosen|-1]);
      assert chosen == chosen[..|chosen|-1] + [chosen[|chosen|-1]];
    }
  }

  /** No lane asked for is the 9um lane; "all" is every lane, whatever else is
      said; "both" is the first two, then each named again; otherwise each once,
      in the order first named. */
  lemma ChosenLanesMean(argument: seq<string>)
    ensures ChosenLanes([]) == ["9um"]
    ensures "all" in argument ==> ChosenLanes(argument) == ["9um", "timesformer", "timesformer-large"]
    ensures "both" in argument && "all" !in argument ==>
      && ["9um", "timesformer"] <= ChosenLanes(argument)
      && forall x :: x in ChosenLanes(argument)[2..] <==> x in argument && x in {"9um", "timesformer", "timesformer-large"}
    ensures "both" !in argument && "all" !in argument && argument != [] ==>
      && NoDuplicates(ChosenLanes(argument)) && (forall x :: x in ChosenLanes(argument) <==> x in argument)
      && forall i, j :: 0 <= i < j < |ChosenLanes(argument)| ==> MetBefore(argument, ChosenLanes(argument)[i], ChosenLanes(argument)[j])
  {
    OnlyLanesMembers(argument);
    forall i, j | 0 <= i < j < |FirstOccurrences(argument)|
      ensures MetBefore(argument, FirstOccurrences(argument)[i], FirstOccurrences(argument)[j])
    {
      FirstOccurrencesOrdered(argument, i, j);
    }
    assert FirstOccurrences(["9um"]) == ["9um"] by {
      assert ["9um"][..0] == [];
    }
    assert forall x :: x in LANES <==> x in {"9um", "timesformer", "timesformer-large"};
    hide FirstOccurrences, OnlyLanes, MetBefore;
  }

  /** A lane is listed twice exactly when "both" is combined, without "all",
      with one of its own two lanes or with a repeated third. */
  lemma LanesRepeatWhen(argument: seq<string>)
    ensures NoDuplicates(ChosenLanes(argument)) <==>
      ("both" in argument && "all" !in argument ==>
        "9um" !in argument && "timesformer" !in argument && NoDuplicates(OnlyLanes(argument)))
  {
    OnlyLanesMembers(argument);
    if "both" in argument && "all" !in argument {
      RepeatsAfterPair("9um", "timesformer", OnlyLanes(argument));
    }
  }

  lemma RepeatsAfterPair<T>(a: T, b: T, tail: seq<T>)
    requires a != b
    ensures NoDuplicates([a, b] + tail) <==> a !in tail && b !in tail && NoDuplicates(tail)
  {
    var r := [a, b] + tail;
    assert r[0] == a && r[1] == b && r[2..] == tail;
    if NoDuplicates(r) {
      forall i, j | 0 <= i < j < |tail| ensures tail[i] != tail[j] {
        assert tail[i] == r[i+2] && tail[j] == r[j+2];
      }
      assert forall i :: 0 <= i < |tail| ==> tail[i] == r[i+2];
    }
  }

  /** With a lane listed twice, one pass over an idle, rendered surface asks for
      the same P5 twice, and two of the script's own are then live in the lane. */
  lemma RepeatedLanePostsTwice(s: string, lane: Lane, j: Job, k: Job)
    requires s != ""
    ensures var jobs := [DoneP3(s), DoneP4(s)];
      var ask := Request(P5, s, lane.profile, Some("p4"));
      && PassPosts(Listing(jobs), [s], [lane, lane]) == [ask, ask]
      && (Becomes(ask, j) && Becomes(ask, k) ==> !OwnLaneSafe(jobs + [j, k], {2, 3}, s, lane.profile))
  {
    var jobs, ask := [DoneP3(s), DoneP4(s)], Request(P5, s, lane.profile, Some("p4"));
    OpenSurface(s);
    LaneIsIdle(s, lane);
    hide DecideSurface, DecideLane, Listing, NewestFirst;
    assert [lane, lane][..1] == [lane] && [lane][..0] == [] && [s][..0] == [];
    assert LanePosts(Listing(jobs), s, DoneP4(s), [lane]) == [ask];
    assert LanePosts(Listing(jobs), s, DoneP4(s), [lane, lane]) == [ask, ask];
    assert PassPosts(Listing(jobs), [s], [lane, lane]) == [ask, ask];
    hide PassPosts, LanePosts, HasRendered, OwnTries;
    var all := jobs + [j, k];
    assert all[2] == j && all[3] == k;
  }

  /** And with a surface listed twice, one pass posts its P4 twice. */
  lemma RepeatedSurfacePostsTwice(s: string, lanes: seq<Lane>)
    requires s != ""
    ensures PassPosts(Listing([DoneP3(s)]), [s, s], lanes) == [Request(P4, s, "", None), Request(P4, s, "", None)]
  {
    var jobs := [DoneP3(s)];
    assert IsSheet(jobs[0], s);
    P4PostedWhen(jobs, 0, s);
    hide DecideSurface, NewestFirst;
    assert [s, s][..1] == [s] && [s][..0] == [];
    assert PassPosts(Listing(jobs), [s], lanes) == [Request(P4, s, "", None)];
  }

  // ---- the script itself ----

  /** The platform as the script meets it: anybody moves it between calls. */
  class Fleet {
    var jobs: seq<Job>
    ghost var own: set<nat>

    constructor (jobs: seq<Job>)
      ensures this.jobs == jobs && own == {}
    {
      this.jobs := jobs;
      own := {};
    }

    method Move()
      modifies this`jobs
      ensures Evolves(old(jobs), jobs)
    {
      var next: seq<Job> := *;
      if Evolves(jobs, next) {
        jobs := next;
      }
    }

    /** The newest jobs, newest first. */
    method GetJobs() returns (view: seq<Job>)
      modifies this`jobs
      ensures Evolves(old(jobs), jobs) && view == Listing(jobs)
    {
      Move();
      view := Listing(jobs);
    }

    /** A post is answered, or ends the script with an error status or no answer
        at all, and then the job may have been queued all the same. */
    method Post(r: Request) returns (answered: bool, ghost landed: bool)
      modifies this
      ensures answered ==> landed
      ensures landed ==>
        && jobs != [] && Becomes(r, jobs[|jobs|-1]) && Evolves(old(jobs), jobs[..|jobs|-1])
        && own == old(own) + {|jobs| - 1}
      ensures !landed ==> Evolves(old(jobs), jobs) && own == old(own)
    {
      Move();
      answered := *;
      var queued: bool := *;
      queued := queued || answered;
      landed := queued;
      if queued {
        var id: string := *;
        var j := if r.phase == P4 then Job(id, P4, "", r.surface, "", r.layerStack, Live("pending"), Silent)
                 else Job(id, r.phase, r.surface, "", r.profile, r.layerStack, Live("pending"), Silent);
        ghost var moved := jobs;
        own := own + {|jobs|};
        jobs := jobs + [j];
        assert jobs[..|jobs|-1] == moved;
      }
    }
  }

  /** Files every job under the surface it names. */
  method GroupBySurface(jobs: seq<Job>) returns (bySurface: map<string, seq<Job>>)
    ensures forall s :: Bucket(bySurface, s) == OnSurface(jobs, s)
  {
    bySurface := map[];
    for i := 0 to |jobs|
      invariant forall s :: Bucket(bySurface, s) == OnSurface(jobs[..i], s)
    {
      var key := Key(jobs[i]);
      assert jobs[..i+1][..i] == jobs[..i];
      if key != "" {
        bySurface := bySurface[key := Bucket(bySurface, key) + [jobs[i]]];
      }
    }
    assert jobs[..|jobs|] == jobs;
  }

  function Bucket(bySurface: map<string, seq<Job>>, s: string): seq<Job> {
    if s in bySurface then bySurface[s] else []
  }

  /** A surface counts once until its lanes open, then once per lane. */
  function SurfaceUnits(view: seq<Job>, s: string, lanes: seq<Lane>): nat {
    if DecideSurface(view, s).Lanes? then |lanes| else 1
  }

  function Units(view: seq<Job>, surfaces: seq<string>, lanes: seq<Lane>): nat {
    if surfaces == [] then 0
    else Units(view, surfaces[..|surfaces|-1], lanes) + SurfaceUnits(view, surfaces[|surfaces|-1], lanes)
  }

  function LanesDone(view: seq<Job>, s: string, lanes: seq<Lane>): nat {
    if lanes == [] then 0
    else LanesDone(view, s, lanes[..|lanes|-1]) + if DecideLane(view, s, lanes[|lanes|-1].profile) == LaneDone then 1 else 0
  }

  function SurfaceMaps(view: seq<Job>, s: string, lanes: seq<Lane>): nat {
    if DecideSurface(view, s).Lanes? then LanesDone(view, s, lanes) else 0
  }

  function MapsReady(view: seq<Job>, surfaces: seq<string>, lanes: seq<Lane>): nat {
    if surfaces == [] then 0
    else MapsReady(view, surfaces[..|surfaces|-1], lanes) + SurfaceMaps(view, surfaces[|surfaces|-1], lanes)
  }

  /** The places where the lanes are open, and those where a lane's map is there. */
  ghost function OpenAt(view: seq<Job>, surfaces: seq<string>): set<nat> {
    set i | 0 <= i < |surfaces| && DecideSurface(view, surfaces[i]).Lanes?
  }

  ghost function DoneAt(view: seq<Job>, s: string, lanes: seq<Lane>): set<nat> {
    set k | 0 <= k < |lanes| && DecideLane(view, s, lanes[k].profile) == LaneDone
  }

  /** A pass counts each surface once, or once per lane where its lanes are open. */
  lemma {:induction false} UnitsMean(view: seq<Job>, surfaces: seq<string>, lanes: seq<Lane>)
    ensures Units(view, surfaces, lanes) == |surfaces| - |OpenAt(view, surfaces)| + |OpenAt(view, surfaces)| * |lanes|
  {
    if surfaces != [] {
      var front := surfaces[..|surfaces|-1];
      UnitsMean(view, front, lanes);
      LastOpen(view, surfaces);
      OneMore(|OpenAt(view, front)|, |lanes|);
      hide DecideSurface, OpenAt;
    }
  }

  lemma OneMore(m: int, n: int)
    ensures (m + 1) * n == m * n + n
  {}

  lemma LastOpen(view: seq<Job>, surfaces: seq<string>)
    requires surfaces != []
    ensures |OpenAt(view, surfaces)| == |OpenAt(view, surfaces[..|surfaces|-1])| + if DecideSurface(view, surfaces[|surfaces|-1]).Lanes? then 1 else 0
  {
    hide DecideSurface;
    var n := |surfaces| - 1;
    assert OpenAt(view, surfaces) == OpenAt(view, surfaces[..n]) + if DecideSurface(view, surfaces[n]).Lanes? then {n} else {};
  }

  /** The finished maps: an open surface and a lane of it that is done. */
  ghost function MapsAt(view: seq<Job>, surfaces: seq<string>, lanes: seq<Lane>): set<(nat, nat)> {
    set i, k | i in OpenAt(view, surfaces) && k in DoneAt(view, surfaces[i], lanes) :: (i, k)
  }

  /** And it reports each finished map once. */
  lemma {:induction false} MapsReadyMean(view: seq<Job>, surfaces: seq<string>, lanes: seq<Lane>)
    ensures MapsReady(view, surfaces, lanes) == |MapsAt(view, surfaces, lanes)|
  {
    if surfaces != [] {
      var n := |surfaces| - 1;
      MapsReadyMean(view, surfaces[..n], lanes);
      LanesDoneMean(view, surfaces[n], lanes);
      LastMaps(view, surfaces, lanes);
      Paired(n, DoneAt(view, surfaces[n], lanes));
      hide DecideSurface, DoneAt, MapsAt, LanesDone;
    }
  }

  lemma LastMaps(view: seq<Job>, surfaces: seq<string>, lanes: seq<Lane>)
    requires surfaces != []
    ensures var n := |surfaces| - 1;
      var last := Pairs(n, if DecideSurface(view, surfaces[n]).Lanes? then DoneAt(view, surfaces[n], lanes) else {});
      MapsAt(view, surfaces, lanes) == MapsAt(view, surfaces[..n], lanes) + last && MapsAt(view, surfaces[..n], lanes) !! last
  {
    hide DecideSurface, DoneAt;
  }

  ghost function Pairs(n: nat, s: set<nat>): set<(nat, nat)> { set k | k in s :: (n, k) }

  lemma {:induction false} Paired(n: nat, s: set<nat>)
    ensures |Pairs(n, s)| == |s|
  {
    if s != {} {
      var k :| k in s;
      Paired(n, s - {k});
      assert Pairs(n, s) == Pairs(n, s - {k}) + {(n, k)};
    }
  }

  lemma {:induction false} LanesDoneMean(view: seq<Job>, s: string, lanes: seq<Lane>)
    ensures LanesDone(view, s, lanes) == |DoneAt(view, s, lanes)|
  {
    if lanes != [] {
      LanesDoneMean(view, s, lanes[..|lanes|-1]);
      LastDone(view, s, lanes);
      hide DecideLane, DoneAt;
    }
  }

  lemma LastDone(view: seq<Job>, s: string, lanes: seq<Lane>)
    requires lanes != []
    ensures |DoneAt(view, s, lanes)| == |DoneAt(view, s, lanes[..|lanes|-1])| + if DecideLane(view, s, lanes[|lanes|-1].profile) == LaneDone then 1 else 0
  {
    hide DecideLane;
    var n := |lanes| - 1;
    assert DoneAt(view, s, lanes) == DoneAt(view, s, lanes[..n]) + if DecideLane(view, s, lanes[n].profile) == LaneDone then {n} else {};
  }

  /** Everything made so far was warranted, and the script has kept to what it is held to. */
  ghost predicate Clean(seen: seq<Job>, jobs: seq<Job>, own: set<nat>, made: seq<Request>, all: seq<Request>) {
    && OwnSafe(jobs, own) && Extends(seen, jobs, own, made) && Visible(seen, own) && Distinct(all)
    && forall r :: r in all ==> Warranted(Listing(seen), r)
  }

  lemma PassOpens(jobs: seq<Job>, seen: seq<Job>, own: set<nat>, surfaces: seq<string>, lanes: seq<Lane>)
    requires OwnSafe(jobs, own) && Evolves(jobs, seen) && (forall i :: i in own ==> Start(seen) <= i)
    requires Distinct(PassPosts(Listing(seen), surfaces, lanes))
    ensures Clean(seen, seen, own, [], PassPosts(Listing(seen), surfaces, lanes))
  {
    EnvKeepsSafe(jobs, seen, own);
    PassPostsWarranted(Listing(seen), surfaces, lanes);
  }

  method PostNext(fleet: Fleet, r: Request, ghost seen: seq<Job>, ghost made: seq<Request>, ghost all: seq<Request>)
    returns (accepted: bool, ghost landed: seq<Request>)
    requires made + [r] <= all
    modifies fleet
    ensures landed == [] || landed == [r]
    ensures accepted ==> landed == [r]
    ensures Clean(seen, old(fleet.jobs), old(fleet.own), made, all) ==> Clean(seen, fleet.jobs, fleet.own, made + landed, all)
  {
    ghost var before, mine := fleet.jobs, fleet.own;
    ghost var queued: bool;
    accepted, queued := fleet.Post(r);
    landed := if queued then [r] else [];
    if Clean(seen, before, mine, made, all) {
      ghost var moved := if queued then fleet.jobs[..|fleet.jobs|-1] else fleet.jobs;
      EnvKeepsSafe(before, moved, mine);
      EnvKeepsExtends(seen, before, moved, mine, made);
      assert (made + [r])[|made|] == r && all[|made|] == r;
      forall m | 0 <= m < |made| ensures !SameSlot(made[m], r) {
        assert (made + [r])[m] == made[m] == all[m];
      }
      hide OwnSafe, Extends, Warranted, Evolves, Distinct, Visible;
      if queued {
        ghost var j := fleet.jobs[|fleet.jobs|-1];
        PostKeepsSafe(seen, moved, mine, made, r, j);
        PostExtends(seen, moved, mine, made, r, j);
        assert moved + [j] == fleet.jobs;
      } else {
        assert made + landed == made;
      }
    }
  }

  lemma {:induction false} PassPostsPrefix(view: seq<Job>, surfaces: seq<string>, lanes: seq<Lane>, i: nat)
    requires i <= |surfaces|
    ensures PassPosts(view, surfaces[..i], lanes) <= PassPosts(view, surfaces, lanes)
    decreases |surfaces|
  {
    if i == |surfaces| {
      assert surfaces[..i] == surfaces;
    } else {
      var front := surfaces[..|surfaces|-1];
      PassPostsPrefix(view, front, lanes, i);
      assert front[..i] == surfaces[..i];
    }
  }

  lemma {:induction false} LanePostsPrefix(view: seq<Job>, s: string, p4: Job, lanes: seq<Lane>, i: nat)
    requires i <= |lanes|
    ensures LanePosts(view, s, p4, lanes[..i]) <= LanePosts(view, s, p4, lanes)
    decreases |lanes|
  {
    if i == |lanes| {
      assert lanes[..i] == lanes;
    } else {
      var front := lanes[..|lanes|-1];
      LanePostsPrefix(view, s, p4, front, i);
      assert front[..i] == lanes[..i];
    }
  }

  /** The lane loop of one surface. */
  method AdvanceLanes(fleet: Fleet, bucket: seq<Job>, s: string, p4: Job, lanes: seq<Lane>,
                      ghost seen: seq<Job>, ghost before: seq<Request>, ghost all: seq<Request>)
    returns (moved: nat, waiting: nat, done: nat, ended: bool, ghost made: seq<Request>)
    requires bucket == OnSurface(Listing(seen), s) && before + LanePosts(Listing(seen), s, p4, lanes) <= all
    modifies fleet
    ensures before + made <= all && made <= LanePosts(Listing(seen), s, p4, lanes)
    ensures moved <= |made| <= if ended then moved + 1 else moved
    ensures !ended ==> made == LanePosts(Listing(seen), s, p4, lanes)
    ensures !ended ==> moved + waiting + done == |lanes| && done == LanesDone(Listing(seen), s, lanes)
    ensures Clean(seen, old(fleet.jobs), old(fleet.own), before, all) ==> Clean(seen, fleet.jobs, fleet.own, before + made, all)
  {
    ghost var view := Listing(seen);
    hide Clean, DecideLane, OnSurface, LanePosts, LanesDone, Listing;
    LanesNone(view, s, p4);
    assert lanes[..0] == [];
    moved, waiting, done, ended, made := 0, 0, 0, false, [];
    assert before + made == before;
    for l := 0 to |lanes|
      invariant made == LanePosts(view, s, p4, lanes[..l]) && moved == |made|
      invariant moved + waiting + done == l && done == LanesDone(view, s, lanes[..l])
      invariant Clean(seen, old(fleet.jobs), old(fleet.own), before, all) ==> Clean(seen, fleet.jobs, fleet.own, before + made, all)
    {
      LanePostsNext(view, s, p4, lanes, l);
      LanePostsPrefix(view, s, p4, lanes, l);
      LanePostsPrefix(view, s, p4, lanes, l + 1);
      BucketDecides(view, s, lanes[l].profile);
      var step := DecideLane(bucket, s, lanes[l].profile);
      match step
      case LaneDone => done := done + 1;
      case LaneWait => waiting := waiting + 1;
      case PostP5 =>
        var r := Request(P5, s, lanes[l].profile, Some(p4.id));
        assert before + made + [r] == before + (made + [r]);
        assert before + (made + [r]) <= before + LanePosts(view, s, p4, lanes);
        var accepted: bool;
        ghost var landed: seq<Request>;
        accepted, landed := PostNext(fleet, r, seen, before + made, all);
        assert before + made + landed == before + (made + landed);
        made := made + landed;
        if !accepted {
          return moved, waiting, done, true, made;
        }
        moved := moved + 1;
    }
    assert lanes[..|lanes|] == lanes;
  }

  lemma LanesNone(view: seq<Job>, s: string, p4: Job)
    ensures LanePosts(view, s, p4, []) == [] && LanesDone(view, s, []) == 0
  {}

  lemma LanePostsNext(view: seq<Job>, s: string, p4: Job, lanes: seq<Lane>, l: nat)
    requires l < |lanes|
    ensures LanePosts(view, s, p4, lanes[..l+1]) == LanePosts(view, s, p4, lanes[..l])
      + if DecideLane(view, s, lanes[l].profile) == PostP5 then [Request(P5, s, lanes[l].profile, Some(p4.id))] else []
    ensures LanesDone(view, s, lanes[..l+1]) == LanesDone(view, s, lanes[..l])
      + if DecideLane(view, s, lanes[l].profile) == LaneDone then 1 else 0
  {
    hide DecideLane;
    assert lanes[..l+1][..l] == lanes[..l];
  }

  /** One surface: post the phase it is ready for, or open its lanes. */
  method AdvanceSurface(fleet: Fleet, bucket: seq<Job>, s: string, lanes: seq<Lane>,
                        ghost seen: seq<Job>, ghost before: seq<Request>, ghost all: seq<Request>)
    returns (moved: nat, waiting: nat, done: nat, ended: bool, ghost made: seq<Request>)
    requires bucket == OnSurface(Listing(seen), s) && before + SurfacePosts(Listing(seen), s, lanes) <= all
    modifies fleet
    ensures before + made <= all && made <= SurfacePosts(Listing(seen), s, lanes)
    ensures moved <= |made| <= if ended then moved + 1 else moved
    ensures !ended ==> made == SurfacePosts(Listing(seen), s, lanes)
    ensures !ended ==>
      moved + waiting + done == SurfaceUnits(Listing(seen), s, lanes) && done == SurfaceMaps(Listing(seen), s, lanes)
    ensures Clean(seen, old(fleet.jobs), old(fleet.own), before, all) ==> Clean(seen, fleet.jobs, fleet.own, before + made, all)
  {
    ghost var view := Listing(seen);
    hide Clean, Listing;
    BucketDecides(view, s, "");
    moved, waiting, done, ended, made := 0, 0, 0, false, [];
    assert before + made == before;
    var step := DecideSurface(bucket, s);
    match step
    case Wait => waiting := 1;
    case Lanes(p4) =>
      moved, waiting, done, ended, made := AdvanceLanes(fleet, bucket, s, p4, lanes, seen, before, all);
    case _ =>
      var request := Request(if step == PostP3 then P3 else P4, s, "", None);
      assert SurfacePosts(view, s, lanes) == [request];
      var accepted: bool;
      ghost var landed: seq<Request>;
      accepted, landed := PostNext(fleet, request, seen, before, all);
      made := landed;
      if accepted {
        moved := 1;
      } else {
        ended := true;
      }
  }

  /** One pass: a listing, then every post it warrants, in order, until one is
      refused or unanswered; every surface or lane is counted exactly once, and a
      job queued behind a lost answer is among those made though not counted. */
  method AdvancePass(fleet: Fleet, surfaces: seq<string>, lanes: seq<Lane>)
    returns (moved: nat, waiting: nat, done: nat, ended: bool, ghost seen: seq<Job>, ghost made: seq<Request>)
    modifies fleet
    ensures Evolves(old(fleet.jobs), seen)
    ensures made <= PassPosts(Listing(seen), surfaces, lanes)
    ensures moved <= |made| <= if ended then moved + 1 else moved
    ensures !ended ==> made == PassPosts(Listing(seen), surfaces, lanes)
    ensures !ended ==>
      moved + waiting + done == Units(Listing(seen), surfaces, lanes) && done == MapsReady(Listing(seen), surfaces, lanes)
    ensures OwnSafe(old(fleet.jobs), old(fleet.own)) && (forall i :: i in old(fleet.own) ==> Start(seen) <= i)
            && Distinct(PassPosts(Listing(seen), surfaces, lanes)) ==>
      OwnSafe(fleet.jobs, fleet.own) && Extends(seen, fleet.jobs, fleet.own, made)
  {
    hide OwnSafe, Extends, Warranted, Distinct, Evolves, SurfacePosts, SurfaceUnits, SurfaceMaps, Listing, Visible;
    var listing := fleet.GetJobs();
    seen := fleet.jobs;
    ghost var view := listing;
    var bySurface := GroupBySurface(listing);
    ghost var all := PassPosts(view, surfaces, lanes);
    ghost var good := OwnSafe(old(fleet.jobs), fleet.own) && (forall i :: i in fleet.own ==> Start(seen) <= i) && Distinct(all);
    moved, waiting, done, ended, made := 0, 0, 0, false, [];
    if good {
      PassOpens(old(fleet.jobs), seen, fleet.own, surfaces, lanes);
    }
    for i := 0 to |surfaces|
      invariant made == PassPosts(view, surfaces[..i], lanes) && moved == |made|
      invariant moved + waiting + done == Units(view, surfaces[..i], lanes)
      invariant done == MapsReady(view, surfaces[..i], lanes)
      invariant good ==> Clean(seen, fleet.jobs, fleet.own, made, all)
    {
      var s := surfaces[i];
      assert surfaces[..i+1][..i] == surfaces[..i];
      PassPostsPrefix(view, surfaces, lanes, i + 1);
      var m, w, d, stop: bool, more := AdvanceSurface(fleet, Bucket(bySurface, s), s, lanes, seen, made, all);
      made := made + more;
      moved, waiting, done := moved + m, waiting + w, done + d;
      if stop {
        return moved, waiting, done, true, seen, made;
      }
    }
    assert surfaces[..|surfaces|] == surfaces;
  }
}

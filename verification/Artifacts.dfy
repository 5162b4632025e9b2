/** The append-only register of what phases produced, and the lineage it
    records (framework/contracts/artifact.py). */
module Artifacts {
  import opened Wrappers
  import opened Ordering
  import opened Text

  /** One registered artifact.  `inputs` is the sorted, duplicate-free list, kept
      as a set; `at` is the second its registration was stamped. */
  datatype Artifact = Artifact(
    id: string, phase: string, sample: string, kind: string, path: string,
    digest: string, fileCount: int, totalBytes: int,
    producedBy: Option<string>, inputs: set<string>, note: string, at: int, author: string)

  function Prefix(s: string, n: nat): string { if |s| < n then s else s[..n] }

  /** Readable at a glance, unique by content up to twelve hex digits. */
  function ArtifactId(phase: string, sample: string, digest: string): string {
    Lower(phase) + ":" + sample + ":" + Prefix(digest, 12)
  }

  // ---- reading the log ----

  /** Newest first; the sort is stable, so a tie keeps log order. */
  predicate NewerOrTied(a: Artifact, b: Artifact) { a.at >= b.at }

  function Listing(rows: seq<Artifact>): seq<Artifact> { Sort(NewerOrTied, rows) }

  predicate Matches(r: Artifact, phase: string, sample: string) {
    (phase == "" || r.phase == Upper(phase)) && (sample == "" || r.sample == sample)
  }

  function Matching(log: seq<Artifact>, phase: string, sample: string): seq<Artifact> {
    if log == [] then []
    else if Matches(log[|log|-1], phase, sample) then Matching(log[..|log|-1], phase, sample) + [log[|log|-1]]
    else Matching(log[..|log|-1], phase, sample)
  }

  lemma {:induction false} MatchingMembers(log: seq<Artifact>, phase: string, sample: string)
    ensures forall r :: r in Matching(log, phase, sample) <==> r in log && Matches(r, phase, sample)
  {
    if log != [] {
      MatchingMembers(log[..|log|-1], phase, sample);
      assert log == log[..|log|-1] + [log[|log|-1]];
    }
  }

  /** `artifacts(phase, sample)`. */
  function ArtifactsOf(log: seq<Artifact>, phase: string, sample: string): seq<Artifact> {
    Listing(Matching(log, phase, sample))
  }

  function FirstWithId(rows: seq<Artifact>, id: string): Option<Artifact> {
    if rows == [] then None
    else if rows[0].id == id then Some(rows[0])
    else FirstWithId(rows[1..], id)
  }

  /** `get`. */
  function Get(log: seq<Artifact>, id: string): Option<Artifact> { FirstWithId(Listing(log), id) }

  function Ids(rows: seq<Artifact>): set<string> { set r | r in rows :: r.id }

  ghost predicate UniqueIds(log: seq<Artifact>) {
    forall i, j :: 0 <= i < |log| && 0 <= j < |log| && log[i].id == log[j].id ==> i == j
  }

  lemma {:induction false} FirstWithIdMeans(rows: seq<Artifact>, id: string)
    ensures FirstWithId(rows, id) == None <==> id !in Ids(rows)
    ensures FirstWithId(rows, id).Some? ==> FirstWithId(rows, id).value in rows && FirstWithId(rows, id).value.id == id
  {
    if rows != [] {
      FirstWithIdMeans(rows[1..], id);
      assert rows == [rows[0]] + rows[1..];
      assert Ids(rows) == {rows[0].id} + Ids(rows[1..]);
    }
  }

  /** A lookup finds the one record with the id, wherever sorting put it. */
  lemma GetMeans(log: seq<Artifact>, id: string)
    requires UniqueIds(log)
    ensures Get(log, id) == None <==> id !in Ids(log)
    ensures forall r :: r in log && r.id == id ==> Get(log, id) == Some(r)
  {
    SameElements(Listing(log), log);
    FirstWithIdMeans(Listing(log), id);
    assert Ids(Listing(log)) == Ids(log);
    forall r | r in log && r.id == id ensures Get(log, id) == Some(r) {
      var f := Get(log, id).value;
      assert f in log && f.id == id;
      var i :| 0 <= i < |log| && log[i] == r;
      var j :| 0 <= j < |log| && log[j] == f;
      assert i == j;
    }
  }

  /** What an id once denoted it denotes forever, whatever is appended. */
  lemma GetNeverChanges(log: seq<Artifact>, more: seq<Artifact>, id: string)
    requires UniqueIds(log + more) && id in Ids(log)
    ensures Get(log + more, id) == Get(log, id)
  {
    var all := log + more;
    assert forall i :: 0 <= i < |log| ==> all[i] == log[i];
    var r :| r in log && r.id == id;
    assert r in all;
    GetMeans(log, id);
    GetMeans(all, id);
  }

  // ---- the newest record ----

  /** The first record carrying the greatest stamp. */
  function Head(rows: seq<Artifact>): (r: Artifact)
    requires rows != []
  {
    if |rows| == 1 then rows[0]
    else
      var later := Head(rows[1..]);
      if rows[0].at >= later.at then rows[0] else later
  }

  /** The listing starts with it: among equal stamps, the earliest registered. */
  lemma {:induction false} ListingStartsWithHead(rows: seq<Artifact>)
    requires rows != []
    ensures Listing(rows)[0] == Head(rows)
  {
    if |rows| > 1 {
      ListingStartsWithHead(rows[1..]);
    } else {
      assert rows[1..] == [];
      assert Sort(NewerOrTied, rows[1..]) == [];
    }
  }

  /** `i` carries the greatest stamp, and nothing before it does. */
  ghost predicate FirstGreatest(rows: seq<Artifact>, i: nat) {
    i < |rows| && (forall j :: 0 <= j < i ==> rows[j].at < rows[i].at) && (forall j :: i <= j < |rows| ==> rows[j].at <= rows[i].at)
  }

  lemma {:induction false} HeadMeans(rows: seq<Artifact>) returns (i: nat)
    requires rows != []
    ensures FirstGreatest(rows, i) && rows[i] == Head(rows)
  {
    if |rows| == 1 {
      i := 0;
    } else {
      var k := HeadMeans(rows[1..]);
      assert forall j :: 1 <= j < |rows| ==> rows[j] == rows[1..][j-1];
      i := if rows[0].at >= rows[k+1].at then 0 else k + 1;
    }
  }

  /** "Newest" is the last registered exactly when its stamp beats every earlier one. */
  lemma NewestIsLast(rows: seq<Artifact>)
    requires rows != []
    requires forall i, j :: 0 <= i < j < |rows| ==> rows[i] != rows[j]
    ensures Listing(rows)[0] == rows[|rows|-1] <==>
      forall i :: 0 <= i < |rows| - 1 ==> rows[i].at < rows[|rows|-1].at
  {
    ListingStartsWithHead(rows);
    var i := HeadMeans(rows);
    if i < |rows| - 1 {
      assert rows[|rows|-1].at <= rows[i].at;
    }
  }

  // ---- lineage ----

  /** Some registered artifact `y` names `x` among its inputs. */
  ghost predicate Feeds(log: seq<Artifact>, x: string, y: string) {
    exists r :: r in log && r.id == y && x in r.inputs
  }

  ghost predicate ReachesIn(log: seq<Artifact>, a: string, b: string, n: nat)
    decreases n
  {
    if n == 0 then a == b else exists mid :: ReachesIn(log, a, mid, n - 1) && Feeds(log, mid, b)
  }

  /** Zero or more consuming steps lead from `a` to `b`. */
  ghost predicate Reaches(log: seq<Artifact>, a: string, b: string) { exists n: nat :: ReachesIn(log, a, b, n) }

  lemma {:induction false} ReachesIgnoresOrder(log: seq<Artifact>, other: seq<Artifact>, a: string, b: string, n: nat)
    requires forall r :: r in log <==> r in other
    ensures ReachesIn(log, a, b, n) <==> ReachesIn(other, a, b, n)
    decreases n
  {
    if n > 0 {
      var m := n - 1;
      forall mid ensures ReachesIn(log, a, mid, m) <==> ReachesIn(other, a, mid, m) {
        ReachesIgnoresOrder(log, other, a, mid, m);
      }
      assert forall mid :: Feeds(log, mid, b) <==> Feeds(other, mid, b);
    }
  }

  lemma ReachesStep(log: seq<Artifact>, a: string, x: string, y: string)
    requires Reaches(log, a, x) && Feeds(log, x, y)
    ensures Reaches(log, a, y)
  {
    var n: nat :| ReachesIn(log, a, x, n);
    assert ReachesIn(log, a, y, n + 1);
  }

  /** Nothing outside a set closed under consumption is reachable from inside it. */
  lemma {:induction false} ClosedHoldsReachable(log: seq<Artifact>, a: string, b: string, n: nat, reached: set<string>)
    requires a in reached && forall r :: r in log && r.inputs * reached != {} ==> r.id in reached
    requires ReachesIn(log, a, b, n)
    ensures b in reached
    decreases n
  {
    if n > 0 {
      var mid :| ReachesIn(log, a, mid, n - 1) && Feeds(log, mid, b);
      ClosedHoldsReachable(log, a, mid, n - 1, reached);
      var r :| r in log && r.id == b && mid in r.inputs;
      assert mid in r.inputs * reached;
    }
  }

  function Pick(rows: seq<Artifact>, chosen: set<string>, except: string): seq<Artifact> {
    if rows == [] then []
    else if rows[|rows|-1].id in chosen && rows[|rows|-1].id != except then Pick(rows[..|rows|-1], chosen, except) + [rows[|rows|-1]]
    else Pick(rows[..|rows|-1], chosen, except)
  }

  lemma {:induction false} PickMembers(rows: seq<Artifact>, chosen: set<string>, except: string)
    ensures forall r :: r in Pick(rows, chosen, except) <==> r in rows && r.id in chosen && r.id != except
  {
    if rows != [] {
      PickMembers(rows[..|rows|-1], chosen, except);
      assert rows == rows[..|rows|-1] + [rows[|rows|-1]];
    }
  }

  /** Sweeps the rows until nothing new is reached, then reports them in listing order. */
  method Descendants(log: seq<Artifact>, identity: string) returns (out: seq<Artifact>, reached: set<string>)
    ensures out == Pick(Listing(log), reached, identity)
    ensures forall x :: x in reached <==> Reaches(log, identity, x)
    ensures forall r :: r in out <==> r in log && r.id != identity && Reaches(log, identity, r.id)
  {
    var rows := Listing(log);
    SameElements(rows, log);
    reached := {identity};
    assert ReachesIn(log, identity, identity, 0);
    var changed := true;
    while changed
      invariant identity in reached
      invariant forall x :: x in reached ==> Reaches(log, identity, x)
      invariant !changed ==> forall r :: r in rows && r.inputs * reached != {} ==> r.id in reached
      decreases Ids(rows) - reached, changed
    {
      changed := false;
      ghost var before := reached;
      for i := 0 to |rows|
        invariant before <= reached && identity in reached
        invariant forall x :: x in reached ==> Reaches(log, identity, x)
        invariant changed ==> Ids(rows) - reached < Ids(rows) - before
        invariant !changed ==> reached == before
        invariant !changed ==> forall k :: 0 <= k < i && rows[k].inputs * reached != {} ==> rows[k].id in reached
      {
        var record := rows[i];
        if record.id !in reached && record.inputs * reached != {} {
          ghost var x :| x in record.inputs * reached;
          assert record in log && Feeds(log, x, record.id);
          ReachesStep(log, identity, x, record.id);
          assert record.id in Ids(rows) - before;
          reached := reached + {record.id};
          changed := true;
          assert record.id !in Ids(rows) - reached;
        }
      }
    }
    forall x | Reaches(log, identity, x) ensures x in reached {
      var n: nat :| ReachesIn(log, identity, x, n);
      ClosedHoldsReachable(log, identity, x, n, reached);
    }
    out := Pick(rows, reached, identity);
    PickMembers(rows, reached, identity);
  }

  /** The answer does not depend on the order the rows were written in. */
  lemma DescendantsIgnoreOrder(log: seq<Artifact>, other: seq<Artifact>, identity: string, x: string)
    requires multiset(log) == multiset(other)
    ensures Reaches(log, identity, x) <==> Reaches(other, identity, x)
  {
    SameElements(log, other);
    forall n: nat ensures ReachesIn(log, identity, x, n) <==> ReachesIn(other, identity, x, n) {
      ReachesIgnoresOrder(log, other, identity, x, n);
    }
  }

  // ---- histories whose inputs were resolved from the register itself ----

  /** Unique ids, and every input registered strictly earlier. */
  ghost predicate Grounded(log: seq<Artifact>) {
    && UniqueIds(log)
    && forall i, x :: 0 <= i < |log| && x in log[i].inputs ==> x in Ids(log[..i])
  }

  lemma GroundedAppend(log: seq<Artifact>, r: Artifact)
    requires Grounded(log) && r.id !in Ids(log) && r.inputs <= Ids(log)
    ensures Grounded(log + [r])
  {
    var next := log + [r];
    forall i, x | 0 <= i < |next| && x in next[i].inputs ensures x in Ids(next[..i]) {
      if i < |log| {
        assert next[..i] == log[..i] && next[i] == log[i];
      } else {
        assert next[..i] == log;
      }
    }
    assert forall i :: 0 <= i < |log| ==> log[i] in log && next[i] == log[i];
  }

  lemma PositionInPrefix(log: seq<Artifact>, i: nat, x: string) returns (k: nat)
    requires i <= |log| && x in Ids(log[..i])
    ensures k < i && log[k].id == x
  {
    var r :| r in log[..i] && r.id == x;
    k :| 0 <= k < |log[..i]| && log[..i][k] == r;
  }

  /** Lineage only points forward: what an artifact feeds comes strictly later,
      so no artifact is among its own descendants. */
  lemma {:induction false} DescendantsComeLater(log: seq<Artifact>, i: nat, j: nat, n: nat)
    requires Grounded(log) && i < |log| && j < |log| && n > 0
    requires ReachesIn(log, log[i].id, log[j].id, n)
    ensures i < j
    decreases n
  {
    var mid :| ReachesIn(log, log[i].id, mid, n - 1) && Feeds(log, mid, log[j].id);
    var r :| r in log && r.id == log[j].id && mid in r.inputs;
    var p :| 0 <= p < |log| && log[p] == r;
    assert p == j;
    var k := PositionInPrefix(log, j, mid);
    if n == 1 {
      assert mid == log[i].id && i == k;
    } else {
      DescendantsComeLater(log, i, k, n - 1);
    }
  }

  lemma Acyclic(log: seq<Artifact>, i: nat, n: nat)
    requires Grounded(log) && i < |log| && n > 0
    ensures !ReachesIn(log, log[i].id, log[i].id, n)
  {
    if ReachesIn(log, log[i].id, log[i].id, n) {
      DescendantsComeLater(log, i, i, n);
    }
  }
}

/** A mission's scroll selection: free while it is a draft, amended on the
    record once there is work (framework/contracts/mission.py). */
module Missions {
  import opened Wrappers
  import opened Ordering
  import opened Text

  datatype Amendment =
    | Added(scrolls: seq<string>, reason: string, author: string, at: int)
    | Removed(scrolls: seq<string>, reason: string, author: string, at: int)

  datatype Manifest = Manifest(id: string, name: string, scrolls: seq<string>, frozenAt: Option<int>, amendments: seq<Amendment>)

  datatype MissionError = BAD_ID | NO_NAME | DUPLICATES | EXISTS | NOTHING_TO_ADD | NOT_SELECTED | HAS_WORK | NO_REASON

  // ---- selections ----

  predicate Ascending(s: seq<string>) { NoDuplicates(s) && forall i, j :: 0 <= i < j < |s| ==> StrLe(s[i], s[j]) }

  ghost function Members(s: seq<string>): set<string> { set x | x in s }

  /** The names that are not blank, trimmed. */
  function Cleaned(names: seq<string>): seq<string> {
    if names == [] then []
    else
      var rest, name := Cleaned(names[..|names|-1]), Strip(names[|names|-1]);
      if name == "" then rest else rest + [name]
  }

  function Keep(s: seq<string>, keep: string -> bool): (r: seq<string>)
    ensures NoDuplicates(s) ==> NoDuplicates(r)
    ensures forall x :: x in r <==> x in s && keep(x)
  {
    if s == [] then []
    else
      var front, last := s[..|s|-1], s[|s|-1];
      assert s == front + [last];
      if keep(last) then Keep(front, keep) + [last] else Keep(front, keep)
  }

  /** `sorted` of the set of these names. */
  function SortedSet(s: seq<string>): seq<string> { Sort(StrLe, FirstOccurrences(s)) }

  lemma SortedSetMeans(s: seq<string>)
    ensures Ascending(SortedSet(s)) && Members(SortedSet(s)) == Members(s)
  {
    var d := FirstOccurrences(s);
    StrLeOrder();
    SortSorted(StrLe, d);
    SameElements(SortedSet(s), d);
    NoDuplicatesByCount(d, SortedSet(s));
    hide FirstOccurrences, Sort, StrLe;
  }

  /** A selection is determined by which scrolls are in it. */
  lemma AscendingUnique(a: seq<string>, b: seq<string>)
    requires Ascending(a) && Ascending(b) && Members(a) == Members(b)
    ensures a == b
  {
    assert forall x :: x in Members(a) <==> x in a;
    assert forall x :: x in Members(b) <==> x in b;
    SameSetSameMultiset(a, b);
    StrLeOrder();
    StrLeStrict(a);
    hide StrLe, NoDuplicates, Preorder, Strict;
    SortedUnique(StrLe, a, b);
  }

  // ---- creating ----

  predicate IdEdge(c: char) { 'a' <= c <= 'z' || IsDigit(c) }

  predicate ExactId(id: string) {
    3 <= |id| <= 64 && IdEdge(id[0]) && IdEdge(id[|id|-1]) && forall i :: 0 <= i < |id| ==> IdEdge(id[i]) || id[i] == '-'
  }

  /** `ID_PATTERN.match`, whose `$` also lets one closing newline by. */
  predicate GoodId(id: string) { ExactId(id) || (id != [] && id[|id|-1] == '\n' && ExactId(id[..|id|-1])) }

  function Create(taken: set<string>, id: string, name: string, scrolls: seq<string>): Result<Manifest, MissionError> {
    var cleaned := Cleaned(scrolls);
    if !GoodId(id) then Err(BAD_ID)
    else if Strip(name) == "" then Err(NO_NAME)
    else if !NoDuplicates(cleaned) then Err(DUPLICATES)
    else if id in taken then Err(EXISTS)
    else Ok(Manifest(id, Strip(name), Sort(StrLe, cleaned), None, []))
  }

  /** An id is three to sixty-four of a to z, 0 to 9 and dash, with no dash at an end. */
  ghost predicate WellNamed(id: string) {
    && 3 <= |id| <= 64 && id[0] != '-' && id[|id|-1] != '-'
    && forall i :: 0 <= i < |id| ==> 97 <= id[i] as int <= 122 || 48 <= id[i] as int <= 57 || id[i] == '-'
  }

  lemma GoodIdMeans(id: string)
    ensures GoodId(id) <==> WellNamed(id) || (id != [] && id[|id|-1] as int == 10 && WellNamed(id[..|id|-1]))
  {
    ExactIdMeans(id);
    if id != [] { ExactIdMeans(id[..|id|-1]); }
    hide ExactId, WellNamed;
  }

  lemma ExactIdMeans(id: string)
    ensures ExactId(id) <==> WellNamed(id)
  {
    assert WellNamed(id) ==> IdEdge(id[0]) && IdEdge(id[|id|-1]);
    assert ExactId(id) ==> id[0] != '-' && id[|id|-1] != '-';
  }

  /** The names left are those of the list with anything in them, trimmed, in order. */
  lemma {:induction false} CleanedMeans(names: seq<string>)
    ensures forall x :: x in Cleaned(names) <==> x != "" && exists i :: 0 <= i < |names| && Strip(names[i]) == x
    ensures |Cleaned(names)| == |set i | 0 <= i < |names| && Strip(names[i]) != ""|
  {
    hide Strip;
    var kept := set i | 0 <= i < |names| && Strip(names[i]) != "";
    if names == [] {
      assert kept == {};
      return;
    }
    var front, n := names[..|names|-1], |names| - 1;
    CleanedMeans(front);
    var before := set i | 0 <= i < |front| && Strip(front[i]) != "";
    assert kept == if Strip(names[n]) == "" then before else before + {n};
    forall x | x in Cleaned(front) ensures exists i :: 0 <= i < |names| && Strip(names[i]) == x {
      var i :| 0 <= i < |front| && Strip(front[i]) == x;
      assert names[i] == front[i];
    }
    forall x, i | 0 <= i < |names| && Strip(names[i]) == x && x != "" ensures x in Cleaned(names) {
      if i < n { assert front[i] == names[i]; }
    }
  }

  /** What keeps a mission from being created, in the order it is looked at. */
  lemma CreatedWhen(taken: set<string>, id: string, name: string, scrolls: seq<string>)
    ensures var r, blank := Create(taken, id, name, scrolls), (forall i :: 0 <= i < |name| ==> IsSpace(name[i]));
      && (r == Err(BAD_ID) <==> !GoodId(id))
      && (r == Err(NO_NAME) <==> GoodId(id) && blank)
      && (r == Err(DUPLICATES) <==> GoodId(id) && !blank && exists i, j :: 0 <= i < j < |Cleaned(scrolls)| && Cleaned(scrolls)[i] == Cleaned(scrolls)[j])
      && (r == Err(EXISTS) ==> id in taken) && (r.Ok? ==> id !in taken && r.value.id == id && r.value.name == Strip(name))
      && (r.Ok? || r.error in {BAD_ID, NO_NAME, DUPLICATES, EXISTS})
  {
    StripEmpty(name);
    hide GoodId, Strip, Cleaned, Sort, IsSpace;
    assert !NoDuplicates(Cleaned(scrolls)) <==> exists i, j :: 0 <= i < j < |Cleaned(scrolls)| && Cleaned(scrolls)[i] == Cleaned(scrolls)[j];
    hide NoDuplicates;
  }

  /** A new mission is a draft with exactly the scrolls named, in order. */
  lemma CreateStarts(taken: set<string>, id: string, name: string, scrolls: seq<string>)
    requires Create(taken, id, name, scrolls).Ok?
    ensures var m := Create(taken, id, name, scrolls).value;
      Sound(m) && m.amendments == [] && m.frozenAt == None && Members(m.scrolls) == Members(Cleaned(scrolls))
  {
    var cleaned := Cleaned(scrolls);
    hide Cleaned, StrLe, GoodId, Strip;
    StrLeOrder();
    SortSorted(StrLe, cleaned);
    SameElements(Sort(StrLe, cleaned), cleaned);
    NoDuplicatesByCount(cleaned, Sort(StrLe, cleaned));
  }

  // ---- changing ----

  /** A call, with what the caller knows: which scrolls have work, whether the
      mission has receipts, and whether a job is queued against it. */
  datatype Call =
    | Add(names: seq<string>, reason: string, author: string, hasWork: bool, queued: bool, at: int)
    | Remove(names: seq<string>, reason: string, author: string, protected: set<string>, hasWork: bool, queued: bool, at: int)
  {
    predicate Frozen() { hasWork || queued }
  }

  function Additions(scrolls: seq<string>, names: seq<string>): seq<string> {
    SortedSet(Keep(Cleaned(names), x => x !in scrolls))
  }

  function Present(scrolls: seq<string>, names: seq<string>): seq<string> {
    SortedSet(Keep(Cleaned(names), x => x in scrolls))
  }

  predicate Touches(present: seq<string>, protected: set<string>) { exists x :: x in present && x in protected }

  function Joined(scrolls: seq<string>, additions: seq<string>): seq<string> { Sort(StrLe, scrolls + additions) }

  function Without(scrolls: seq<string>, present: seq<string>): seq<string> { SortedSet(Keep(scrolls, x => x !in present)) }

  function Record(m: Manifest, c: Call, a: Amendment): Manifest {
    if c.Frozen() then m.(amendments := m.amendments + [a], frozenAt := if m.frozenAt.Some? then m.frozenAt else Some(c.at))
    else m
  }

  function Change(m: Manifest, c: Call): Result<Manifest, MissionError> {
    match c
    case Add(names, reason, author, _, _, at) =>
      var additions := Additions(m.scrolls, names);
      if additions == [] then Err(NOTHING_TO_ADD)
      else if c.Frozen() && Strip(reason) == "" then Err(NO_REASON)
      else Ok(Record(m.(scrolls := Joined(m.scrolls, additions)), c, Added(additions, Strip(reason), author, at)))
    case Remove(names, reason, author, protected, _, _, at) =>
      var present := Present(m.scrolls, names);
      if present == [] then Err(NOT_SELECTED)
      else if Touches(present, protected) then Err(HAS_WORK)
      else if c.Frozen() && Strip(reason) == "" then Err(NO_REASON)
      else Ok(Record(m.(scrolls := Without(m.scrolls, present)), c, Removed(present, Strip(reason), author, at)))
  }

  function After(m: Manifest, c: Call): Manifest { if Change(m, c).Ok? then Change(m, c).value else m }

  // ---- what a change does ----

  ghost function Apply(selection: set<string>, a: Amendment): set<string> {
    match a
    case Added(scrolls, _, _, _) => selection + Members(scrolls)
    case Removed(scrolls, _, _, _) => selection - Members(scrolls)
  }

  /** The amendments followed in order from a selection. */
  ghost function Replay(selection: set<string>, amendments: seq<Amendment>): set<string> {
    if amendments == [] then selection
    else Apply(Replay(selection, amendments[..|amendments|-1]), amendments[|amendments|-1])
  }

  lemma ReplayStep(selection: set<string>, amendments: seq<Amendment>, a: Amendment)
    ensures Replay(selection, amendments + [a]) == Apply(Replay(selection, amendments), a)
  {
    assert (amendments + [a])[..|amendments|] == amendments;
  }

  /** Scrolls in strict order; a stamp exactly when something was amended, and
      every amendment moved something and says why. */
  ghost predicate Sound(m: Manifest) {
    && Ascending(m.scrolls)
    && (m.frozenAt.Some? <==> m.amendments != [])
    && Recorded(m.amendments)
  }

  /** The amendment a successful call describes, whether or not it is recorded. */
  ghost function Described(m: Manifest, c: Call): Amendment {
    match c
    case Add(names, reason, author, _, _, at) => Added(Additions(m.scrolls, names), Strip(reason), author, at)
    case Remove(names, reason, author, _, _, _, at) => Removed(Present(m.scrolls, names), Strip(reason), author, at)
  }

  /** A successful call makes exactly the change it describes, and never an empty one. */
  lemma ChangeMeans(m: Manifest, c: Call)
    requires Sound(m) && Change(m, c).Ok?
    ensures var after := Change(m, c).value;
      && Ascending(after.scrolls) && Members(after.scrolls) == Apply(Members(m.scrolls), Described(m, c))
      && Members(after.scrolls) != Members(m.scrolls)
      && Described(m, c).scrolls != [] && Ascending(Described(m, c).scrolls)
  {
    match c
    case Add(names, _, _, _, _, _) => AddMeans(m.scrolls, names);
    case Remove(names, _, _, _, _, _, _) => RemoveMeans(m.scrolls, names);
    hide SortedSet, Sort, Keep, Cleaned, Ascending, Strip;
  }

  lemma AddMeans(scrolls: seq<string>, names: seq<string>)
    requires Ascending(scrolls) && Additions(scrolls, names) != []
    ensures var additions := Additions(scrolls, names);
      var after := Joined(scrolls, additions);
      && Ascending(after) && Members(after) == Members(scrolls) + Members(additions)
      && Members(after) != Members(scrolls) && Ascending(additions)
  {
    hide *;
    AdditionsMean(scrolls, names);
    MergeMeans(scrolls, Additions(scrolls, names));
  }

  lemma AdditionsMean(scrolls: seq<string>, names: seq<string>)
    ensures Ascending(Additions(scrolls, names))
    ensures forall x :: x in Additions(scrolls, names) <==> x in Cleaned(names) && x !in scrolls
  {
    var kept := Keep(Cleaned(names), x => x !in scrolls);
    SortedSetMeans(kept);
    hide Ascending, SortedSet, Cleaned, Keep;
    forall x ensures x in Additions(scrolls, names) <==> x in kept {
      assert x in Additions(scrolls, names) <==> x in Members(SortedSet(kept));
      assert x in kept <==> x in Members(kept);
    }
  }

  lemma MergeMeans(scrolls: seq<string>, additions: seq<string>)
    requires Ascending(scrolls) && Ascending(additions) && additions != []
    requires forall x :: x in additions ==> x !in scrolls
    ensures var after := Joined(scrolls, additions);
      && Ascending(after) && Members(after) == Members(scrolls) + Members(additions)
      && Members(after) != Members(scrolls)
  {
    hide StrLe, Sort;
    var both := scrolls + additions;
    forall i, j | 0 <= i < j < |both| ensures both[i] != both[j] {
      if i < |scrolls| <= j { assert both[i] in scrolls && both[j] in additions; }
    }
    StrLeOrder();
    SortSorted(StrLe, both);
    SameElements(Sort(StrLe, both), both);
    NoDuplicatesByCount(both, Sort(StrLe, both));
    assert additions[0] in Members(additions) && additions[0] !in Members(scrolls);
  }

  lemma RemoveMeans(scrolls: seq<string>, names: seq<string>)
    requires Ascending(scrolls) && Present(scrolls, names) != []
    ensures var present := Present(scrolls, names);
      var after := Without(scrolls, present);
      && Ascending(after) && Members(after) == Members(scrolls) - Members(present)
      && Members(after) != Members(scrolls) && Ascending(present)
  {
    var present := Present(scrolls, names);
    SortedSetMeans(Keep(Cleaned(names), x => x in scrolls));
    SortedSetMeans(Keep(scrolls, x => x !in present));
    assert present[0] in Members(present) && present[0] in scrolls;
    hide SortedSet, Ascending;
  }

  /** A successful addition widens the selection. */
  lemma AdditionGrows(m: Manifest, c: Call)
    requires Sound(m) && c.Add? && Change(m, c).Ok?
    ensures Members(m.scrolls) < Members(Change(m, c).value.scrolls)
  {
    ChangeMeans(m, c);
    hide Ascending, Additions, Strip, Sort, Sound;
  }

  /** A successful removal narrows it, and drops nothing protected. */
  lemma RemovalBounds(m: Manifest, c: Call)
    requires Sound(m) && c.Remove? && Change(m, c).Ok?
    ensures var after := Members(Change(m, c).value.scrolls);
      after < Members(m.scrolls) && Members(m.scrolls) * c.protected <= after
  {
    ChangeMeans(m, c);
    hide Ascending, Present, Strip, Keep, SortedSet, Sound;
  }

  /** When an addition goes through: it names a scroll the mission has not got,
      and if there is work or a job queued it says why. */
  lemma AddedWhen(m: Manifest, c: Call)
    requires c.Add?
    ensures var news := exists i :: 0 <= i < |c.names| && Strip(c.names[i]) != "" && Strip(c.names[i]) !in m.scrolls;
      var silent := (c.hasWork || c.queued) && forall i :: 0 <= i < |c.reason| ==> IsSpace(c.reason[i]);
      && (Change(m, c) == Err(NOTHING_TO_ADD) <==> !news)
      && (Change(m, c) == Err(NO_REASON) <==> news && silent)
      && (Change(m, c).Ok? <==> news && !silent)
  {
    AdditionsMean(m.scrolls, c.names);
    CleanedMeans(c.names);
    StripEmpty(c.reason);
    hide Strip, Cleaned, Additions, Joined, Ascending, IsSpace;
    var additions := Additions(m.scrolls, c.names);
    if additions != [] {
      assert additions[0] in additions;
    } else {
      assert forall x :: x !in additions;
    }
  }

  /** When a removal does: it names a selected scroll, none of those it names
      has work, and if there is work or a job queued it says why. */
  lemma RemovedWhen(m: Manifest, c: Call)
    requires c.Remove?
    ensures var known := exists i :: 0 <= i < |c.names| && Strip(c.names[i]) != "" && Strip(c.names[i]) in m.scrolls;
      var worked := exists i :: 0 <= i < |c.names| && Strip(c.names[i]) != "" && Strip(c.names[i]) in m.scrolls && Strip(c.names[i]) in c.protected;
      var silent := (c.hasWork || c.queued) && forall i :: 0 <= i < |c.reason| ==> IsSpace(c.reason[i]);
      && (Change(m, c) == Err(NOT_SELECTED) <==> !known)
      && (Change(m, c) == Err(HAS_WORK) <==> worked)
      && (Change(m, c) == Err(NO_REASON) <==> known && !worked && silent)
      && (Change(m, c).Ok? <==> known && !worked && !silent)
  {
    PresentMeans(m.scrolls, c.names);
    CleanedMeans(c.names);
    StripEmpty(c.reason);
    hide Strip, Cleaned, Present, Without, Ascending, IsSpace;
    var present := Present(m.scrolls, c.names);
    if present != [] {
      assert present[0] in present;
    } else {
      assert forall x :: x !in present;
    }
  }

  lemma PresentMeans(scrolls: seq<string>, names: seq<string>)
    ensures forall x :: x in Present(scrolls, names) <==> x in Cleaned(names) && x in scrolls
  {
    var kept := Keep(Cleaned(names), x => x in scrolls);
    SortedSetMeans(kept);
    hide Ascending, SortedSet, Cleaned, Keep;
    forall x ensures x in Present(scrolls, names) <==> x in kept {
      assert x in Present(scrolls, names) <==> x in Members(SortedSet(kept));
      assert x in kept <==> x in Members(kept);
    }
  }

  lemma StepKeepsSound(m: Manifest, c: Call)
    requires Sound(m)
    ensures Sound(After(m, c))
    ensures m.frozenAt.Some? ==> After(m, c).frozenAt == m.frozenAt
    ensures m.amendments <= After(m, c).amendments
  {
    if Change(m, c).Ok? {
      ChangeMeans(m, c);
      AmendmentsExtend(m.amendments, Described(m, c));
      ReasonGiven(m, c);
    }
    hide Ascending, Change, Recorded, Described;
  }

  ghost predicate Recorded(amendments: seq<Amendment>) {
    forall a :: a in amendments ==> a.reason != "" && a.scrolls != [] && Ascending(a.scrolls)
  }

  lemma AmendmentsExtend(amendments: seq<Amendment>, a: Amendment)
    requires Recorded(amendments)
    ensures Recorded(amendments + [a]) <==> a.reason != "" && a.scrolls != [] && Ascending(a.scrolls)
  {
    hide Ascending;
    assert a in amendments + [a];
  }

  lemma ReasonGiven(m: Manifest, c: Call)
    requires Change(m, c).Ok?
    ensures c.Frozen() ==> Described(m, c).reason != ""
    ensures Change(m, c).value.amendments == if c.Frozen() then m.amendments + [Described(m, c)] else m.amendments
    ensures Change(m, c).value.frozenAt == if c.Frozen() && m.frozenAt == None then Some(c.at) else m.frozenAt
  {
    hide Additions, Present, Strip, Keep, SortedSet, Sort;
  }

  /** Whatever selection the amendments have been replaying from, they go on
      doing so across a successful call if and only if it was made frozen. */
  lemma ReplayKeptIffFrozen(m: Manifest, c: Call, base: set<string>)
    requires Sound(m) && Change(m, c).Ok? && Replay(base, m.amendments) == Members(m.scrolls)
    ensures Replay(base, After(m, c).amendments) == Members(After(m, c).scrolls) <==> c.Frozen()
  {
    ChangeMeans(m, c);
    ReplayStep(base, m.amendments, Described(m, c));
    hide Ascending, Additions, Present, Strip, Keep, SortedSet, Sort, Replay, Members, Apply;
  }

  // ---- runs ----

  function Run(m: Manifest, calls: seq<Call>): Manifest {
    if calls == [] then m else After(Run(m, calls[..|calls|-1]), calls[|calls|-1])
  }

  /** Once there is work there stays work. */
  ghost predicate Monotone(calls: seq<Call>) { forall i, j :: 0 <= i <= j < |calls| && calls[i].Frozen() ==> calls[j].Frozen() }

  /** `k` calls were made on a draft, and none after that. */
  ghost predicate FreezesAt(calls: seq<Call>, k: nat) {
    k <= |calls| && (forall i :: 0 <= i < k ==> !calls[i].Frozen()) && (forall i :: k <= i < |calls| ==> calls[i].Frozen())
  }

  lemma {:induction false} RunsAreSound(m: Manifest, calls: seq<Call>)
    requires Sound(m)
    ensures Sound(Run(m, calls))
    ensures forall k :: 0 <= k <= |calls| ==>
      && Run(m, calls[..k]).amendments <= Run(m, calls).amendments
      && (Run(m, calls[..k]).frozenAt.Some? ==> Run(m, calls).frozenAt == Run(m, calls[..k]).frozenAt)
  {
    if calls == [] {
      return;
    }
    var front := calls[..|calls|-1];
    RunsAreSound(m, front);
    StepKeepsSound(Run(m, front), calls[|calls|-1]);
    hide Sound, After;
    forall k | 0 <= k <= |calls|
      ensures Run(m, calls[..k]).amendments <= Run(m, calls).amendments
      ensures Run(m, calls[..k]).frozenAt.Some? ==> Run(m, calls).frozenAt == Run(m, calls[..k]).frozenAt
    {
      if k < |calls| {
        assert front[..k] == calls[..k];
      } else {
        assert calls[..k] == calls;
      }
    }
  }

  lemma {:induction false} DraftsRecordNothing(m: Manifest, calls: seq<Call>)
    requires m.amendments == [] && m.frozenAt == None && forall i :: 0 <= i < |calls| ==> !calls[i].Frozen()
    ensures Run(m, calls).amendments == [] && Run(m, calls).frozenAt == None
  {
    if calls != [] {
      var front, last := calls[..|calls|-1], calls[|calls|-1];
      DraftsRecordNothing(m, front);
      if Change(Run(m, front), last).Ok? { ReasonGiven(Run(m, front), last); }
      hide Change;
    }
  }

  /** A draft records nothing; from the moment there is work, the selection held
      at that moment and the amendments since, in order, give the selection. */
  lemma {:induction false} SelectionReplays(m: Manifest, calls: seq<Call>, k: nat)
    requires Sound(m) && m.amendments == [] && FreezesAt(calls, k)
    ensures Run(m, calls[..k]).amendments == [] && Run(m, calls[..k]).frozenAt == None
    ensures Replay(Members(Run(m, calls[..k]).scrolls), Run(m, calls).amendments) == Members(Run(m, calls).scrolls)
    decreases |calls|
  {
    DraftsRecordNothing(m, calls[..k]);
    if k == |calls| {
      assert calls[..k] == calls;
      return;
    }
    var front, last := calls[..|calls|-1], calls[|calls|-1];
    assert last.Frozen() && front[..k] == calls[..k];
    RunsAreSound(m, front);
    SelectionReplays(m, front, k);
    hide Sound, Members, Replay, Change;
    if Change(Run(m, front), last).Ok? {
      ReplayKeptIffFrozen(Run(m, front), last, Members(Run(m, calls[..k]).scrolls));
    }
  }

  lemma MonotoneFreezes(calls: seq<Call>)
    requires Monotone(calls)
    ensures exists k :: FreezesAt(calls, k)
  {
    var k := 0;
    while k < |calls| && !calls[k].Frozen()
      invariant 0 <= k <= |calls|
      invariant forall i :: 0 <= i < k ==> !calls[i].Frozen()
    {
      k := k + 1;
    }
    assert FreezesAt(calls, k);
  }

  /** A scroll the callers protect in every removal is never dropped. */
  lemma {:induction false} ProtectedStays(m: Manifest, calls: seq<Call>, scroll: string)
    requires Sound(m) && scroll in m.scrolls
    requires forall c :: c in calls && c.Remove? ==> scroll in c.protected
    ensures scroll in Run(m, calls).scrolls
  {
    if calls == [] {
      return;
    }
    var front, last := calls[..|calls|-1], calls[|calls|-1];
    ProtectedStays(m, front, scroll);
    RunsAreSound(m, front);
    var before := Run(m, front);
    if Change(before, last).Ok? {
      ChangeMeans(before, last);
      assert scroll in Members(before.scrolls);
      assert last in calls;
      hide Ascending, Additions, Present, Strip, Keep, SortedSet, Sort;
      assert scroll in Members(After(before, last).scrolls);
    }
  }

  // ---- when there is work ----

  /** Something in the mission's directory, with the names inside it if it is a directory too. */
  datatype Entry = Entry(name: string, isDir: bool, children: seq<string>)

  predicate ReceiptAt(name: string, i: int) { 0 <= i && i + 7 <= |name| - 5 && name[i..i+7] == "RECEIPT" }

  /** `*RECEIPT*.json` */
  predicate IsReceipt(name: string) {
    |name| >= 12 && name[|name|-5..] == ".json" && exists i :: 0 <= i < |name| && ReceiptAt(name, i)
  }

  /** A receipt is named something, RECEIPT, something, .json. */
  lemma IsReceiptMeans(name: string)
    ensures IsReceipt(name) <==> exists a, b: string :: name == a + "RECEIPT" + b + ".json"
  {
    if IsReceipt(name) {
      var i :| 0 <= i < |name| && ReceiptAt(name, i);
      var a, b := name[..i], name[i+7..|name|-5];
      assert name == name[..i] + name[i..i+7] + name[i+7..|name|-5] + name[|name|-5..];
      assert name == a + "RECEIPT" + b + ".json";
    }
    if a, b: string :| name == a + "RECEIPT" + b + ".json" {
      assert |name| == |a| + 7 + |b| + 5;
      assert name[|a|..|a|+7] == "RECEIPT" && name[|name|-5..] == ".json";
      assert ReceiptAt(name, |a|);
    }
  }

  /** `has_work`: some run directory holds a receipt. */
  predicate HasWork(directory: Option<seq<Entry>>) {
    && directory.Some?
    && exists e :: e in directory.value && e.isDir && exists n :: n in e.children && IsReceipt(n)
  }

  /** Nothing is deleted: every run directory is still there with all it held. */
  ghost predicate Kept(before: Option<seq<Entry>>, after: Option<seq<Entry>>) {
    before.Some? ==>
      after.Some? && forall e :: e in before.value && e.isDir ==>
        exists f :: f in after.value && f.name == e.name && f.isDir && forall n :: n in e.children ==> n in f.children
  }

  lemma WorkStays(before: Option<seq<Entry>>, after: Option<seq<Entry>>)
    requires HasWork(before) && Kept(before, after)
    ensures HasWork(after)
  {
    hide IsReceipt;
    var e :| e in before.value && e.isDir && exists n :: n in e.children && IsReceipt(n);
    var n :| n in e.children && IsReceipt(n);
    var f :| f in after.value && f.name == e.name && f.isDir && forall m :: m in e.children ==> m in f.children;
    assert n in f.children;
  }

  /** Where receipts are not deleted and queued jobs not forgotten, frozenness
      never goes away again, so there is a moment from which everything is recorded. */
  lemma GrowingFreezes(calls: seq<Call>, directories: seq<Option<seq<Entry>>>)
    requires |directories| == |calls|
    requires forall i :: 0 <= i < |calls| ==> calls[i].hasWork == HasWork(directories[i])
    requires forall i, j :: 0 <= i < j < |calls| ==> Kept(directories[i], directories[j]) && (calls[i].queued ==> calls[j].queued)
    ensures Monotone(calls) && exists k :: FreezesAt(calls, k)
  {
    hide HasWork, Kept;
    forall i, j | 0 <= i <= j < |calls| && calls[i].Frozen() ensures calls[j].Frozen() {
      if i < j && calls[i].hasWork {
        assert HasWork(directories[i]) && Kept(directories[i], directories[j]);
        WorkStays(directories[i], directories[j]);
        assert calls[j].hasWork == HasWork(directories[j]);
      } else if i < j {
        assert Kept(directories[i], directories[j]);
      }
    }
    MonotoneFreezes(calls);
  }

  // ---- the manifest itself ----

  class Mission {
    const id: string
    const name: string
    var scrolls: seq<string>
    var frozenAt: Option<int>
    var amendments: seq<Amendment>

    function Value(): Manifest
      reads this
    {
      Manifest(id, name, scrolls, frozenAt, amendments)
    }

    constructor (m: Manifest)
      ensures Value() == m
    {
      id, name, scrolls, frozenAt, amendments := m.id, m.name, m.scrolls, m.frozenAt, m.amendments;
    }

    method AmendScrolls(names: seq<string>, reason: string, author: string, hasWork: bool, queued: bool, at: int)
      returns (error: Option<MissionError>)
      modifies this
      ensures var r := Change(old(Value()), Add(names, reason, author, hasWork, queued, at));
        && (error == None <==> r.Ok?) && (error.Some? ==> r == Err(error.value))
        && Value() == if r.Ok? then r.value else old(Value())
      ensures old(Sound(Value())) ==> Sound(Value())
    {
      ghost var c := Add(names, reason, author, hasWork, queued, at);
      hide Ascending, Additions, Strip, Joined, Sound;
      assert Sound(Value()) ==> Sound(After(Value(), c)) by {
        if Sound(Value()) {
          StepKeepsSound(Value(), c);
        }
      }
      var additions := Additions(scrolls, names);
      if additions == [] {
        return Some(NOTHING_TO_ADD);
      }
      var frozen := hasWork || queued;
      if frozen && Strip(reason) == "" {
        return Some(NO_REASON);
      }
      scrolls := Joined(scrolls, additions);
      if frozen {
        amendments := amendments + [Added(additions, Strip(reason), author, at)];
        frozenAt := if frozenAt.Some? then frozenAt else Some(at);
      }
      error := None;
    }

    method RemoveScrolls(names: seq<string>, reason: string, author: string, protected: set<string>, hasWork: bool, queued: bool, at: int)
      returns (error: Option<MissionError>)
      modifies this
      ensures var r := Change(old(Value()), Remove(names, reason, author, protected, hasWork, queued, at));
        && (error == None <==> r.Ok?) && (error.Some? ==> r == Err(error.value))
        && Value() == if r.Ok? then r.value else old(Value())
      ensures old(Sound(Value())) ==> Sound(Value())
    {
      ghost var c := Remove(names, reason, author, protected, hasWork, queued, at);
      if Sound(Value()) {
        StepKeepsSound(Value(), c);
      }
      hide Ascending, Present, Strip, Sound, Without, Touches, Members;
      var present := Present(scrolls, names);
      if present == [] {
        return Some(NOT_SELECTED);
      }
      if Touches(present, protected) {
        return Some(HAS_WORK);
      }
      var frozen := hasWork || queued;
      if frozen && Strip(reason) == "" {
        return Some(NO_REASON);
      }
      scrolls := Without(scrolls, present);
      if frozen {
        amendments := amendments + [Removed(present, Strip(reason), author, at)];
        frozenAt := if frozenAt.Some? then frozenAt else Some(at);
      }
      error := None;
    }
  }
}

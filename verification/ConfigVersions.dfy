/** Configuration history: one file per version and a pointer to the current
    one (framework/contracts/config_version.py). */
module ConfigVersions {
  import opened Wrappers
  import opened Ordering
  import opened Text

  type Settings = map<string, string>

  datatype Change = Change(before: Option<string>, after: Option<string>)

  datatype Version = Version(
    id: string, index: nat, digest: Digest<Settings>, parent: Option<string>, restoredFrom: Option<string>,
    reason: string, settings: Settings, changed: map<string, Change>, baseline: bool)

  datatype ConfigError = UNCHANGED | NOT_AN_ID | NO_VERSION | ALREADY_ACTIVE

  /** The directory: the version files by id, and what CURRENT names. */
  datatype Dir = Dir(files: map<string, Version>, pointer: Option<string>)

  const EMPTY := Dir(map[], None)

  /** The first twelve hex digits of a content hash. */
  type Short = Digest<Settings> -> string

  ghost predicate Abbreviates(short: Short) { forall d :: |short(d)| == 12 && AllHex(short(d)) }

  // ---- what moved between two settings maps ----

  function At(s: Settings, key: string): Option<string> { if key in s then Some(s[key]) else None }

  function DiffOf(before: Settings, after: Settings): map<string, Change> {
    map k | k in before.Keys + after.Keys && At(before, k) != At(after, k) :: Change(At(before, k), At(after, k))
  }

  method Diff(before: Settings, after: Settings) returns (changed: map<string, Change>)
    ensures changed == DiffOf(before, after)
  {
    changed := map[];
    var keys := before.Keys + after.Keys;
    while keys != {}
      invariant keys <= before.Keys + after.Keys
      invariant forall k :: k in changed <==> k in DiffOf(before, after) && k !in keys
      invariant forall k :: k in changed ==> changed[k] == DiffOf(before, after)[k]
    {
      var key :| key in keys;
      var old_, new_ := At(before, key), At(after, key);
      if old_ != new_ {
        changed := changed[key := Change(old_, new_)];
      }
      keys := keys - {key};
    }
  }

  /** Following a change list. */
  function Patch(s: Settings, changed: map<string, Change>): Settings {
    map k | k in s.Keys + changed.Keys && (k in changed ==> changed[k].after.Some?) ::
      if k in changed then changed[k].after.value else s[k]
  }

  function Undo(changed: map<string, Change>): map<string, Change> {
    map k | k in changed :: Change(changed[k].after, changed[k].before)
  }

  /** A diff says exactly what to do to get there, and, turned round, to get
      back; it is empty only between equal settings. */
  lemma PatchDiff(before: Settings, after: Settings)
    ensures Patch(before, DiffOf(before, after)) == after
    ensures Patch(after, Undo(DiffOf(before, after))) == before
    ensures Undo(DiffOf(before, after)) == DiffOf(after, before)
    ensures DiffOf(before, after) == map[] <==> before == after
  {
    var changed := DiffOf(before, after);
    assert forall k :: k in changed <==> At(before, k) != At(after, k);
    forall k ensures At(Patch(before, changed), k) == At(after, k) && At(Patch(after, Undo(changed)), k) == At(before, k) {}
    SameAt(Patch(before, changed), after);
    SameAt(Patch(after, Undo(changed)), before);
    if changed == map[] {
      assert forall k :: At(before, k) == At(after, k);
      SameAt(before, after);
    }
  }

  lemma SameAt(a: Settings, b: Settings)
    requires forall k :: At(a, k) == At(b, k)
    ensures a == b
  {
    assert forall k :: (k in a) == At(a, k).Some? == At(b, k).Some? == (k in b);
    assert forall k :: k in a ==> Some(a[k]) == At(a, k) == At(b, k) == Some(b[k]);
  }

  // ---- ids ----

  function VersionId(short: Short, digest: Digest<Settings>, index: nat): string {
    "cfg-" + Pad4(index) + "-" + short(digest)
  }

  predicate ExactlyShaped(id: string) {
    15 <= |id| <= 41 && id[..4] == "cfg-" && AllDigits(id[4..8]) && id[8] == '-' && AllHex(id[9..])
  }

  /** `VERSION_ID.match`, whose `$` also lets one closing newline by. */
  predicate Shaped(id: string) {
    ExactlyShaped(id) || (id != [] && id[|id|-1] == '\n' && ExactlyShaped(id[..|id|-1]))
  }

  /** These four pieces, one after the other, are the id. */
  ghost predicate Pieces(id: string, number: string, hex: string, end: string) {
    && id == "cfg-" + number + "-" + hex + end
    && |number| == 4 && (forall i :: 0 <= i < 4 ==> '0' <= number[i] <= '9')
    && 6 <= |hex| <= 32 && (forall i :: 0 <= i < |hex| ==> '0' <= hex[i] <= '9' || 'a' <= hex[i] <= 'f')
    && (end == "" || end == "\n")
  }

  /** The pattern: cfg, four digits, six to thirty-two hexadecimal digits, and
      perhaps a newline. */
  lemma ShapedMeans(id: string)
    ensures Shaped(id) <==> exists number, hex, end :: Pieces(id, number, hex, end)
  {
    if ExactlyShaped(id) {
      ShapedSplits(id, "");
      assert id + "" == id;
    } else if Shaped(id) {
      ShapedSplits(id[..|id|-1], "\n");
      assert id == id[..|id|-1] + "\n";
    }
    if number, hex, end :| Pieces(id, number, hex, end) {
      PiecesShape(id, number, hex, end);
    }
  }

  lemma ShapedSplits(body: string, end: string)
    requires ExactlyShaped(body) && (end == "" || end == "\n")
    ensures Pieces(body + end, body[4..8], body[9..], end)
  {
    assert body == body[..4] + body[4..8] + [body[8]] + body[9..];
  }

  lemma PiecesShape(id: string, number: string, hex: string, end: string)
    requires Pieces(id, number, hex, end)
    ensures Shaped(id)
  {
    var body := "cfg-" + number + "-" + hex;
    assert body[..4] == "cfg-" && body[4..8] == number && body[8] == '-' && body[9..] == hex;
    assert end == "" ==> id == body;
    assert end == "\n" ==> id[..|id|-1] == body;
  }

  /** An id fits the pattern for as long as its number has four digits. */
  lemma IdShaped(short: Short, digest: Digest<Settings>, index: nat)
    requires Abbreviates(short)
    ensures Shaped(VersionId(short, digest, index)) <==> index <= 9999
  {
    var number, hex := Pad4(index), short(digest);
    var id := VersionId(short, digest, index);
    ParsePad4(index);
    assert id == "cfg-" + (number + ("-" + hex));
    assert id[..4] == "cfg-";
    assert id[4..] == number + ("-" + hex);
    assert id[|id|-1] == hex[11];
    if index <= 9999 {
      assert id[4..8] == number && id[8] == '-' && id[9..] == hex;
    } else {
      assert id[8] == id[4..][4] == number[4];
    }
  }

  lemma IdsDiffer(short: Short, d: Digest<Settings>, i: nat, e: Digest<Settings>, j: nat)
    requires VersionId(short, d, i) == VersionId(short, e, j)
    ensures i == j
  {
    hide Pad4;
    var a, b := VersionId(short, d, i), VersionId(short, e, j);
    assert a == "cfg-" + (Pad4(i) + "-" + short(d)) && b == "cfg-" + (Pad4(j) + "-" + short(e));
    assert a[4..] == Pad4(i) + ['-'] + short(d) && b[4..] == Pad4(j) + ['-'] + short(e);
    DigitRunUnique(Pad4(i), Pad4(j), '-', short(d), short(e));
    Pad4Injective(i, j);
  }

  // ---- operations on the directory ----

  function Current(dir: Dir): Option<Version> {
    if dir.pointer.Some? && dir.pointer.value in dir.files then Some(dir.files[dir.pointer.value]) else None
  }

  function Write(dir: Dir, v: Version): Dir { Dir(dir.files[v.id := v], Some(v.id)) }

  function Baseline(short: Short, defaults: Settings): Version {
    Version(VersionId(short, Sha256(defaults), 0), 0, Sha256(defaults), None, None,
            "baseline: the built-in defaults, before any change", defaults, map[], true)
  }

  function EnsureBaseline(short: Short, dir: Dir, defaults: Settings): (Dir, Version) {
    if Current(dir).Some? then (dir, Current(dir).value)
    else (Write(dir, Baseline(short, defaults)), Baseline(short, defaults))
  }

  function Larger(a: nat, b: nat): nat { if a < b then b else a }

  /** The largest of some numbers, or zero. */
  ghost function MaxOf(s: set<nat>): (m: nat)
    ensures s != {} ==> m in s
    ensures s == {} ==> m == 0
    ensures forall x :: x in s ==> x <= m
  {
    if s == {} then 0
    else
      var x :| x in s;
      assert s == s - {x} + {x};
      Larger(x, MaxOf(s - {x}))
  }

  ghost function Indices(files: map<string, Version>): set<nat> { set id | id in files :: files[id].index }

  ghost function NextIndex(files: map<string, Version>): nat { MaxOf(Indices(files)) + 1 }

  predicate Given(name: Option<string>) { name.Some? && name.value != "" }

  ghost function Commit(short: Short, dir: Dir, settings: Settings, reason: string, changed: map<string, Change>, restoredFrom: Option<string>)
    : Result<(Dir, Version), ConfigError>
  {
    var previous := Current(dir);
    var digest := Sha256(settings);
    if previous.Some? && previous.value.digest == digest && !Given(restoredFrom) then Err(UNCHANGED)
    else
      var index := NextIndex(dir.files);
      var v := Version(VersionId(short, digest, index), index, digest,
                       if previous.Some? then Some(previous.value.id) else None,
                       restoredFrom, Strip(reason), settings, changed, false);
      Ok((Write(dir, v), v))
  }

  function Get(dir: Dir, id: string): Result<Version, ConfigError> {
    if !Shaped(id) then Err(NOT_AN_ID)
    else if id !in dir.files then Err(NO_VERSION)
    else Ok(dir.files[id])
  }

  function RestoreReason(target: Version, id: string): string {
    "restored " + id + " (" + (if target.reason == "" then "no reason recorded" else target.reason) + ")"
  }

  ghost function Restore(short: Short, dir: Dir, id: string): Result<(Dir, Version), ConfigError> {
    var target := Get(dir, id);
    var active := Current(dir);
    if target.Err? then Err(target.error)
    else if active.Some? && active.value.digest == target.value.digest then Err(ALREADY_ACTIVE)
    else
      var settings := target.value.settings;
      Commit(short, dir, settings, RestoreReason(target.value, id),
             DiffOf(if active.Some? then active.value.settings else map[], settings), Some(id))
  }

  // ---- histories ----

  /** `log` is the directory's versions in order: numbered from zero without a
      gap, each a child of the one before and different from it, a restored one
      equal to an earlier one, and CURRENT naming the last. */
  ghost predicate Histories(short: Short, dir: Dir, log: seq<Version>) {
    && log != [] && dir.pointer == Some(log[|log|-1].id)
    && Stored(dir, log) && Numbered(short, log) && Chained(log) && Restores(log)
  }

  ghost predicate Stored(dir: Dir, log: seq<Version>) {
    && (forall v :: v in log ==> v.id in dir.files && dir.files[v.id] == v)
    && (forall id :: id in dir.files ==> dir.files[id] in log && dir.files[id].id == id)
  }

  ghost predicate Numbered(short: Short, log: seq<Version>) {
    forall i :: 0 <= i < |log| ==>
      && log[i].index == i && log[i].digest == Sha256(log[i].settings)
      && log[i].id == VersionId(short, log[i].digest, i)
      && (log[i].baseline <==> i == 0)
  }

  ghost predicate Chained(log: seq<Version>) {
    && (log != [] ==> log[0].parent == None)
    && (forall i, j :: 0 <= i < |log| - 1 && j == i + 1 ==> Child(log[i], log[j]))
  }

  ghost predicate Restores(log: seq<Version>) {
    forall j :: 0 <= j < |log| && log[j].restoredFrom.Some? ==> Reproduces(log, j)
  }

  ghost predicate Child(parent: Version, child: Version) {
    child.parent == Some(parent.id) && child.settings != parent.settings
  }

  ghost predicate Reproduces(log: seq<Version>, j: nat)
    requires j < |log| && log[j].restoredFrom.Some?
  {
    && j > 0 && log[j].changed == DiffOf(log[j-1].settings, log[j].settings)
    && exists i :: 0 <= i < j && log[i].id == log[j].restoredFrom.value && log[i].settings == log[j].settings
  }

  lemma BaselineStarts(short: Short, defaults: Settings)
    ensures var (dir, v) := EnsureBaseline(short, EMPTY, defaults);
      && Histories(short, dir, [v]) && v.settings == defaults
      && v.changed == map[] && v.restoredFrom == None && v.reason == "baseline: the built-in defaults, before any change"
  {}

  lemma BaselineIsOnce(short: Short, dir: Dir, log: seq<Version>, defaults: Settings)
    requires Histories(short, dir, log)
    ensures EnsureBaseline(short, dir, defaults) == (dir, log[|log|-1])
  {
    assert log[|log|-1] in log;
  }

  lemma CurrentIsLast(short: Short, dir: Dir, log: seq<Version>)
    requires Histories(short, dir, log)
    ensures Current(dir) == Some(log[|log|-1])
    ensures NextIndex(dir.files) == |log|
  {
    var last := log[|log|-1];
    assert last in log;
    assert last.id in dir.files && dir.files[last.id].index == |log| - 1;
    assert |log| - 1 in Indices(dir.files);
    forall x | x in Indices(dir.files) ensures x < |log| {
      var id :| id in dir.files && dir.files[id].index == x;
      var i :| 0 <= i < |log| && log[i] == dir.files[id];
    }
  }

  /** Appending a version that differs from the last continues the history. */
  lemma WriteContinues(short: Short, dir: Dir, log: seq<Version>, v: Version)
    requires Histories(short, dir, log)
    requires v.index == |log| && v.digest == Sha256(v.settings) && v.id == VersionId(short, v.digest, |log|) && !v.baseline
    requires Child(log[|log|-1], v)
    requires v.restoredFrom.Some? ==> Reproduces(log + [v], |log|)
    ensures Histories(short, Write(dir, v), log + [v])
  {
    IdIsNew(short, log, v);
    StoredContinues(dir, log, v);
    RestoresContinue(log, v);
    NumberedContinues(short, log, v);
    ChainedContinues(log, v);
    hide Stored, Restores, Chained, Numbered;
  }

  lemma IdIsNew(short: Short, log: seq<Version>, v: Version)
    requires Numbered(short, log) && v.id == VersionId(short, v.digest, |log|)
    ensures forall w :: w in log ==> w.id != v.id
  {
    hide VersionId;
    forall w | w in log ensures w.id != v.id {
      var i :| 0 <= i < |log| && log[i] == w;
      if w.id == v.id {
        IdsDiffer(short, w.digest, i, v.digest, |log|);
      }
    }
  }

  lemma NumberedContinues(short: Short, log: seq<Version>, v: Version)
    requires Numbered(short, log) && log != []
    requires v.index == |log| && v.digest == Sha256(v.settings) && v.id == VersionId(short, v.digest, |log|) && !v.baseline
    ensures Numbered(short, log + [v])
  {
    hide VersionId;
  }

  lemma ChainedContinues(log: seq<Version>, v: Version)
    requires log != [] && Chained(log) && Child(log[|log|-1], v)
    ensures Chained(log + [v])
  {
    hide Child;
  }

  lemma StoredContinues(dir: Dir, log: seq<Version>, v: Version)
    requires Stored(dir, log) && forall w :: w in log ==> w.id != v.id
    ensures Stored(Write(dir, v), log + [v])
  {}

  lemma RestoresContinue(log: seq<Version>, v: Version)
    requires Restores(log) && (v.restoredFrom.Some? ==> Reproduces(log + [v], |log|))
    ensures Restores(log + [v])
  {
    var longer := log + [v];
    forall j | 0 <= j < |longer| && longer[j].restoredFrom.Some? ensures Reproduces(longer, j) {
      if j < |log| {
        assert Reproduces(log, j);
        var i :| 0 <= i < j && log[i].id == log[j].restoredFrom.value && log[i].settings == log[j].settings;
        assert longer[i] == log[i] && longer[j] == log[j] && longer[j-1] == log[j-1];
      }
    }
  }

  /** A commit on a history is refused exactly when it would change nothing;
      otherwise it continues the history with the settings asked for. */
  lemma CommitContinues(short: Short, dir: Dir, log: seq<Version>, settings: Settings, reason: string, changed: map<string, Change>)
    requires Histories(short, dir, log)
    ensures var r := Commit(short, dir, settings, reason, changed, None);
      && (r.Err? <==> settings == log[|log|-1].settings)
      && (r.Ok? ==> Histories(short, r.value.0, log + [r.value.1]) && r.value.1.settings == settings && r.value.1.changed == changed)
  {
    CurrentIsLast(short, dir, log);
    var r := Commit(short, dir, settings, reason, changed, None);
    assert log[|log|-1].digest == Sha256(log[|log|-1].settings);
    hide Indices, MaxOf;
    if r.Ok? {
      assert Child(log[|log|-1], r.value.1);
      WriteContinues(short, dir, log, r.value.1);
    }
  }

  /** `get` finds exactly the versions in the history whose number has four digits. */
  lemma GetFinds(short: Short, dir: Dir, log: seq<Version>, id: string)
    requires Abbreviates(short) && Histories(short, dir, log)
    ensures Get(dir, id).Ok? <==> exists i :: 0 <= i < |log| && i <= 9999 && log[i].id == id
    ensures Get(dir, id).Ok? ==> Get(dir, id).value in log && Get(dir, id).value.id == id
    ensures Get(dir, id) == Err(NOT_AN_ID) && id in dir.files <==> exists i :: 0 <= i < |log| && i > 9999 && log[i].id == id
    ensures Get(dir, id) == Err(NOT_AN_ID) <==> !Shaped(id)
    ensures Get(dir, id).Err? ==> Get(dir, id).error == NOT_AN_ID || Get(dir, id).error == NO_VERSION
  {
    hide Shaped, VersionId, Abbreviates, Child;
    if id in dir.files {
      var i :| 0 <= i < |log| && log[i] == dir.files[id];
      IdShaped(short, log[i].digest, i);
    }
    forall i | 0 <= i < |log| && log[i].id == id ensures id in dir.files && (Shaped(id) <==> i <= 9999) {
      assert log[i] in log;
      IdShaped(short, log[i].digest, i);
    }
  }

  /** Restoring succeeds exactly for a version `get` finds whose settings are not
      the current ones, and the version it adds has the target's settings. */
  lemma RestoreContinues(short: Short, dir: Dir, log: seq<Version>, id: string)
    requires Abbreviates(short) && Histories(short, dir, log)
    ensures var r := Restore(short, dir, id);
      && (r.Ok? <==> exists i :: 0 <= i < |log| && i <= 9999 && log[i].id == id && log[i].settings != log[|log|-1].settings)
      && (r.Ok? ==> Histories(short, r.value.0, log + [r.value.1]) && r.value.1.restoredFrom == Some(id)
                    && Patch(log[|log|-1].settings, r.value.1.changed) == r.value.1.settings)
  {
    var target, r, last := Get(dir, id), Restore(short, dir, id), log[|log|-1];
    CurrentIsLast(short, dir, log);
    GetFinds(short, dir, log, id);
    hide Get, Indices, MaxOf, Patch, DiffOf, VersionId, Abbreviates, Stored, Chained, Restores, Child, Reproduces, Write;
    if target.Ok? {
      var i :| 0 <= i < |log| && log[i] == target.value;
      assert last.digest == Sha256(last.settings) && log[i].digest == Sha256(log[i].settings);
      forall k | 0 <= k < |log| && log[k].id == id ensures k == i {
        IdsDiffer(short, log[k].digest, k, log[i].digest, i);
      }
      if r.Ok? {
        NotBlank(short, log, i);
        RestoredReproduces(log, r.value.1, i);
        WriteContinues(short, dir, log, r.value.1);
        PatchDiff(last.settings, r.value.1.settings);
      }
    }
  }

  /** What a restore answers: the errors of `get`, the refusal of what is already
      current, or a version whose reason names the target and quotes the reason
      the target was recorded with. */
  lemma RestoreAnswers(short: Short, dir: Dir, log: seq<Version>, id: string)
    requires Abbreviates(short) && Histories(short, dir, log)
    ensures var target, r := Get(dir, id), Restore(short, dir, id);
      && (target.Err? ==> r == Err(target.error))
      && (target.Ok? && target.value.settings == log[|log|-1].settings ==> r == Err(ALREADY_ACTIVE))
      && (target.Ok? && target.value.settings != log[|log|-1].settings ==> r.Ok? && r.value.1.reason == Quoting(id, target.value.reason))
  {
    var target, r := Get(dir, id), Restore(short, dir, id);
    CurrentIsLast(short, dir, log);
    GetFinds(short, dir, log, id);
    hide Get, Indices, MaxOf, DiffOf, VersionId, Abbreviates, Stored, Chained, Restores, Write, Strip, Quoting, RestoreReason;
    if target.Ok? {
      var i :| 0 <= i < |log| && log[i] == target.value;
      assert log[|log|-1].digest == Sha256(log[|log|-1].settings) && log[i].digest == Sha256(log[i].settings);
      QuotingIsTrim(target.value, id);
    }
  }

  ghost function Quoting(id: string, reason: string): string {
    if reason == "" then "restored " + id + " (no reason recorded)" else "restored " + id + " (" + reason + ")"
  }

  lemma QuotingIsTrim(target: Version, id: string)
    ensures Strip(RestoreReason(target, id)) == Quoting(id, target.reason)
  {
    var said := RestoreReason(target, id);
    assert said == Quoting(id, target.reason);
    assert said[0] == 'r' && said[|said|-1] == ')';
    var from, to := StripMeans(said);
  }

  lemma RestoredReproduces(log: seq<Version>, v: Version, i: nat)
    requires i < |log| && v.restoredFrom == Some(log[i].id) && v.settings == log[i].settings
    requires v.parent == Some(log[|log|-1].id) && v.settings != log[|log|-1].settings
    requires v.changed == DiffOf(log[|log|-1].settings, v.settings)
    ensures Child(log[|log|-1], v) && Reproduces(log + [v], |log|)
  {
    hide DiffOf;
    assert (log + [v])[|log|-1] == log[|log|-1] && (log + [v])[i] == log[i];
  }

  lemma NotBlank(short: Short, log: seq<Version>, i: nat)
    requires Numbered(short, log) && i < |log|
    ensures log[i].id != ""
  {
    assert log[i].id == VersionId(short, log[i].digest, i);
  }

  // ---- runs ----

  datatype Event =
    | Committing(settings: Settings, reason: string, changed: map<string, Change>)
    | Restoring(id: string)

  ghost function Attempt(short: Short, dir: Dir, e: Event): Result<(Dir, Version), ConfigError> {
    match e
    case Committing(settings, reason, changed) => Commit(short, dir, settings, reason, changed, None)
    case Restoring(id) => Restore(short, dir, id)
  }

  /** The directory and everything written to it, after these attempts from a baseline. */
  ghost function Run(short: Short, defaults: Settings, events: seq<Event>): (Dir, seq<Version>) {
    if events == [] then
      var (dir, v) := EnsureBaseline(short, EMPTY, defaults); (dir, [v])
    else
      var (dir, log) := Run(short, defaults, events[..|events|-1]);
      var r := Attempt(short, dir, events[|events|-1]);
      if r.Ok? then (r.value.0, log + [r.value.1]) else (dir, log)
  }

  /** Whatever is attempted, the directory stays a history, and the history only grows. */
  lemma {:induction false} RunsAreHistories(short: Short, defaults: Settings, events: seq<Event>)
    requires Abbreviates(short)
    ensures var (dir, log) := Run(short, defaults, events);
      Histories(short, dir, log) && log != [] && log[0].settings == defaults
    ensures forall n :: 0 <= n <= |events| ==> Run(short, defaults, events[..n]).1 <= Run(short, defaults, events).1
  {
    hide Histories, Commit, Restore, Abbreviates, Patch, EnsureBaseline;
    if events == [] {
      BaselineStarts(short, defaults);
      return;
    }
    var front := events[..|events|-1];
    RunsAreHistories(short, defaults, front);
    var (dir, log) := Run(short, defaults, front);
    match events[|events|-1] {
      case Committing(settings, reason, changed) => CommitContinues(short, dir, log, settings, reason, changed);
      case Restoring(id) => RestoreContinues(short, dir, log, id);
    }
    forall n | 0 <= n <= |events| ensures Run(short, defaults, events[..n]).1 <= Run(short, defaults, events).1 {
      if n < |events| {
        assert front[..n] == events[..n];
      } else {
        assert events[..n] == events;
      }
    }
  }

  /** Naming what a commit restores lifts the refusal of unchanged content, so
      only then can a version equal its parent. */
  lemma UnchangedWhen(short: Short, dir: Dir, log: seq<Version>, settings: Settings, reason: string, changed: map<string, Change>, name: Option<string>)
    requires Histories(short, dir, log)
    ensures var r := Commit(short, dir, settings, reason, changed, name);
      && (r.Err? <==> settings == log[|log|-1].settings && (name == None || name == Some("")))
      && (r.Ok? ==> r.value.1.settings == settings && r.value.1.restoredFrom == name)
  {
    CurrentIsLast(short, dir, log);
    assert log[|log|-1].digest == Sha256(log[|log|-1].settings);
    hide Indices, MaxOf, Write;
  }

  // ---- the directory itself ----

  predicate IndexLe(a: Version, b: Version) { a.index <= b.index }

  class Registry {
    const short: Short
    var files: map<string, Version>
    var pointer: Option<string>
    ghost var log: seq<Version>

    ghost predicate Valid()
      reads this
    {
      Abbreviates(short) && Histories(short, Dir(files, pointer), log)
    }

    /** A new directory, with its baseline. */
    constructor (short: Short, defaults: Settings)
      requires Abbreviates(short)
      ensures Valid() && fresh(this) && this.short == short
      ensures |log| == 1 && log[0].settings == defaults && log[0].baseline
    {
      var v := Baseline(short, defaults);
      this.short := short;
      files := map[v.id := v];
      pointer := Some(v.id);
      log := [v];
      new;
      BaselineStarts(short, defaults);
    }

    method Ensure(defaults: Settings) returns (v: Version)
      requires Valid()
      ensures v == log[|log|-1]
    {
      BaselineIsOnce(short, Dir(files, pointer), log, defaults);
      CurrentIsLast(short, Dir(files, pointer), log);
      var current := Current(Dir(files, pointer));
      v := current.value;
    }

    /** `max((v.index for v in existing), default=0)` */
    method HighestIndex() returns (m: nat)
      ensures m == MaxOf(Indices(files))
    {
      m := 0;
      var rest := files.Keys;
      while rest != {}
        invariant rest <= files.Keys
        invariant m == 0 || m in Indices(files)
        invariant forall id :: id in files && id !in rest ==> files[id].index <= m
      {
        var id :| id in rest;
        assert files[id].index in Indices(files);
        m := Larger(m, files[id].index);
        rest := rest - {id};
      }
      forall x | x in Indices(files) ensures x <= m {
        var id :| id in files && files[id].index == x;
      }
    }

    /** `commit`, on any directory */
    method CommitVersion(settings: Settings, reason: string, changed: map<string, Change>, restoredFrom: Option<string>)
      returns (r: Result<Version, ConfigError>)
      modifies this`files, this`pointer
      ensures var spec := Commit(short, old(Dir(files, pointer)), settings, reason, changed, restoredFrom);
        && (spec.Ok? ==> r.Ok? && spec.value == (Dir(files, pointer), r.value))
        && (spec.Err? ==> r == Err(spec.error) && Dir(files, pointer) == old(Dir(files, pointer)))
    {
      hide MaxOf, Indices, VersionId, Strip;
      var previous := Current(Dir(files, pointer));
      var digest := Sha256(settings);
      if previous.Some? && previous.value.digest == digest && !Given(restoredFrom) {
        return Err(UNCHANGED);
      }
      var highest := HighestIndex();
      var v := Version(VersionId(short, digest, highest + 1), highest + 1, digest,
                       if previous.Some? then Some(previous.value.id) else None,
                       restoredFrom, Strip(reason), settings, changed, false);
      files := files[v.id := v];
      pointer := Some(v.id);
      r := Ok(v);
    }

    /** A commit by the panel: it restores nothing. */
    method Change(settings: Settings, reason: string, changed: map<string, Change>) returns (r: Result<Version, ConfigError>)
      requires Valid()
      modifies this
      ensures Valid()
      ensures r == Err(UNCHANGED) <==> settings == old(log[|log|-1].settings)
      ensures r.Err? ==> r == Err(UNCHANGED) && log == old(log) && Dir(files, pointer) == old(Dir(files, pointer))
      ensures r.Ok? ==> log == old(log) + [r.value]
      ensures r.Ok? ==> r.value.settings == settings && r.value.changed == changed && r.value.reason == Strip(reason)
    {
      CommitContinues(short, Dir(files, pointer), log, settings, reason, changed);
      hide Abbreviates, Histories, Strip, VersionId, MaxOf, Indices, Write;
      r := CommitVersion(settings, reason, changed, None);
      if r.Ok? {
        log := log + [r.value];
      }
    }

    /** `restore`, on any directory */
    method RestoreAny(id: string) returns (r: Result<Version, ConfigError>)
      modifies this`files, this`pointer
      ensures var spec := Restore(short, old(Dir(files, pointer)), id);
        && (spec.Ok? ==> r.Ok? && spec.value == (Dir(files, pointer), r.value))
        && (spec.Err? ==> r == Err(spec.error) && Dir(files, pointer) == old(Dir(files, pointer)))
    {
      hide Shaped, DiffOf, Commit, RestoreReason;
      var target := Get(Dir(files, pointer), id);
      if target.Err? {
        return Err(target.error);
      }
      var active := Current(Dir(files, pointer));
      if active.Some? && active.value.digest == target.value.digest {
        return Err(ALREADY_ACTIVE);
      }
      var changed := Diff(if active.Some? then active.value.settings else map[], target.value.settings);
      r := CommitVersion(target.value.settings, RestoreReason(target.value, id), changed, Some(id));
    }

    /** A restore by the panel. */
    method RestoreVersion(id: string) returns (r: Result<Version, ConfigError>)
      requires Valid()
      modifies this
      ensures Valid()
      ensures r.Ok? <==> old(exists i :: 0 <= i < |log| && i <= 9999 && log[i].id == id && log[i].settings != log[|log|-1].settings)
      ensures r.Err? ==> log == old(log) && Dir(files, pointer) == old(Dir(files, pointer))
      ensures r.Ok? ==> log == old(log) + [r.value] && r.value.restoredFrom == Some(id)
    {
      RestoreContinues(short, Dir(files, pointer), log, id);
      hide Abbreviates, Histories, Restore, Patch;
      r := RestoreAny(id);
      if r.Ok? {
        log := log + [r.value];
      }
    }

    /** `history`: every file, oldest first. */
    method History() returns (versions: seq<Version>)
      requires Valid()
      ensures versions == log
    {
      var found: seq<Version> := [];
      var rest := files.Keys;
      assert forall id :: id in files ==> files[id].id == id;
      hide Histories, Abbreviates;
      while rest != {}
        invariant rest <= files.Keys
        invariant NoDuplicates(found)
        invariant forall v :: v in found <==> v.id in files && v.id !in rest && files[v.id] == v
      {
        var id :| id in rest;
        found := found + [files[id]];
        rest := rest - {id};
      }
      versions := Sort(IndexLe, found);
      OldestFirst(short, Dir(files, pointer), log, found);
    }
  }

  lemma OldestFirst(short: Short, dir: Dir, log: seq<Version>, found: seq<Version>)
    requires Histories(short, dir, log) && NoDuplicates(found)
    requires forall v :: v in found <==> v.id in dir.files && dir.files[v.id] == v
    ensures Sort(IndexLe, found) == log
  {
    hide VersionId, Chained, Restores;
    assert NoDuplicates(log) && Strict(IndexLe, log) && Sorted(IndexLe, log) && Preorder(IndexLe);
    assert forall v :: v in log <==> v in found;
    hide *;
    SameSetSameMultiset(log, found);
    SortCanonical(IndexLe, log, found);
    SortSorted(IndexLe, log);
    SortedUnique(IndexLe, log, Sort(IndexLe, log));
  }
}

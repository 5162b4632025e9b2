/** Registering artifacts, choosing between them, and going back: the two
    append-only logs of one mission (framework/contracts/artifact.py). */
module Selections {
  import opened Wrappers
  import opened Ordering
  import opened Text
  import opened Artifacts

  type Choices = map<string, string>

  datatype Selection = Selection(
    versionId: string, index: int, content: Digest<Choices>, choices: Choices,
    reason: string, at: int, author: string, restoredFrom: Option<string>)

  datatype Logs = Logs(artifacts: seq<Artifact>, selections: seq<Selection>)

  datatype Refusal =
    | INCOMPLETE | NOTHING_TO_HASH | NOT_REGISTERED | FILED_ELSEWHERE | NOTHING_CHANGED
    | NO_SUCH_VERSION | ALREADY_CURRENT

  /** What hashing the output gave: digest, file count, total bytes. */
  datatype Content = Content(digest: string, files: int, bytes: int)

  // ---- ids ----

  /** The readable prefix of a content digest; any eight characters will do. */
  type Abbreviate = Digest<Choices> -> string

  function VersionId(index: nat, abbreviation: string): string { "sel-" + Pad4(index) + "-" + abbreviation }

  /** The index alone makes version ids unique. */
  lemma VersionIdInjective(i: nat, j: nat, a: string, b: string)
    requires VersionId(i, a) == VersionId(j, b)
    ensures i == j && a == b
  {
    assert VersionId(i, a) == "sel-" + (Pad4(i) + ['-'] + a);
    assert VersionId(j, b) == "sel-" + (Pad4(j) + ['-'] + b);
    assert VersionId(i, a)[4..] == Pad4(i) + ['-'] + a && VersionId(j, b)[4..] == Pad4(j) + ['-'] + b;
    DigitRunUnique(Pad4(i), Pad4(j), '-', a, b);
    Pad4Injective(i, j);
  }

  function SelectionKey(phase: string, sample: string): string { Upper(phase) + ['/'] + sample }

  // ---- register ----

  function NewArtifact(phase: string, sample: string, kind: string, path: string, c: Content,
                       producedBy: Option<string>, inputs: set<string>, note: string, at: int, author: string): Artifact {
    Artifact(ArtifactId(phase, sample, c.digest), Upper(phase), sample, kind, path, c.digest, c.files, c.bytes,
             producedBy, inputs, Strip(note), at, author)
  }

  /** Idempotent by content: the same id is the same artifact noticed again. */
  function Register(log: seq<Artifact>, phase: string, sample: string, kind: string, path: string, content: Option<Content>,
                    producedBy: Option<string>, inputs: set<string>, note: string, at: int, author: string)
    : Result<Artifact, Refusal>
  {
    if phase == "" || sample == "" || kind == "" then Err(INCOMPLETE)
    else if content.None? then Err(NOTHING_TO_HASH)
    else
      var existing := Get(log, ArtifactId(phase, sample, content.value.digest));
      if existing.Some? then Ok(existing.value)
      else Ok(NewArtifact(phase, sample, kind, path, content.value, producedBy, inputs, note, at, author))
  }

  function Noted(log: seq<Artifact>, r: Result<Artifact, Refusal>): seq<Artifact> {
    if r.Ok? && r.value.id !in Ids(log) then log + [r.value] else log
  }

  // ---- select ----

  /** The artifact's own phase and sample are those of the key it is filed under. */
  predicate Fits(log: seq<Artifact>, key: string, id: string) {
    var (phase, sample) := Partition(key, '/');
    var r := Get(log, id);
    r.Some? && r.value.phase == Upper(phase) && r.value.sample == sample
  }

  predicate AllFit(log: seq<Artifact>, choices: Choices) { forall k :: k in choices ==> Fits(log, k, choices[k]) }

  function Select(st: Logs, choices: Choices, reason: string, at: int, author: string, abbreviate: Abbreviate)
    : Result<Selection, Refusal>
  {
    if exists k :: k in choices && choices[k] !in Ids(st.artifacts) then Err(NOT_REGISTERED)
    else if !AllFit(st.artifacts, choices) then Err(FILED_ELSEWHERE)
    else
      var digest, history := Sha256(choices), st.selections;
      if history != [] && history[|history|-1].content == digest then Err(NOTHING_CHANGED)
      else Ok(Selection(VersionId(|history|, abbreviate(digest)), |history|, digest, choices, Strip(reason), at, author, None))
  }

  function FindVersion(history: seq<Selection>, versionId: string): Option<Selection> {
    if history == [] then None
    else if history[0].versionId == versionId then Some(history[0])
    else FindVersion(history[1..], versionId)
  }

  function RestoredReason(versionId: string): string { "restored " + versionId }

  /** The selection that `restore_selection` writes to the log. */
  function Restore(st: Logs, versionId: string, at: int, author: string, abbreviate: Abbreviate): Result<Selection, Refusal> {
    var history := st.selections;
    var found := FindVersion(history, versionId);
    if found.None? then Err(NO_SUCH_VERSION)
    else if history[|history|-1].content == found.value.content then Err(ALREADY_CURRENT)
    else Select(st, found.value.choices, RestoredReason(versionId), at, author, abbreviate)
  }

  function Logged(st: Logs, r: Result<Selection, Refusal>): Logs {
    if r.Ok? then st.(selections := st.selections + [r.value]) else st
  }

  // ---- resolve ----

  datatype Resolution = Selected(artifact: Artifact) | Newest(artifact: Artifact) | Nothing | Broken

  function CurrentChoices(st: Logs): Choices {
    if st.selections == [] then map[] else st.selections[|st.selections|-1].choices
  }

  function Resolve(st: Logs, phase: string, sample: string): Resolution {
    var chosen, key := CurrentChoices(st), SelectionKey(phase, sample);
    if key in chosen && chosen[key] != "" then
      var r := Get(st.artifacts, chosen[key]);
      if r.Some? then Selected(r.value) else Broken
    else
      var candidates := ArtifactsOf(st.artifacts, phase, sample);
      if candidates == [] then Nothing else Newest(candidates[0])
  }

  /** The artifacts a run of a phase will read, one per upstream phase that has one. */
  function InputsFor(st: Logs, upstream: seq<string>, sample: string): seq<string> {
    if upstream == [] then []
    else
      var r := Resolve(st, upstream[|upstream|-1], sample);
      if r.Selected? || r.Newest? then InputsFor(st, upstream[..|upstream|-1], sample) + [r.artifact.id]
      else InputsFor(st, upstream[..|upstream|-1], sample)
  }

  // ---- the two files ----

  class MissionRegister {
    var artifacts: seq<Artifact>
    var selections: seq<Selection>

    constructor ()
      ensures State() == Logs([], [])
    {
      artifacts, selections := [], [];
    }

    function State(): Logs
      reads this
    {
      Logs(artifacts, selections)
    }

    method RegisterArtifact(phase: string, sample: string, kind: string, path: string, content: Option<Content>,
                            producedBy: Option<string>, inputs: set<string>, note: string, at: int, author: string)
      returns (r: Result<Artifact, Refusal>)
      requires Consistent(State())
      modifies this
      ensures r == Register(old(artifacts), phase, sample, kind, path, content, producedBy, inputs, note, at, author)
      ensures State() == old(State()).(artifacts := Noted(old(artifacts), r))
      ensures r == Err(INCOMPLETE) <==> phase == "" || sample == "" || kind == ""
      ensures r == Err(NOTHING_TO_HASH) <==> phase != "" && sample != "" && kind != "" && content == None
      ensures r.Ok? <==> phase != "" && sample != "" && kind != "" && content.Some?
    {
      if phase == "" || sample == "" || kind == "" {
        return Err(INCOMPLETE);
      }
      if content.None? {
        return Err(NOTHING_TO_HASH);
      }
      var identity := ArtifactId(phase, sample, content.value.digest);
      GetMeans(artifacts, identity);
      var existing := Get(artifacts, identity);
      if existing.Some? {
        assert existing.value.id in Ids(artifacts) by {
          SameElements(Listing(artifacts), artifacts);
          FirstWithIdMeans(Listing(artifacts), identity);
        }
        return Ok(existing.value);
      }
      var record := NewArtifact(phase, sample, kind, path, content.value, producedBy, inputs, note, at, author);
      artifacts := artifacts + [record];
      r := Ok(record);
    }

    method SelectArtifacts(choices: Choices, reason: string, at: int, author: string, abbreviate: Abbreviate)
      returns (r: Result<Selection, Refusal>)
      modifies this
      ensures r == Select(old(State()), choices, reason, at, author, abbreviate)
      ensures State() == Logged(old(State()), r)
    {
      hide Fits, Strip, VersionId;
      if exists k :: k in choices && choices[k] !in Ids(artifacts) {
        return Err(NOT_REGISTERED);
      }
      var left := choices.Keys;
      while left != {}
        invariant left <= choices.Keys
        invariant forall k :: k in choices && k !in left ==> Fits(artifacts, k, choices[k])
        invariant State() == old(State())
        decreases left
      {
        var key :| key in left;
        if !Fits(artifacts, key, choices[key]) {
          return Err(FILED_ELSEWHERE);
        }
        left := left - {key};
      }
      var digest := Sha256(choices);
      if selections != [] && selections[|selections|-1].content == digest {
        return Err(NOTHING_CHANGED);
      }
      var record := Selection(VersionId(|selections|, abbreviate(digest)), |selections|, digest, choices, Strip(reason), at, author, None);
      selections := selections + [record];
      r := Ok(record);
    }

    /** The caller sees where the choice came from; the log does not. */
    method RestoreSelection(versionId: string, at: int, author: string, abbreviate: Abbreviate)
      returns (r: Result<Selection, Refusal>)
      modifies this
      ensures var logged := Restore(old(State()), versionId, at, author, abbreviate);
        && State() == Logged(old(State()), logged)
        && r == if logged.Ok? then Ok(logged.value.(restoredFrom := Some(versionId))) else logged
    {
      var found := FindVersion(selections, versionId);
      if found.None? {
        return Err(NO_SUCH_VERSION);
      }
      FindVersionMeans(selections, versionId);
      if selections[|selections|-1].content == found.value.content {
        return Err(ALREADY_CURRENT);
      }
      r := SelectArtifacts(found.value.choices, RestoredReason(versionId), at, author, abbreviate);
      if r.Ok? {
        r := Ok(r.value.(restoredFrom := Some(versionId)));
      }
    }
  }

  lemma {:induction false} FindVersionMeans(history: seq<Selection>, versionId: string)
    ensures FindVersion(history, versionId) == None <==> forall i :: 0 <= i < |history| ==> history[i].versionId != versionId
    ensures FindVersion(history, versionId).Some? ==>
      FindVersion(history, versionId).value in history && FindVersion(history, versionId).value.versionId == versionId
  {
    if history != [] {
      FindVersionMeans(history[1..], versionId);
      assert history == [history[0]] + history[1..];
      assert forall i :: 0 < i < |history| ==> history[i] == history[1..][i-1];
    }
  }

  // ---- what holds in every history ----

  ghost predicate Consistent(st: Logs) {
    UniqueIds(st.artifacts) && forall r :: r in st.artifacts ==> r.sample != "" && r.id != ""
  }

  ghost predicate SelectionTells(st: Logs, i: nat)
    requires i < |st.selections|
  {
    var s := st.selections[i];
    && s.index == i && s.content == Sha256(s.choices) && s.restoredFrom == None
    && (exists a :: s.versionId == VersionId(i, a))
    && AllFit(st.artifacts, s.choices)
  }

  /** Every version is whole, filed where it says, and differs from the one before. */
  ghost predicate Inv(st: Logs) {
    && Consistent(st)
    && (forall i :: 0 <= i < |st.selections| ==> SelectionTells(st, i))
    && (forall i, j :: 0 <= i < j < |st.selections| && j == i + 1 ==> st.selections[i].choices != st.selections[j].choices)
  }

  datatype Op =
    | DoRegister(phase: string, sample: string, kind: string, path: string, content: Option<Content>,
                 producedBy: Option<string>, inputs: set<string>, note: string)
    | DoRun(phase: string, sample: string, kind: string, path: string, content: Option<Content>,
            job: string, upstream: seq<string>, note: string)
    | DoSelect(choices: Choices, reason: string)
    | DoRestore(versionId: string)

  function AsSet(names: seq<string>): set<string> { set x | x in names }

  /** One call, at a second and by somebody. */
  function Step(st: Logs, op: Op, at: int, author: string, abbreviate: Abbreviate): Logs {
    match op
    case DoRegister(phase, sample, kind, path, content, producedBy, inputs, note) =>
      st.(artifacts := Noted(st.artifacts, Register(st.artifacts, phase, sample, kind, path, content, producedBy, inputs, note, at, author)))
    case DoRun(phase, sample, kind, path, content, job, upstream, note) =>
      var inputs := InputsFor(st, upstream, sample);
      st.(artifacts := Noted(st.artifacts, Register(st.artifacts, phase, sample, kind, path, content, Some(job),
                                                    AsSet(inputs), note, at, author)))
    case DoSelect(choices, reason) => Logged(st, Select(st, choices, reason, at, author, abbreviate))
    case DoRestore(versionId) => Logged(st, Restore(st, versionId, at, author, abbreviate))
  }

  datatype Call = Call(op: Op, at: int, author: string)

  function Run(calls: seq<Call>, abbreviate: Abbreviate): Logs {
    if calls == [] then Logs([], [])
    else
      var last := calls[|calls|-1];
      Step(Run(calls[..|calls|-1], abbreviate), last.op, last.at, last.author, abbreviate)
  }

  lemma FitsSurvives(log: seq<Artifact>, more: seq<Artifact>, choices: Choices)
    requires UniqueIds(log + more) && AllFit(log, choices)
    ensures AllFit(log + more, choices)
  {
    assert UniqueIds(log) by {
      assert forall i :: 0 <= i < |log| ==> (log + more)[i] == log[i];
    }
    forall k | k in choices ensures Fits(log + more, k, choices[k]) {
      assert Fits(log, k, choices[k]);
      GetMeans(log, choices[k]);
      GetNeverChanges(log, more, choices[k]);
    }
  }

  lemma NotingKeepsInv(st: Logs, r: Artifact)
    requires Inv(st) && r.id !in Ids(st.artifacts) && r.sample != "" && r.id != ""
    ensures Inv(st.(artifacts := st.artifacts + [r]))
  {
    var log, next := st.artifacts, st.artifacts + [r];
    assert UniqueIds(next) by {
      assert forall i :: 0 <= i < |log| ==> next[i] == log[i] && log[i] in log;
    }
    forall i | 0 <= i < |st.selections| ensures SelectionTells(st.(artifacts := next), i) {
      assert SelectionTells(st, i);
      FitsSurvives(log, [r], st.selections[i].choices);
    }
  }

  lemma SelectKeepsInv(st: Logs, choices: Choices, reason: string, at: int, author: string, abbreviate: Abbreviate)
    requires Inv(st)
    ensures Inv(Logged(st, Select(st, choices, reason, at, author, abbreviate)))
  {
    var r := Select(st, choices, reason, at, author, abbreviate);
    if r.Ok? {
      var next := Logged(st, r);
      assert SelectionTells(next, |st.selections|) by {
        assert next.selections[|st.selections|].versionId == VersionId(|st.selections|, abbreviate(Sha256(choices)));
      }
      forall i | 0 <= i < |st.selections| ensures SelectionTells(next, i) {
        assert SelectionTells(st, i) && next.selections[i] == st.selections[i];
      }
      var n := |st.selections|;
      if n > 0 {
        assert SelectionTells(st, n - 1);
        assert st.selections[n-1].choices != choices;
      }
    }
  }

  // ---- what a selection answers ----

  /** What a key names: all before its first slash, in capitals, is the phase,
      and all after it the sample. */
  ghost predicate Names(key: string, phase: string, sample: string) {
    exists head: string :: phase == Upper(head) && '/' !in head && (key == head + "/" + sample || (key == head && sample == ""))
  }

  /** Some record of that id is of the phase and sample the key names. */
  ghost predicate FiledUnder(log: seq<Artifact>, key: string, id: string) {
    exists r :: r in log && r.id == id && Names(key, r.phase, r.sample)
  }

  ghost predicate Registered(log: seq<Artifact>, id: string) { exists r :: r in log && r.id == id }

  lemma NamesParts(key: string, phase: string, sample: string)
    ensures Names(key, phase, sample) <==> phase == Upper(Partition(key, '/').0) && sample == Partition(key, '/').1
  {
    var (head, tail) := Partition(key, '/');
    PartitionMeans(key, '/', head, tail);
    forall other: string ensures Partition(key, '/') == (other, sample) <==>
      '/' !in other && (key == other + "/" + sample || (key == other && sample == ""))
    {
      PartitionMeans(key, '/', other, sample);
    }
    hide Upper, Partition;
  }

  lemma FitsMeans(log: seq<Artifact>, key: string, id: string)
    requires UniqueIds(log)
    ensures Fits(log, key, id) <==> FiledUnder(log, key, id)
    ensures id in Ids(log) <==> Registered(log, id)
  {
    GetMeans(log, id);
    forall r | r in log ensures Names(key, r.phase, r.sample) <==> r.phase == Upper(Partition(key, '/').0) && r.sample == Partition(key, '/').1 {
      NamesParts(key, r.phase, r.sample);
    }
    hide Names, Upper, Partition, Get, UniqueIds;
  }

  /** A selection is refused for a choice that is not registered, then for one
      filed under another phase or sample, then for changing nothing; otherwise
      it is the next version, of just these choices. */
  lemma SelectAnswers(st: Logs, choices: Choices, reason: string, at: int, author: string, abbreviate: Abbreviate)
    requires Inv(st)
    ensures var r, n := Select(st, choices, reason, at, author, abbreviate), |st.selections|;
      var known := forall k :: k in choices ==> Registered(st.artifacts, choices[k]);
      var filed := forall k :: k in choices ==> FiledUnder(st.artifacts, k, choices[k]);
      && (r == Err(NOT_REGISTERED) <==> !known)
      && (r == Err(FILED_ELSEWHERE) <==> known && !filed)
      && (r == Err(NOTHING_CHANGED) <==> known && filed && n > 0 && st.selections[n-1].choices == choices)
      && (r.Ok? <==> known && filed && (n == 0 || st.selections[n-1].choices != choices))
      && (r.Ok? ==> r.value.choices == choices && r.value.index == n && r.value.reason == Strip(reason)
                    && r.value.at == at && r.value.author == author && r.value.restoredFrom == None)
  {
    forall k | k in choices ensures
      && (Fits(st.artifacts, k, choices[k]) <==> FiledUnder(st.artifacts, k, choices[k]))
      && (choices[k] in Ids(st.artifacts) <==> Registered(st.artifacts, choices[k]))
    {
      FitsMeans(st.artifacts, k, choices[k]);
    }
    var n := |st.selections|;
    assert n > 0 ==> SelectionTells(st, n - 1);
    hide Fits, FiledUnder, Registered, Strip, Ids, VersionId, SelectionTells;
  }

  /** Restoring looks the version up, refuses it when it is the current one, and
      otherwise selects its choices again, saying so. */
  lemma RestoreAnswers(st: Logs, versionId: string, at: int, author: string, abbreviate: Abbreviate)
    requires Inv(st)
    ensures var r := Restore(st, versionId, at, author, abbreviate);
      && (r == Err(NO_SUCH_VERSION) <==> forall s :: s in st.selections ==> s.versionId != versionId)
      && (r.Err? ==> r == Err(NO_SUCH_VERSION) || r == Err(ALREADY_CURRENT))
      && (r.Ok? ==> r.value.reason == Strip("restored " + versionId) && r.value.at == at && r.value.author == author)
      && (r == Err(ALREADY_CURRENT) <==> exists s :: s in st.selections && s.versionId == versionId && s.choices == CurrentChoices(st))
  {
    FindVersionMeans(st.selections, versionId);
    forall i | 0 <= i < |st.selections| && st.selections[i].versionId == versionId
      ensures Restore(st, versionId, at, author, abbreviate).Ok? <==> st.selections[i].choices != CurrentChoices(st)
      ensures Restore(st, versionId, at, author, abbreviate).Err? ==> Restore(st, versionId, at, author, abbreviate) == Err(ALREADY_CURRENT)
    {
      RestoreAlwaysWorks(st, i, at, author, abbreviate);
    }
    assert forall i :: 0 <= i < |st.selections| ==> SelectionTells(st, i);
    hide AllFit, Strip, VersionId;
  }

  // ---- one id, one content ----

  /** The register as it comes to be: every id is its own record's. */
  ghost predicate Named(log: seq<Artifact>) { forall r :: r in log ==> r.id == ArtifactId(r.phase, r.sample, r.digest) }

  lemma CaseFolds(s: string)
    ensures Lower(Upper(s)) == Lower(s)
  {}

  lemma NotingNames(log: seq<Artifact>, phase: string, sample: string, kind: string, path: string, content: Option<Content>,
                    producedBy: Option<string>, inputs: set<string>, note: string, at: int, author: string)
    requires Named(log)
    ensures Named(Noted(log, Register(log, phase, sample, kind, path, content, producedBy, inputs, note, at, author)))
  {
    CaseFolds(phase);
    if content.Some? {
      SameElements(Listing(log), log);
      hide Lower, Upper, Listing;
      FirstWithIdMeans(Listing(log), ArtifactId(phase, sample, content.value.digest));
    }
  }

  /** Every register a mission comes to is named so. */
  lemma {:induction false} RunsAreNamed(calls: seq<Call>, abbreviate: Abbreviate)
    ensures Named(Run(calls, abbreviate).artifacts)
  {
    if calls != [] {
      var front, last := calls[..|calls|-1], calls[|calls|-1];
      RunsAreNamed(front, abbreviate);
      var st := Run(front, abbreviate);
      match last.op
      case DoRegister(phase, sample, kind, path, content, producedBy, inputs, note) =>
        NotingNames(st.artifacts, phase, sample, kind, path, content, producedBy, inputs, note, last.at, last.author);
      case DoRun(phase, sample, kind, path, content, job, upstream, note) =>
        NotingNames(st.artifacts, phase, sample, kind, path, content, Some(job), AsSet(InputsFor(st, upstream, sample)), note, last.at, last.author);
      case DoSelect(_, _) =>
      case DoRestore(_) =>
    }
  }

  /** The same phase in any case, the same sample, and the same first twelve digits. */
  ghost predicate Alike(r: Artifact, phase: string, sample: string, digest: string) {
    Lower(r.phase) == Lower(phase) && r.sample == sample
    && |r.digest| >= 12 && |digest| >= 12 && r.digest[..12] == digest[..12]
  }

  /** A phase without colons and a digest without colons can be read off an id. */
  lemma IdTells(r: Artifact, phase: string, sample: string, digest: string)
    requires ':' !in r.phase && ':' !in phase && |r.digest| >= 12 && |digest| >= 12
    ensures r.id == ArtifactId(r.phase, r.sample, r.digest) ==>
      (r.id == ArtifactId(phase, sample, digest) <==> Alike(r, phase, sample, digest))
  {
    var a, b := Lower(r.phase), Lower(phase);
    NoColon(r.phase);
    NoColon(phase);
    assert ArtifactId(r.phase, r.sample, r.digest) == a + [':'] + (r.sample + ":" + r.digest[..12]);
    assert ArtifactId(phase, sample, digest) == b + [':'] + (sample + ":" + digest[..12]);
    FindAfterPrefix(a, ':', r.sample + ":" + r.digest[..12]);
    FindAfterPrefix(b, ':', sample + ":" + digest[..12]);
    hide Lower, Find;
    TailTells(r.sample, sample, r.digest[..12], digest[..12]);
  }

  lemma NoColon(s: string)
    requires ':' !in s
    ensures ':' !in Lower(s)
  {
    forall i | 0 <= i < |s| ensures Lower(s)[i] != ':' { assert s[i] in s; }
  }

  lemma TailTells(a: string, b: string, x: string, y: string)
    requires |x| == |y| == 12
    ensures a + ":" + x == b + ":" + y <==> a == b && x == y
  {
    var s, t := a + ":" + x, b + ":" + y;
    assert s[..|a|] == a && s[|a|+1..] == x;
    assert t[..|b|] == b && t[|b|+1..] == y;
  }

  /** Proper names: a pipeline's phases hold no colon and a digest is long. */
  ghost predicate Plain(log: seq<Artifact>) { forall r :: r in log ==> ':' !in r.phase && |r.digest| >= 12 }

  /** Content registered where nothing alike is gets a record of its own, with
      exactly what was given, at the end; otherwise nothing is added and the
      alike record is the answer. */
  lemma RegisterRecords(log: seq<Artifact>, phase: string, sample: string, kind: string, path: string, c: Content,
                        producedBy: Option<string>, inputs: set<string>, note: string, at: int, author: string)
    requires Named(log) && Plain(log) && ':' !in phase && |c.digest| >= 12
    requires phase != "" && sample != "" && kind != ""
    ensures var r := Register(log, phase, sample, kind, path, Some(c), producedBy, inputs, note, at, author);
      && r.Ok? && Alike(r.value, phase, sample, c.digest)
      && ((forall x :: x in log ==> !Alike(x, phase, sample, c.digest)) ==>
            Noted(log, r) == log + [r.value] && r.value.phase == Upper(phase) && r.value.sample == sample && r.value.kind == kind
            && r.value.path == path && r.value.digest == c.digest && r.value.fileCount == c.files && r.value.totalBytes == c.bytes
            && r.value.producedBy == producedBy && r.value.inputs == inputs && r.value.note == Strip(note)
            && r.value.at == at && r.value.author == author)
      && ((exists x :: x in log && Alike(x, phase, sample, c.digest)) ==> Noted(log, r) == log && r.value in log)
  {
    var identity := ArtifactId(phase, sample, c.digest);
    SameElements(Listing(log), log);
    FirstWithIdMeans(Listing(log), identity);
    forall x | x in log ensures x.id == identity <==> Alike(x, phase, sample, c.digest) { IdTells(x, phase, sample, c.digest); }
    CaseFolds(phase);
    hide Lower, Upper, Strip, Listing;
  }

  /** So what comes back was made of the content given exactly when no record
      alike holds other content; content is other when its digest is. */
  lemma RegisterAnswersWhen(log: seq<Artifact>, phase: string, sample: string, kind: string, path: string, c: Content,
                            producedBy: Option<string>, inputs: set<string>, note: string, at: int, author: string)
    requires Named(log) && Plain(log) && UniqueIds(log) && ':' !in phase && |c.digest| >= 12
    requires phase != "" && sample != "" && kind != ""
    ensures var r := Register(log, phase, sample, kind, path, Some(c), producedBy, inputs, note, at, author);
      r.Ok? && (r.value.digest == c.digest <==> forall x :: x in log && Alike(x, phase, sample, c.digest) ==> x.digest == c.digest)
  {
    var identity := ArtifactId(phase, sample, c.digest);
    RegisterRecords(log, phase, sample, kind, path, c, producedBy, inputs, note, at, author);
    forall x | x in log ensures x.id == identity <==> Alike(x, phase, sample, c.digest) { IdTells(x, phase, sample, c.digest); }
    GetMeans(log, identity);
    hide Alike, Named, Plain, ArtifactId, UniqueIds;
  }

  /** Two digests that share twelve digits are one artifact: the second is
      answered with the first, and its content is never recorded. */
  lemma TwelveDigitsCollide(first: Content, second: Content, author: string)
    requires |first.digest| == |second.digest| == 64 && first.digest != second.digest && first.digest[..12] == second.digest[..12]
    ensures var r := Register([], "P3", "x", "surface", "a", Some(first), None, {}, "", 0, author);
      var log := Noted([], r);
      var again := Register(log, "P3", "x", "surface", "b", Some(second), None, {}, "", 1, author);
      && r.Ok? && again == r && Noted(log, again) == log && r.value.digest == first.digest != second.digest
  {
    var r := Register([], "P3", "x", "surface", "a", Some(first), None, {}, "", 0, author);
    assert Listing([]) == [];
    assert Noted([], r) == [r.value];
    assert Listing([r.value]) == [r.value] by { assert Sort(NewerOrTied, [r.value][1..]) == []; }
  }

  /** Registering the same phase, sample and bytes again is the same artifact
      noticed again, whatever else the second call says. */
  lemma RegisterIdempotent(st: Logs, phase: string, sample: string, content: Content, kind: string, path: string,
                           producedBy: Option<string>, inputs: set<string>, note: string, at: int, author: string,
                           kind2: string, path2: string, producedBy2: Option<string>, inputs2: set<string>,
                           note2: string, at2: int, author2: string)
    requires Inv(st) && phase != "" && sample != "" && kind != "" && kind2 != ""
    ensures var r := Register(st.artifacts, phase, sample, kind, path, Some(content), producedBy, inputs, note, at, author);
      var log := Noted(st.artifacts, r);
      var again := Register(log, phase, sample, kind2, path2, Some(content), producedBy2, inputs2, note2, at2, author2);
      r.Ok? && again == r && Noted(log, again) == log && r.value in log
  {
    var r := Register(st.artifacts, phase, sample, kind, path, Some(content), producedBy, inputs, note, at, author);
    var identity := ArtifactId(phase, sample, content.digest);
    RegisterKeepsInv(st, phase, sample, kind, path, Some(content), producedBy, inputs, note, at, author);
    SameElements(Listing(st.artifacts), st.artifacts);
    FirstWithIdMeans(Listing(st.artifacts), identity);
    var log := Noted(st.artifacts, r);
    assert r.value in log && r.value.id == identity;
    GetMeans(log, identity);
  }

  /** Both logs only ever grow, and stay consistent with each other. */
  lemma StepKeepsInv(st: Logs, op: Op, at: int, author: string, abbreviate: Abbreviate)
    requires Inv(st)
    ensures Inv(Step(st, op, at, author, abbreviate))
    ensures st.artifacts <= Step(st, op, at, author, abbreviate).artifacts
    ensures st.selections <= Step(st, op, at, author, abbreviate).selections
  {
    match op
    case DoRegister(phase, sample, kind, path, content, producedBy, inputs, note) =>
      RegisterKeepsInv(st, phase, sample, kind, path, content, producedBy, inputs, note, at, author);
    case DoRun(phase, sample, kind, path, content, job, upstream, note) =>
      var inputs := InputsFor(st, upstream, sample);
      RegisterKeepsInv(st, phase, sample, kind, path, content, Some(job), AsSet(inputs), note, at, author);
    case DoSelect(choices, reason) =>
      SelectKeepsInv(st, choices, reason, at, author, abbreviate);
    case DoRestore(versionId) =>
      var found := FindVersion(st.selections, versionId);
      if found.Some? {
        SelectKeepsInv(st, found.value.choices, RestoredReason(versionId), at, author, abbreviate);
      }
  }

  lemma RegisterKeepsInv(st: Logs, phase: string, sample: string, kind: string, path: string, content: Option<Content>,
                         producedBy: Option<string>, inputs: set<string>, note: string, at: int, author: string)
    requires Inv(st)
    ensures var r := Register(st.artifacts, phase, sample, kind, path, content, producedBy, inputs, note, at, author);
      Inv(st.(artifacts := Noted(st.artifacts, r)))
  {
    var r := Register(st.artifacts, phase, sample, kind, path, content, producedBy, inputs, note, at, author);
    if r.Ok? && r.value.id !in Ids(st.artifacts) {
      var identity := ArtifactId(phase, sample, content.value.digest);
      SameElements(Listing(st.artifacts), st.artifacts);
      FirstWithIdMeans(Listing(st.artifacts), identity);
      assert |identity| > 0;
      NotingKeepsInv(st, r.value);
    }
  }

  lemma {:induction false} EveryRunKeepsInv(calls: seq<Call>, abbreviate: Abbreviate)
    ensures Inv(Run(calls, abbreviate))
  {
    if calls != [] {
      var last := calls[|calls|-1];
      EveryRunKeepsInv(calls[..|calls|-1], abbreviate);
      StepKeepsInv(Run(calls[..|calls|-1], abbreviate), last.op, last.at, last.author, abbreviate);
    }
  }

  /** What a shorter history wrote, a longer one still holds. */
  lemma {:induction false} NothingIsLost(calls: seq<Call>, n: nat, abbreviate: Abbreviate)
    requires n <= |calls|
    ensures Run(calls[..n], abbreviate).artifacts <= Run(calls, abbreviate).artifacts
    ensures Run(calls[..n], abbreviate).selections <= Run(calls, abbreviate).selections
    decreases |calls|
  {
    if n == |calls| {
      assert calls[..n] == calls;
    } else {
      var front, last := calls[..|calls|-1], calls[|calls|-1];
      NothingIsLost(front, n, abbreviate);
      assert front[..n] == calls[..n];
      EveryRunKeepsInv(front, abbreviate);
      StepKeepsInv(Run(front, abbreviate), last.op, last.at, last.author, abbreviate);
    }
  }

  lemma VersionsUnique(st: Logs, i: nat, j: nat)
    requires Inv(st) && i < |st.selections| && j < |st.selections|
    requires st.selections[i].versionId == st.selections[j].versionId
    ensures i == j
  {
    assert SelectionTells(st, i) && SelectionTells(st, j);
    var a :| st.selections[i].versionId == VersionId(i, a);
    var b :| st.selections[j].versionId == VersionId(j, b);
    VersionIdInjective(i, j, a, b);
  }

  /** Going back to any version succeeds exactly when its content is not already
      current, and makes its choices current in a new last entry. */
  lemma RestoreAlwaysWorks(st: Logs, i: nat, at: int, author: string, abbreviate: Abbreviate)
    requires Inv(st) && i < |st.selections|
    ensures var r := Restore(st, st.selections[i].versionId, at, author, abbreviate);
      && (r.Ok? <==> st.selections[i].choices != CurrentChoices(st))
      && (r.Err? ==> r == Err(ALREADY_CURRENT))
      && (r.Ok? ==> CurrentChoices(Logged(st, r)) == st.selections[i].choices
                    && Logged(st, r).selections[..|st.selections|] == st.selections
                    && r.value.restoredFrom == None)
  {
    hide FindVersion, Select, Inv, RestoredReason, Logged, CurrentChoices;
    var id := st.selections[i].versionId;
    FindsVersion(st, i);
    SelectsAgain(st, i, RestoredReason(id), at, author, abbreviate);
    ContentTells(st, i);
    LoggedGrows(st, Restore(st, id, at, author, abbreviate));
  }

  /** Hashes tell choices apart. */
  lemma ContentTells(st: Logs, i: nat)
    requires Inv(st) && i < |st.selections|
    ensures st.selections[i].content == st.selections[|st.selections|-1].content <==> st.selections[i].choices == CurrentChoices(st)
  {
    hide Inv;
    ContentAt(st, i);
    ContentAt(st, |st.selections| - 1);
  }

  lemma ContentAt(st: Logs, i: nat)
    requires Inv(st) && i < |st.selections|
    ensures st.selections[i].content == Sha256(st.selections[i].choices) && AllFit(st.artifacts, st.selections[i].choices)
  {
    hide VersionId, AllFit, Consistent;
    assert SelectionTells(st, i);
  }

  lemma LoggedGrows(st: Logs, r: Result<Selection, Refusal>)
    ensures r.Ok? ==> CurrentChoices(Logged(st, r)) == r.value.choices && Logged(st, r).selections[..|st.selections|] == st.selections
  {}

  lemma FindsVersion(st: Logs, i: nat)
    requires Inv(st) && i < |st.selections|
    ensures FindVersion(st.selections, st.selections[i].versionId) == Some(st.selections[i])
  {
    var id := st.selections[i].versionId;
    FindVersionMeans(st.selections, id);
    hide Inv, FindVersion;
    var found := FindVersion(st.selections, id).value;
    var k :| 0 <= k < |st.selections| && st.selections[k] == found;
    VersionsUnique(st, i, k);
  }

  lemma FitsRegistered(log: seq<Artifact>, key: string, id: string)
    requires UniqueIds(log) && Fits(log, key, id)
    ensures id in Ids(log)
  {
    GetMeans(log, id);
    hide Get, Upper, Partition, Ids, UniqueIds;
  }

  lemma ChoicesRegistered(st: Logs, i: nat)
    requires Inv(st) && i < |st.selections|
    ensures forall k :: k in st.selections[i].choices ==> st.selections[i].choices[k] in Ids(st.artifacts)
  {
    ContentAt(st, i);
    assert UniqueIds(st.artifacts);
    hide Inv, Fits, UniqueIds, Ids;
    var choices := st.selections[i].choices;
    forall k | k in choices ensures choices[k] in Ids(st.artifacts) {
      FitsRegistered(st.artifacts, k, choices[k]);
    }
  }

  /** The choices of any version can be selected again unless they are current. */
  lemma SelectsAgain(st: Logs, i: nat, reason: string, at: int, author: string, abbreviate: Abbreviate)
    requires Inv(st) && i < |st.selections|
    ensures var choices := st.selections[i].choices;
      var r := Select(st, choices, reason, at, author, abbreviate);
      && (r.Ok? <==> CurrentChoices(st) != choices) && (r.Ok? ==> r.value.choices == choices && r.value.restoredFrom == None)
  {
    hide Inv, VersionId, Strip, AllFit, Ids;
    ContentAt(st, i);
    ContentTells(st, i);
    ChoicesRegistered(st, i);
  }

  // ---- resolving ----

  lemma SelectionKeyParts(phase: string, sample: string)
    requires '/' !in phase
    ensures Partition(SelectionKey(phase, sample), '/') == (Upper(phase), sample)
  {
    assert forall i :: 0 <= i < |phase| ==> Upper(phase)[i] != '/';
    FindAfterPrefix(Upper(phase), '/', sample);
  }

  /** A selected key resolves to the chosen artifact, which is of the phase and
      sample the key splits into; that is the phase asked for exactly when the
      phase holds no slash, and then the sample is too. */
  lemma ResolveSelected(st: Logs, phase: string, sample: string)
    requires Inv(st) && SelectionKey(phase, sample) in CurrentChoices(st)
    ensures var r, key := Resolve(st, phase, sample), SelectionKey(phase, sample);
      && r.Selected? && r.artifact in st.artifacts && r.artifact.id == CurrentChoices(st)[key]
      && r.artifact.phase == Upper(Partition(key, '/').0) && r.artifact.sample == Partition(key, '/').1
      && (r.artifact.phase == Upper(phase) <==> '/' !in phase)
      && ('/' !in phase ==> r.artifact.sample == sample)
  {
    var key := SelectionKey(phase, sample);
    var id := CurrentChoices(st)[key];
    assert SelectionTells(st, |st.selections|-1);
    assert Fits(st.artifacts, key, id);
    KeySplits(phase, sample);
    GetMeans(st.artifacts, id);
    SameElements(Listing(st.artifacts), st.artifacts);
    FirstWithIdMeans(Listing(st.artifacts), id);
    hide Partition, Upper, Inv, Listing, SelectionKey;
  }

  lemma KeySplits(phase: string, sample: string)
    ensures Upper(Partition(SelectionKey(phase, sample), '/').0) == Upper(phase) <==> '/' !in phase
    ensures '/' !in phase ==> Partition(SelectionKey(phase, sample), '/').1 == sample
  {
    if i :| 0 <= i < |phase| && phase[i] == '/' {
      var key := SelectionKey(phase, sample);
      assert Upper(phase)[i] == '/' && key[i] == '/';
      assert |Upper(Partition(key, '/').0)| <= i < |Upper(phase)|;
    } else {
      SelectionKeyParts(phase, sample);
      UpperIdempotent(phase);
    }
  }

  /** With nothing selected and nothing registered, nothing. */
  lemma ResolveNothing(st: Logs, phase: string, sample: string)
    requires phase != "" && sample != "" && SelectionKey(phase, sample) !in CurrentChoices(st)
    ensures Resolve(st, phase, sample) == Nothing <==>
      forall a :: a in st.artifacts ==> a.phase != Upper(phase) || a.sample != sample
  {
    MatchingMembers(st.artifacts, phase, sample);
    if Matching(st.artifacts, phase, sample) == [] {
      NothingMatches(st.artifacts, phase, sample);
    } else {
      var r := Matching(st.artifacts, phase, sample)[0];
      assert r in Matching(st.artifacts, phase, sample);
    }
  }

  /** With nothing selected, the earliest registered among the latest stamps:
      the last one registered exactly when its stamp beats all earlier ones. */
  lemma ResolveFallsBack(st: Logs, phase: string, sample: string)
    requires Inv(st) && SelectionKey(phase, sample) !in CurrentChoices(st)
    requires Matching(st.artifacts, phase, sample) != []
    ensures var r, rows := Resolve(st, phase, sample), Matching(st.artifacts, phase, sample);
      && r.Newest? && r.artifact == Head(rows)
      && (r.artifact == rows[|rows|-1] <==> forall i :: 0 <= i < |rows| - 1 ==> rows[i].at < rows[|rows|-1].at)
  {
    MatchingDistinct(st.artifacts, phase, sample);
    hide Matching, Inv, Sort, SelectionKey, CurrentChoices;
    var rows := Matching(st.artifacts, phase, sample);
    ListingStartsWithHead(rows);
    NewestIsLast(rows);
  }

  /** An empty choice is no choice. */
  lemma EmptyChoiceFallsBack(st: Logs, phase: string, sample: string)
    requires SelectionKey(phase, sample) in CurrentChoices(st) && CurrentChoices(st)[SelectionKey(phase, sample)] == ""
    ensures Matching(st.artifacts, phase, sample) == [] <==> Resolve(st, phase, sample) == Nothing
    ensures Matching(st.artifacts, phase, sample) != [] ==> Resolve(st, phase, sample) == Newest(Head(Matching(st.artifacts, phase, sample)))
  {
    var rows := Matching(st.artifacts, phase, sample);
    hide Matching, Sort, SelectionKey, CurrentChoices;
    if rows != [] {
      ListingStartsWithHead(rows);
    } else {
      NothingMatches(st.artifacts, phase, sample);
    }
  }

  /** Resolving breaks off exactly at a choice that names no record. */
  lemma BrokenWhen(st: Logs, phase: string, sample: string)
    requires UniqueIds(st.artifacts)
    ensures var key, chosen := SelectionKey(phase, sample), CurrentChoices(st);
      Resolve(st, phase, sample) == Broken <==> key in chosen && chosen[key] != "" && !Registered(st.artifacts, chosen[key])
  {
    var key, chosen := SelectionKey(phase, sample), CurrentChoices(st);
    hide SelectionKey, CurrentChoices, Get, UniqueIds, Matching, Sort;
    if key in chosen {
      GetMeans(st.artifacts, chosen[key]);
    }
  }

  lemma NothingMatches(log: seq<Artifact>, phase: string, sample: string)
    requires Matching(log, phase, sample) == []
    ensures ArtifactsOf(log, phase, sample) == []
    ensures phase != "" && sample != "" ==> forall a :: a in log ==> a.phase != Upper(phase) || a.sample != sample
  {
    MatchingMembers(log, phase, sample);
    assert forall a :: a in log && Matches(a, phase, sample) ==> a in Matching(log, phase, sample);
  }

  lemma {:induction false} MatchingDistinct(log: seq<Artifact>, phase: string, sample: string)
    requires UniqueIds(log)
    ensures forall i, j :: 0 <= i < j < |Matching(log, phase, sample)| ==>
      Matching(log, phase, sample)[i] != Matching(log, phase, sample)[j]
  {
    if log != [] {
      var front, last := log[..|log|-1], log[|log|-1];
      assert forall i :: 0 <= i < |front| ==> front[i] == log[i];
      MatchingDistinct(front, phase, sample);
      MatchingMembers(front, phase, sample);
      assert forall k :: 0 <= k < |front| ==> front[k] == log[k] && front[k] != last;
    }
  }

  /** A choice is ever looked up exactly when its phase part is upper-case. */
  lemma KeyLookedUpWhen(key: string)
    ensures (exists phase, sample :: SelectionKey(phase, sample) == key) <==>
      '/' in key && Upper(Partition(key, '/').0) == Partition(key, '/').0
  {
    var i := Find(key, '/', 0);
    if phase, sample :| SelectionKey(phase, sample) == key {
      assert key[|phase|] == '/';
      assert i <= |phase|;
      var head := key[..i];
      assert forall k :: 0 <= k < i ==> head[k] == Upper(phase)[k];
      assert Upper(head) == head;
    }
    if '/' in key && Upper(key[..i]) == key[..i] {
      assert i < |key| && key == key[..i] + ['/'] + key[i+1..];
      assert SelectionKey(key[..i], key[i+1..]) == key;
    }
  }

  ghost function P4Layers(id: string, at: int): Artifact {
    Artifact(id, "P4", "x", "surface-layers", id, id, 1, 1, None, {}, "", at, "panel")
  }

  ghost function TwoRenders(): Logs { Logs([P4Layers("a", 1), P4Layers("b", 2)], []) }

  lemma TwoRendersFacts()
    ensures UniqueIds(TwoRenders().artifacts)
    ensures Get(TwoRenders().artifacts, "a") == Some(P4Layers("a", 1)) && "a" in Ids(TwoRenders().artifacts)
    ensures ArtifactsOf(TwoRenders().artifacts, "p4", "x") != []
    ensures ArtifactsOf(TwoRenders().artifacts, "p4", "x")[0] == P4Layers("b", 2)
  {
    var a, b := P4Layers("a", 1), P4Layers("b", 2);
    var log := [a, b];
    assert a in log && a.id in Ids(log);
    GetMeans(log, "a");
    hide Get, Matching, ArtifactsOf, Upper;
    TwoRendersMatch();
  }

  lemma TwoRendersMatch()
    ensures ArtifactsOf(TwoRenders().artifacts, "p4", "x") != []
    ensures ArtifactsOf(TwoRenders().artifacts, "p4", "x")[0] == P4Layers("b", 2)
  {
    var a, b := P4Layers("a", 1), P4Layers("b", 2);
    var log := [a, b];
    assert Upper("p4") == "P4";
    hide Upper;
    assert log[..1] == [a] && [a][..0] == [];
    assert Matching([a], "p4", "x") == [a];
    assert Matching(log, "p4", "x") == log;
    NewestIsLast(log);
  }

  lemma LowerCaseKeyParts()
    ensures Partition("p4/x", '/') == ("p4", "x") && Upper("p4") == "P4"
    ensures SelectionKey("p4", "x") != "p4/x"
  {
    assert "p4/x" == "p4" + ['/'] + "x";
    FindAfterPrefix("p4", '/', "x");
    assert Upper("p4") == "P4";
    assert SelectionKey("p4", "x")[0] == 'P';
  }

  /** So a lower-case key is accepted, written, and never read: resolving falls
      through to the newest artifact instead of the chosen one. */
  lemma LowerCaseKeyIgnored(abbreviate: Abbreviate)
    ensures var r := Select(TwoRenders(), map["p4/x" := "a"], "", 3, "panel", abbreviate);
      r.Ok? && Resolve(Logged(TwoRenders(), r), "p4", "x") == Newest(P4Layers("b", 2))
  {
    TwoRendersFacts();
    LowerCaseKeyParts();
    hide TwoRenders, P4Layers, Upper, Partition, Get, ArtifactsOf, SelectionKey;
    var st, choices := TwoRenders(), map["p4/x" := "a"];
    NothingSelectedYet();
    assert Fits(st.artifacts, "p4/x", "a");
    var r := Select(st, choices, "", 3, "panel", abbreviate);
    assert CurrentChoices(Logged(st, r)) == choices;
  }

  lemma NothingSelectedYet()
    ensures TwoRenders().selections == []
    ensures P4Layers("a", 1).phase == "P4" && P4Layers("a", 1).sample == "x"
  {}

  // ---- lineage in histories that only record runs ----

  lemma {:induction false} InputsRegistered(st: Logs, upstream: seq<string>, sample: string)
    ensures forall x :: x in InputsFor(st, upstream, sample) ==> x in Ids(st.artifacts)
  {
    if upstream != [] {
      var phase := upstream[|upstream|-1];
      InputsRegistered(st, upstream[..|upstream|-1], sample);
      var r := Resolve(st, phase, sample);
      if r.Selected? {
        var key := SelectionKey(phase, sample);
        SameElements(Listing(st.artifacts), st.artifacts);
        FirstWithIdMeans(Listing(st.artifacts), CurrentChoices(st)[key]);
      } else if r.Newest? {
        var rows := Matching(st.artifacts, phase, sample);
        SameElements(Listing(rows), rows);
        MatchingMembers(st.artifacts, phase, sample);
        assert r.artifact in Listing(rows);
      }
    }
  }

  /** The artifact one phase feeds a run: the selected one, or else the newest. */
  ghost predicate Read(st: Logs, phase: string, sample: string, id: string) {
    exists a :: (Resolve(st, phase, sample) == Selected(a) || Resolve(st, phase, sample) == Newest(a)) && a.id == id
  }

  /** A run reads one artifact of every upstream phase that has one, and no other. */
  lemma {:induction false} InputsMean(st: Logs, upstream: seq<string>, sample: string, id: string)
    ensures id in InputsFor(st, upstream, sample) <==> SomeRead(st, upstream, sample, id)
  {
    if upstream != [] {
      InputsMean(st, upstream[..|upstream|-1], sample, id);
      LastInput(st, upstream, sample, id);
      LastRead(st, upstream, sample, id);
      hide InputsFor, Read, SomeRead;
    }
  }

  ghost predicate SomeRead(st: Logs, upstream: seq<string>, sample: string, id: string) {
    exists i :: 0 <= i < |upstream| && Read(st, upstream[i], sample, id)
  }

  lemma LastRead(st: Logs, upstream: seq<string>, sample: string, id: string)
    requires upstream != []
    ensures SomeRead(st, upstream, sample, id) <==>
      SomeRead(st, upstream[..|upstream|-1], sample, id) || Read(st, upstream[|upstream|-1], sample, id)
  {
    hide Read;
    var front := upstream[..|upstream|-1];
    assert forall i :: 0 <= i < |front| ==> front[i] == upstream[i];
  }

  lemma LastInput(st: Logs, upstream: seq<string>, sample: string, id: string)
    requires upstream != []
    ensures id in InputsFor(st, upstream, sample) <==>
      id in InputsFor(st, upstream[..|upstream|-1], sample) || Read(st, upstream[|upstream|-1], sample, id)
  {
    hide Resolve;
  }

  /** A run's inputs are findable from its output exactly when the output is new
      or already had them: bytes seen before return the first record, and what
      this run read is dropped. */
  lemma RunKeepsInputsWhen(st: Logs, op: Op, at: int, author: string, abbreviate: Abbreviate)
    requires Inv(st) && op.DoRun? && op.phase != "" && op.sample != "" && op.kind != "" && op.content.Some?
    ensures var identity := ArtifactId(op.phase, op.sample, op.content.value.digest);
      var after := Step(st, op, at, author, abbreviate).artifacts;
      var inputs := InputsFor(st, op.upstream, op.sample);
      && (identity in Ids(st.artifacts) ==> after == st.artifacts)
      && ((forall x :: x in inputs ==> Feeds(after, x, identity)) <==>
            identity !in Ids(st.artifacts) || forall x :: x in inputs ==> Feeds(st.artifacts, x, identity))
  {
    var identity := ArtifactId(op.phase, op.sample, op.content.value.digest);
    var inputs := AsSet(InputsFor(st, op.upstream, op.sample));
    var r := Register(st.artifacts, op.phase, op.sample, op.kind, op.path, op.content, Some(op.job), inputs, op.note, at, author);
    SameElements(Listing(st.artifacts), st.artifacts);
    FirstWithIdMeans(Listing(st.artifacts), identity);
    if identity !in Ids(st.artifacts) {
      var after := Noted(st.artifacts, r);
      assert after[|st.artifacts|] == r.value && r.value in after && r.value.id == identity;
      forall x | x in inputs ensures Feeds(after, x, identity) {}
    }
  }

  /** When every record's inputs were resolved at registration, lineage is
      grounded: inputs strictly earlier, so no cycles and stable lookups. */
  lemma {:induction false} RunsAreGrounded(calls: seq<Call>, abbreviate: Abbreviate)
    requires forall i :: 0 <= i < |calls| ==> !calls[i].op.DoRegister?
    ensures Grounded(Run(calls, abbreviate).artifacts)
  {
    if calls != [] {
      var front, last := calls[..|calls|-1], calls[|calls|-1];
      RunsAreGrounded(front, abbreviate);
      var st := Run(front, abbreviate);
      if last.op.DoRun? {
        var op := last.op;
        var names := InputsFor(st, op.upstream, op.sample);
        var inputs := AsSet(names);
        InputsRegistered(st, op.upstream, op.sample);
        var r := Register(st.artifacts, op.phase, op.sample, op.kind, op.path, op.content, Some(op.job), inputs,
                          op.note, last.at, last.author);
        if r.Ok? && r.value.id !in Ids(st.artifacts) {
          SameElements(Listing(st.artifacts), st.artifacts);
          FirstWithIdMeans(Listing(st.artifacts), ArtifactId(op.phase, op.sample, op.content.value.digest));
          GroundedAppend(st.artifacts, r.value);
        }
      }
    }
  }
}

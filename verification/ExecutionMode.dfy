/** The certified and the exploratory lane, and why an exploratory document can
    never be read as evidence again (framework/contracts/execution_mode.py). */
module ExecutionMode {
  import opened Wrappers
  import opened Ordering
  import opened Text

  /** A parsed JSON value. */
  datatype Json =
    | Null
    | Bool(b: bool)
    | Num(n: real)
    | Str(s: string)
    | Arr(items: seq<Json>)
    | Obj(fields: map<string, Json>)

  datatype ModeError = NOT_A_STRING | UNKNOWN_MODE | NOT_CERTIFIED | NOT_A_DOCUMENT | CLASH

  datatype Mode = CERTIFIED | EXPLORATORY

  const DEEPEST: nat := 24
  const MODE_KEY := "execution_mode"
  const CERTIFIED_KEY := "certified"
  const BECAUSE_KEY := "uncertified_because"
  const NON_CLAIM_KEY := "non_claim"

  function Name(m: Mode): string { if m == CERTIFIED then "CERTIFIED" else "EXPLORATORY" }

  /** The mode a request asked for; only an absent or empty value means the strict one by default. */
  function Parse(value: Json): Result<Mode, ModeError> {
    if value == Null || value == Str("") then Ok(CERTIFIED)
    else if !value.Str? then Err(NOT_A_STRING)
    else
      var mode := Upper(Strip(value.s));
      if mode == Name(CERTIFIED) then Ok(CERTIFIED)
      else if mode == Name(EXPLORATORY) then Ok(EXPLORATORY)
      else Err(UNKNOWN_MODE)
  }

  /** The permissive lane opens only for its own name, whatever its case or
      padding; blanks alone are a typo, not the default. */
  lemma ExploratoryIsAskedFor(value: Json)
    ensures Parse(value) == Ok(EXPLORATORY) <==> value.Str? && Upper(Strip(value.s)) == "EXPLORATORY"
    ensures value.Str? && value.s != [] && (forall i :: 0 <= i < |value.s| ==> IsSpace(value.s[i])) ==>
      Parse(value) == Err(UNKNOWN_MODE)
  {
    assert "CERTIFIED"[0] != "EXPLORATORY"[0];
    if value.Str? {
      StripEmpty(value.s);
      assert |Upper(Strip(value.s))| == |Strip(value.s)|;
    }
    hide StripLeft, StripRight;
    assert Strip("") == "" by { StripEmpty(""); }
  }

  /** What a request opens, or why it does not. */
  lemma ParseMeans(value: Json)
    ensures Parse(value) == Ok(CERTIFIED) <==>
      value == Null || (value.Str? && (value.s == "" || Upper(Strip(value.s)) == "CERTIFIED"))
    ensures Parse(value) == Err(NOT_A_STRING) <==> value != Null && !value.Str?
    ensures Parse(value) == Err(UNKNOWN_MODE) <==>
      value.Str? && value.s != "" && Upper(Strip(value.s)) != "CERTIFIED" && Upper(Strip(value.s)) != "EXPLORATORY"
  {
    assert "CERTIFIED"[0] != "EXPLORATORY"[0];
    assert Strip("") == "" by { StripEmpty(""); }
    hide StripLeft, StripRight, Strip;
  }

  // ---- reading a document ----

  function Field(v: Json, key: string): Json { if v.Obj? && key in v.fields then v.fields[key] else Null }

  predicate Truthy(v: Json) {
    match v
    case Null => false
    case Bool(b) => b
    case Num(n) => n != 0.0
    case Str(s) => s != []
    case Arr(items) => items != []
    case Obj(fields) => fields != map[]
  }

  /** Everything counts as said but null, false, zero and what is empty. */
  lemma TruthyMeans(v: Json)
    ensures !Truthy(v) <==>
      || v == Null || v == Bool(false) || v == Num(0.0)
      || (v.Str? && |v.s| == 0) || (v.Arr? && |v.items| == 0) || (v.Obj? && |v.fields| == 0)
  {}

  /** A dictionary that says of itself that it certifies nothing. */
  predicate Marked(v: Json) {
    v.Obj? && (Field(v, MODE_KEY) == Str(Name(EXPLORATORY)) || Field(v, CERTIFIED_KEY) == Bool(false))
  }

  /** `_quotes_uncertified` */
  predicate QuotesUncertified(v: Json, depth: nat)
    decreases v
  {
    || depth > DEEPEST
    || match v
       case Obj(fields) => Marked(v) || exists k :: k in fields && QuotesUncertified(fields[k], depth + 1)
       case Arr(items) => exists i :: 0 <= i < |items| && QuotesUncertified(items[i], depth + 1)
       case _ => false
  }

  predicate IsCertified(v: Json) {
    && v.Obj?
    && Field(v, MODE_KEY) == Str(Name(CERTIFIED))
    && Field(v, CERTIFIED_KEY) == Bool(true)
    && !Truthy(Field(v, BECAUSE_KEY))
    && !QuotesUncertified(v, 0)
  }

  predicate DeclaresUncertified(v: Json) {
    && v.Obj?
    && (|| Field(v, MODE_KEY) == Str(Name(EXPLORATORY))
        || Field(v, CERTIFIED_KEY) == Bool(false)
        || Truthy(Field(v, BECAUSE_KEY))
        || QuotesUncertified(v, 0))
  }

  // ---- what the recursion finds, by paths ----

  datatype Step = Key(key: string) | Index(index: nat)

  /** The value a path of keys and indices leads to. */
  function At(v: Json, path: seq<Step>): Option<Json>
    decreases |path|
  {
    if path == [] then Some(v)
    else
      match path[0]
      case Key(k) => if v.Obj? && k in v.fields then At(v.fields[k], path[1..]) else None
      case Index(i) => if v.Arr? && i < |v.items| then At(v.items[i], path[1..]) else None
  }

  /** A path that leads too deep, or to a dictionary that disowns itself. */
  ghost predicate Damning(v: Json, path: seq<Step>, depth: nat) {
    At(v, path).Some? && (depth + |path| > DEEPEST || Marked(At(v, path).value))
  }

  lemma {:induction false} FindDamning(v: Json, depth: nat) returns (path: seq<Step>)
    requires QuotesUncertified(v, depth)
    ensures Damning(v, path, depth)
    decreases v
  {
    path := [];
    if depth > DEEPEST || Marked(v) {
      return;
    }
    match v
    case Obj(fields) =>
      var k :| k in fields && QuotesUncertified(fields[k], depth + 1);
      var rest := FindDamning(fields[k], depth + 1);
      path := [Key(k)] + rest;
      assert path[1..] == rest;
    case Arr(items) =>
      var i :| 0 <= i < |items| && QuotesUncertified(items[i], depth + 1);
      var rest := FindDamning(items[i], depth + 1);
      path := [Index(i)] + rest;
      assert path[1..] == rest;
    case _ =>
  }

  lemma {:induction false} DamningIsFound(v: Json, path: seq<Step>, depth: nat)
    requires Damning(v, path, depth)
    ensures QuotesUncertified(v, depth)
    decreases |path|
  {
    if path != [] {
      match path[0]
      case Key(k) => DamningIsFound(v.fields[k], path[1..], depth + 1);
      case Index(i) => DamningIsFound(v.items[i], path[1..], depth + 1);
    }
  }

  /** The bounded recursion is exactly a search over all paths: some path is
      longer than the bound allows, or ends at a dictionary that disowns itself. */
  lemma QuotesMeans(v: Json, depth: nat)
    ensures QuotesUncertified(v, depth) <==> exists path :: Damning(v, path, depth)
  {
    if QuotesUncertified(v, depth) {
      var path := FindDamning(v, depth);
    }
    if path :| Damning(v, path, depth) {
      DamningIsFound(v, path, depth);
    }
  }

  /** A certified document is stamped so, is at most 24 deep, and holds no
      dictionary at any depth that is exploratory or says it is not certified. */
  lemma CertifiedMeans(v: Json)
    ensures IsCertified(v) <==>
      && Field(v, MODE_KEY) == Str("CERTIFIED") && Field(v, CERTIFIED_KEY) == Bool(true)
      && !Truthy(Field(v, BECAUSE_KEY))
      && forall path :: At(v, path).Some? ==> |path| <= DEEPEST && !Marked(At(v, path).value)
  {
    QuotesMeans(v, 0);
    if IsCertified(v) {
      forall path | At(v, path).Some? ensures |path| <= DEEPEST && !Marked(At(v, path).value) {
        assert !Damning(v, path, 0);
      }
    }
  }

  /** A document declares itself uncertified through its reasons or through
      anything it quotes; its own stamp is only the empty path. */
  lemma DeclaresMeans(v: Json)
    ensures DeclaresUncertified(v) <==>
      v.Obj? && (Truthy(Field(v, BECAUSE_KEY)) || exists path :: Damning(v, path, 0))
  {
    QuotesMeans(v, 0);
  }

  lemma NeverBoth(v: Json)
    ensures !(IsCertified(v) && DeclaresUncertified(v))
  {
    assert Str(Name(EXPLORATORY)) != Str(Name(CERTIFIED)) by {
      assert "EXPLORATORY"[0] != "CERTIFIED"[0];
    }
  }

  // ---- no laundering ----

  lemma {:induction false} PathsCompose(v: Json, p: seq<Step>, q: seq<Step>)
    requires At(v, p).Some?
    ensures At(v, p + q) == At(At(v, p).value, q)
    decreases |p|
  {
    if p == [] {
      assert p + q == q;
    } else {
      assert (p + q)[1..] == p[1..] + q;
      match p[0]
      case Key(k) => PathsCompose(v.fields[k], p[1..], q);
      case Index(i) => PathsCompose(v.items[i], p[1..], q);
    }
  }

  ghost predicate Embeds(outer: Json, inner: Json) { exists path :: At(outer, path) == Some(inner) }

  /** Whatever quotes something uncertified is uncertified in every context. */
  lemma QuotingSpreads(outer: Json, inner: Json)
    requires Embeds(outer, inner) && QuotesUncertified(inner, 0)
    ensures QuotesUncertified(outer, 0) && !IsCertified(outer)
  {
    var p :| At(outer, p) == Some(inner);
    var q := FindDamning(inner, 0);
    PathsCompose(outer, p, q);
    DamningIsFound(outer, p + q, 0);
  }

  /** However many receipts stand between, none of them is certified. */
  lemma {:induction false} NoLaundering(chain: seq<Json>)
    requires chain != [] && QuotesUncertified(chain[0], 0)
    requires forall i, j :: 0 <= i < |chain| && j == i + 1 < |chain| ==> Embeds(chain[j], chain[i])
    ensures forall i :: 0 <= i < |chain| ==> QuotesUncertified(chain[i], 0) && !IsCertified(chain[i])
    decreases |chain|
  {
    hide QuotesUncertified, Embeds;
    var last := |chain| - 1;
    if last > 0 {
      NoLaundering(chain[..last]);
      assert chain[..last][last-1] == chain[last-1];
      QuotingSpreads(chain[last], chain[last-1]);
      assert forall i :: 0 <= i < last ==> chain[i] == chain[..last][i];
    } else {
      QuotedIsNotCertified(chain[0]);
    }
  }

  lemma QuotedIsNotCertified(v: Json)
    requires QuotesUncertified(v, 0)
    ensures !IsCertified(v)
  {}

  // ---- stamping ----

  predicate Clashes(body: Json) {
    body.Obj? && (CERTIFIED_KEY in body.fields || MODE_KEY in body.fields || BECAUSE_KEY in body.fields)
  }

  function Reasons(unmet: seq<string>): Json { Arr(seq(|unmet|, i requires 0 <= i < |unmet| => Str(unmet[i]))) }

  /** What `Trust.stamp` returns for a run in `mode` with these unmet preconditions. */
  function Stamped(mode: Mode, unmet: seq<string>, nonClaim: string, body: Json): Result<Json, ModeError> {
    if !body.Obj? then Err(NOT_A_DOCUMENT)
    else if Clashes(body) then Err(CLASH)
    else
      var certified := mode == CERTIFIED && unmet == [];
      var stamp := body.fields[MODE_KEY := Str(Name(mode))][CERTIFIED_KEY := Bool(certified)];
      Ok(Obj(if certified then stamp else stamp[BECAUSE_KEY := Reasons(unmet)][NON_CLAIM_KEY := Str(nonClaim)]))
  }

  /** Only a dictionary can be stamped, and only one that carries no stamp. */
  lemma StampedWhen(mode: Mode, unmet: seq<string>, nonClaim: string, body: Json)
    ensures Stamped(mode, unmet, nonClaim, body) == Err(NOT_A_DOCUMENT) <==> !body.Obj?
    ensures Stamped(mode, unmet, nonClaim, body) == Err(CLASH) <==>
      body.Obj? && ("certified" in body.fields || "execution_mode" in body.fields || "uncertified_because" in body.fields)
    ensures Stamped(mode, unmet, nonClaim, body).Ok? <==>
      body.Obj? && "certified" !in body.fields && "execution_mode" !in body.fields && "uncertified_because" !in body.fields
  {}

  /** What a stamp says: the lane by name, whether it certifies, and, if it does
      not, every unmet precondition in order and the non-claim. */
  lemma StampSays(mode: Mode, unmet: seq<string>, nonClaim: string, body: Json)
    requires Stamped(mode, unmet, nonClaim, body).Ok?
    ensures var d := Stamped(mode, unmet, nonClaim, body).value;
      && Field(d, "execution_mode") == Str(if mode == CERTIFIED then "CERTIFIED" else "EXPLORATORY")
      && Field(d, "certified") == Bool(mode == CERTIFIED && unmet == [])
      && (mode == EXPLORATORY || unmet != [] ==>
            && Field(d, "non_claim") == Str(nonClaim)
            && Field(d, "uncertified_because").Arr? && |Field(d, "uncertified_because").items| == |unmet|
            && forall i :: 0 <= i < |unmet| ==> Field(d, "uncertified_because").items[i] == Str(unmet[i]))
      && (mode == CERTIFIED && unmet == [] ==> d.Obj? && "uncertified_because" !in d.fields)
  {
    KeysDiffer();
  }

  lemma KeysDiffer()
    ensures MODE_KEY != CERTIFIED_KEY && MODE_KEY != BECAUSE_KEY && CERTIFIED_KEY != BECAUSE_KEY
    ensures NON_CLAIM_KEY != MODE_KEY && NON_CLAIM_KEY != CERTIFIED_KEY && NON_CLAIM_KEY != BECAUSE_KEY
  {
    assert MODE_KEY[0] != CERTIFIED_KEY[0] && MODE_KEY[0] != BECAUSE_KEY[0] && CERTIFIED_KEY[0] != BECAUSE_KEY[0];
    assert NON_CLAIM_KEY[0] == 'n';
  }

  /** The stamp of a run that is not certified disowns the document it is on, in
      every context and through every chain of receipts. */
  lemma UncertifiedStampSticks(mode: Mode, unmet: seq<string>, nonClaim: string, body: Json, chain: seq<Json>)
    requires mode == EXPLORATORY || unmet != []
    requires Stamped(mode, unmet, nonClaim, body).Ok?
    requires chain != [] && Embeds(chain[0], Stamped(mode, unmet, nonClaim, body).value)
    requires forall i, j :: 0 <= i < |chain| && j == i + 1 < |chain| ==> Embeds(chain[j], chain[i])
    ensures forall i :: 0 <= i < |chain| ==> !IsCertified(chain[i])
    ensures forall i :: 0 <= i < |chain| && chain[i].Obj? ==> DeclaresUncertified(chain[i])
  {
    KeysDiffer();
    var stamped := Stamped(mode, unmet, nonClaim, body).value;
    assert Field(stamped, CERTIFIED_KEY) == Bool(false);
    assert Marked(stamped);
    QuotingSpreads(chain[0], stamped);
    NoLaundering(chain);
  }

  /** A certified stamp is worth exactly what the body under it is worth. */
  lemma CertifiedStampIsEarned(nonClaim: string, body: Json)
    requires body.Obj? && !Clashes(body)
    ensures Stamped(CERTIFIED, [], nonClaim, body).Ok?
    ensures IsCertified(Stamped(CERTIFIED, [], nonClaim, body).value) <==> !QuotesUncertified(body, 0)
  {
    KeysDiffer();
    var stamped := Stamped(CERTIFIED, [], nonClaim, body).value;
    assert Field(stamped, MODE_KEY) == Str("CERTIFIED") && Field(stamped, CERTIFIED_KEY) == Bool(true);
    assert Field(stamped, BECAUSE_KEY) == Null;
    assert !Marked(stamped) && !Marked(body) by {
      assert "EXPLORATORY"[0] != "CERTIFIED"[0];
    }
    forall k | k in body.fields
      ensures k in stamped.fields && stamped.fields[k] == body.fields[k]
    {}
    forall k | k in stamped.fields && QuotesUncertified(stamped.fields[k], 1)
      ensures k in body.fields
    {}
    assert QuotesUncertified(stamped, 0) <==> exists k :: k in stamped.fields && QuotesUncertified(stamped.fields[k], 1);
    assert QuotesUncertified(body, 0) <==> exists k :: k in body.fields && QuotesUncertified(body.fields[k], 1);
  }

  // ---- what can be laundered after all ----

  /** Some certified document holds it somewhere inside. */
  ghost predicate HeldCertified(inner: Json) {
    exists outer, path :: IsCertified(outer) && path != [] && At(outer, path) == Some(inner)
  }

  /** Quoting reaches one level further down than the document itself. */
  lemma HeldIsQuoted(outer: Json, path: seq<Step>, inner: Json)
    requires path != [] && At(outer, path) == Some(inner) && QuotesUncertified(inner, 1)
    ensures !IsCertified(outer)
  {
    var q := FindDamning(inner, 1);
    PathsCompose(outer, path, q);
    DamningIsFound(outer, path + q, 0);
  }

  function Wrapped(inner: Json): Json { Obj(map["evidence" := inner]) }

  lemma WrappedIsClean(inner: Json)
    ensures !Clashes(Wrapped(inner))
    ensures QuotesUncertified(Wrapped(inner), 0) <==> QuotesUncertified(inner, 1)
    ensures Stamped(CERTIFIED, [], "", Wrapped(inner)).Ok? && At(Stamped(CERTIFIED, [], "", Wrapped(inner)).value, [Key("evidence")]) == Some(inner)
    ensures IsCertified(Stamped(CERTIFIED, [], "", Wrapped(inner)).value) <==> !QuotesUncertified(inner, 1)
  {
    assert MODE_KEY[1] == 'x' && CERTIFIED_KEY[0] == 'c' && BECAUSE_KEY[0] == 'u' && "evidence"[1] == 'v' && "evidence"[0] == 'e';
    assert "evidence" in Wrapped(inner).fields;
    KeysDiffer();
    CertifiedStampIsEarned("", Wrapped(inner));
    var stamped := Stamped(CERTIFIED, [], "", Wrapped(inner)).value;
    assert stamped.fields["evidence"] == inner;
    assert At(stamped, [Key("evidence")]) == At(inner, []);
  }

  /** What a certified document can hold is exactly what quotes nothing
      uncertified one level down; whether it is certified itself is not asked. */
  lemma HeldCertifiedWhen(inner: Json)
    ensures HeldCertified(inner) <==> !QuotesUncertified(inner, 1)
  {
    WrappedIsClean(inner);
    if HeldCertified(inner) {
      var outer, path :| IsCertified(outer) && path != [] && At(outer, path) == Some(inner);
      if QuotesUncertified(inner, 1) {
        HeldIsQuoted(outer, path, inner);
      }
    }
  }

  /** So what declares itself uncertified and still passes inside a certified
      document is exactly what does so through its reasons alone. */
  lemma LaunderedWhen(inner: Json)
    ensures DeclaresUncertified(inner) && HeldCertified(inner) <==>
      inner.Obj? && Truthy(Field(inner, BECAUSE_KEY)) && !QuotesUncertified(inner, 1)
  {
    HeldCertifiedWhen(inner);
    if QuotesUncertified(inner, 0) {
      QuotesDeeper(inner);
    }
  }

  lemma QuotesDeeper(v: Json)
    requires QuotesUncertified(v, 0)
    ensures QuotesUncertified(v, 1)
  {
    var path := FindDamning(v, 0);
    assert Damning(v, path, 1);
    DamningIsFound(v, path, 1);
  }

  /** A receipt stamped certified whose own reasons say otherwise is one of them. */
  lemma ReasonsAreLaundered()
    ensures var inner := Obj(map[MODE_KEY := Str("CERTIFIED"), CERTIFIED_KEY := Bool(true),
                                 BECAUSE_KEY := Arr([Str("no selected P0 artifact")])]);
      var outer := Stamped(CERTIFIED, [], "", Wrapped(inner));
      && DeclaresUncertified(inner) && !IsCertified(inner)
      && outer.Ok? && IsCertified(outer.value) && !DeclaresUncertified(outer.value)
  {
    KeysDiffer();
    var reasons := Arr([Str("no selected P0 artifact")]);
    var inner := Obj(map[MODE_KEY := Str("CERTIFIED"), CERTIFIED_KEY := Bool(true), BECAUSE_KEY := reasons]);
    assert Truthy(Field(inner, BECAUSE_KEY));
    assert "EXPLORATORY"[0] != "CERTIFIED"[0];
    assert !QuotesUncertified(reasons.items[0], 3);
    assert !QuotesUncertified(reasons, 2);
    assert forall k :: k in inner.fields ==> k == MODE_KEY || k == CERTIFIED_KEY || k == BECAUSE_KEY;
    assert forall k :: k in inner.fields ==> !QuotesUncertified(inner.fields[k], 2);
    assert !Marked(inner);
    WrappedIsClean(inner);
    NeverBoth(Stamped(CERTIFIED, [], "", Wrapped(inner)).value);
  }

  // ---- one run ----

  class Trust {
    const mode: Mode
    var unmet: seq<string>
    ghost var raised: seq<string>

    ghost predicate Valid()
      reads this
    {
      && (mode == CERTIFIED ==> unmet == [])
      && (mode == EXPLORATORY ==> unmet == FirstOccurrences(raised))
    }

    constructor (m: Mode)
      ensures Valid() && mode == m && raised == []
    {
      mode := m;
      unmet := [];
      raised := [];
    }

    /** The lane is the caller's declaration, not a score: no history of unmet
        preconditions moves a run from one lane to the other. */
    predicate Certified()
      requires Valid()
      reads this
      ensures Certified() <==> mode == CERTIFIED
    {
      mode == CERTIFIED && unmet == []
    }

    method Blocks(reason: string) returns (stop: bool)
      requires Valid()
      modifies this
      ensures Valid() && raised == old(raised) + [reason]
      ensures stop <==> mode == CERTIFIED
      ensures !stop ==> reason in unmet && old(unmet) <= unmet
      ensures stop ==> unmet == old(unmet)
    {
      raised := raised + [reason];
      assert raised[..|raised|-1] == old(raised);
      if mode == CERTIFIED {
        return true;
      }
      if reason !in unmet {
        unmet := unmet + [reason];
      }
      stop := false;
    }

    /** Reading a document as evidence: a certified run that is let through read
        a certified document, and an exploratory one that was not noted did too. */
    method BlocksUncertifiedInput(document: Json, reason: string) returns (stop: bool)
      requires Valid()
      modifies this
      ensures Valid()
      ensures stop <==> mode == CERTIFIED && !IsCertified(document)
      ensures raised == if IsCertified(document) then old(raised) else old(raised) + [reason]
      ensures !stop && !IsCertified(document) ==> reason in unmet
    {
      if IsCertified(document) {
        return false;
      }
      stop := Blocks(reason);
    }

    method Stamp(document: Json, nonClaim: string) returns (r: Result<Json, ModeError>)
      requires Valid()
      ensures r == Stamped(mode, unmet, nonClaim, document)
      ensures r.Ok? ==> (IsCertified(r.value) <==> mode == CERTIFIED && !QuotesUncertified(document, 0))
      ensures r.Ok? ==> forall k :: k in document.fields ==>
        (Field(r.value, k) == document.fields[k] <==>
          k != NON_CLAIM_KEY || mode == CERTIFIED || document.fields[k] == Str(nonClaim))
    {
      KeysDiffer();
      r := Stamped(mode, unmet, nonClaim, document);
      if r.Ok? {
        if mode == CERTIFIED {
          CertifiedStampIsEarned(nonClaim, document);
        } else {
          assert Field(r.value, CERTIFIED_KEY) == Bool(false);
        }
      }
    }
  }

  method OpenRun(value: Json) returns (r: Result<Trust, ModeError>)
    ensures r.Err? <==> Parse(value).Err?
    ensures r.Ok? ==> fresh(r.value) && r.value.Valid() && Ok(r.value.mode) == Parse(value)
  {
    var mode := Parse(value);
    if mode.Err? {
      return Err(mode.error);
    }
    var trust := new Trust(mode.value);
    r := Ok(trust);
  }

  /** `require_certified_input` */
  method RequireCertifiedInput(document: Json) returns (r: Result<(), ModeError>)
    ensures r.Ok? <==>
      && Field(document, MODE_KEY) == Str("CERTIFIED") && Field(document, CERTIFIED_KEY) == Bool(true)
      && !Truthy(Field(document, BECAUSE_KEY))
      && forall path :: At(document, path).Some? ==> |path| <= DEEPEST && !Marked(At(document, path).value)
  {
    CertifiedMeans(document);
    r := if IsCertified(document) then Ok(()) else Err(NOT_CERTIFIED);
  }
}

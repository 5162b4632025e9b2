/** The panel's accounts and session tokens, against the trace of everything
    anybody tried to do to them (framework/contracts/auth.py). */
module Sessions {
  import opened Wrappers
  import opened Text

  const SESSION_SECONDS: int := 30 * 86400
  const MINIMUM_PASSWORD: nat := 10

  /** A salted scrypt hash: it verifies exactly the password it was made from. */
  datatype Hash = Scrypt(password: string)

  datatype User = User(password: Hash, createdAt: int, lastLogin: Option<int>)
  datatype Session = Session(username: string, createdAt: int, expiresAt: int)
  datatype Store = Store(users: map<string, User>, sessions: map<Digest<string>, Session>)

  datatype AuthError = BAD_NAME | SHORT_PASSWORD | EXISTS | NO_SUCH_USER | LAST_ACCOUNT | NO_MATCH

  // ---- names ----

  predicate NameStart(c: char) { 'a' <= c <= 'z' || IsDigit(c) }

  predicate NameChar(c: char) { NameStart(c) || c == '.' || c == '_' || c == '-' }

  predicate GoodName(s: string) { 2 <= |s| <= 64 && NameStart(s[0]) && forall i :: 0 <= i < |s| ==> NameChar(s[i]) }

  function Normal(name: string): string { Lower(Strip(name)) }

  // ---- one operation ----

  /** What somebody tried. A login reads the clock for its own record, then to
      prune, then to issue. */
  datatype Event =
    | Create(name: string, password: string, at: int)
    | SetPassword(name: string, password: string, at: int)
    | Delete(name: string, at: int)
    | Login(name: string, password: string, token: string, at: int, prunedAt: int, issuedAt: int)
    | Logout(token: string, at: int)
  {
    function Finished(): int { if Login? then issuedAt else at }
  }

  /** Whether it is refused, and why. */
  function Refusal(s: Store, e: Event): Option<AuthError> {
    match e
    case Create(name, password, _) =>
      if !GoodName(Normal(name)) then Some(BAD_NAME)
      else if |password| < MINIMUM_PASSWORD then Some(SHORT_PASSWORD)
      else if Normal(name) in s.users then Some(EXISTS)
      else None
    case SetPassword(name, password, _) =>
      if |password| < MINIMUM_PASSWORD then Some(SHORT_PASSWORD)
      else if name !in s.users then Some(NO_SUCH_USER)
      else None
    case Delete(name, _) =>
      if name !in s.users then Some(NO_SUCH_USER)
      else if |s.users| == 1 then Some(LAST_ACCOUNT)
      else None
    case Login(name, password, _, _, _, _) =>
      if Normal(name) !in s.users then Some(NO_MATCH)
      else if s.users[Normal(name)].password != Scrypt(password) then Some(NO_MATCH)
      else None
    case Logout(_, _) => None
  }

  /** A name is two to sixty-four of a to z, 0 to 9, dot, underscore and dash,
      starting with one of the first two. */
  ghost predicate Acceptable(s: string) {
    && 2 <= |s| <= 64 && s[0] !in ['.', '_', '-']
    && forall i :: 0 <= i < |s| ==> 97 <= s[i] as int <= 122 || 48 <= s[i] as int <= 57 || s[i] in ['.', '_', '-']
  }

  lemma GoodNameMeans(s: string)
    ensures GoodName(s) <==> Acceptable(s)
  {
    assert GoodName(s) ==> NameChar(s[0]) && NameStart(s[0]);
    assert Acceptable(s) ==> NameStart(s[0]);
  }

  /** What is refused, attempt by attempt, and with which word first. */
  lemma RefusedWhen(s: Store, e: Event)
    ensures e.Create? ==>
      && (Refusal(s, e) == Some(BAD_NAME) <==> !Acceptable(Lower(Strip(e.name))))
      && (Refusal(s, e) == Some(SHORT_PASSWORD) <==> Acceptable(Lower(Strip(e.name))) && |e.password| < 10)
      && (Refusal(s, e) == Some(EXISTS) <==>
            Acceptable(Lower(Strip(e.name))) && |e.password| >= 10 && Lower(Strip(e.name)) in s.users)
      && (Refusal(s, e) == None <==>
            Acceptable(Lower(Strip(e.name))) && |e.password| >= 10 && Lower(Strip(e.name)) !in s.users)
    ensures e.SetPassword? ==>
      && (Refusal(s, e) == Some(SHORT_PASSWORD) <==> |e.password| < 10)
      && (Refusal(s, e) == Some(NO_SUCH_USER) <==> |e.password| >= 10 && e.name !in s.users)
      && (Refusal(s, e) == None <==> |e.password| >= 10 && e.name in s.users)
    ensures e.Delete? ==>
      && (Refusal(s, e) == Some(NO_SUCH_USER) <==> e.name !in s.users)
      && (Refusal(s, e) == Some(LAST_ACCOUNT) <==> e.name in s.users && forall u :: u in s.users ==> u == e.name)
      && (Refusal(s, e) == None <==> e.name in s.users && exists u :: u in s.users && u != e.name)
    ensures e.Login? ==>
      && (Refusal(s, e) == None <==>
            Lower(Strip(e.name)) in s.users && s.users[Lower(Strip(e.name))].password == Scrypt(e.password))
      && (Refusal(s, e) == None || Refusal(s, e) == Some(NO_MATCH))
    ensures e.Logout? ==> Refusal(s, e) == None
  {
    if e.Create? { GoodNameMeans(Normal(e.name)); }
    if e.Delete? && e.name in s.users {
      AloneCountsOne(s.users, e.name);
      if u :| u in s.users && u != e.name { TwoCountMore(s.users, e.name, u); }
    }
    hide GoodName, Acceptable, Lower, Strip;
  }

  lemma TwoCountMore(users: map<string, User>, a: string, b: string)
    requires a in users && b in users && a != b
    ensures |users| >= 2
  {
    assert {a, b} <= users.Keys && |{a, b}| == 2;
    CountSubset({a, b}, users.Keys);
    assert |users| == |users.Keys|;
  }

  lemma {:induction false} CountSubset(a: set<string>, b: set<string>)
    requires a <= b
    ensures |a| <= |b|
  {
    assert b == a + (b - a);
  }

  /** The password that logs in is the one last set, by creating the account or
      by changing it; nothing else touches it. */
  lemma PasswordIsLastSet(s: Store, e: Event, user: string)
    requires user in Apply(s, e).users
    ensures Apply(s, e).users[user].password ==
      if e.Create? && Refusal(s, e) == None && Normal(e.name) == user then Scrypt(e.password)
      else if e.SetPassword? && Refusal(s, e) == None && e.name == user then Scrypt(e.password)
      else if user in s.users then s.users[user].password
      else Scrypt("")
    ensures user in s.users || (e.Create? && Refusal(s, e) == None && Normal(e.name) == user)
  {
    hide GoodName, Normal;
  }

  /** A login drops every session whose time was up and no other. */
  lemma LoginPrunes(s: Store, e: Event, fingerprint: Digest<string>)
    requires e.Login? && Refusal(s, e) == None && fingerprint != Sha256(e.token)
    ensures fingerprint in Apply(s, e).sessions <==> fingerprint in s.sessions && s.sessions[fingerprint].expiresAt > e.prunedAt
    ensures fingerprint in Apply(s, e).sessions ==> Apply(s, e).sessions[fingerprint] == s.sessions[fingerprint]
  {
    hide Normal;
  }

  function Unexpired(sessions: map<Digest<string>, Session>, at: int): map<Digest<string>, Session> {
    map k | k in sessions && sessions[k].expiresAt > at :: sessions[k]
  }

  function NotOf(sessions: map<Digest<string>, Session>, name: string): map<Digest<string>, Session> {
    map k | k in sessions && sessions[k].username != name :: sessions[k]
  }

  /** The store afterwards; a refused attempt leaves no trace. */
  function Apply(s: Store, e: Event): Store {
    if Refusal(s, e).Some? then s
    else
      match e
      case Create(name, password, at) => s.(users := s.users[Normal(name) := User(Scrypt(password), at, None)])
      case SetPassword(name, password, _) => s.(users := s.users[name := s.users[name].(password := Scrypt(password))])
      case Delete(name, _) => Store(s.users - {name}, NotOf(s.sessions, name))
      case Login(name, _, token, at, prunedAt, issuedAt) =>
        var user := Normal(name);
        Store(s.users[user := s.users[user].(lastLogin := Some(at))],
              Unexpired(s.sessions, prunedAt)[Sha256(token) := Session(user, issuedAt, issuedAt + SESSION_SECONDS)])
      case Logout(token, _) => if token == "" then s else s.(sessions := s.sessions - {Sha256(token)})
  }

  function WhoAmI(s: Store, token: string, at: int): Option<string> {
    if token == "" || Sha256(token) !in s.sessions then None
    else if s.sessions[Sha256(token)].expiresAt <= at then None
    else Some(s.sessions[Sha256(token)].username)
  }

  // ---- runs ----

  const NOBODY := Store(map[], map[])

  function Run(trace: seq<Event>): Store {
    if trace == [] then NOBODY else Apply(Run(trace[..|trace|-1]), trace[|trace|-1])
  }

  /** Issued tokens are never empty, and the clock never runs back. */
  ghost predicate Timely(trace: seq<Event>) {
    && (forall e :: e in trace && e.Login? ==> e.token != "" && e.at <= e.prunedAt <= e.issuedAt)
    && forall i, j :: 0 <= i < j < |trace| ==> trace[i].Finished() <= trace[j].at
  }

  ghost predicate Accepted(trace: seq<Event>, i: nat)
    requires i < |trace|
  {
    Refusal(Run(trace[..i]), trace[i]) == None
  }

  ghost predicate Issues(trace: seq<Event>, i: nat, token: string)
    requires i < |trace|
  {
    trace[i].Login? && trace[i].token == token && Accepted(trace, i)
  }

  /** What ends the session `token` gave to `user`. */
  ghost predicate Ends(trace: seq<Event>, j: nat, token: string, user: string)
    requires j < |trace|
  {
    || (trace[j].Logout? && trace[j].token == token)
    || (trace[j].Delete? && trace[j].name == user && Accepted(trace, j))
    || Issues(trace, j, token)
  }

  /** A login issued `token` to `user`, and nothing has ended it since. */
  ghost predicate Holds(trace: seq<Event>, i: nat, token: string, user: string) {
    && i < |trace| && Issues(trace, i, token) && Normal(trace[i].name) == user
    && forall j :: i < j < |trace| ==> !Ends(trace, j, token, user)
  }

  lemma PrefixOfPrefix(trace: seq<Event>, i: nat)
    requires i < |trace|
    ensures trace[..|trace|-1][..i] == trace[..i]
    ensures i < |trace| - 1 ==> (Accepted(trace, i) <==> Accepted(trace[..|trace|-1], i))
  {}

  lemma TimelyPrefix(trace: seq<Event>)
    requires trace != [] && Timely(trace)
    ensures Timely(trace[..|trace|-1])
    ensures forall i :: 0 <= i < |trace| - 1 ==> trace[i].Finished() <= trace[|trace|-1].at
  {
    var front := trace[..|trace|-1];
    assert forall i :: 0 <= i < |front| ==> front[i] == trace[i];
    assert forall e :: e in front ==> e in trace;
  }

  /** Holding is decided event by event. */
  lemma HoldsStep(trace: seq<Event>, i: nat, token: string, user: string)
    requires trace != []
    ensures var front, last := trace[..|trace|-1], |trace| - 1;
      Holds(trace, i, token, user) <==>
        || (i == last && Issues(trace, last, token) && Normal(trace[last].name) == user)
        || (i < last && Holds(front, i, token, user) && !Ends(trace, last, token, user))
  {
    var front, last := trace[..|trace|-1], |trace| - 1;
    hide Accepted, Normal;
    forall k | 0 <= k < |trace| { PrefixOfPrefix(trace, k); }
    if i < last {
      assert Issues(trace, i, token) <==> Issues(front, i, token);
      forall j | i < j < last ensures Ends(trace, j, token, user) <==> Ends(front, j, token, user) {}
    }
  }

  /** Somebody holding a session that has not run out at `at`. */
  ghost predicate Live(trace: seq<Event>, token: string, user: string, at: int) {
    exists i: nat :: Holds(trace, i, token, user) && trace[i].issuedAt + SESSION_SECONDS > at
  }

  lemma LiveStep(trace: seq<Event>, token: string, user: string, at: int)
    requires trace != []
    ensures var front, last := trace[..|trace|-1], |trace| - 1;
      Live(trace, token, user, at) <==>
        || (Issues(trace, last, token) && Normal(trace[last].name) == user && trace[last].issuedAt + SESSION_SECONDS > at)
        || (Live(front, token, user, at) && !Ends(trace, last, token, user))
  {
    var front, last := trace[..|trace|-1], |trace| - 1;
    hide Ends, Normal, Issues;
    forall i: nat
      ensures Holds(trace, i, token, user) <==>
        || (i == last && Issues(trace, last, token) && Normal(trace[last].name) == user)
        || (i < last && Holds(front, i, token, user) && !Ends(trace, last, token, user))
    {
      HoldsStep(trace, i, token, user);
    }
    HoldsOnlyInside(front, token, user);
    HoldsOnlyInside(trace, token, user);
    hide Holds;
    if Live(trace, token, user, at) {
      var i: nat :| Holds(trace, i, token, user) && trace[i].issuedAt + SESSION_SECONDS > at;
      if i < last { assert front[i] == trace[i]; }
    }
    if Live(front, token, user, at) && !Ends(trace, last, token, user) {
      var i: nat :| Holds(front, i, token, user) && front[i].issuedAt + SESSION_SECONDS > at;
      assert Holds(trace, i, token, user) && front[i] == trace[i];
    }
    if Issues(trace, last, token) && Normal(trace[last].name) == user {
      assert Holds(trace, last, token, user);
    }
  }

  lemma HoldsOnlyInside(trace: seq<Event>, token: string, user: string)
    ensures forall i: nat :: Holds(trace, i, token, user) ==> i < |trace|
  {}

  /** The store answers exactly what the trace says: a token is somebody's at a
      given time when a login of theirs issued it, its thirty days are not over,
      and since then nobody logged it out, deleted the account or was issued the
      same token. Pruning at each login changes no answer. */
  lemma {:induction false} WhoAmIMeans(trace: seq<Event>, token: string, user: string, at: int)
    requires Timely(trace)
    requires trace != [] ==> trace[|trace|-1].Finished() <= at
    ensures WhoAmI(Run(trace), token, at) == Some(user) <==> Live(trace, token, user, at)
  {
    if trace == [] {
      HoldsOnlyInside(trace, token, user);
      return;
    }
    var front, last := trace[..|trace|-1], |trace| - 1;
    TimelyPrefix(trace);
    if front != [] {
      assert front[|front|-1] == trace[last-1] && trace[last-1].Finished() <= trace[last].at;
    }
    assert trace[last] in trace;
    WhoAmIMeans(front, token, user, at);
    LiveStep(trace, token, user, at);
    assert trace[..last] == front;
    StepAnswers(Run(front), trace[last], token, user, at);
    hide Normal, WhoAmI, Apply, Refusal, Live;
  }

  /** One event's effect on one answer. */
  lemma StepAnswers(s: Store, e: Event, token: string, user: string, at: int)
    requires e.Login? ==> e.token != "" && e.prunedAt <= e.issuedAt
    requires e.Finished() <= at
    ensures var ok := Refusal(s, e) == None;
      WhoAmI(Apply(s, e), token, at) == Some(user) <==>
        || (e.Login? && e.token == token && ok && Normal(e.name) == user && e.issuedAt + SESSION_SECONDS > at)
        || (WhoAmI(s, token, at) == Some(user)
            && !(e.Logout? && e.token == token)
            && !(e.Delete? && e.name == user && ok)
            && !(e.Login? && e.token == token && ok))
  {
    hide Normal, GoodName;
  }

  // ---- what every run keeps ----

  ghost predicate Sound(s: Store) {
    && (forall t :: t in s.sessions ==> s.sessions[t].username in s.users)
    && (forall u :: u in s.users ==> GoodName(u) && |s.users[u].password.password| >= MINIMUM_PASSWORD)
  }

  /** Every session belongs to an account that exists, every account name and
      password is acceptable, and a panel somebody can enter stays one. */
  lemma StepKeepsSound(s: Store, e: Event)
    requires Sound(s)
    ensures Sound(Apply(s, e))
    ensures s.users != map[] ==> Apply(s, e).users != map[]
  {
    hide GoodName, Normal;
    if Refusal(s, e) == None {
      match e
      case Delete(name, _) => OthersRemain(s.users, name);
      case Create(name, _, _) => assert Normal(name) in Apply(s, e).users;
      case SetPassword(name, _, _) => assert name in Apply(s, e).users;
      case Login(name, _, _, _, _, _) => assert Normal(name) in Apply(s, e).users;
      case Logout(_, _) =>
    }
  }

  lemma OthersRemain(users: map<string, User>, name: string)
    requires name in users && |users| != 1
    ensures users - {name} != map[]
  {
    AloneCountsOne(users, name);
    var u :| u in users && u != name;
    assert u in users - {name};
  }

  lemma AloneCountsOne(users: map<string, User>, name: string)
    requires name in users
    ensures (forall u :: u in users ==> u == name) ==> |users| == 1
  {
    if forall u :: u in users ==> u == name {
      assert users.Keys == {name};
      assert |users| == |users.Keys|;
    }
  }

  lemma {:induction false} RunsAreSound(trace: seq<Event>)
    ensures Sound(Run(trace))
    ensures forall i :: 0 <= i <= |trace| && Run(trace[..i]).users != map[] ==> Run(trace).users != map[]
  {
    if trace == [] {
      return;
    }
    var front := trace[..|trace|-1];
    RunsAreSound(front);
    StepKeepsSound(Run(front), trace[|trace|-1]);
    hide Sound, Apply;
    forall i | 0 <= i <= |trace| && Run(trace[..i]).users != map[] ensures Run(trace).users != map[] {
      if i < |trace| {
        assert front[..i] == trace[..i];
      } else {
        assert trace[..i] == trace;
      }
    }
  }

  /** A token is only ever an existing account's. */
  lemma WhoAmIExists(trace: seq<Event>, token: string, at: int)
    ensures WhoAmI(Run(trace), token, at).Some? ==> WhoAmI(Run(trace), token, at).value in Run(trace).users
  {
    RunsAreSound(trace);
  }

  /** Changing a password leaves the sessions it opened running. */
  lemma PasswordKeepsSessions(s: Store, name: string, password: string, now: int, token: string, at: int)
    ensures WhoAmI(Apply(s, SetPassword(name, password, now)), token, at) == WhoAmI(s, token, at)
  {}

  // ---- the panel itself ----

  class Panel {
    var users: map<string, User>
    var sessions: map<Digest<string>, Session>
    ghost var trace: seq<Event>

    ghost predicate Valid()
      reads this
    {
      Timely(trace) && Store(users, sessions) == Run(trace)
    }

    constructor ()
      ensures Valid() && trace == []
    {
      users := map[];
      sessions := map[];
      trace := [];
    }

    ghost predicate After(e: Event)
      reads this
    {
      Timely(trace + [e])
    }

    lemma Extend(e: Event)
      requires Valid() && After(e)
      ensures Run(trace + [e]) == Apply(Store(users, sessions), e)
    {
      assert (trace + [e])[..|trace|] == trace;
    }

    method CreateUser(name: string, password: string, at: int) returns (error: Option<AuthError>)
      requires Valid() && After(Create(name, password, at))
      modifies this
      ensures Valid() && trace == old(trace) + [Create(name, password, at)]
      ensures error == Refusal(Run(old(trace)), Create(name, password, at))
    {
      hide GoodName, Normal, Timely, Run;
      Extend(Create(name, password, at));
      trace := trace + [Create(name, password, at)];
      var username := Normal(name);
      if !GoodName(username) {
        return Some(BAD_NAME);
      }
      if |password| < MINIMUM_PASSWORD {
        return Some(SHORT_PASSWORD);
      }
      if username in users {
        return Some(EXISTS);
      }
      users := users[username := User(Scrypt(password), at, None)];
      error := None;
    }

    method ChangePassword(name: string, password: string, at: int) returns (error: Option<AuthError>)
      requires Valid() && After(SetPassword(name, password, at))
      modifies this
      ensures Valid() && trace == old(trace) + [SetPassword(name, password, at)]
      ensures error == Refusal(Run(old(trace)), SetPassword(name, password, at))
    {
      hide Timely, Run;
      Extend(SetPassword(name, password, at));
      trace := trace + [SetPassword(name, password, at)];
      if |password| < MINIMUM_PASSWORD {
        return Some(SHORT_PASSWORD);
      }
      if name !in users {
        return Some(NO_SUCH_USER);
      }
      users := users[name := users[name].(password := Scrypt(password))];
      error := None;
    }

    method DeleteUser(name: string, at: int) returns (error: Option<AuthError>)
      requires Valid() && After(Delete(name, at))
      modifies this
      ensures Valid() && trace == old(trace) + [Delete(name, at)]
      ensures error == Refusal(Run(old(trace)), Delete(name, at))
    {
      hide Timely, Run;
      Extend(Delete(name, at));
      trace := trace + [Delete(name, at)];
      if name !in users {
        return Some(NO_SUCH_USER);
      }
      if |users| == 1 {
        return Some(LAST_ACCOUNT);
      }
      users := users - {name};
      sessions := NotOf(sessions, name);
      error := None;
    }

    method LogIn(name: string, password: string, token: string, at: int, prunedAt: int, issuedAt: int) returns (error: Option<AuthError>)
      requires Valid() && After(Login(name, password, token, at, prunedAt, issuedAt))
      modifies this
      ensures Valid() && trace == old(trace) + [Login(name, password, token, at, prunedAt, issuedAt)]
      ensures error == Refusal(Run(old(trace)), Login(name, password, token, at, prunedAt, issuedAt))
      ensures error == None ==> forall now :: issuedAt <= now < issuedAt + SESSION_SECONDS ==> Answer(token, now) == Some(Normal(name))
    {
      var e := Login(name, password, token, at, prunedAt, issuedAt);
      assert token != "" by { assert e in trace + [e]; }
      hide Normal, Timely, Run;
      Extend(e);
      trace := trace + [e];
      var username := Normal(name);
      if username !in users {
        return Some(NO_MATCH);
      }
      if users[username].password != Scrypt(password) {
        return Some(NO_MATCH);
      }
      users := users[username := users[username].(lastLogin := Some(at))];
      sessions := Unexpired(sessions, prunedAt);
      sessions := sessions[Sha256(token) := Session(username, issuedAt, issuedAt + SESSION_SECONDS)];
      error := None;
    }

    method LogOut(token: string, at: int)
      requires Valid() && After(Logout(token, at))
      modifies this
      ensures Valid() && trace == old(trace) + [Logout(token, at)]
      ensures forall now :: Answer(token, now) == None
    {
      hide Timely, Run;
      Extend(Logout(token, at));
      trace := trace + [Logout(token, at)];
      if token == "" {
        return;
      }
      sessions := sessions - {Sha256(token)};
    }

    /** `whoami` */
    function Answer(token: string, at: int): Option<string>
      reads this
    {
      WhoAmI(Store(users, sessions), token, at)
    }
  }
}

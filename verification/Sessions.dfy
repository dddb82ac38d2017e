// Accounts, API tokens and the sessions they grant: who stays admin, and
// why asking about a session changes nothing.
module Sessions {
  import opened Wrappers

  const DEFAULT_SESSION_TIMEOUT: nat := 3600

  type Hash = nat

  datatype User = User(password: Hash, admin: bool, timeout: Option<nat>)
  datatype Token = Token(name: string, admin: bool)
  datatype Session = Session(login: string, expires: int)

  datatype State = State(
    users: map<string, User>, tokens: map<string, Token>, sessions: map<string, Session>, timeout: Option<nat>)

  datatype Grant = Grant(login: string, admin: bool)

  /** A change of a user's own timeout; `Default` is an explicit null. */
  datatype TimeoutChange = Keep | Default | Set(seconds: nat)

  datatype Request =
    | Authenticate(token: string)
    | SessionState(token: string)
    | Cleanup
    | Login(login: string, matched: bool, issued: string)   // matched: the password fits
    | CreateSession(login: string, issued: string)
    | Logout(token: string)
    | SetDefaultTimeout(seconds: Option<nat>)
    | AddUser(login: string, hash: Hash, admin: Option<bool>, change: TimeoutChange)
    | UpdateUser(login: string, rehash: Option<Hash>, admin: Option<bool>, change: TimeoutChange)
    | DeleteUser(login: string, disableAuth: bool)
    | AddToken(token: string, title: string, isAdmin: bool)
    | UpdateToken(token: string, renamed: Option<string>, name: Option<string>, admin: Option<bool>)
    | DeleteToken(token: string, disableAuth: bool)

  datatype Refusal = Unknown | Exists | LastAdmin | ConfirmDisableAuth

  datatype Answer = Granted(grant: Option<Grant>) | Opened(token: Option<string>) | Done | Refused(why: Refusal)

  // ---- what the requests read

  function TimeoutFor(s: State, user: User): nat {
    if user.timeout.Some? then user.timeout.value
    else if s.timeout.Some? then s.timeout.value else DEFAULT_SESSION_TIMEOUT
  }

  function Admins(users: map<string, User>): set<string> {
    set login | login in users && users[login].admin
  }

  function AdminTokens(tokens: map<string, Token>): set<string> {
    set token | token in tokens && tokens[token].admin
  }

  function Ended(sessions: map<string, Session>, login: string): map<string, Session> {
    map token | token in sessions && sessions[token].login != login :: sessions[token]
  }

  /** The sessions that have not lapsed. */
  function Live(s: State, now: int): map<string, Session> {
    map token | token in s.sessions && now <= s.sessions[token].expires :: s.sessions[token]
  }

  /** What a token is good for right now. */
  function GrantOf(s: State, token: string, now: int): Option<Grant> {
    if token in s.tokens then Some(Grant(s.tokens[token].name, s.tokens[token].admin))
    else if token !in Live(s, now) then None
    else
      var login := s.sessions[token].login;
      if login in s.users then Some(Grant(login, s.users[login].admin)) else None
  }

  function WithTimeout(user: User, change: TimeoutChange): User {
    match change
    case Keep => user
    case Default => user.(timeout := None)
    case Set(seconds) => user.(timeout := Some(seconds))
  }

  // ---- what the requests do

  /** A use of a session pushes its expiry out; a dead one is removed. */
  function Authenticated(s: State, token: string, now: int): State {
    if token in s.tokens || token !in s.sessions then s
    else if GrantOf(s, token, now).None? then s.(sessions := s.sessions - {token})
    else
      var session := s.sessions[token];
      s.(sessions := s.sessions[token := session.(expires := now + TimeoutFor(s, s.users[session.login]))])
  }

  function Created(s: State, login: string, issued: string, now: int): State {
    if login !in s.users then s
    else s.(sessions := s.sessions[issued := Session(login, now + TimeoutFor(s, s.users[login]))])
  }

  function UpdatedUser(s: State, login: string, hash: Option<Hash>, admin: Option<bool>, change: TimeoutChange)
      : (State, Answer)
  {
    if login !in s.users then (s, Refused(Unknown))
    else if admin == Some(false) && s.users[login].admin && |Admins(s.users)| <= 1 && AdminTokens(s.tokens) == {} then
      (s, Refused(LastAdmin))
    else
      var user := s.users[login];
      var user' := User(if hash.Some? then hash.value else user.password,
                        if admin.Some? then admin.value else user.admin, user.timeout);
      (s.(users := s.users[login := WithTimeout(user', change)],
          sessions := if hash.Some? then Ended(s.sessions, login) else s.sessions), Done)
  }

  function DeletedUser(s: State, login: string, disableAuth: bool): (State, Answer) {
    if login !in s.users then (s, Refused(Unknown))
    else if |s.users| == 1 && s.tokens == map[] && !disableAuth then (s, Refused(ConfirmDisableAuth))
    else if !(|s.users| == 1 && s.tokens == map[]) && s.users[login].admin && |Admins(s.users)| <= 1
         && AdminTokens(s.tokens) == {} then (s, Refused(LastAdmin))
    else (s.(users := s.users - {login}, sessions := Ended(s.sessions, login)), Done)
  }

  function UpdatedToken(s: State, token: string, renamed: Option<string>, name: Option<string>, admin: Option<bool>)
      : (State, Answer)
  {
    if token !in s.tokens then (s, Refused(Unknown))
    else if admin == Some(false) && s.tokens[token].admin && |AdminTokens(s.tokens)| <= 1 && Admins(s.users) == {} then
      (s, Refused(LastAdmin))
    else
      var key := if renamed.Some? && renamed.value != "" then renamed.value else token;
      if key != token && key in s.tokens then (s, Refused(Exists))
      else
        var entry := Token(if name.Some? then name.value else s.tokens[token].name,
                           if admin.Some? then admin.value else s.tokens[token].admin);
        (s.(tokens := (s.tokens - {token})[key := entry]), Done)
  }

  function DeletedToken(s: State, token: string, disableAuth: bool): (State, Answer) {
    if token !in s.tokens then (s, Refused(Unknown))
    else if |s.tokens| == 1 && s.users == map[] && !disableAuth then (s, Refused(ConfirmDisableAuth))
    else if !(|s.tokens| == 1 && s.users == map[]) && s.tokens[token].admin && |AdminTokens(s.tokens)| <= 1
         && Admins(s.users) == {} then (s, Refused(LastAdmin))
    else (s.(tokens := s.tokens - {token}), Done)
  }

  function Step(s: State, r: Request, now: int): (State, Answer) {
    match r
    case Authenticate(token) => (Authenticated(s, token, now), Granted(GrantOf(s, token, now)))
    case SessionState(token) => (s, Granted(GrantOf(s, token, now)))
    case Cleanup => (s.(sessions := Live(s, now)), Done)
    case Login(login, matched, issued) =>
      if login in s.users && matched then (Created(s, login, issued, now), Opened(Some(issued))) else (s, Opened(None))
    case CreateSession(login, issued) =>
      (Created(s, login, issued, now), Opened(if login in s.users then Some(issued) else None))
    case Logout(token) => (s.(sessions := s.sessions - {token}), Done)
    case SetDefaultTimeout(seconds) => (s.(timeout := seconds), Done)
    case AddUser(login, hash, admin, change) =>
      if login in s.users then (s, Refused(Exists))
      else
        var flag := s.users == map[] || admin == Some(true);
        (s.(users := s.users[login := WithTimeout(User(hash, flag, None), change)]), Done)
    case UpdateUser(login, hash, admin, change) => UpdatedUser(s, login, hash, admin, change)
    case DeleteUser(login, disableAuth) => DeletedUser(s, login, disableAuth)
    case AddToken(token, name, admin) =>
      if token in s.tokens then (s, Refused(Exists))
      else (s.(tokens := s.tokens[token := Token(name, admin)]), Done)
    case UpdateToken(token, renamed, name, admin) => UpdatedToken(s, token, renamed, name, admin)
    case DeleteToken(token, disableAuth) => DeletedToken(s, token, disableAuth)
  }

  // ---- runs

  datatype Timed = Timed(at: int, request: Request)

  function After(s: State, run: seq<Timed>): State
    decreases |run|
  {
    if run == [] then s else After(Step(s, run[0].request, run[0].at).0, run[1..])
  }

  predicate Poll(r: Request) {
    r.SessionState? || r.Cleanup?
  }

  /** The answers a caller sees, polls aside. */
  function Answers(s: State, run: seq<Timed>): seq<Answer>
    decreases |run|
  {
    if run == [] then []
    else
      var (s', answer) := Step(s, run[0].request, run[0].at);
      (if Poll(run[0].request) then [] else [answer]) + Answers(s', run[1..])
  }

  function WithoutPolls(run: seq<Timed>): seq<Timed> {
    if run == [] then []
    else (if Poll(run[0].request) then [] else [run[0]]) + WithoutPolls(run[1..])
  }

  predicate InOrder(run: seq<Timed>, since: int)
    decreases |run|
  {
    run != [] ==> since <= run[0].at && InOrder(run[1..], run[0].at)
  }

  // ---- polling is invisible

  /** Two states no caller can tell apart from `now` on. */
  ghost predicate Alike(a: State, b: State, now: int) {
    a.users == b.users && a.tokens == b.tokens && a.timeout == b.timeout && Live(a, now) == Live(b, now)
  }

  lemma AlikeLater(a: State, b: State, now: int, later: int)
    requires Alike(a, b, now) && now <= later
    ensures Alike(a, b, later)
  {
    assert Live(a, later) == Live(a.(sessions := Live(a, now)), later);
    assert Live(b, later) == Live(b.(sessions := Live(b, now)), later);
  }

  lemma LiveEnded(s: State, login: string, now: int)
    ensures Live(s.(sessions := Ended(s.sessions, login)), now) == Ended(Live(s, now), login)
  {
  }

  lemma LiveWithout(s: State, token: string, now: int)
    ensures Live(s.(sessions := s.sessions - {token}), now) == Live(s, now) - {token}
  {
  }

  lemma LiveWith(s: State, token: string, session: Session, now: int)
    requires now <= session.expires
    ensures Live(s.(sessions := s.sessions[token := session]), now) == Live(s, now)[token := session]
  {
  }

  lemma SameGrant(a: State, b: State, token: string, now: int)
    requires Alike(a, b, now)
    ensures GrantOf(a, token, now) == GrantOf(b, token, now)
  {
    if token in Live(a, now) {
      assert Live(a, now)[token] == Live(b, now)[token];
    }
  }

  /** What authenticating leaves live: everything, with the used one renewed. */
  lemma LiveAuthenticated(s: State, token: string, now: int)
    ensures token in s.tokens || GrantOf(s, token, now).None? ==>
              Live(Authenticated(s, token, now), now) ==
              if token in s.tokens then Live(s, now) else Live(s, now) - {token}
    ensures token !in s.tokens && GrantOf(s, token, now).Some? ==>
              && token in Live(s, now) && Live(s, now)[token].login in s.users
              && var session := Live(s, now)[token];
                 Live(Authenticated(s, token, now), now) ==
                 Live(s, now)[token := session.(expires := now + TimeoutFor(s, s.users[session.login]))]
  {
    if token !in s.tokens {
      if GrantOf(s, token, now).Some? {
        var session := s.sessions[token];
        LiveWith(s, token, session.(expires := now + TimeoutFor(s, s.users[session.login])), now);
      } else {
        LiveWithout(s, token, now);
      }
    }
  }

  lemma AlikeAuthenticated(a: State, b: State, token: string, now: int)
    requires Alike(a, b, now)
    ensures Alike(Authenticated(a, token, now), Authenticated(b, token, now), now)
  {
    SameGrant(a, b, token, now);
    LiveAuthenticated(a, token, now);
    LiveAuthenticated(b, token, now);
  }

  lemma AlikeSteps(a: State, b: State, r: Request, now: int)
    requires Alike(a, b, now)
    ensures Step(a, r, now).1 == Step(b, r, now).1
    ensures Alike(Step(a, r, now).0, Step(b, r, now).0, now)
  {
    if r.Authenticate? {
      SameGrant(a, b, r.token, now);
      AlikeAuthenticated(a, b, r.token, now);
    } else if r.Cleanup? || r.SessionState? || r.Logout? {
      AlikeSmallSteps(a, b, r, now);
    } else if r.Login? || r.CreateSession? {
      AlikeCreated(a, b, r.login, r.issued, now);
    } else if r.UpdateUser? {
      AlikeUpdated(a, b, r, now);
    } else if r.DeleteUser? {
      AlikeDeleted(a, b, r, now);
    } else {
      AlikeAccounts(a, b, r, now);
    }
  }

  lemma AlikeSmallSteps(a: State, b: State, r: Request, now: int)
    requires Alike(a, b, now) && (r.Cleanup? || r.SessionState? || r.Logout?)
    ensures Step(a, r, now).1 == Step(b, r, now).1
    ensures Alike(Step(a, r, now).0, Step(b, r, now).0, now)
  {
    if r.Logout? {
      LiveWithout(a, r.token, now);
      LiveWithout(b, r.token, now);
    } else {
      PollAlike(a, r, now);
      PollAlike(b, r, now);
      if r.SessionState? {
        SameGrant(a, b, r.token, now);
      }
    }
  }

  lemma AlikeUpdated(a: State, b: State, r: Request, now: int)
    requires Alike(a, b, now) && r.UpdateUser?
    ensures Step(a, r, now).1 == Step(b, r, now).1
    ensures Alike(Step(a, r, now).0, Step(b, r, now).0, now)
  {
    var a', b' := Step(a, r, now).0, Step(b, r, now).0;
    LiveEnded(a, r.login, now);
    LiveEnded(b, r.login, now);
    LiveOfSessions(a', now);
    LiveOfSessions(b', now);
  }

  lemma AlikeDeleted(a: State, b: State, r: Request, now: int)
    requires Alike(a, b, now) && r.DeleteUser?
    ensures Step(a, r, now).1 == Step(b, r, now).1
    ensures Alike(Step(a, r, now).0, Step(b, r, now).0, now)
  {
    var a', b' := Step(a, r, now).0, Step(b, r, now).0;
    LiveEnded(a, r.login, now);
    LiveEnded(b, r.login, now);
    LiveOfSessions(a', now);
    LiveOfSessions(b', now);
  }

  /** Which sessions are live depends on nothing but the sessions. */
  lemma LiveOfSessions(s: State, now: int)
    ensures forall t: State | t.sessions == s.sessions :: Live(t, now) == Live(s, now)
  {
  }

  /** The rest neither reads nor touches the sessions. */
  lemma AlikeAccounts(a: State, b: State, r: Request, now: int)
    requires Alike(a, b, now)
    requires r.SetDefaultTimeout? || r.AddUser? || r.AddToken? || r.UpdateToken? || r.DeleteToken?
    ensures Step(a, r, now).1 == Step(b, r, now).1
    ensures Alike(Step(a, r, now).0, Step(b, r, now).0, now)
  {
    assert b == a.(sessions := b.sessions);
    SessionsUntouched(a, b.sessions, r, now);
    SameLive(a, b, Step(a, r, now).0, Step(b, r, now).0, now);
  }

  lemma SessionsUntouched(s: State, other: map<string, Session>, r: Request, now: int)
    requires r.SetDefaultTimeout? || r.AddUser? || r.AddToken? || r.UpdateToken? || r.DeleteToken?
    ensures Step(s, r, now).0.sessions == s.sessions
    ensures Step(s.(sessions := other), r, now) ==
            (Step(s, r, now).0.(sessions := other), Step(s, r, now).1)
  {
    if r.UpdateToken? {
      UpdateTokenUntouched(s, other, r.token, r.renamed, r.name, r.admin);
    } else if r.DeleteToken? {
      DeleteTokenUntouched(s, other, r.token, r.disableAuth);
    }
  }

  lemma UpdateTokenUntouched(s: State, other: map<string, Session>, token: string, renamed: Option<string>,
                             name: Option<string>, admin: Option<bool>)
    ensures UpdatedToken(s, token, renamed, name, admin).0.sessions == s.sessions
    ensures UpdatedToken(s.(sessions := other), token, renamed, name, admin) ==
            (UpdatedToken(s, token, renamed, name, admin).0.(sessions := other),
             UpdatedToken(s, token, renamed, name, admin).1)
  {
  }

  lemma DeleteTokenUntouched(s: State, other: map<string, Session>, token: string, disableAuth: bool)
    ensures DeletedToken(s, token, disableAuth).0.sessions == s.sessions
    ensures DeletedToken(s.(sessions := other), token, disableAuth) ==
            (DeletedToken(s, token, disableAuth).0.(sessions := other), DeletedToken(s, token, disableAuth).1)
  {
  }

  lemma SameLive(a: State, b: State, a': State, b': State, now: int)
    requires Live(a, now) == Live(b, now) && a'.sessions == a.sessions && b'.sessions == b.sessions
    ensures Live(a', now) == Live(b', now)
  {
    assert Live(a', now) == Live(a, now) && Live(b', now) == Live(b, now);
  }

  lemma AlikeCreated(a: State, b: State, login: string, issued: string, now: int)
    requires Alike(a, b, now)
    ensures Alike(Created(a, login, issued, now), Created(b, login, issued, now), now)
  {
    if login in a.users {
      var session := Session(login, now + TimeoutFor(a, a.users[login]));
      LiveWith(a, issued, session, now);
      LiveWith(b, issued, session, now);
    }
  }

  /** A poll leaves a state nobody can tell from the one before. */
  lemma PollAlike(s: State, r: Request, now: int)
    requires Poll(r)
    ensures Alike(Step(s, r, now).0, s, now)
  {
    assert Live(s.(sessions := Live(s, now)), now) == Live(s, now);
  }

  /** Taking every poll out of a run changes no answer. */
  lemma {:induction false} PollingInvisible(s: State, t: State, run: seq<Timed>, since: int)
    requires Alike(s, t, since) && InOrder(run, since)
    ensures Answers(s, run) == Answers(t, WithoutPolls(run))
    decreases |run|
  {
    if run != [] {
      var r, now := run[0].request, run[0].at;
      AlikeLater(s, t, since, now);
      if Poll(r) {
        PollAlike(s, r, now);
        PollingInvisible(Step(s, r, now).0, t, run[1..], now);
        assert [] + WithoutPolls(run[1..]) == WithoutPolls(run[1..]);
        assert [] + Answers(Step(s, r, now).0, run[1..]) == Answers(Step(s, r, now).0, run[1..]);
      } else {
        AlikeSteps(s, t, r, now);
        PollingInvisible(Step(s, r, now).0, Step(t, r, now).0, run[1..], now);
        var rest := WithoutPolls(run[1..]);
        assert WithoutPolls(run) == [run[0]] + rest;
        assert ([run[0]] + rest)[1..] == rest;
      }
    }
  }

  // ---- what is granted

  /**
   * A live session grants its owner's login and the rights the account has
   * now, an API token its own name and rights, and anything else nothing.
   */
  lemma GrantsExactly(s: State, token: string, now: int)
    ensures Step(s, Authenticate(token), now).1 == Step(s, SessionState(token), now).1
    ensures token in s.tokens ==>
              Step(s, SessionState(token), now).1 == Granted(Some(Grant(s.tokens[token].name, s.tokens[token].admin)))
    ensures token !in s.tokens && token in s.sessions && now <= s.sessions[token].expires
            && s.sessions[token].login in s.users ==>
              Step(s, SessionState(token), now).1 ==
              Granted(Some(Grant(s.sessions[token].login, s.users[s.sessions[token].login].admin)))
    ensures token !in s.tokens
            && (token !in s.sessions || now > s.sessions[token].expires || s.sessions[token].login !in s.users) ==>
              Step(s, SessionState(token), now).1 == Granted(None)
  {
  }

  /** A request that may turn this account's rights, or end it. */
  predicate Touches(r: Request, login: string) {
    (r.DeleteUser? && r.login == login) || (r.UpdateUser? && r.login == login && r.admin.Some?)
  }

  lemma {:induction false} RightsKept(s: State, run: seq<Timed>, login: string)
    requires login in s.users && forall timed | timed in run :: !Touches(timed.request, login)
    ensures login in After(s, run).users && After(s, run).users[login].admin == s.users[login].admin
    decreases |run|
  {
    if run != [] {
      assert run[0] in run;
      RightsKept(Step(s, run[0].request, run[0].at).0, run[1..], login);
    }
  }

  /**
   * Once rights were given or taken, every live session of that user is
   * answered with them, whenever it was opened, until they are turned again.
   */
  lemma RightsAtOnce(s: State, login: string, rehash: Option<Hash>, flag: bool, change: TimeoutChange, at: int,
                     run: seq<Timed>, token: string, now: int)
    requires Step(s, UpdateUser(login, rehash, Some(flag), change), at).1 == Done
    requires forall timed | timed in run :: !Touches(timed.request, login)
    ensures var s' := After(Step(s, UpdateUser(login, rehash, Some(flag), change), at).0, run);
            token !in s'.tokens && token in s'.sessions && s'.sessions[token].login == login
            && now <= s'.sessions[token].expires ==>
              && Step(s', Authenticate(token), now).1 == Granted(Some(Grant(login, flag)))
              && Step(s', SessionState(token), now).1 == Granted(Some(Grant(login, flag)))
  {
    RightsKept(Step(s, UpdateUser(login, rehash, Some(flag), change), at).0, run, login);
  }

  // ---- what opens a session, and for how long

  /** A wrong password, or nobody of that name, opens nothing and changes nothing. */
  lemma NothingOpened(s: State, login: string, matched: bool, issued: string, now: int)
    ensures !matched || login !in s.users ==> Step(s, Login(login, matched, issued), now) == (s, Opened(None))
    ensures login !in s.users ==> Step(s, CreateSession(login, issued), now) == (s, Opened(None))
  {
  }

  /**
   * A new session lasts as long as its user's own timeout says, or else the
   * configured one, or else an hour; and a use of it starts that anew.
   */
  lemma LastsFor(s: State, login: string, issued: string, now: int)
    requires login in s.users
    ensures var s' := Step(s, Login(login, true, issued), now).0;
            && Step(s, Login(login, true, issued), now).1 == Opened(Some(issued))
            && Step(s, CreateSession(login, issued), now) == (s', Opened(Some(issued)))
            && s' == s.(sessions := s'.sessions) && s'.sessions.Keys == s.sessions.Keys + {issued}
            && (forall token | token in s.sessions && token != issued :: s'.sessions[token] == s.sessions[token])
            && s'.sessions[issued].login == login
            && s'.sessions[issued].expires == now + match s.users[login].timeout
                                                    case Some(own) => own
                                                    case None => match s.timeout
                                                                 case Some(configured) => configured
                                                                 case None => 3600
  {
  }

  lemma Renewed(s: State, token: string, now: int)
    requires token !in s.tokens && token in s.sessions && s.sessions[token].login in s.users
    requires now <= s.sessions[token].expires
    ensures var s' := Step(s, Authenticate(token), now).0;
            && s'.sessions.Keys == s.sessions.Keys && s'.sessions[token].login == s.sessions[token].login
            && (forall other | other in s.sessions && other != token :: s'.sessions[other] == s.sessions[other])
            && s'.sessions[token].expires == now + match s.users[s.sessions[token].login].timeout
                                                   case Some(own) => own
                                                   case None => match s.timeout
                                                                case Some(configured) => configured
                                                                case None => 3600
  {
  }

  /** What the other requests leave behind. */
  lemma SmallRequests(s: State, token: string, seconds: Option<nat>, title: string, isAdmin: bool, now: int)
    ensures Step(s, Logout(token), now) == (s.(sessions := s.sessions - {token}), Done)
    ensures Step(s, SetDefaultTimeout(seconds), now) == (s.(timeout := seconds), Done)
    ensures Step(s, SessionState(token), now).0 == s
    ensures Step(s, AddToken(token, title, isAdmin), now) ==
            if token in s.tokens then (s, Refused(Exists))
            else (s.(tokens := s.tokens[token := Token(title, isAdmin)]), Done)
  {
  }

  /** A cleanup takes exactly the sessions whose time is past, and nothing else. */
  lemma CleanedUp(s: State, now: int)
    ensures var s' := Step(s, Cleanup, now).0;
            && s' == s.(sessions := s'.sessions)
            && forall token :: token in s'.sessions <==> token in s.sessions && now <= s.sessions[token].expires
    ensures var s' := Step(s, Cleanup, now).0;
            forall token | token in s'.sessions :: s'.sessions[token] == s.sessions[token]
  {
  }

  // ---- what a change of an account changes

  /** Of a user just what was asked for is changed, and nobody else. */
  lemma UserChanged(s: State, r: Request, now: int)
    requires r.UpdateUser? && Step(s, r, now).1 == Done
    ensures var s' := Step(s, r, now).0;
            && r.login in s.users && s'.users.Keys == s.users.Keys && s'.tokens == s.tokens && s'.timeout == s.timeout
            && (forall other | other in s.users && other != r.login :: s'.users[other] == s.users[other])
            && var was, next := s.users[r.login], s'.users[r.login];
               && next.password == (if r.rehash.Some? then r.rehash.value else was.password)
               && next.admin == (if r.admin.Some? then r.admin.value else was.admin)
               && next.timeout == match r.change
                                case Keep => was.timeout
                                case Default => None
                                case Set(seconds) => Some(seconds)
  {
  }

  /** A new user has the password given, and is an admin if asked for or the first of all users. */
  lemma UserAdded(s: State, r: Request, now: int)
    requires r.AddUser?
    ensures var (s', answer) := Step(s, r, now);
            && (answer == Done <==> r.login !in s.users)
            && (answer == Done ==>
                  && s' == s.(users := s'.users) && s'.users.Keys == s.users.Keys + {r.login}
                  && (forall other | other in s.users :: s'.users[other] == s.users[other])
                  && s'.users[r.login].password == r.hash
                  && (s'.users[r.login].admin <==> r.admin == Some(true) || s.users == map[])
                  && s'.users[r.login].timeout == if r.change.Set? then Some(r.change.seconds) else None)
  {
  }

  /** A token keeps what it is not asked to change, under its new name if it gets one. */
  lemma TokenChanged(s: State, r: Request, now: int)
    requires r.UpdateToken? && Step(s, r, now).1 == Done
    ensures var s' := Step(s, r, now).0;
            var key := match r.renamed case Some(name) => (if name == "" then r.token else name) case None => r.token;
            && r.token in s.tokens && s' == s.(tokens := s'.tokens)
            && s'.tokens.Keys == s.tokens.Keys - {r.token} + {key} && (key != r.token ==> key !in s.tokens)
            && (forall other | other in s.tokens && other != r.token :: s'.tokens[other] == s.tokens[other])
            && s'.tokens[key].name == (if r.name.Some? then r.name.value else s.tokens[r.token].name)
            && s'.tokens[key].admin == if r.admin.Some? then r.admin.value else s.tokens[r.token].admin
  {
  }

  // ---- who is left to administer

  predicate HasAdmin(s: State) {
    Admins(s.users) != {} || AdminTokens(s.tokens) != {}
  }

  predicate Empty(s: State) {
    s.users == map[] && s.tokens == map[]
  }

  /** A delete whose caller said yes to turning authentication off. */
  predicate TurnsOff(r: Request) {
    (r.DeleteUser? || r.DeleteToken?) && r.disableAuth
  }

  lemma AnotherIn(all: set<string>, one: string)
    requires |all| > 1
    ensures exists other :: other in all && other != one
  {
    assert all <= (all - {one}) + {one};
    assert |all - {one}| >= |all| - 1;
    var other :| other in all - {one};
  }

  lemma UserStepKeepsAdmin(s: State, r: Request, now: int)
    requires HasAdmin(s) && (r.UpdateUser? || r.DeleteUser? || r.AddUser?)
    ensures var (s', answer) := Step(s, r, now);
            HasAdmin(s') || (Empty(s') && TurnsOff(r) && answer == Done)
  {
    var s' := Step(s, r, now).0;
    if r.login in Admins(s.users) && |Admins(s.users)| > 1 {
      AnotherIn(Admins(s.users), r.login);
      var other :| other in Admins(s.users) && other != r.login;
      assert other in s'.users ==> other in Admins(s'.users);
    } else if Admins(s.users) != {} && r.login !in Admins(s.users) {
      var other :| other in Admins(s.users);
      assert other in s'.users ==> other in Admins(s'.users);
    } else if r.login in Admins(s.users) && r.UpdateUser? && r.login in s'.users && s'.users[r.login].admin {
      assert r.login in Admins(s'.users);
    }
    if AdminTokens(s.tokens) != {} {
      assert AdminTokens(s'.tokens) != {};
    }
    if r.login in s.users && |s.users| == 1 {
      assert s.users.Keys == {r.login} by { OnlyOne(s.users.Keys, r.login); }
    }
    AdminsAtMostAll(s);
  }

  lemma OnlyOne(all: set<string>, one: string)
    requires one in all && |all| == 1
    ensures all == {one}
  {
    assert |all - {one}| == 0;
  }

  lemma AdminsAtMostAll(s: State)
    ensures Admins(s.users) <= s.users.Keys && AdminTokens(s.tokens) <= s.tokens.Keys
  {
  }

  lemma TokenStepKeepsAdmin(s: State, r: Request, now: int)
    requires HasAdmin(s) && (r.UpdateToken? || r.DeleteToken? || r.AddToken?)
    ensures var (s', answer) := Step(s, r, now);
            HasAdmin(s') || (Empty(s') && TurnsOff(r) && answer == Done)
  {
    var s' := Step(s, r, now).0;
    if Admins(s.users) != {} {
      assert Admins(s'.users) != {};
    } else if r.token in AdminTokens(s.tokens) && |AdminTokens(s.tokens)| > 1 {
      AnotherIn(AdminTokens(s.tokens), r.token);
      var other :| other in AdminTokens(s.tokens) && other != r.token;
      assert other in s'.tokens && (s'.tokens[other] == s.tokens[other]) ==> other in AdminTokens(s'.tokens);
    } else if r.token !in AdminTokens(s.tokens) {
      var other :| other in AdminTokens(s.tokens);
      assert other in s'.tokens && (s'.tokens[other] == s.tokens[other]) ==> other in AdminTokens(s'.tokens);
    } else if r.UpdateToken? && Step(s, r, now).1 == Done {
      var key := if r.renamed.Some? && r.renamed.value != "" then r.renamed.value else r.token;
      assert key in s'.tokens && s'.tokens[key].admin ==> key in AdminTokens(s'.tokens);
    }
    if r.token in s.tokens && |s.tokens| == 1 {
      OnlyOne(s.tokens.Keys, r.token);
    }
  }

  /** One request leaves an admin, or turns authentication off on purpose. */
  lemma StepKeepsAdmin(s: State, r: Request, now: int)
    requires HasAdmin(s)
    ensures var (s', answer) := Step(s, r, now);
            HasAdmin(s') || (Empty(s') && TurnsOff(r) && answer == Done)
  {
    if r.UpdateUser? || r.DeleteUser? || r.AddUser? {
      UserStepKeepsAdmin(s, r, now);
    } else if r.UpdateToken? || r.DeleteToken? || r.AddToken? {
      TokenStepKeepsAdmin(s, r, now);
    }
  }

  /** Over any run somebody can administer, until a delete turns everything off. */
  lemma {:induction false} RunKeepsAdmin(s: State, run: seq<Timed>)
    requires HasAdmin(s)
    ensures || HasAdmin(After(s, run))
            || exists k | 0 < k <= |run| :: Empty(After(s, run[..k])) && TurnsOff(run[k - 1].request)
    decreases |run|
  {
    if run != [] {
      var s' := Step(s, run[0].request, run[0].at).0;
      StepKeepsAdmin(s, run[0].request, run[0].at);
      if HasAdmin(s') {
        RunKeepsAdmin(s', run[1..]);
        if k :| 0 < k <= |run[1..]| && Empty(After(s', run[1..][..k])) && TurnsOff(run[1..][k - 1].request) {
          assert run[..k + 1][1..] == run[1..][..k];
          assert Empty(After(s, run[..k + 1]));
        }
      } else {
        assert run[..1][1..] == [];
        assert After(s, run[..1]) == s';
      }
    }
  }

  /** From nothing, only a token without admin rights leaves nobody in charge. */
  lemma FirstAccount(s: State, r: Request, now: int)
    requires Empty(s)
    ensures var s' := Step(s, r, now).0;
            Empty(s') || HasAdmin(s') <==> !(r.AddToken? && !r.isAdmin)
  {
    var s' := Step(s, r, now).0;
    if r.AddToken? {
      assert r.token in s'.tokens;
      assert r.isAdmin ==> r.token in AdminTokens(s'.tokens);
    } else if r.AddUser? {
      assert r.login in Admins(s'.users);
    }
  }

  /** Somebody administers iff some user or some token is an admin. */
  lemma AdminMeans(s: State)
    ensures HasAdmin(s) <==>
            (exists login :: login in s.users && s.users[login].admin)
            || exists token :: token in s.tokens && s.tokens[token].admin
  {
    if login :| login in s.users && s.users[login].admin {
      assert login in Admins(s.users);
    }
    if token :| token in s.tokens && s.tokens[token].admin {
      assert token in AdminTokens(s.tokens);
    }
  }

  /** No other user is an admin, and no token is. */
  ghost predicate OnlyAdmin(s: State, login: string) {
    && login in s.users && s.users[login].admin
    && (forall other | other in s.users && other != login :: !s.users[other].admin)
    && forall token | token in s.tokens :: !s.tokens[token].admin
  }

  ghost predicate OnlyAdminToken(s: State, token: string) {
    && token in s.tokens && s.tokens[token].admin
    && (forall other | other in s.tokens && other != token :: !s.tokens[other].admin)
    && forall login | login in s.users :: !s.users[login].admin
  }

  lemma FewAdmins(s: State, login: string)
    requires login in s.users && s.users[login].admin
    ensures |Admins(s.users)| <= 1 && AdminTokens(s.tokens) == {} <==> OnlyAdmin(s, login)
  {
    assert login in Admins(s.users);
    if |Admins(s.users)| <= 1 {
      OnlyOne(Admins(s.users), login);
      assert forall other | other in s.users && s.users[other].admin :: other in Admins(s.users);
    } else {
      AnotherIn(Admins(s.users), login);
    }
    assert AdminTokens(s.tokens) == {} ==> forall token | token in s.tokens :: token !in AdminTokens(s.tokens);
  }

  lemma FewAdminTokens(s: State, token: string)
    requires token in s.tokens && s.tokens[token].admin
    ensures |AdminTokens(s.tokens)| <= 1 && Admins(s.users) == {} <==> OnlyAdminToken(s, token)
  {
    assert token in AdminTokens(s.tokens);
    if |AdminTokens(s.tokens)| <= 1 {
      OnlyOne(AdminTokens(s.tokens), token);
      assert forall other | other in s.tokens && s.tokens[other].admin :: other in AdminTokens(s.tokens);
    } else {
      AnotherIn(AdminTokens(s.tokens), token);
    }
    assert Admins(s.users) == {} ==> forall login | login in s.users :: login !in Admins(s.users);
  }

  /** A change of a user is refused just for a stranger, or to keep the only admin there is. */
  lemma UserRefusals(s: State, r: Request, now: int)
    requires r.UpdateUser? || r.DeleteUser?
    ensures Step(s, r, now).1 == Refused(Unknown) <==> r.login !in s.users
    ensures Step(s, r, now).1 == Refused(ConfirmDisableAuth) <==>
            r.DeleteUser? && s.users.Keys == {r.login} && s.tokens == map[] && !r.disableAuth
    ensures Step(s, r, now).1 == Refused(LastAdmin) <==>
            && OnlyAdmin(s, r.login)
            && if r.UpdateUser? then r.admin == Some(false) else s.users.Keys != {r.login} || s.tokens != map[]
    ensures Step(s, r, now).1 == Done || Step(s, r, now).1.Refused?
    ensures Step(s, r, now).1 != Refused(Exists)
  {
    if r.login in s.users {
      assert s.users.Keys == {r.login} <==> |s.users| == 1 by { Alone(s.users.Keys, r.login); }
      if s.users[r.login].admin {
        FewAdmins(s, r.login);
      }
    }
  }

  lemma Alone(all: set<string>, one: string)
    requires one in all
    ensures |all| == 1 <==> all == {one}
  {
    if |all| == 1 {
      OnlyOne(all, one);
    }
  }

  lemma TokenRefusals(s: State, r: Request, now: int)
    requires r.UpdateToken? || r.DeleteToken?
    ensures Step(s, r, now).1 == Refused(Unknown) <==> r.token !in s.tokens
    ensures Step(s, r, now).1 == Refused(ConfirmDisableAuth) <==>
            r.DeleteToken? && s.tokens.Keys == {r.token} && s.users == map[] && !r.disableAuth
    ensures Step(s, r, now).1 == Refused(LastAdmin) <==>
            && OnlyAdminToken(s, r.token)
            && if r.UpdateToken? then r.admin == Some(false) else s.tokens.Keys != {r.token} || s.users != map[]
    ensures Step(s, r, now).1 == Refused(Exists) <==>
            && r.UpdateToken? && r.token in s.tokens && !(OnlyAdminToken(s, r.token) && r.admin == Some(false))
            && r.renamed.Some? && r.renamed.value !in ["", r.token] && r.renamed.value in s.tokens
    ensures Step(s, r, now).1 == Done || Step(s, r, now).1.Refused?
  {
    if r.token in s.tokens {
      assert s.tokens.Keys == {r.token} <==> |s.tokens| == 1 by { Alone(s.tokens.Keys, r.token); }
      if s.tokens[r.token].admin {
        FewAdminTokens(s, r.token);
      }
    }
  }

  /** A deleted account is gone, and no other. */
  lemma Deleted(s: State, r: Request, now: int)
    requires (r.DeleteUser? || r.DeleteToken?) && Step(s, r, now).1 == Done
    ensures var s' := Step(s, r, now).0;
            && s'.users == (if r.DeleteUser? then s.users - {r.login} else s.users)
            && s'.tokens == (if r.DeleteToken? then s.tokens - {r.token} else s.tokens)
            && s'.timeout == s.timeout
  {
  }

  /** A refused request changes nothing at all. */
  lemma RefusedUnchanged(s: State, r: Request, now: int)
    ensures Step(s, r, now).1.Refused? ==> Step(s, r, now).0 == s
  {
  }

  // ---- whose sessions they are

  /** Every session belongs to an account that exists. */
  ghost predicate Owned(s: State) {
    forall token | token in s.sessions :: s.sessions[token].login in s.users
  }

  lemma StepKeepsOwned(s: State, r: Request, now: int)
    requires Owned(s)
    ensures Owned(Step(s, r, now).0)
  {
    if r.SetDefaultTimeout? || r.AddUser? || r.AddToken? || r.UpdateToken? || r.DeleteToken? {
      SessionsUntouched(s, s.sessions, r, now);
    }
  }

  lemma {:induction false} RunKeepsOwned(s: State, run: seq<Timed>)
    requires Owned(s)
    ensures Owned(After(s, run))
    decreases |run|
  {
    if run != [] {
      StepKeepsOwned(s, run[0].request, run[0].at);
      RunKeepsOwned(Step(s, run[0].request, run[0].at).0, run[1..]);
    }
  }

  /** A changed password or a deleted account ends every session it had, and only those. */
  lemma NoneSurvives(s: State, r: Request, now: int, token: string)
    requires r.DeleteUser? || (r.UpdateUser? && r.rehash.Some?)
    requires Step(s, r, now).1 == Done
    ensures token in Step(s, r, now).0.sessions <==> token in s.sessions && s.sessions[token].login != r.login
    ensures r.DeleteUser? ==> r.login !in Step(s, r, now).0.users
  {
  }

  // ---- the manager

  class SessionManager {
    var users: map<string, User>
    var tokens: map<string, Token>
    var sessions: map<string, Session>
    var timeout: Option<nat>

    function Abstract(): State
      reads this
    {
      State(users, tokens, sessions, timeout)
    }

    constructor (users: map<string, User>, tokens: map<string, Token>, timeout: Option<nat>)
      ensures Abstract() == State(users, tokens, map[], timeout) && Owned(Abstract())
    {
      this.users, this.tokens, this.sessions, this.timeout := users, tokens, map[], timeout;
    }

    method CreateSession(login: string, issued: string, now: int) returns (token: Option<string>)
      modifies this`sessions
      ensures (Abstract(), Opened(token)) == Step(old(Abstract()), Request.CreateSession(login, issued), now)
    {
      if login !in users {
        return None;
      }
      sessions := sessions[issued := Session(login, now + TimeoutFor(Abstract(), users[login]))];
      token := Some(issued);
    }

    method Login(login: string, matched: bool, issued: string, now: int) returns (token: Option<string>)
      modifies this`sessions
      ensures (Abstract(), Opened(token)) == Step(old(Abstract()), Request.Login(login, matched, issued), now)
    {
      if login !in users || !matched {
        return None;
      }
      token := CreateSession(login, issued, now);
    }

    method DropSessions(login: string)
      modifies this`sessions
      ensures sessions == Ended(old(sessions), login)
    {
      var todo := set token | token in sessions && sessions[token].login == login;
      while todo != {}
        invariant forall token :: token in todo <==> token in sessions && sessions[token].login == login
        invariant forall token | token in sessions :: token in old(sessions) && sessions[token] == old(sessions)[token]
        invariant forall token | token in old(sessions) && old(sessions)[token].login != login :: token in sessions
        decreases todo
      {
        var token :| token in todo;
        sessions := sessions - {token};
        todo := todo - {token};
      }
    }

    method Logout(token: string)
      modifies this`sessions
      ensures (Abstract(), Done) == Step(old(Abstract()), Request.Logout(token), 0)
    {
      sessions := sessions - {token};
    }

    /** A request: it is activity, so it renews the session it uses. */
    method Authenticate(token: string, now: int) returns (grant: Option<Grant>)
      modifies this`sessions
      ensures (Abstract(), Granted(grant)) == Step(old(Abstract()), Request.Authenticate(token), now)
    {
      if token in tokens {
        return Some(Grant(tokens[token].name, tokens[token].admin));
      }
      if token !in sessions {
        return None;
      }
      var session := sessions[token];
      if now > session.expires {
        sessions := sessions - {token};
        return None;
      }
      if session.login !in users {
        sessions := sessions - {token};
        return None;
      }
      var user := users[session.login];
      sessions := sessions[token := session.(expires := now + TimeoutFor(Abstract(), user))];
      grant := Some(Grant(session.login, user.admin));
    }

    /** A pure look: same answer, no renewal. */
    method SessionState(token: string, now: int) returns (grant: Option<Grant>)
      ensures (Abstract(), Granted(grant)) == Step(Abstract(), Request.SessionState(token), now)
    {
      if token in tokens {
        return Some(Grant(tokens[token].name, tokens[token].admin));
      }
      if token !in sessions || now > sessions[token].expires {
        return None;
      }
      var login := sessions[token].login;
      if login !in users {
        return None;
      }
      grant := Some(Grant(login, users[login].admin));
    }

    method Cleanup(now: int)
      modifies this`sessions
      ensures (Abstract(), Done) == Step(old(Abstract()), Request.Cleanup, now)
    {
      var expired := set token | token in sessions && now > sessions[token].expires;
      while expired != {}
        invariant forall token :: token in expired <==> token in sessions && now > sessions[token].expires
        invariant forall token | token in sessions :: token in old(sessions) && sessions[token] == old(sessions)[token]
        invariant forall token | token in old(sessions) && now <= old(sessions)[token].expires :: token in sessions
        decreases expired
      {
        var token :| token in expired;
        sessions := sessions - {token};
        expired := expired - {token};
      }
      assert sessions == Live(old(Abstract()), now);
    }

    method AdminCount() returns (n: nat)
      ensures n == |Admins(users)|
    {
      n := 0;
      var todo := users.Keys;
      ghost var counted: set<string> := {};
      while todo != {}
        invariant todo <= users.Keys
        invariant counted == set login | login in users && login !in todo && users[login].admin
        invariant n == |counted|
        decreases todo
      {
        var login :| login in todo;
        todo := todo - {login};
        if users[login].admin {
          counted := counted + {login};
          n := n + 1;
        }
      }
      assert counted == Admins(users);
    }

    method AdminTokenCount() returns (n: nat)
      ensures n == |AdminTokens(tokens)|
    {
      n := 0;
      var todo := tokens.Keys;
      ghost var counted: set<string> := {};
      while todo != {}
        invariant todo <= tokens.Keys
        invariant counted == set token | token in tokens && token !in todo && tokens[token].admin
        invariant n == |counted|
        decreases todo
      {
        var token :| token in todo;
        todo := todo - {token};
        if tokens[token].admin {
          counted := counted + {token};
          n := n + 1;
        }
      }
      assert counted == AdminTokens(tokens);
    }

    /** The first user there is is always an admin. */
    method AddUser(login: string, hash: Hash, admin: Option<bool>, change: TimeoutChange) returns (answer: Answer)
      modifies this`users
      ensures (Abstract(), answer) == Step(old(Abstract()), Request.AddUser(login, hash, admin, change), 0)
    {
      if login in users {
        return Refused(Exists);
      }
      var user := User(hash, false, None);
      if users == map[] {
        user := user.(admin := true);
      } else if admin.Some? {
        user := user.(admin := admin.value);
      }
      users := users[login := WithTimeout(user, change)];
      answer := Done;
    }

    method UpdateUser(login: string, hash: Option<Hash>, admin: Option<bool>, change: TimeoutChange)
        returns (answer: Answer)
      modifies this`users, this`sessions
      ensures (Abstract(), answer) == Step(old(Abstract()), Request.UpdateUser(login, hash, admin, change), 0)
    {
      if login !in users {
        return Refused(Unknown);
      }
      var user := users[login];
      if admin == Some(false) {
        var admins := AdminCount();
        var adminTokens := AdminTokenCount();
        if user.admin && admins <= 1 && adminTokens == 0 {
          return Refused(LastAdmin);
        }
      }
      if hash.Some? {
        user := user.(password := hash.value);
        DropSessions(login);
      }
      if admin.Some? {
        user := user.(admin := admin.value);
      }
      users := users[login := WithTimeout(user, change)];
      answer := Done;
    }

    method DeleteUser(login: string, disableAuth: bool) returns (answer: Answer)
      modifies this`users, this`sessions
      ensures (Abstract(), answer) == Step(old(Abstract()), Request.DeleteUser(login, disableAuth), 0)
    {
      if login !in users {
        return Refused(Unknown);
      }
      if |users| == 1 && tokens == map[] {
        if !disableAuth {
          return Refused(ConfirmDisableAuth);
        }
      } else {
        var admins := AdminCount();
        var adminTokens := AdminTokenCount();
        if users[login].admin && admins <= 1 && adminTokens == 0 {
          return Refused(LastAdmin);
        }
      }
      users := users - {login};
      DropSessions(login);
      answer := Done;
    }

    method AddToken(token: string, name: string, admin: bool) returns (answer: Answer)
      modifies this`tokens
      ensures (Abstract(), answer) == Step(old(Abstract()), Request.AddToken(token, name, admin), 0)
    {
      if token in tokens {
        return Refused(Exists);
      }
      tokens := tokens[token := Token(name, admin)];
      answer := Done;
    }

    method UpdateToken(token: string, renamed: Option<string>, name: Option<string>, admin: Option<bool>)
        returns (answer: Answer)
      modifies this`tokens
      ensures (Abstract(), answer) == Step(old(Abstract()), Request.UpdateToken(token, renamed, name, admin), 0)
    {
      if token !in tokens {
        return Refused(Unknown);
      }
      var entry := tokens[token];
      if admin == Some(false) {
        var adminTokens := AdminTokenCount();
        var admins := AdminCount();
        if entry.admin && adminTokens <= 1 && admins == 0 {
          return Refused(LastAdmin);
        }
      }
      var key := token;
      if renamed.Some? && renamed.value != "" && renamed.value != token {
        if renamed.value in tokens {
          return Refused(Exists);
        }
        tokens := tokens - {token};
        key := renamed.value;
      }
      if name.Some? {
        entry := entry.(name := name.value);
      }
      if admin.Some? {
        entry := entry.(admin := admin.value);
      }
      tokens := tokens[key := entry];
      answer := Done;
      assert tokens == (old(tokens) - {token})[key := entry];
    }

    method DeleteToken(token: string, disableAuth: bool) returns (answer: Answer)
      modifies this`tokens
      ensures (Abstract(), answer) == Step(old(Abstract()), Request.DeleteToken(token, disableAuth), 0)
    {
      if token !in tokens {
        return Refused(Unknown);
      }
      if |tokens| == 1 && users == map[] {
        if !disableAuth {
          return Refused(ConfirmDisableAuth);
        }
      } else {
        var adminTokens := AdminTokenCount();
        var admins := AdminCount();
        if tokens[token].admin && adminTokens <= 1 && admins == 0 {
          return Refused(LastAdmin);
        }
      }
      tokens := tokens - {token};
      answer := Done;
    }
  }
}

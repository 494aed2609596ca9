/** Login, token refresh and logout over the session store, and what they promise over whole runs. */
module AuthService {
  import opened Common
  import opened SessionStore

  datatype UserStatus = UserActive | UserPending | UserSuspended
  datatype User = User(id: string, status: UserStatus)

  /** What the user repository answers for an e-mail address. */
  datatype UserLookup = Found(user: User) | Unknown | LookupFailed

  datatype LoginError = InvalidCredentials | UserNotActive | UserStoreError | TokenError | SessionStoreError
  datatype LoginResult = LoggedIn(refreshToken: string) | LoginFailed(error: LoginError)

  datatype RefreshError = InvalidRefreshToken | ExpiredOrRevoked | NoUser | NoAccessToken
  datatype RefreshResult = Refreshed(refreshToken: string) | RefreshFailed(error: RefreshError)

  function NewSession(id: string, user: string, token: string, agent: string, ip: string, now: int): Session {
    Session(id, user, token, agent, ip, now + WEEK, now, false)
  }

  /** A refresh token passes RefreshToken's session checks. */
  predicate Accepts(s: Store, token: string) { ByToken(s, token).Some? && IsValid(ByToken(s, token).value, s.now) }

  function LoggedOut(s: Store, token: string): Store {
    match ByToken(s, token)
    case None => s
    case Some(sess) => Updated(s, sess.(revoked := true))
  }

  class AuthServiceImpl {
    const store: RedisSessionStore

    constructor (store: RedisSessionStore)
      ensures this.store == store
    {
      this.store := store;
    }

    /** `id` and `token` are the freshly generated session id and refresh token. */
    method LoginWithUser(lookup: UserLookup, passwordOk: bool, accessTokenOk: bool, id: string, token: string,
                         agent: string, ip: string, execOk: bool) returns (r: LoginResult)
      modifies store
      ensures r.LoggedIn? <==> lookup.Found? && passwordOk && lookup.user.status.UserActive? && accessTokenOk && execOk
      ensures r.LoggedIn? ==> r.refreshToken == token
      ensures r.LoggedIn? ==>
                store.Abs() == Created(old(store.Abs()), NewSession(id, lookup.user.id, token, agent, ip, old(store.now)))
      ensures r.LoggedIn? ==>
                ByToken(store.Abs(), token) == ById(store.Abs(), id)
                    == Some(Session(id, lookup.user.id, token, agent, ip, store.now + 7 * 24 * 3600, store.now, false))
      ensures r.LoginFailed? ==> store.Abs() == old(store.Abs())
      ensures r == LoginFailed(InvalidCredentials) <==> lookup.Unknown? || (lookup.Found? && !passwordOk)
      ensures r == LoginFailed(UserNotActive) <==> lookup.Found? && passwordOk && !lookup.user.status.UserActive?
      ensures r == LoginFailed(UserStoreError) <==> lookup.LookupFailed?
      ensures r == LoginFailed(SessionStoreError) <==>
                lookup.Found? && passwordOk && lookup.user.status.UserActive? && accessTokenOk && !execOk
    {
      match lookup
      case Unknown => return LoginFailed(InvalidCredentials);
      case LookupFailed => return LoginFailed(UserStoreError);
      case Found(u) =>
        if !passwordOk { return LoginFailed(InvalidCredentials); }
        if !u.status.UserActive? { return LoginFailed(UserNotActive); }
        if !accessTokenOk { return LoginFailed(TokenError); }
        var ok := store.Create(NewSession(id, u.id, token, agent, ip, store.now), execOk);
        if !ok { return LoginFailed(SessionStoreError); }
        return LoggedIn(token);
    }

    method RefreshToken(token: string, getOk: bool, userOk: bool, accessTokenOk: bool) returns (r: RefreshResult)
      ensures r.Refreshed? <==> getOk && Accepts(store.Abs(), token) && userOk && accessTokenOk
      ensures r.Refreshed? ==> r.refreshToken == ByToken(store.Abs(), token).value.refreshToken
      ensures r == RefreshFailed(InvalidRefreshToken) <==> !getOk || ByToken(store.Abs(), token).None?
      ensures r == RefreshFailed(ExpiredOrRevoked) <==> getOk && ByToken(store.Abs(), token).Some? && !Accepts(store.Abs(), token)
    {
      var sess := store.GetByRefreshToken(token);
      if !getOk || sess.None? { return RefreshFailed(InvalidRefreshToken); }
      if !IsValid(sess.value, store.now) { return RefreshFailed(ExpiredOrRevoked); }
      if !userOk { return RefreshFailed(NoUser); }
      if !accessTokenOk { return RefreshFailed(NoAccessToken); }
      return Refreshed(sess.value.refreshToken);
    }

    /** Returns true for a nil error: also when the token could not be read. */
    method Logout(token: string, getOk: bool, setOk: bool) returns (ok: bool)
      modifies store
      ensures ok == (!getOk || ByToken(old(store.Abs()), token).None? || setOk)
      ensures store.Abs() == if getOk && setOk then LoggedOut(old(store.Abs()), token) else old(store.Abs())
    {
      var sess := store.GetByRefreshToken(token);
      if !getOk || sess.None? { return true; }
      ok := store.Update(sess.value.(revoked := true), setOk);
    }
  }

  // ---------------------------------------------------------------- runs

  datatype Action =
    | Login(user: string, id: string, token: string, agent: string, ip: string)
    | Logout(tok: string, getOk: bool, setOk: bool)
    | Purge(owner: string, missed: set<string>)
    | Tick(d: nat)

  function Next(s: Store, a: Action): Store {
    match a
    case Login(user, id, token, agent, ip) => Created(s, NewSession(id, user, token, agent, ip, s.now))
    case Logout(token, getOk, setOk) => if getOk && setOk then LoggedOut(s, token) else s
    case Purge(user, missed) => Purged(s, user, missed)
    case Tick(d) => s.(now := s.now + d)
  }

  /** Generated ids and refresh tokens never repeat. */
  ghost predicate Fresh(actions: seq<Action>) {
    forall i, j :: 0 <= i < j < |actions| && actions[i].Login? && actions[j].Login? ==>
      actions[i].id != actions[j].id && actions[i].token != actions[j].token
  }

  ghost predicate IsRun(states: seq<Store>, actions: seq<Action>) {
    && |states| == |actions| + 1
    && states[0].sessions == map[] && states[0].refresh == map[] && states[0].users == map[]
    && (forall i :: 0 <= i < |actions| ==> states[i + 1] == Next(states[i], actions[i]))
    && Fresh(actions)
  }

  ghost predicate LogsOut(a: Action, token: string) { a.Logout? && a.tok == token && a.getOk && a.setOk }

  ghost predicate LoggedOutSince(actions: seq<Action>, j: nat, i: nat, token: string)
    requires i <= |actions|
  {
    exists k :: j < k < i && LogsOut(actions[k], token)
  }

  ghost predicate PurgedSince(actions: seq<Action>, j: nat, i: nat, user: string)
    requires i <= |actions|
  {
    exists k :: j < k < i && actions[k].Purge? && actions[k].owner == user
  }

  /** The history's view: some login issued `token` less than a week ago and neither an effective logout of it
      nor a purge of its owner came since. */
  ghost predicate Granted(states: seq<Store>, actions: seq<Action>, i: nat, token: string)
    requires |states| == |actions| + 1 && i < |states|
  {
    exists j :: 0 <= j < i && actions[j].Login? && actions[j].token == token
      && states[i].now < states[j].now + 7 * 24 * 3600
      && !LoggedOutSince(actions, j, i, token) && !PurgedSince(actions, j, i, actions[j].user)
  }

  // ---------------------------------------------------------------- the store mirrors the history

  /** Whatever is stored under the session id of login `l`, made at time `t`, is that login's session. */
  ghost predicate OwnSession(s: Store, l: Action, t: int)
    requires l.Login?
  {
    l.id in s.sessions ==>
      && s.sessions[l.id].expiry == At(t + WEEK)
      && s.sessions[l.id].value == NewSession(l.id, l.user, l.token, l.agent, l.ip, t).(revoked := s.sessions[l.id].value.revoked)
  }

  /** What a store holds of login `l` made at time `t`: `out` says it was logged out since, `gone` that its owner
      was purged since. */
  ghost predicate Mirrors(s: Store, l: Action, t: int, out: bool, gone: bool)
    requires l.Login?
  {
    && OwnSession(s, l, t)
    && (!gone ==> l.id in s.sessions && l.token in s.refresh && s.refresh[l.token] == Cell(l.id, At(t + WEEK)))
    && (!gone && s.now < t + WEEK ==>
          && s.sessions[l.id].value.revoked == out
          && l.user in s.users && l.id in s.users[l.user].value
          && s.users[l.user].expiry.At? && t + MONTH <= s.users[l.user].expiry.t)
    && (gone ==> l.id !in s.sessions || s.now >= t + WEEK)
  }

  ghost predicate MirrorsAll(states: seq<Store>, actions: seq<Action>, i: nat)
    requires |states| == |actions| + 1 && i < |states|
  {
    forall j :: 0 <= j < i && actions[j].Login? ==>
      Mirrors(states[i], actions[j], states[j].now, LoggedOutSince(actions, j, i, actions[j].token), PurgedSince(actions, j, i, actions[j].user))
  }

  ghost predicate IssuedId(actions: seq<Action>, i: nat, id: string)
    requires i <= |actions|
  {
    exists j :: 0 <= j < i && actions[j].Login? && actions[j].id == id
  }

  ghost predicate IssuedToken(actions: seq<Action>, i: nat, token: string, id: string)
    requires i <= |actions|
  {
    exists j :: 0 <= j < i && actions[j].Login? && actions[j].token == token && actions[j].id == id
  }

  /** Every key of the store goes back to a login, expired keys included; so does every member of a user's set. */
  ghost predicate AllIssued(s: Store, actions: seq<Action>, i: nat)
    requires i <= |actions|
  {
    && (forall id :: id in s.sessions ==> IssuedId(actions, i, id))
    && (forall t :: t in s.refresh ==> IssuedToken(actions, i, t, s.refresh[t].value))
    && (forall u, id :: u in s.users && id in s.users[u].value ==> IssuedTo(actions, i, u, id))
  }

  ghost predicate IssuedTo(actions: seq<Action>, i: nat, user: string, id: string)
    requires i <= |actions|
  {
    exists j :: 0 <= j < i && actions[j].Login? && actions[j].user == user && actions[j].id == id
  }

  lemma {:induction false} TimeMonotone(states: seq<Store>, actions: seq<Action>, j: nat, i: nat)
    requires IsRun(states, actions) && j <= i < |states|
    ensures states[j].now <= states[i].now
    decreases i
  {
    if j < i {
      TimeMonotone(states, actions, j, i - 1);
      assert states[i] == Next(states[i - 1], actions[i - 1]);
    }
  }

  lemma SinceStep(actions: seq<Action>, j: nat, i: nat, token: string, user: string)
    requires j < i < |actions|
    ensures LoggedOutSince(actions, j, i + 1, token) <==> LoggedOutSince(actions, j, i, token) || LogsOut(actions[i], token)
    ensures PurgedSince(actions, j, i + 1, user) <==> PurgedSince(actions, j, i, user) || (actions[i].Purge? && actions[i].owner == user)
  {
  }

  lemma LoginKeepsMirror(s: Store, a: Action, l: Action, t: int, out: bool, gone: bool)
    requires l.Login? && Mirrors(s, l, t, out, gone) && t <= s.now
    requires a.Login? && a.id != l.id && a.token != l.token
    ensures Mirrors(Next(s, a), l, t, out, gone)
  {
  }

  lemma LogoutKeepsMirror(s: Store, a: Action, l: Action, t: int, out: bool, gone: bool)
    requires l.Login? && Mirrors(s, l, t, out, gone) && t <= s.now && a.Logout?
    requires a.tok != l.token && ByToken(s, a.tok).Some? ==> ByToken(s, a.tok).value.id != l.id
    requires a.tok == l.token && l.token in s.refresh ==> s.refresh[l.token].value == l.id
    ensures Mirrors(Next(s, a), l, t, out || LogsOut(a, l.token), gone)
  {
  }

  lemma PurgeKeepsMirror(s: Store, a: Action, l: Action, t: int, out: bool, gone: bool)
    requires l.Login? && Mirrors(s, l, t, out, gone) && t <= s.now && a.Purge?
    requires a.owner != l.user ==> l.id !in Members(s, a.owner) && l.token !in TokensOf(s, Members(s, a.owner), a.missed)
    ensures Mirrors(Next(s, a), l, t, out, gone || a.owner == l.user)
  {
    hide TokensOf;
  }

  /** A token resolves only to the session of the login that issued it. */
  lemma {:induction false} ResolvesToIssuer(states: seq<Store>, actions: seq<Action>, i: nat, token: string) returns (j: nat)
    requires IsRun(states, actions) && i < |states| && MirrorsAll(states, actions, i) && AllIssued(states[i], actions, i)
    requires ByToken(states[i], token).Some?
    ensures j < i && actions[j].Login? && actions[j].token == token && states[i].refresh[token].value == actions[j].id
    ensures ByToken(states[i], token).value.id == actions[j].id && ByToken(states[i], token).value.userId == actions[j].user
  {
    hide Mirrors;
    assert IssuedToken(actions, i, token, states[i].refresh[token].value);
    j :| 0 <= j < i && actions[j].Login? && actions[j].token == token && actions[j].id == states[i].refresh[token].value;
    OwnSessionOf(states, actions, i, j);
  }

  lemma OwnSessionOf(states: seq<Store>, actions: seq<Action>, i: nat, j: nat)
    requires IsRun(states, actions) && i < |states| && MirrorsAll(states, actions, i)
    requires j < i && actions[j].Login?
    ensures OwnSession(states[i], actions[j], states[j].now)
  {
    assert Mirrors(states[i], actions[j], states[j].now, LoggedOutSince(actions, j, i, actions[j].token), PurgedSince(actions, j, i, actions[j].user));
  }

  lemma DistinctLogins(actions: seq<Action>, i: nat, j: nat)
    requires Fresh(actions) && i < |actions| && j < |actions| && actions[i].Login? && actions[j].Login?
    ensures i != j ==> actions[i].id != actions[j].id && actions[i].token != actions[j].token
  {
  }

  /** A member of a user's set belongs to a login of that user, and so does its session's token. */
  lemma MembersAreOwn(states: seq<Store>, actions: seq<Action>, i: nat, user: string, j: nat, missed: set<string>)
    requires IsRun(states, actions) && i < |states| && MirrorsAll(states, actions, i) && AllIssued(states[i], actions, i)
    requires j < i && actions[j].Login? && actions[j].user != user
    ensures actions[j].id !in Members(states[i], user)
    ensures actions[j].token !in TokensOf(states[i], Members(states[i], user), missed)
  {
    hide Mirrors, MirrorsAll, NewSession;
    var s := states[i];
    forall id | id in Members(s, user)
      ensures id != actions[j].id && (ById(s, id).Some? ==> ById(s, id).value.refreshToken != actions[j].token)
    {
      assert IssuedTo(actions, i, user, id);
      var m :| 0 <= m < i && actions[m].Login? && actions[m].user == user && actions[m].id == id;
      DistinctLogins(actions, m, j);
      OwnSessionOf(states, actions, i, m);
      SessionToken(s, actions[m], states[m].now);
    }
  }

  lemma SessionToken(s: Store, l: Action, t: int)
    requires l.Login? && OwnSession(s, l, t)
    ensures ById(s, l.id).Some? ==> ById(s, l.id).value.refreshToken == l.token && ById(s, l.id).value.userId == l.user
  {
  }

  lemma {:induction false} MirrorStep(states: seq<Store>, actions: seq<Action>, i: nat, j: nat)
    requires IsRun(states, actions) && i < |actions| && MirrorsAll(states, actions, i) && AllIssued(states[i], actions, i)
    requires j < i && actions[j].Login?
    ensures Mirrors(states[i + 1], actions[j], states[j].now, LoggedOutSince(actions, j, i + 1, actions[j].token),
                    PurgedSince(actions, j, i + 1, actions[j].user))
  {
    hide Mirrors, LoggedOutSince, PurgedSince, AllIssued;
    var s, a, l, t := states[i], actions[i], actions[j], states[j].now;
    var out, gone := LoggedOutSince(actions, j, i, l.token), PurgedSince(actions, j, i, l.user);
    assert Mirrors(s, l, t, out, gone);
    assert states[i + 1] == Next(s, a);
    TimeMonotone(states, actions, j, i);
    SinceStep(actions, j, i, l.token, l.user);
    match a {
      case Login(_, _, _, _, _) =>
        DistinctLogins(actions, i, j);
        LoginKeepsMirror(s, a, l, t, out, gone);
      case Logout(tok, _, _) =>
        LogoutContext(states, actions, i, j);
        LogoutKeepsMirror(s, a, l, t, out, gone);
      case Purge(owner, missed) =>
        if owner != l.user { MembersAreOwn(states, actions, i, owner, j, missed); }
        PurgeKeepsMirror(s, a, l, t, out, gone);
      case Tick(d) => TickKeepsMirror(s, d, l, t, out, gone);
    }
  }

  lemma TickKeepsMirror(s: Store, d: nat, l: Action, t: int, out: bool, gone: bool)
    requires l.Login? && Mirrors(s, l, t, out, gone)
    ensures Mirrors(Next(s, Tick(d)), l, t, out, gone)
  {
  }

  lemma LogoutContext(states: seq<Store>, actions: seq<Action>, i: nat, j: nat)
    requires IsRun(states, actions) && i < |actions| && MirrorsAll(states, actions, i) && AllIssued(states[i], actions, i)
    requires j < i && actions[j].Login? && actions[i].Logout?
    ensures actions[i].tok != actions[j].token && ByToken(states[i], actions[i].tok).Some? ==>
              ByToken(states[i], actions[i].tok).value.id != actions[j].id
    ensures actions[i].tok == actions[j].token && actions[j].token in states[i].refresh ==>
              states[i].refresh[actions[j].token].value == actions[j].id
  {
    hide Mirrors, MirrorsAll;
    var s, tok := states[i], actions[i].tok;
    if tok != actions[j].token && ByToken(s, tok).Some? {
      var m := ResolvesToIssuer(states, actions, i, tok);
      DistinctLogins(actions, m, j);
    }
    TokenLeadsToId(states, actions, i, j);
  }

  lemma NewLoginMirrors(s: Store, l: Action)
    requires l.Login?
    ensures Mirrors(Next(s, l), l, s.now, false, false)
  {
  }

  lemma {:induction false} AllIssuedStep(states: seq<Store>, actions: seq<Action>, i: nat)
    requires IsRun(states, actions) && i < |actions| && MirrorsAll(states, actions, i) && AllIssued(states[i], actions, i)
    ensures AllIssued(states[i + 1], actions, i + 1)
  {
    hide Mirrors, MirrorsAll, TokensOf;
    var s, s', a := states[i], states[i + 1], actions[i];
    assert s' == Next(s, a);
    if a.Login? {
      assert IssuedId(actions, i + 1, a.id) && IssuedToken(actions, i + 1, a.token, a.id) && IssuedTo(actions, i + 1, a.user, a.id);
    } else if a.Logout? && a.getOk && a.setOk && ByToken(s, a.tok).Some? {
      var j := ResolvesToIssuer(states, actions, i, a.tok);
      assert IssuedId(actions, i + 1, actions[j].id);
    }
    forall id | id in s.sessions ensures IssuedId(actions, i + 1, id) { assert IssuedId(actions, i, id); }
    forall t | t in s.refresh ensures IssuedToken(actions, i + 1, t, s.refresh[t].value) { assert IssuedToken(actions, i, t, s.refresh[t].value); }
    forall u, id | u in s.users && id in s.users[u].value ensures IssuedTo(actions, i + 1, u, id) { assert IssuedTo(actions, i, u, id); }
  }

  lemma {:induction false} StoreMirrorsHistory(states: seq<Store>, actions: seq<Action>, i: nat)
    requires IsRun(states, actions) && i < |states|
    ensures MirrorsAll(states, actions, i) && AllIssued(states[i], actions, i)
  {
    if i > 0 {
      StoreMirrorsHistory(states, actions, i - 1);
      AllIssuedStep(states, actions, i - 1);
      hide Mirrors, AllIssued;
      forall j | 0 <= j < i && actions[j].Login?
        ensures Mirrors(states[i], actions[j], states[j].now, LoggedOutSince(actions, j, i, actions[j].token), PurgedSince(actions, j, i, actions[j].user))
      {
        if j < i - 1 {
          MirrorStep(states, actions, i - 1, j);
        } else {
          NewLoginMirrors(states[j], actions[j]);
          assert states[i] == Next(states[j], actions[j]);
          assert !LoggedOutSince(actions, j, i, actions[j].token) && !PurgedSince(actions, j, i, actions[j].user);
        }
      }
    }
  }

  // ---------------------------------------------------------------- the promises

  lemma MirrorOf(states: seq<Store>, actions: seq<Action>, i: nat, j: nat)
    requires |states| == |actions| + 1 && j < i < |states| && MirrorsAll(states, actions, i) && actions[j].Login?
    ensures Mirrors(states[i], actions[j], states[j].now, LoggedOutSince(actions, j, i, actions[j].token),
                    PurgedSince(actions, j, i, actions[j].user))
  {
  }

  lemma MirrorAccepts(s: Store, l: Action, t: int, out: bool, gone: bool)
    requires l.Login? && Mirrors(s, l, t, out, gone)
    requires l.token in s.refresh ==> s.refresh[l.token].value == l.id
    ensures Accepts(s, l.token) <==> s.now < t + WEEK && !out && !gone
  {
  }

  /** RefreshToken accepts a token exactly when a login issued it less than a week ago and neither an effective
      logout of it nor a purge of its owner came since. */
  lemma AcceptedExactlyWhenGranted(states: seq<Store>, actions: seq<Action>, i: nat, token: string)
    requires IsRun(states, actions) && i < |states|
    ensures Accepts(states[i], token) <==> Granted(states, actions, i, token)
  {
    hide LoggedOutSince, PurgedSince, Mirrors, MirrorsAll, AllIssued;
    StoreMirrorsHistory(states, actions, i);
    var s := states[i];
    if Accepts(s, token) {
      var j := ResolvesToIssuer(states, actions, i, token);
      var l := actions[j];
      MirrorOf(states, actions, i, j);
      MirrorAccepts(s, l, states[j].now, LoggedOutSince(actions, j, i, l.token), PurgedSince(actions, j, i, l.user));
    }
    if Granted(states, actions, i, token) {
      var j :| 0 <= j < i && actions[j].Login? && actions[j].token == token && s.now < states[j].now + WEEK
        && !LoggedOutSince(actions, j, i, token) && !PurgedSince(actions, j, i, actions[j].user);
      var l := actions[j];
      MirrorOf(states, actions, i, j);
      TokenLeadsToId(states, actions, i, j);
      MirrorAccepts(s, l, states[j].now, LoggedOutSince(actions, j, i, l.token), PurgedSince(actions, j, i, l.user));
    }
  }

  lemma TokenLeadsToId(states: seq<Store>, actions: seq<Action>, i: nat, j: nat)
    requires IsRun(states, actions) && j < i < |states| && AllIssued(states[i], actions, i) && actions[j].Login?
    ensures actions[j].token in states[i].refresh ==> states[i].refresh[actions[j].token].value == actions[j].id
  {
    var s, tok := states[i], actions[j].token;
    if tok in s.refresh {
      assert IssuedToken(actions, i, tok, s.refresh[tok].value);
      var m :| 0 <= m < i && actions[m].Login? && actions[m].token == tok && actions[m].id == s.refresh[tok].value;
      DistinctLogins(actions, m, j);
    }
  }

  /** Once a token that was issued stops being accepted it is never accepted again. */
  lemma RevocationIsFinal(states: seq<Store>, actions: seq<Action>, i: nat, k: nat, token: string)
    requires IsRun(states, actions) && i <= k < |states|
    requires exists j :: 0 <= j < i && actions[j].Login? && actions[j].token == token
    requires !Accepts(states[i], token)
    ensures !Accepts(states[k], token)
  {
    hide Accepts;
    AcceptedExactlyWhenGranted(states, actions, i, token);
    AcceptedExactlyWhenGranted(states, actions, k, token);
    TimeMonotone(states, actions, i, k);
    var j0 :| 0 <= j0 < i && actions[j0].Login? && actions[j0].token == token;
    forall j | 0 <= j < k && actions[j].Login? && actions[j].token == token ensures j == j0 { DistinctLogins(actions, j, j0); }
  }

  lemma MirrorIndices(s: Store, l: Action, t: int, out: bool, gone: bool)
    requires l.Login? && Mirrors(s, l, t, out, gone) && ById(s, l.id).Some?
    ensures Agree(s, l.id)
  {
  }

  /** A live session is filed under its own id, its owner's live set lists it and outlives it, and its refresh key
      is live and leads back to it. */
  ghost predicate Agree(s: Store, id: string)
    requires ById(s, id).Some?
  {
    var sess := ById(s, id).value;
    && sess.id == id
    && id in Members(s, sess.userId)
    && s.users[sess.userId].expiry.At? && sess.expiresAt < s.users[sess.userId].expiry.t
    && ByToken(s, sess.refreshToken) == Some(sess)
  }

  /** In every reachable state the three indices agree on every live session. */
  lemma IndicesAgree(states: seq<Store>, actions: seq<Action>, i: nat, id: string)
    requires IsRun(states, actions) && i < |states| && ById(states[i], id).Some?
    ensures Agree(states[i], id)
  {
    hide LoggedOutSince, PurgedSince, Mirrors, MirrorsAll, Agree;
    StoreMirrorsHistory(states, actions, i);
    assert IssuedId(actions, i, id);
    var j :| 0 <= j < i && actions[j].Login? && actions[j].id == id;
    MirrorOf(states, actions, i, j);
    MirrorIndices(states[i], actions[j], states[j].now, LoggedOutSince(actions, j, i, actions[j].token), PurgedSince(actions, j, i, actions[j].user));
  }

  /** DeleteByUserID leaves none of the user's tokens resolvable, even when lookups inside it fail, and leaves every
      other user's tokens as they were. */
  lemma PurgeIsExact(states: seq<Store>, actions: seq<Action>, i: nat, user: string, missed: set<string>, token: string)
    requires IsRun(states, actions) && i < |states|
    ensures var s, s' := states[i], Purged(states[i], user, missed);
            && (ByToken(s', token).Some? ==> ByToken(s', token).value.userId != user)
            && (ByToken(s, token).Some? && ByToken(s, token).value.userId != user ==> ByToken(s', token) == ByToken(s, token))
  {
    hide Mirrors, MirrorsAll, AllIssued, Purged, TokensOf, Members, ByToken;
    StoreMirrorsHistory(states, actions, i);
    var s := states[i];
    if ByToken(s, token).Some? {
      var j := ResolvesToIssuer(states, actions, i, token);
      ResolvedIsLive(s, token);
      IndicesAgree(states, actions, i, actions[j].id);
      AgreeMember(s, actions[j].id);
      if actions[j].user != user { MembersAreOwn(states, actions, i, user, j, missed); }
    }
    PurgeResolves(s, user, missed, token);
  }

  /** Whether `token` was issued to `user` by a login from state `r` to state `k`. */
  ghost predicate IssuedBetween(actions: seq<Action>, r: nat, k: nat, user: string, token: string)
    requires k <= |actions|
  {
    exists j :: r <= j < k && actions[j].Login? && actions[j].user == user && actions[j].token == token
  }

  /** When other calls run between the read of the set, in state `r`, and the pipeline, in state `k`: of the user's tokens
      exactly those survive that were issued in between, and no later DeleteByUserID finds their sessions. */
  lemma PurgeRaceExact(states: seq<Store>, actions: seq<Action>, r: nat, k: nat, user: string, missed: set<string>, token: string)
    requires IsRun(states, actions) && r <= k < |states|
    requires ByToken(states[k], token).Some?
    ensures var s, s', sess := states[k], PurgedOf(states[k], user, Members(states[r], user), missed), ByToken(states[k], token).value;
            && (sess.userId == user ==> (ByToken(s', token) == Some(sess) <==> IssuedBetween(actions, r, k, user, token)))
            && (sess.userId == user && ByToken(s', token).None? ==> Members(states[r], user) != {})
            && (sess.userId != user ==> ByToken(s', token) == Some(sess))
            && (Members(states[r], user) != {} ==> Members(s', user) == {} && Purged(s', user, missed) == s')
  {
    hide Mirrors, MirrorsAll, AllIssued, PurgedOf, TokensOf, Members, ByToken, Fresh;
    StoreMirrorsHistory(states, actions, k);
    StoreMirrorsHistory(states, actions, r);
    var ids := Members(states[r], user);
    var j := ResolvesToIssuer(states, actions, k, token);
    ResolvedIsLive(states[k], token);
    PipelineResolves(states[k], user, ids, missed, token);
    SetGone(states[k], user, ids, missed);
    if actions[j].user != user {
      NotInSet(states, actions, r, user, j);
      TokenNotFound(states, actions, k, ids, j, missed);
    } else if j < r {
      StillListed(states, actions, r, k, j);
      OnlyIssuer(actions, j, r, k, user, token);
    } else {
      NotInSet(states, actions, r, user, j);
      TokenNotFound(states, actions, k, ids, j, missed);
    }
  }

  lemma SetGone(s: Store, user: string, ids: set<string>, missed: set<string>)
    ensures ids != {} ==> var s' := PurgedOf(s, user, ids, missed); Members(s', user) == {} && Purged(s', user, missed) == s'
  {
    hide TokensOf;
  }

  /** What a pipeline for the ids does to a token. */
  lemma PipelineResolves(s: Store, user: string, ids: set<string>, missed: set<string>, token: string)
    requires ByToken(s, token).Some?
    ensures var s' := PurgedOf(s, user, ids, missed);
            && (s.refresh[token].value in ids ==> ByToken(s', token).None?)
            && (s.refresh[token].value !in ids && token !in TokensOf(s, ids, missed) ==> ByToken(s', token) == ByToken(s, token))
  {
    hide TokensOf;
  }

  /** A login that came later, or was another user's, is not in the set read in state `r`. */
  lemma NotInSet(states: seq<Store>, actions: seq<Action>, r: nat, user: string, j: nat)
    requires IsRun(states, actions) && r < |states| && AllIssued(states[r], actions, r)
    requires j < |actions| && actions[j].Login? && (j >= r || actions[j].user != user)
    ensures actions[j].id !in Members(states[r], user)
  {
    assert actions[j].id in Members(states[r], user) ==> IssuedTo(actions, r, user, actions[j].id);
  }

  /** And its token is not among those looked up for other ids. */
  lemma TokenNotFound(states: seq<Store>, actions: seq<Action>, k: nat, ids: set<string>, j: nat, missed: set<string>)
    requires IsRun(states, actions) && k < |states| && MirrorsAll(states, actions, k) && AllIssued(states[k], actions, k)
    requires j < k && actions[j].Login? && actions[j].id !in ids
    ensures actions[j].token !in TokensOf(states[k], ids, missed)
  {
    hide Mirrors, MirrorsAll, NewSession;
    var s := states[k];
    forall id | id in ids && ById(s, id).Some? ensures ById(s, id).value.refreshToken != actions[j].token {
      assert IssuedId(actions, k, id);
      var m :| 0 <= m < k && actions[m].Login? && actions[m].id == id;
      DistinctLogins(actions, m, j);
      OwnSessionOf(states, actions, k, m);
      SessionToken(s, actions[m], states[m].now);
    }
  }

  /** A session that is live in state `k` was in its owner's set in every state since its login. */
  lemma StillListed(states: seq<Store>, actions: seq<Action>, r: nat, k: nat, j: nat)
    requires IsRun(states, actions) && j < r <= k < |states| && MirrorsAll(states, actions, r) && MirrorsAll(states, actions, k)
    requires actions[j].Login? && ById(states[k], actions[j].id).Some?
    ensures actions[j].id in Members(states[r], actions[j].user)
  {
    hide LoggedOutSince, MirrorsAll;
    TimeMonotone(states, actions, r, k);
    MirrorOf(states, actions, r, j);
    MirrorOf(states, actions, k, j);
  }

  lemma OnlyIssuer(actions: seq<Action>, j: nat, r: nat, k: nat, user: string, token: string)
    requires Fresh(actions) && j < r <= k <= |actions| && actions[j].Login? && actions[j].token == token
    ensures !IssuedBetween(actions, r, k, user, token)
  {
  }

  lemma AgreeMember(s: Store, id: string)
    requires ById(s, id).Some? && Agree(s, id)
    ensures id in Members(s, ById(s, id).value.userId)
  {
  }

  lemma ResolvedIsLive(s: Store, token: string)
    requires ByToken(s, token).Some?
    ensures ById(s, s.refresh[token].value) == ByToken(s, token)
  {
  }

  /** A purge can only take tokens away: those whose session id is in the user's set, and those it found there. */
  lemma PurgeResolves(s: Store, user: string, missed: set<string>, token: string)
    ensures var s' := Purged(s, user, missed);
            && (ByToken(s', token).Some? ==> ByToken(s', token) == ByToken(s, token) && s.refresh[token].value !in Members(s, user))
            && (ByToken(s, token).Some? && s.refresh[token].value !in Members(s, user) ==>
                  token !in TokensOf(s, Members(s, user), missed) ==> ByToken(s', token) == ByToken(s, token))
  {
    hide TokensOf;
  }

  /** Logout reports success although the token stays usable exactly when reading the token failed. */
  lemma LogoutReportExact(states: seq<Store>, actions: seq<Action>, i: nat, token: string, getOk: bool, setOk: bool)
    requires IsRun(states, actions) && i < |states| && Accepts(states[i], token)
    ensures var reported := !getOk || ByToken(states[i], token).None? || setOk;
            var s' := Next(states[i], Logout(token, getOk, setOk));
            reported ==> (Accepts(s', token) <==> !getOk)
  {
    StoreMirrorsHistory(states, actions, i);
    var j := ResolvesToIssuer(states, actions, i, token);
  }
}

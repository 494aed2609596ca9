/** The Redis session store (sessions by id, ids by refresh token, ids by user, each with its own
    expiry) and the authentication service on top of it. */
module SessionStore {
  import opened Common

  datatype Session = Session(id: string, userId: string, refreshToken: string, userAgent: string, ipAddress: string,
                             expiresAt: int, createdAt: int, revoked: bool)

  datatype Cell<T> = Cell(value: T, expiry: Expiry)

  /** The three key families session:<id>, refresh:<token> and user:<id>:sessions, and the clock. */
  datatype Store = Store(now: int, sessions: map<string, Cell<Session>>, refresh: map<string, Cell<string>>,
                         users: map<string, Cell<set<string>>>)

  const HOUR: int := 3600
  const WEEK: int := 7 * 24 * HOUR
  const MONTH: int := 30 * 24 * HOUR

  const EMPTY: Store := Store(0, map[], map[], map[])

  predicate Live<T>(c: Cell<T>, now: int) { c.expiry.Never? || now < c.expiry.t }

  /** SET with a duration: a duration that is not positive sets no expiry. */
  function ExpiryFor(now: int, expiresAt: int): Expiry { if expiresAt > now then At(expiresAt) else Never }

  function IsValid(s: Session, now: int): bool { !s.revoked && now < s.expiresAt }

  // ---------------------------------------------------------------- store operations

  function Members(s: Store, user: string): set<string> {
    if user in s.users && Live(s.users[user], s.now) then s.users[user].value else {}
  }

  function Created(s: Store, sess: Session): Store {
    var e := ExpiryFor(s.now, sess.expiresAt);
    s.(sessions := s.sessions[sess.id := Cell(sess, e)],
       refresh := s.refresh[sess.refreshToken := Cell(sess.id, e)],
       users := s.users[sess.userId := Cell(Members(s, sess.userId) + {sess.id}, At(s.now + MONTH))])
  }

  function ById(s: Store, id: string): Option<Session> {
    if id in s.sessions && Live(s.sessions[id], s.now) then Some(s.sessions[id].value) else None
  }

  function ByToken(s: Store, token: string): Option<Session> {
    if token in s.refresh && Live(s.refresh[token], s.now) then ById(s, s.refresh[token].value) else None
  }

  function Updated(s: Store, sess: Session): Store {
    s.(sessions := s.sessions[sess.id := Cell(sess, ExpiryFor(s.now, sess.expiresAt))])
  }

  /** The refresh tokens found for the ids whose lookup did not fail. */
  function TokensOf(s: Store, ids: set<string>, missed: set<string>): set<string> {
    set id | id in ids && id !in missed && ById(s, id).Some? :: ById(s, id).value.refreshToken
  }

  /** DeleteByUserID with no other call between its read of the set and its pipeline. */
  function Purged(s: Store, user: string, missed: set<string>): Store { PurgedOf(s, user, Members(s, user), missed) }

  /** Its pipeline, for the ids it read before. */
  function PurgedOf(s: Store, user: string, ids: set<string>, missed: set<string>): Store {
    if ids == {} then s
    else s.(sessions := s.sessions - ids, refresh := s.refresh - TokensOf(s, ids, missed), users := s.users - {user})
  }

  lemma NoTokens(s: Store, missed: set<string>)
    ensures TokensOf(s, {}, missed) == {}
  {
  }

  lemma OneMoreToken(s: Store, ids: set<string>, id: string, missed: set<string>)
    ensures TokensOf(s, ids + {id}, missed)
         == TokensOf(s, ids, missed) + (if id !in missed && ById(s, id).Some? then {ById(s, id).value.refreshToken} else {})
  {
  }

  /** DEL of a raw key. */
  function DeleteKey(s: Store, key: string): Store {
    s.(sessions := map id | id in s.sessions && "session:" + id != key :: s.sessions[id],
       refresh := map t | t in s.refresh && "refresh:" + t != key :: s.refresh[t],
       users := map u | u in s.users && "user:" + u + ":sessions" != key :: s.users[u])
  }

  /** Delete(id) uses the id itself as the key, so it never removes the session it is given. */
  lemma DeleteMissesSession(s: Store, id: string)
    ensures ById(DeleteKey(s, id), id) == ById(s, id)
  {
    assert |"session:" + id| != |id|;
  }

  class RedisSessionStore {
    var now: int
    var sessions: map<string, Cell<Session>>
    var refresh: map<string, Cell<string>>
    var users: map<string, Cell<set<string>>>

    constructor ()
      ensures Abs() == EMPTY
    {
      now, sessions, refresh, users := 0, map[], map[], map[];
    }

    function Abs(): Store reads this { Store(now, sessions, refresh, users) }

    method Create(sess: Session, execOk: bool) returns (ok: bool)
      modifies this
      ensures ok == execOk
      ensures Abs() == if ok then Created(old(Abs()), sess) else old(Abs())
      // the session resolves by id and by token for as long as it lives, and its owner's set for 30 days
      ensures ok ==> ById(Abs(), sess.id) == Some(sess) && ByToken(Abs(), sess.refreshToken) == Some(sess)
      ensures ok ==> Members(Abs(), sess.userId) == Members(old(Abs()), sess.userId) + {sess.id}
      ensures ok ==> users[sess.userId].expiry == At(now + 30 * 24 * 3600)
      ensures ok ==> sessions[sess.id].expiry == refresh[sess.refreshToken].expiry
                                              == (if sess.expiresAt > now then At(sess.expiresAt) else Never)
    {
      if !execOk { return false; }
      var e := ExpiryFor(now, sess.expiresAt);
      sessions := sessions[sess.id := Cell(sess, e)];
      refresh := refresh[sess.refreshToken := Cell(sess.id, e)];
      var members := if sess.userId in users && Live(users[sess.userId], now) then users[sess.userId].value else {};
      users := users[sess.userId := Cell(members + {sess.id}, At(now + MONTH))];
      return true;
    }

    method GetByID(id: string) returns (r: Option<Session>)
      ensures r == ById(Abs(), id)
      ensures r.Some? <==> id in sessions && (sessions[id].expiry == Never || now < sessions[id].expiry.t)
      ensures r.Some? ==> r.value == sessions[id].value
    {
      if id in sessions && Live(sessions[id], now) { return Some(sessions[id].value); }
      return None;
    }

    method GetByRefreshToken(token: string) returns (r: Option<Session>)
      ensures r == ByToken(Abs(), token)
      ensures r.Some? ==> token in refresh && (refresh[token].expiry == Never || now < refresh[token].expiry.t)
      ensures token in refresh && (refresh[token].expiry == Never || now < refresh[token].expiry.t) ==> r == ById(Abs(), refresh[token].value)
    {
      if token !in refresh || !Live(refresh[token], now) { return None; }
      r := GetByID(refresh[token].value);
    }

    method Update(sess: Session, setOk: bool) returns (ok: bool)
      modifies this`sessions
      ensures ok == setOk
      ensures Abs() == if ok then Updated(old(Abs()), sess) else old(Abs())
    {
      if setOk { sessions := sessions[sess.id := Cell(sess, ExpiryFor(now, sess.expiresAt))]; }
      return setOk;
    }

    /** The loop of DeleteByUserID: looks up the tokens of the ids, as far as the lookups succeed. */
    method CollectTokens(ids: set<string>, missed: set<string>) returns (tokens: set<string>)
      ensures tokens == TokensOf(Abs(), ids, missed)
    {
      hide TokensOf, ById;
      var rest, done := ids, {};
      tokens := {};
      NoTokens(Abs(), missed);
      while rest != {}
        invariant rest <= ids && done == ids - rest && tokens == TokensOf(Abs(), done, missed)
        decreases |rest|
      {
        var id :| id in rest;
        var sess := GetByID(id);
        OneMoreToken(Abs(), done, id, missed);
        if id !in missed && sess.Some? { tokens := tokens + {sess.value.refreshToken}; }
        rest, done := rest - {id}, done + {id};
      }
      assert done == ids;
    }

    /** SMEMBERS, the first half of DeleteByUserID. */
    method ReadMembers(user: string) returns (ids: set<string>)
      ensures ids == Members(Abs(), user)
      ensures forall id :: id in ids <==>
                user in users && (users[user].expiry == Never || now < users[user].expiry.t) && id in users[user].value
    {
      ids := if user in users && Live(users[user], now) then users[user].value else {};
    }

    /** Its second half: the look-ups and the pipeline, for the ids that were read. `missed` are those whose best-effort
        look-up fails. */
    method DeleteSessions(user: string, ids: set<string>, missed: set<string>, execOk: bool) returns (ok: bool)
      modifies this
      ensures ok == (execOk || ids == {})
      ensures Abs() == if ok then PurgedOf(old(Abs()), user, ids, missed) else old(Abs())
      // gone: the sessions, the refresh keys of those that were found, the set; every other key stays
      ensures ok && ids != {} ==>
                && (forall id :: id in sessions <==> id in old(sessions) && id !in ids)
                && (forall t :: t in refresh <==> t in old(refresh) && t !in TokensOf(old(Abs()), ids, missed))
                && (forall u :: u in users <==> u in old(users) && u != user)
    {
      if ids == {} { return true; }
      var tokens := CollectTokens(ids, missed);
      if !execOk { return false; }
      sessions, refresh, users := sessions - ids, refresh - tokens, users - {user};
      return true;
    }

    /** Both halves with nothing in between. */
    method DeleteByUserID(user: string, membersOk: bool, missed: set<string>, execOk: bool) returns (ok: bool)
      modifies this
      ensures ok == (membersOk && (execOk || Members(old(Abs()), user) == {}))
      ensures Abs() == if ok then Purged(old(Abs()), user, missed) else old(Abs())
    {
      if !membersOk { return false; }
      var ids := ReadMembers(user);
      ok := DeleteSessions(user, ids, missed, execOk);
    }
  }
}

/** The check cache in front of the relationship store: entries live for a fixed time, are written by
    detached goroutines, and are never invalidated by tuple writes or deletes. */
module PolicyCache {
  import opened Common
  import opened PolicyGraph

  datatype Query = Query(subject: string, relation: string, obj: string)

  datatype Entry = Entry(granted: bool, expiresAt: int)

  /** A cache write started at `since` and not yet carried out. */
  datatype PendingSet = PendingSet(key: string, granted: bool, since: int)

  datatype State = State(now: int, rows: seq<Row>, cache: map<string, Entry>, pending: seq<PendingSet>)

  /** `redisUp`, `queryOk` and `ok` say whether the calls to Redis and to the database succeed;
      `FinishSet(i, ok)` is the i-th outstanding goroutine running to its end. */
  datatype Action =
    | Check(q: Query, redisUp: bool, queryOk: bool)
    | FinishSet(i: nat, ok: bool)
    | Write(t: Tuple, ok: bool)
    | Remove(t: Tuple, ok: bool)
    | Tick(d: nat)

  // ---------------------------------------------------------------- cache keys

  function Key(q: Query): string { PREFIX + q.subject + ":" + q.relation + ":" + q.obj }

  predicate ColonFree(s: string) { ':' !in s }

  /** Subject and object are type:id; the store answers only such queries. */
  predicate Parsable(q: Query) { ParseEntity(q.subject).Some? && ParseEntity(q.obj).Some? }

  /** And no id or relation contains a colon. */
  predicate WellFormed(q: Query) {
    && Parsable(q) && ColonFree(q.relation)
    && ColonFree(ParseEntity(q.subject).value.id) && ColonFree(ParseEntity(q.obj).value.id)
  }

  lemma FirstField(a: string, x: string, b: string, y: string)
    requires ColonFree(a) && ColonFree(b) && a + ":" + x == b + ":" + y
    ensures a == b && x == y
  {
    var s := a + ":" + x;
    assert s[|a|] == ':' && s[|b|] == ':';
    assert a == s[..|a|] && b == s[..|b|];
    assert x == s[|a| + 1..] && y == s[|b| + 1..];
  }

  const PREFIX: string := "policy:check:"

  lemma KeyFields(q: Query) returns (e: PolicyGraph.Entity)
    requires WellFormed(q)
    ensures q.subject == e.kind + ":" + e.id && ColonFree(e.kind) && ColonFree(e.id)
    ensures Key(q) == PREFIX + (e.kind + ":" + (e.id + ":" + (q.relation + ":" + q.obj)))
  {
    e := ParseEntity(q.subject).value;
    ParseExact(q.subject, e);
  }

  function Colons(s: string): nat {
    if s == [] then 0 else (if s[0] == ':' then 1 else 0) + Colons(s[1..])
  }

  lemma {:induction false} ColonsConcat(s: string, t: string)
    ensures Colons(s + t) == Colons(s) + Colons(t)
  {
    if s == [] {
      assert s + t == t;
    } else {
      ColonsConcat(s[1..], t);
      assert (s + t)[1..] == s[1..] + t;
    }
  }

  lemma {:induction false} NoColons(s: string)
    ensures Colons(s) == 0 <==> ColonFree(s)
  {
    if s != [] {
      NoColons(s[1..]);
      assert s == [s[0]] + s[1..];
    }
  }

  /** The colons of type:id are one more than those of its id. */
  lemma EntityColons(s: string)
    requires ParseEntity(s).Some?
    ensures Colons(s) == 1 + Colons(ParseEntity(s).value.id)
  {
    hide Colons, ParseEntity;
    var e := ParseEntity(s).value;
    ParseExact(s, e);
    FieldColons(e.kind, e.id);
    NoColons(e.kind);
  }

  lemma FieldColons(a: string, b: string)
    ensures Colons(a + ":" + b) == Colons(a) + 1 + Colons(b)
  {
    ColonsConcat(a + ":", b);
    ColonsConcat(a, ":");
    assert ":"[1..] == "";
  }

  /** Beyond the prefix, the key of a parsable query has at least four colons, and exactly four when it is well formed. */
  lemma KeyColons(q: Query)
    requires Parsable(q)
    ensures Colons(Key(q)) >= Colons(PREFIX) + 4
    ensures Colons(Key(q)) == Colons(PREFIX) + 4 <==> WellFormed(q)
  {
    hide Colons, ParseEntity;
    EntityColons(q.subject);
    EntityColons(q.obj);
    FieldColons(PREFIX + q.subject + ":" + q.relation, q.obj);
    FieldColons(PREFIX + q.subject, q.relation);
    ColonsConcat(PREFIX, q.subject);
    NoColons(q.relation);
    NoColons(ParseEntity(q.subject).value.id);
    NoColons(ParseEntity(q.obj).value.id);
  }

  /** Among the queries the store answers, only the query itself has the key of a well-formed one. */
  lemma KeyInjective(p: Query, q: Query)
    requires Parsable(p) && WellFormed(q) && Key(p) == Key(q)
    ensures p == q
  {
    hide Key, ParseEntity, Colons;
    KeyColons(p);
    KeyColons(q);
    var ps := KeyFields(p);
    var qs := KeyFields(q);
    var p1, q1 := ps.id + ":" + (p.relation + ":" + p.obj), qs.id + ":" + (q.relation + ":" + q.obj);
    SamePrefix(ps.kind + ":" + p1, qs.kind + ":" + q1);
    FirstField(ps.kind, p1, qs.kind, q1);
    FirstField(ps.id, p.relation + ":" + p.obj, qs.id, q.relation + ":" + q.obj);
    FirstField(p.relation, p.obj, q.relation, q.obj);
  }

  lemma SplitAtColon(s: string) returns (a: string, b: string)
    requires !ColonFree(s)
    ensures s == a + ":" + b
  {
    var i :| 0 <= i < |s| && s[i] == ':';
    a, b := s[..i], s[i + 1..];
  }

  lemma HasColon(a: string, b: string)
    ensures ParseEntity(a + ":" + b).Some?
  {
    ParseExact(a + ":" + b, PolicyGraph.Entity(a, b));
    assert (a + ":" + b)[|a|] == ':';
  }

  /** Every other query the store answers shares its key with a different one: the colon too many can also be read as a
      separator. */
  lemma KeyTwin(p: Query) returns (q: Query)
    requires Parsable(p) && !WellFormed(p)
    ensures Parsable(q) && q != p && Key(q) == Key(p)
  {
    hide ParseEntity;
    if !ColonFree(p.relation) {
      var a, b := SplitAtColon(p.relation);
      q := Query(p.subject + ":" + a, b, p.obj);
      HasColon(p.subject, a);
      assert |q.subject| > |p.subject|;
      SameText(PREFIX + p.subject, a, b, ":" + p.obj);
    } else if !ColonFree(ParseEntity(p.subject).value.id) {
      var e := ParseEntity(p.subject).value;
      ParseExact(p.subject, e);
      var a, b := SplitAtColon(e.id);
      q := Query(e.kind + ":" + a, b + ":" + p.relation, p.obj);
      HasColon(e.kind, a);
      assert |q.relation| > |p.relation|;
      assert p.subject == e.kind + ":" + a + ":" + b;
      assert Key(q) == PREFIX + (e.kind + ":" + a + ":" + b + ":" + p.relation + ":" + p.obj) == Key(p);
    } else {
      var e := ParseEntity(p.obj).value;
      ParseExact(p.obj, e);
      var a, b := SplitAtColon(e.id);
      q := Query(p.subject, p.relation + ":" + e.kind, e.id);
      HasColon(a, b);
      assert |q.relation| > |p.relation|;
      assert Key(q) == PREFIX + p.subject + ":" + p.relation + ":" + (e.kind + ":" + e.id) == Key(p);
    }
  }

  lemma SameText(s: string, a: string, b: string, t: string)
    ensures s + ":" + (a + ":" + b) + t == s + ":" + a + ":" + b + t
  {
  }

  /** The key tells a query apart from every other one the store answers if and only if it is well formed. */
  lemma KeyUnambiguousExactly(p: Query)
    requires Parsable(p)
    ensures (forall q :: Parsable(q) && Key(q) == Key(p) ==> q == p) <==> WellFormed(p)
  {
    hide Key, Parsable, WellFormed;
    if WellFormed(p) {
      forall q | Parsable(q) && Key(q) == Key(p) ensures q == p { KeyInjective(q, p); }
    } else {
      var q := KeyTwin(p);
    }
  }

  lemma SamePrefix(x: string, y: string)
    requires PREFIX + x == PREFIX + y
    ensures x == y
  {
    assert x == (PREFIX + x)[|PREFIX|..] && y == (PREFIX + y)[|PREFIX|..];
  }

  // ---------------------------------------------------------------- the steps

  function Truth(s: State, q: Query): Answer { CheckRows(s.rows, q.subject, q.relation, q.obj) }

  /** What the truth is: a walk of at most 10 edges. */
  lemma TruthExact(s: State, q: Query, sub: PolicyGraph.Entity, o: PolicyGraph.Entity)
    requires IsText(q.subject, sub) && IsText(q.obj, o)
    ensures Truth(s, q) == Allowed(ShortWalk(s.rows, o, q.relation, sub))
  {
    hide CheckRows, ShortWalk, IsText;
    CheckExact(s.rows, q.subject, q.relation, q.obj);
  }

  predicate Hit(s: State, q: Query) { Key(q) in s.cache && s.now < s.cache[Key(q)].expiresAt }

  /** The delegate parses before it queries, so a malformed entity is reported even when the query would fail. */
  function FromDelegate(s: State, q: Query, queryOk: bool): Answer {
    if Truth(s, q).InvalidEntity? || queryOk then Truth(s, q) else StoreError
  }

  function Serve(s: State, q: Query, redisUp: bool, queryOk: bool): Answer {
    if redisUp && Hit(s, q) then Allowed(s.cache[Key(q)].granted) else FromDelegate(s, q, queryOk)
  }

  function RemoveAt<T>(s: seq<T>, i: nat): seq<T>
    requires i < |s|
  {
    s[..i] + s[i + 1..]
  }

  function Next(s: State, a: Action, ttl: int): State {
    match a
    case Check(q, redisUp, queryOk) =>
      var answer := FromDelegate(s, q, queryOk);
      if (redisUp && Hit(s, q)) || !answer.Allowed? then s
      else s.(pending := s.pending + [PendingSet(Key(q), answer.granted, s.now)])
    case FinishSet(i, ok) =>
      if i >= |s.pending| then s
      else
        var p := s.pending[i];
        s.(pending := RemoveAt(s.pending, i), cache := if ok then s.cache[p.key := Entry(p.granted, s.now + ttl)] else s.cache)
    case Write(t, ok) => if RowOf(t).Some? && ok then s.(rows := Insert(s.rows, RowOf(t).value)) else s
    case Remove(t, ok) => if RowOf(t).Some? && ok then s.(rows := Delete(s.rows, RowOf(t).value)) else s
    case Tick(d) => s.(now := s.now + d)
  }

  class CachedPolicyRepository {
    const delegate: PolicyRepository
    const ttl: int
    var cache: map<string, Entry>
    var pending: seq<PendingSet>
    var now: int

    constructor (delegate: PolicyRepository, ttl: int)
      ensures this.delegate == delegate && this.ttl == ttl && cache == map[] && pending == []
    {
      this.delegate := delegate;
      this.ttl := ttl;
      cache, pending, now := map[], [], 0;
    }

    ghost function Abs(): State reads this, delegate { State(now, delegate.rows, cache, pending) }

    method Check(subject: string, relation: string, obj: string, redisUp: bool, queryOk: bool) returns (a: Answer)
      modifies this`pending
      ensures a == Serve(old(Abs()), Query(subject, relation, obj), redisUp, queryOk)
      ensures Abs() == Next(old(Abs()), Action.Check(Query(subject, relation, obj), redisUp, queryOk), ttl)
      // without a readable live entry the answer is the store's, and an answer, granted or not, starts one cache write
      ensures !(redisUp && Hit(old(Abs()), Query(subject, relation, obj))) ==>
                forall s: PolicyGraph.Entity, o: PolicyGraph.Entity :: IsText(subject, s) && IsText(obj, o) ==>
                  a == if queryOk then Allowed(ShortWalk(delegate.rows, o, relation, s)) else StoreError
      ensures pending == old(pending) + if a.Allowed? && !(redisUp && Hit(old(Abs()), Query(subject, relation, obj)))
                                        then [PendingSet(Key(Query(subject, relation, obj)), a.granted, now)] else []
    {
      var key := Key(Query(subject, relation, obj));
      if redisUp && key in cache && now < cache[key].expiresAt {
        return Allowed(cache[key].granted);
      }
      a := delegate.Check(subject, relation, obj, queryOk);
      if !a.Allowed? { return; }
      pending := pending + [PendingSet(key, a.granted, now)];
    }

    method FinishSet(i: nat, ok: bool)
      requires i < |pending|
      modifies this`pending, this`cache
      ensures Abs() == Next(old(Abs()), Action.FinishSet(i, ok), ttl)
    {
      var p := pending[i];
      pending := RemoveAt(pending, i);
      if ok { cache := cache[p.key := Entry(p.granted, now + ttl)]; }
    }

    method WriteTuple(t: Tuple, execOk: bool) returns (ok: bool)
      requires delegate.Valid()
      modifies delegate
      ensures delegate.Valid() && Abs() == Next(old(Abs()), Write(t, execOk), ttl)
    {
      ok := delegate.WriteTuple(t, execOk);
    }

    method DeleteTuple(t: Tuple, execOk: bool) returns (ok: bool)
      requires delegate.Valid()
      modifies delegate
      ensures delegate.Valid() && Abs() == Next(old(Abs()), Remove(t, execOk), ttl)
    {
      ok := delegate.DeleteTuple(t, execOk);
    }
  }

  /** An answer that a miss computed, granted or denied, is served without the store exactly for ttl after its write. */
  lemma ReadBackExactly(s: State, q: Query, ttl: int, delay: nat, d: nat)
    requires s.pending == [] && Truth(s, q).Allowed? && ttl > 0
    ensures var s1 := Next(Next(s, Check(q, false, true), ttl), Tick(delay), ttl);
            var s2 := Next(Next(s1, FinishSet(0, true), ttl), Tick(d), ttl);
            Serve(s2, q, true, false) == if d < ttl then Truth(s, q) else StoreError
    ensures Serve(s, q, false, true) == Truth(s, q) && Serve(s, q, false, false) == StoreError
  {
    hide CheckRows, Key;
  }

  // ---------------------------------------------------------------- runs

  /** A run from an empty cache, in which a cache write that takes effect does so at most `delay` after the answer it
      carries was computed. */
  ghost predicate IsRun(states: seq<State>, actions: seq<Action>, ttl: int, delay: int) {
    && |states| == |actions| + 1
    && states[0].cache == map[] && states[0].pending == []
    && (forall i :: 0 <= i < |actions| ==> states[i + 1] == Next(states[i], actions[i], ttl) && Fits(states[i], actions[i], delay))
  }

  ghost predicate Fits(s: State, a: Action, delay: int) {
    a.FinishSet? ==> a.i < |s.pending| && (a.ok ==> s.now - s.pending[a.i].since <= delay)
  }

  /** At some instant of the run up to state `i`, not before `since`, the true answer was `granted`. */
  ghost predicate WasTrue(states: seq<State>, i: nat, q: Query, granted: bool, since: int)
    requires i < |states|
  {
    exists j :: 0 <= j <= i && Truth(states[j], q) == Allowed(granted) && since <= states[j].now
  }

  ghost predicate CacheBacked(states: seq<State>, i: nat, horizon: int)
    requires i < |states|
  {
    forall q :: WellFormed(q) && Key(q) in states[i].cache ==>
      WasTrue(states, i, q, states[i].cache[Key(q)].granted, states[i].cache[Key(q)].expiresAt - horizon)
  }

  ghost predicate PendingBacked(states: seq<State>, i: nat)
    requires i < |states|
  {
    forall m, q :: 0 <= m < |states[i].pending| && WellFormed(q) && Key(q) == states[i].pending[m].key ==>
      WasTrue(states, i, q, states[i].pending[m].granted, states[i].pending[m].since)
  }

  lemma WasTrueLater(states: seq<State>, i: nat, k: nat, q: Query, granted: bool, since: int)
    requires i <= k < |states| && WasTrue(states, i, q, granted, since)
    ensures WasTrue(states, k, q, granted, since)
  {
  }

  lemma {:induction false} PendingStep(states: seq<State>, actions: seq<Action>, ttl: int, delay: int, i: nat)
    requires IsRun(states, actions, ttl, delay) && i < |actions| && PendingBacked(states, i)
    ensures PendingBacked(states, i + 1)
  {
    hide WasTrue, Truth, Key, WellFormed;
    var s, s', a := states[i], states[i + 1], actions[i];
    assert s' == Next(s, a, ttl) && Fits(s, a, delay);
    forall m, q | 0 <= m < |s'.pending| && WellFormed(q) && Key(q) == s'.pending[m].key
      ensures WasTrue(states, i + 1, q, s'.pending[m].granted, s'.pending[m].since)
    {
      var p := s'.pending[m];
      if m' :| 0 <= m' < |s.pending| && s.pending[m'] == p {
        WasTrueLater(states, i, i + 1, q, p.granted, p.since);
      } else {
        NewPending(s, a, ttl, m);
        AnsweredIsParsable(s, a.q);
        KeyInjective(a.q, q);
        TrueNow(states, i, q, p.granted);
        WasTrueLater(states, i, i + 1, q, p.granted, p.since);
      }
    }
  }

  lemma AnsweredIsParsable(s: State, q: Query)
    requires Truth(s, q).Allowed?
    ensures Parsable(q)
  {
  }

  lemma TrueNow(states: seq<State>, i: nat, q: Query, granted: bool)
    requires i < |states| && Truth(states[i], q) == Allowed(granted)
    ensures WasTrue(states, i, q, granted, states[i].now)
  {
  }

  /** A pending write that was not there before carries the delegate's answer of this very step. */
  lemma NewPending(s: State, a: Action, ttl: int, m: nat)
    requires m < |Next(s, a, ttl).pending| && Next(s, a, ttl).pending[m] !in s.pending
    ensures a.Check? && Next(s, a, ttl).pending[m] == PendingSet(Key(a.q), Truth(s, a.q).granted, s.now) && Truth(s, a.q).Allowed?
  {
    hide Truth, Key, Hit;
  }

  lemma {:induction false} CacheStep(states: seq<State>, actions: seq<Action>, ttl: int, delay: int, i: nat)
    requires IsRun(states, actions, ttl, delay) && i < |actions| && PendingBacked(states, i)
    requires CacheBacked(states, i, ttl + delay)
    ensures CacheBacked(states, i + 1, ttl + delay)
  {
    hide WasTrue, Truth, Key, WellFormed;
    var s, s', a := states[i], states[i + 1], actions[i];
    assert s' == Next(s, a, ttl) && Fits(s, a, delay);
    forall q | WellFormed(q) && Key(q) in s'.cache
      ensures WasTrue(states, i + 1, q, s'.cache[Key(q)].granted, s'.cache[Key(q)].expiresAt - (ttl + delay))
    {
      var e := s'.cache[Key(q)];
      if Key(q) in s.cache && s.cache[Key(q)] == e {
        WasTrueLater(states, i, i + 1, q, e.granted, e.expiresAt - (ttl + delay));
      } else {
        var p := s.pending[a.i];
        assert Key(q) == p.key && e == Entry(p.granted, s.now + ttl);
        WasTrueLater(states, i, i + 1, q, p.granted, p.since);
        WasTrueEarlier(states, i + 1, q, p.granted, p.since, e.expiresAt - (ttl + delay));
      }
    }
  }

  lemma WasTrueEarlier(states: seq<State>, i: nat, q: Query, granted: bool, since: int, earlier: int)
    requires i < |states| && WasTrue(states, i, q, granted, since) && earlier <= since
    ensures WasTrue(states, i, q, granted, earlier)
  {
  }

  lemma {:induction false} AlwaysBacked(states: seq<State>, actions: seq<Action>, ttl: int, delay: int, i: nat)
    requires IsRun(states, actions, ttl, delay) && i < |states|
    ensures CacheBacked(states, i, ttl + delay) && PendingBacked(states, i)
  {
    hide WasTrue;
    if i > 0 {
      AlwaysBacked(states, actions, ttl, delay, i - 1);
      CacheStep(states, actions, ttl, delay, i - 1);
      PendingStep(states, actions, ttl, delay, i - 1);
    }
  }

  /** Every answer a check serves to a well-formed query, cached or not, was the delegate's true answer less than
      ttl + delay ago, over all interleavings of checks of any queries, delayed and lost cache writes, tuple writes,
      deletes and ticks. */
  lemma {:induction false} BoundedStaleness(states: seq<State>, actions: seq<Action>, ttl: int, delay: nat, i: nat)
    requires IsRun(states, actions, ttl, delay) && ttl > 0
    requires i < |actions| && actions[i].Check? && WellFormed(actions[i].q)
    requires Serve(states[i], actions[i].q, actions[i].redisUp, actions[i].queryOk).Allowed?
    ensures var answer := Serve(states[i], actions[i].q, actions[i].redisUp, actions[i].queryOk);
            exists j :: 0 <= j <= i && Truth(states[j], actions[i].q) == answer && states[i].now - states[j].now < ttl + delay
  {
    hide Truth, Key, WellFormed;
    AlwaysBacked(states, actions, ttl, delay, i);
    var s, q := states[i], actions[i].q;
    if actions[i].redisUp && Hit(s, q) {
      var e := s.cache[Key(q)];
      assert WasTrue(states, i, q, e.granted, e.expiresAt - (ttl + delay));
      var j :| 0 <= j <= i && Truth(states[j], q) == Allowed(e.granted) && e.expiresAt - (ttl + delay) <= states[j].now;
    } else {
      assert Truth(states[i], q) == Serve(s, q, actions[i].redisUp, actions[i].queryOk);
    }
  }

  /** The steps of a run that ends with the check of a grant deleted `delay` before its answer reached the cache. */
  function StaleActions(t: Tuple, delay: nat, d: nat): seq<Action> {
    var q := Query(t.subject, t.relation, t.obj);
    [Write(t, true), Check(q, true, true), Remove(t, true), Tick(delay), FinishSet(0, true), Tick(d), Check(q, true, true)]
  }

  lemma WriteStep(s: State, t: Tuple, ttl: int)
    requires s.rows == [] && RowOf(t).Some?
    ensures Next(s, Write(t, true), ttl) == s.(rows := [RowOf(t).value])
  {
    hide RowOf;
    assert Insert([], RowOf(t).value) == [RowOf(t).value];
  }

  lemma MissStep(s: State, q: Query, ttl: int)
    requires s.cache == map[] && s.pending == [] && Truth(s, q) == Allowed(true)
    ensures Next(s, Check(q, true, true), ttl) == s.(pending := [PendingSet(Key(q), true, s.now)])
  {
    hide Truth, Key;
  }

  lemma RemoveStep(s: State, t: Tuple, ttl: int)
    requires RowOf(t).Some? && s.rows == [RowOf(t).value]
    ensures Next(s, Remove(t, true), ttl) == s.(rows := [])
  {
    hide RowOf, Delete;
    OneTupleGrants(RowOf(t).value);
  }

  lemma TickStep(s: State, d: nat, ttl: int)
    ensures Next(s, Tick(d), ttl) == s.(now := s.now + d)
  {
  }

  lemma SetStep(s: State, p: PendingSet, ttl: int)
    requires s.cache == map[] && s.pending == [p]
    ensures Next(s, FinishSet(0, true), ttl) == s.(pending := [], cache := map[p.key := Entry(p.granted, s.now + ttl)])
  {
  }

  lemma HitStep(s: State, q: Query, ttl: int)
    requires Hit(s, q)
    ensures Next(s, Check(q, true, true), ttl) == s && Serve(s, q, true, true) == Allowed(s.cache[Key(q)].granted)
  {
    hide Key, Truth;
  }

  /** A store of one tuple grants its query, an empty store does not. */
  lemma TupleTruth(t: Tuple)
    requires RowOf(t).Some?
    ensures var q := Query(t.subject, t.relation, t.obj);
            forall s: State :: (s.rows == [RowOf(t).value] ==> Truth(s, q) == Allowed(true))
                            && (s.rows == [] ==> Truth(s, q) == Allowed(false))
  {
    hide Granted, ParseEntity;
    OneTupleGrants(RowOf(t).value);
  }

  lemma IsRunFrom(states: seq<State>, actions: seq<Action>, ttl: int, delay: int)
    requires |states| == |actions| + 1 && states[0].cache == map[] && states[0].pending == []
    requires forall i :: 0 <= i < |actions| ==> states[i + 1] == Next(states[i], actions[i], ttl)
    requires forall i :: 0 <= i < |actions| ==> Fits(states[i], actions[i], delay)
    ensures IsRun(states, actions, ttl, delay)
  {
    hide Next;
  }

  /** The states that run goes through. */
  function StaleStates(s: State, q: Query, r: Row, ttl: int, delay: nat): seq<State> {
    var p, cache := PendingSet(Key(q), true, s.now), map[Key(q) := Entry(true, s.now + delay + ttl)];
    [s, s.(rows := [r]), s.(rows := [r], pending := [p]), s.(pending := [p]), s.(pending := [p], now := s.now + delay),
     s.(cache := cache, now := s.now + delay), s.(cache := cache, now := s.now + delay + (ttl - 1)),
     s.(cache := cache, now := s.now + delay + (ttl - 1))]
  }

  /** The bound is reached: the answer served last is the one of ttl + delay - 1 ago, and it has been wrong ever since. */
  lemma {:induction false} BoundReached(s: State, t: Tuple, ttl: int, delay: nat) returns (states: seq<State>, actions: seq<Action>, q: Query)
    requires s.cache == map[] && s.pending == [] && s.rows == [] && RowOf(t).Some? && ttl > 0
    ensures |actions| == 7 && |states| == 8 && states[0] == s && IsRun(states, actions, ttl, delay) && actions[6] == Check(q, true, true)
    ensures Serve(states[6], q, true, true) == Allowed(true)
    ensures forall j :: 0 <= j <= 6 && Truth(states[j], q) == Allowed(true) ==> states[6].now - states[j].now == ttl + delay - 1
  {
    hide Granted, ParseEntity, Delete, Key, Next, Truth, RowOf, Serve, IsRun;
    var r := RowOf(t).value;
    q := Query(t.subject, t.relation, t.obj);
    actions, states := StaleActions(t, delay, ttl - 1), StaleStates(s, q, r, ttl, delay);
    TupleTruth(t);
    WriteStep(s, t, ttl);
    MissStep(states[1], q, ttl);
    RemoveStep(states[2], t, ttl);
    TickStep(states[3], delay, ttl);
    SetStep(states[4], states[4].pending[0], ttl);
    TickStep(states[5], ttl - 1, ttl);
    HitStep(states[6], q, ttl);
    IsRunFrom(states, actions, ttl, delay);
    assert forall j :: 3 <= j <= 6 ==> states[j].rows == [];
    assert forall j :: 0 <= j <= 6 && Truth(states[j], q) == Allowed(true) ==> states[6].now - states[j].now == ttl + delay - 1;
  }

  lemma OneTupleGrants(r: Row)
    ensures Granted([r], r.subject, r.relation, r.entity)
    ensures Delete([r], r) == [] && !Granted([], r.subject, r.relation, r.entity)
  {
    WriteOnlyGrants([], r, r.subject, r.relation, r.entity);
    assert Insert([], r) == [r];
    assert [r][1..] == [];
  }
}

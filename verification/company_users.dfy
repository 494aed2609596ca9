/** The company membership table and the Redis cache in front of it: one entry per (company, user) for the role,
    one per user for the list of memberships. */
module CompanyUsers {
  import opened Common

  datatype Role = Admin | Member | Viewer
  datatype Status = PendingMember | ActiveMember | RevokedMember

  datatype CompanyUser = CompanyUser(companyId: Uuid, userId: Uuid, role: Role, invitedBy: Uuid, joinedAt: int, status: Status)

  datatype Pair = Pair(company: Uuid, user: Uuid)

  /** What GetUserRole answers when no call fails. */
  datatype RoleAnswer = HasRole(role: Role) | NotMember

  // ---------------------------------------------------------------- the table

  /** (company_id, user_id) is the primary key. */
  predicate UniquePairs(rows: seq<CompanyUser>) {
    forall i, j :: 0 <= i < j < |rows| ==> KeyOf(rows[i]) != KeyOf(rows[j])
  }

  function KeyOf(r: CompanyUser): Pair { Pair(r.companyId, r.userId) }

  /** The row of a pair, if any. */
  predicate HasRow(rows: seq<CompanyUser>, p: Pair) { exists r :: r in rows && KeyOf(r) == p }

  /** SELECT role ... AND status = 'active'. */
  function RoleIn(rows: seq<CompanyUser>, p: Pair): RoleAnswer {
    if rows == [] then NotMember
    else if KeyOf(rows[0]) == p && rows[0].status.ActiveMember? then HasRole(rows[0].role)
    else RoleIn(rows[1..], p)
  }

  /** ORDER BY joined_at DESC: rows are kept in joining order. */
  function ListIn(rows: seq<CompanyUser>, user: Uuid): seq<CompanyUser> {
    if rows == [] then []
    else ListIn(rows[1..], user) + (if rows[0].userId == user then [rows[0]] else [])
  }

  function SetRow(rows: seq<CompanyUser>, p: Pair, f: CompanyUser -> CompanyUser): (r: seq<CompanyUser>)
    ensures |r| == |rows|
    ensures forall i :: 0 <= i < |rows| ==> r[i] == if KeyOf(rows[i]) == p then f(rows[i]) else rows[i]
  {
    if rows == [] then [] else [if KeyOf(rows[0]) == p then f(rows[0]) else rows[0]] + SetRow(rows[1..], p, f)
  }

  function DropRow(rows: seq<CompanyUser>, p: Pair): seq<CompanyUser> {
    if rows == [] then [] else (if KeyOf(rows[0]) == p then [] else [rows[0]]) + DropRow(rows[1..], p)
  }

  function TableRole(rows: seq<CompanyUser>, p: Pair): RoleAnswer { RoleIn(rows, p) }
  function TableList(rows: seq<CompanyUser>, user: Uuid): seq<CompanyUser> { ListIn(rows, user) }
  function WithRole(rows: seq<CompanyUser>, p: Pair, role: Role): seq<CompanyUser> { SetRow(rows, p, (r: CompanyUser) => r.(role := role)) }
  function WithStatus(rows: seq<CompanyUser>, p: Pair, st: Status): seq<CompanyUser> { SetRow(rows, p, (r: CompanyUser) => r.(status := st)) }
  function Without(rows: seq<CompanyUser>, p: Pair): seq<CompanyUser> { DropRow(rows, p) }

  // ---------------------------------------------------------------- what the list holds

  /** `at[k]` is where row `k` of the list stands in the table. */
  ghost predicate TakenAt(rows: seq<CompanyUser>, list: seq<CompanyUser>, at: seq<nat>) {
    |at| == |list| && forall k :: 0 <= k < |at| ==> at[k] < |rows| && list[k] == rows[at[k]]
  }

  ghost predicate Falling(at: seq<nat>) { forall k, l :: 0 <= k < l < |at| ==> at[k] > at[l] }

  ghost predicate Covers(rows: seq<CompanyUser>, user: Uuid, at: seq<nat>) {
    forall i :: 0 <= i < |rows| ==> (i in at <==> rows[i].userId == user)
  }

  /** `list` is the rows of the user, each exactly once, latest first. */
  ghost predicate Lists(rows: seq<CompanyUser>, user: Uuid, list: seq<CompanyUser>, at: seq<nat>) {
    TakenAt(rows, list, at) && Falling(at) && Covers(rows, user, at)
  }

  lemma {:induction false} ListExact(rows: seq<CompanyUser>, user: Uuid) returns (at: seq<nat>)
    ensures Lists(rows, user, TableList(rows, user), at)
  {
    if rows == [] {
      at := [];
    } else {
      var rest := ListExact(rows[1..], user);
      at := ListsCons(rows, user, TableList(rows[1..], user), rest);
    }
  }

  /** One more row in front of the table. */
  lemma ListsCons(rows: seq<CompanyUser>, user: Uuid, list: seq<CompanyUser>, rest: seq<nat>) returns (at: seq<nat>)
    requires rows != [] && Lists(rows[1..], user, list, rest)
    ensures Lists(rows, user, list + if rows[0].userId == user then [rows[0]] else [], at)
  {
    hide TakenAt, Falling, Covers;
    at := Shifted(rest) + if rows[0].userId == user then [0] else [];
    TakenCons(rows, list, rest);
    FallingCons(rest);
    CoversCons(rows, user, rest);
    assert rows[0].userId != user ==> at == Shifted(rest) && list + [] == list;
  }

  lemma TakenCons(rows: seq<CompanyUser>, list: seq<CompanyUser>, rest: seq<nat>)
    requires rows != [] && TakenAt(rows[1..], list, rest)
    ensures TakenAt(rows, list, Shifted(rest)) && TakenAt(rows, list + [rows[0]], Shifted(rest) + [0])
  {
    forall k | 0 <= k < |rest| ensures Shifted(rest)[k] < |rows| && list[k] == rows[Shifted(rest)[k]] {
      assert list[k] == rows[1..][rest[k]];
    }
  }

  lemma FallingCons(rest: seq<nat>)
    requires Falling(rest)
    ensures Falling(Shifted(rest)) && Falling(Shifted(rest) + [0])
  {
  }

  lemma CoversCons(rows: seq<CompanyUser>, user: Uuid, rest: seq<nat>)
    requires rows != [] && Covers(rows[1..], user, rest)
    ensures Covers(rows, user, Shifted(rest) + if rows[0].userId == user then [0] else [])
  {
    ShiftedHas(rest);
    hide Shifted;
    var at := Shifted(rest) + if rows[0].userId == user then [0] else [];
    forall i | 0 <= i < |rows| ensures i in at <==> rows[i].userId == user {
      if i > 0 { assert rows[i] == rows[1..][i - 1]; }
    }
  }

  function Shifted(s: seq<nat>): (r: seq<nat>)
    ensures |r| == |s| && forall k :: 0 <= k < |s| ==> r[k] == s[k] + 1
  {
    if s == [] then [] else [s[0] + 1] + Shifted(s[1..])
  }

  lemma ShiftedHas(s: seq<nat>)
    ensures 0 !in Shifted(s) && forall x: nat :: x in s <==> x + 1 in Shifted(s)
  {
    forall x: nat | x in s ensures x + 1 in Shifted(s) {
      var k :| 0 <= k < |s| && s[k] == x;
      assert Shifted(s)[k] == x + 1;
    }
  }

  lemma ListsMembers(rows: seq<CompanyUser>, user: Uuid, list: seq<CompanyUser>, at: seq<nat>)
    requires Lists(rows, user, list, at)
    ensures forall r :: r in list <==> r in rows && r.userId == user
  {
    forall r | r in rows && r.userId == user ensures r in list {
      var i :| 0 <= i < |rows| && rows[i] == r;
      var k :| 0 <= k < |at| && at[k] == i;
      assert list[k] == r;
    }
    forall r | r in list ensures r in rows && r.userId == user {
      var k :| 0 <= k < |list| && list[k] == r;
      assert at[k] in at;
    }
  }

  // ---------------------------------------------------------------- writes change one pair only

  /** The two tables answer alike for every pair but `p` and every user but `p.user`. */
  ghost predicate AlikeBut(rows: seq<CompanyUser>, rows': seq<CompanyUser>, p: Pair) {
    && (forall q :: q != p ==> TableRole(rows', q) == TableRole(rows, q))
    && (forall u :: u != p.user ==> TableList(rows', u) == TableList(rows, u))
  }

  lemma {:induction false} AddPointwise(rows: seq<CompanyUser>, cu: CompanyUser, q: Pair, u: Uuid)
    ensures q != KeyOf(cu) ==> RoleIn(rows + [cu], q) == RoleIn(rows, q)
    ensures u != cu.userId ==> ListIn(rows + [cu], u) == ListIn(rows, u)
  {
    if rows == [] {
      assert [] + [cu] == [cu] && [cu][1..] == [];
    } else {
      AddPointwise(rows[1..], cu, q, u);
      assert (rows + [cu])[1..] == rows[1..] + [cu];
    }
  }

  lemma AddAlike(rows: seq<CompanyUser>, cu: CompanyUser)
    ensures AlikeBut(rows, rows + [cu], KeyOf(cu))
  {
    forall q: Pair | q != KeyOf(cu) ensures TableRole(rows + [cu], q) == TableRole(rows, q) { AddPointwise(rows, cu, q, 0); }
    forall u: Uuid | u != KeyOf(cu).user ensures TableList(rows + [cu], u) == TableList(rows, u) { AddPointwise(rows, cu, KeyOf(cu), u); }
  }

  lemma {:induction false} SetPointwise(rows: seq<CompanyUser>, p: Pair, f: CompanyUser -> CompanyUser, q: Pair, u: Uuid)
    requires forall r :: KeyOf(f(r)) == KeyOf(r)
    ensures q != p ==> RoleIn(SetRow(rows, p, f), q) == RoleIn(rows, q)
    ensures u != p.user ==> ListIn(SetRow(rows, p, f), u) == ListIn(rows, u)
  {
    if rows != [] {
      SetPointwise(rows[1..], p, f, q, u);
      assert SetRow(rows, p, f)[1..] == SetRow(rows[1..], p, f);
      assert KeyOf(f(rows[0])) == KeyOf(rows[0]);
    }
  }

  lemma SetAlike(rows: seq<CompanyUser>, p: Pair, f: CompanyUser -> CompanyUser)
    requires forall r :: KeyOf(f(r)) == KeyOf(r)
    ensures AlikeBut(rows, SetRow(rows, p, f), p)
  {
    forall q: Pair | q != p ensures TableRole(SetRow(rows, p, f), q) == TableRole(rows, q) { SetPointwise(rows, p, f, q, 0); }
    forall u: Uuid | u != p.user ensures TableList(SetRow(rows, p, f), u) == TableList(rows, u) { SetPointwise(rows, p, f, p, u); }
  }

  lemma {:induction false} DropPointwise(rows: seq<CompanyUser>, p: Pair, q: Pair, u: Uuid)
    ensures q != p ==> RoleIn(DropRow(rows, p), q) == RoleIn(rows, q)
    ensures RoleIn(DropRow(rows, p), p) == NotMember
    ensures u != p.user ==> ListIn(DropRow(rows, p), u) == ListIn(rows, u)
  {
    if rows != [] {
      DropPointwise(rows[1..], p, q, u);
      var d := DropRow(rows[1..], p);
      if KeyOf(rows[0]) == p {
        assert DropRow(rows, p) == d;
        assert ListIn(rows[1..], u) + [] == ListIn(rows[1..], u);
      } else {
        assert DropRow(rows, p) == [rows[0]] + d && DropRow(rows, p)[1..] == d;
      }
    }
  }

  lemma DropAlike(rows: seq<CompanyUser>, p: Pair)
    ensures AlikeBut(rows, Without(rows, p), p) && TableRole(Without(rows, p), p) == NotMember
  {
    forall q: Pair | q != p ensures TableRole(Without(rows, p), q) == TableRole(rows, q) { DropPointwise(rows, p, q, 0); }
    forall u: Uuid | u != p.user ensures TableList(Without(rows, p), u) == TableList(rows, u) { DropPointwise(rows, p, p, u); }
    DropPointwise(rows, p, p, 0);
  }

  lemma {:induction false} RoleNeedsRow(rows: seq<CompanyUser>, p: Pair)
    ensures TableRole(rows, p).HasRole? ==> exists r :: r in rows && KeyOf(r) == p && r.status.ActiveMember? && r.role == TableRole(rows, p).role
    ensures UniquePairs(rows) ==> forall r :: r in rows && KeyOf(r) == p ==>
              TableRole(rows, p) == if r.status.ActiveMember? then HasRole(r.role) else NotMember
  {
    if rows != [] {
      RoleNeedsRow(rows[1..], p);
      assert forall r :: r in rows <==> r == rows[0] || r in rows[1..];
      if UniquePairs(rows) && KeyOf(rows[0]) == p { NoRowNoRole(rows[1..], p); }
    }
  }

  lemma {:induction false} NoRowNoRole(rows: seq<CompanyUser>, p: Pair)
    requires forall r :: r in rows ==> KeyOf(r) != p
    ensures TableRole(rows, p) == NotMember
  {
    if rows != [] { NoRowNoRole(rows[1..], p); }
  }

  // ---------------------------------------------------------------- the row of a pair

  function FindRow(rows: seq<CompanyUser>, p: Pair): Option<CompanyUser> {
    if rows == [] then None else if KeyOf(rows[0]) == p then Some(rows[0]) else FindRow(rows[1..], p)
  }

  /** The row the table has for a pair. */
  function RowFor(rows: seq<CompanyUser>, p: Pair): Option<CompanyUser> { FindRow(rows, p) }

  lemma {:induction false} RowForExact(rows: seq<CompanyUser>, p: Pair)
    ensures RowFor(rows, p).Some? <==> HasRow(rows, p)
    ensures RowFor(rows, p).Some? ==> RowFor(rows, p).value in rows && KeyOf(RowFor(rows, p).value) == p
    ensures UniquePairs(rows) ==> forall r :: r in rows && KeyOf(r) == p ==> RowFor(rows, p) == Some(r)
    ensures UniquePairs(rows) ==>
              TableRole(rows, p) == if RowFor(rows, p).Some? && RowFor(rows, p).value.status.ActiveMember?
                                    then HasRole(RowFor(rows, p).value.role) else NotMember
  {
    if rows != [] {
      RowForExact(rows[1..], p);
      assert forall r :: r in rows <==> r == rows[0] || r in rows[1..];
      if UniquePairs(rows) && KeyOf(rows[0]) == p { NoRowNoRole(rows[1..], p); }
    }
  }

  /** The two tables have the same row for every pair but `p`, and `row` for that one. */
  ghost predicate OnlyRow(rows: seq<CompanyUser>, rows': seq<CompanyUser>, p: Pair, row: Option<CompanyUser>) {
    RowFor(rows', p) == row && forall q :: q != p ==> RowFor(rows', q) == RowFor(rows, q)
  }

  lemma {:induction false} AddRowAt(rows: seq<CompanyUser>, cu: CompanyUser, q: Pair)
    ensures RowFor(rows + [cu], q) == if RowFor(rows, q).None? && KeyOf(cu) == q then Some(cu) else RowFor(rows, q)
  {
    if rows == [] {
      assert [] + [cu] == [cu] && [cu][1..] == [];
    } else {
      AddRowAt(rows[1..], cu, q);
      assert (rows + [cu])[1..] == rows[1..] + [cu];
    }
  }

  lemma {:induction false} SetRowAt(rows: seq<CompanyUser>, p: Pair, f: CompanyUser -> CompanyUser, q: Pair)
    requires forall r :: KeyOf(f(r)) == KeyOf(r)
    ensures RowFor(SetRow(rows, p, f), q) == if q == p && RowFor(rows, p).Some? then Some(f(RowFor(rows, p).value)) else RowFor(rows, q)
  {
    if rows != [] {
      SetRowAt(rows[1..], p, f, q);
      assert SetRow(rows, p, f)[1..] == SetRow(rows[1..], p, f);
      assert KeyOf(f(rows[0])) == KeyOf(rows[0]);
    }
  }

  lemma {:induction false} DropRowAt(rows: seq<CompanyUser>, p: Pair, q: Pair)
    ensures RowFor(Without(rows, p), q) == if q == p then None else RowFor(rows, q)
  {
    if rows != [] {
      DropRowAt(rows[1..], p, q);
      var d := DropRow(rows[1..], p);
      if KeyOf(rows[0]) == p { assert DropRow(rows, p) == d; }
      else { assert DropRow(rows, p) == [rows[0]] + d && DropRow(rows, p)[1..] == d; }
    }
  }

  lemma AddedRow(rows: seq<CompanyUser>, cu: CompanyUser)
    requires RowFor(rows, KeyOf(cu)).None?
    ensures OnlyRow(rows, rows + [cu], KeyOf(cu), Some(cu))
  {
    hide RowFor;
    forall q ensures RowFor(rows + [cu], q) == if q == KeyOf(cu) then Some(cu) else RowFor(rows, q) { AddRowAt(rows, cu, q); }
  }

  lemma DroppedRow(rows: seq<CompanyUser>, p: Pair)
    ensures OnlyRow(rows, Without(rows, p), p, None)
  {
    hide RowFor, Without;
    forall q ensures RowFor(Without(rows, p), q) == if q == p then None else RowFor(rows, q) { DropRowAt(rows, p, q); }
  }

  /** A new role or status, and nothing else. */
  lemma ChangedRow(rows: seq<CompanyUser>, p: Pair, role: Role, st: Status)
    requires RowFor(rows, p).Some?
    ensures OnlyRow(rows, WithRole(rows, p, role), p, Some(RowFor(rows, p).value.(role := role)))
    ensures OnlyRow(rows, WithStatus(rows, p, st), p, Some(RowFor(rows, p).value.(status := st)))
  {
    hide RowFor;
    var f, g := (r: CompanyUser) => r.(role := role), (r: CompanyUser) => r.(status := st);
    forall q ensures RowFor(SetRow(rows, p, f), q) == if q == p then Some(f(RowFor(rows, p).value)) else RowFor(rows, q) { SetRowAt(rows, p, f, q); }
    forall q ensures RowFor(SetRow(rows, p, g), q) == if q == p then Some(g(RowFor(rows, p).value)) else RowFor(rows, q) { SetRowAt(rows, p, g, q); }
  }

  /** After its role is changed an active member has the new role, and a pair that was not active has none. */
  lemma NewRoleAnswered(rows: seq<CompanyUser>, p: Pair, role: Role)
    requires UniquePairs(rows)
    ensures TableRole(WithRole(rows, p, role), p) == if TableRole(rows, p).HasRole? then HasRole(role) else NotMember
  {
    hide TableRole, RowFor, UniquePairs;
    RowForExact(rows, p);
    SetKeepsKeys(rows, p, (r: CompanyUser) => r.(role := role));
    RowForExact(WithRole(rows, p, role), p);
    if RowFor(rows, p).Some? { ChangedRow(rows, p, role, ActiveMember); }
    else { SetRowAt(rows, p, (r: CompanyUser) => r.(role := role), p); }
  }

  // ---------------------------------------------------------------- the cached repository

  datatype RoleEntry = RoleEntry(answer: RoleAnswer, expiresAt: int)
  datatype ListEntry = ListEntry(list: seq<CompanyUser>, expiresAt: int)

  datatype State = State(now: int, rows: seq<CompanyUser>, roles: map<Pair, RoleEntry>, lists: map<Uuid, ListEntry>)

  const MINUTE: int := 60

  /** A lifetime of zero means five minutes. */
  function EffectiveTtl(ttl: nat): (r: nat)
    ensures r > 0
  {
    if ttl == 0 then 5 * MINUTE else ttl
  }

  /** The flags say which of the calls to Redis and to the database succeed. */
  datatype Action =
    | AddUser(cu: CompanyUser, dbOk: bool, delList: bool)
    | RemoveUser(p: Pair, dbOk: bool, delList: bool, delRole: bool)
    | UpdateRole(p: Pair, role: Role, dbOk: bool, delList: bool, delRole: bool)
    | UpdateStatus(p: Pair, st: Status, dbOk: bool, delList: bool, delRole: bool)
    | GetRole(p: Pair, getOk: bool, dbOk: bool, setOk: bool)
    | GetList(u: Uuid, getOk: bool, dbOk: bool, setOk: bool)
    | Tick(d: nat)

  predicate RoleHit(s: State, p: Pair) { p in s.roles && s.now < s.roles[p].expiresAt }
  predicate ListHit(s: State, u: Uuid) { u in s.lists && s.now < s.lists[u].expiresAt }

  /** None is an error other than ErrUserNotMember. */
  function ServeRole(s: State, p: Pair, getOk: bool, dbOk: bool): Option<RoleAnswer> {
    if getOk && RoleHit(s, p) then Some(s.roles[p].answer) else if dbOk then Some(TableRole(s.rows, p)) else None
  }

  function ServeList(s: State, u: Uuid, getOk: bool, dbOk: bool): Option<seq<CompanyUser>> {
    if getOk && ListHit(s, u) then Some(s.lists[u].list) else if dbOk then Some(TableList(s.rows, u)) else None
  }

  function Lifetime(a: RoleAnswer, ttl: int): int { if a.NotMember? then MINUTE else ttl }

  function DropKeys(s: State, p: Pair, delList: bool, delRole: bool): State {
    s.(lists := if delList then s.lists - {p.user} else s.lists, roles := if delRole then s.roles - {p} else s.roles)
  }

  function Next(s: State, a: Action, ttl: int): State {
    match a
    case AddUser(cu, dbOk, delList) =>
      if dbOk && !HasRow(s.rows, KeyOf(cu)) then DropKeys(s.(rows := s.rows + [cu]), KeyOf(cu), delList, false) else s
    case RemoveUser(p, dbOk, delList, delRole) =>
      if dbOk && HasRow(s.rows, p) then DropKeys(s.(rows := Without(s.rows, p)), p, delList, delRole) else s
    case UpdateRole(p, role, dbOk, delList, delRole) =>
      if dbOk && HasRow(s.rows, p) then DropKeys(s.(rows := WithRole(s.rows, p, role)), p, delList, delRole) else s
    case UpdateStatus(p, st, dbOk, delList, delRole) =>
      if dbOk && HasRow(s.rows, p) then DropKeys(s.(rows := WithStatus(s.rows, p, st)), p, delList, delRole) else s
    case GetRole(p, getOk, dbOk, setOk) =>
      if (getOk && RoleHit(s, p)) || !dbOk || !setOk then s
      else
        var answer := TableRole(s.rows, p);
        s.(roles := s.roles[p := RoleEntry(answer, s.now + Lifetime(answer, ttl))])
    case GetList(u, getOk, dbOk, setOk) =>
      if (getOk && ListHit(s, u)) || !dbOk || !setOk then s
      else s.(lists := s.lists[u := ListEntry(TableList(s.rows, u), s.now + ttl)])
    case Tick(d) => s.(now := s.now + d)
  }

  class CompanyUserRepository {
    var rows: seq<CompanyUser>

    constructor ()
      ensures rows == []
    {
      rows := [];
    }

    /** INSERT: fails on a duplicate key. */
    method AddUser(cu: CompanyUser, dbOk: bool) returns (ok: bool)
      modifies this
      ensures ok == (dbOk && !HasRow(old(rows), KeyOf(cu)))
      ensures rows == if ok then old(rows) + [cu] else old(rows)
      ensures ok ==> OnlyRow(old(rows), rows, KeyOf(cu), Some(cu))
    {
      RowForExact(rows, KeyOf(cu));
      ok := dbOk && !HasRow(rows, KeyOf(cu));
      if ok {
        AddedRow(rows, cu);
        rows := rows + [cu];
      }
    }

    /** Zero affected rows is ErrUserNotMember. */
    method RemoveUser(p: Pair, dbOk: bool) returns (ok: bool)
      modifies this
      ensures ok == (dbOk && HasRow(old(rows), p))
      ensures rows == if ok then Without(old(rows), p) else old(rows)
      ensures ok ==> OnlyRow(old(rows), rows, p, None)
    {
      ok := dbOk && HasRow(rows, p);
      DroppedRow(rows, p);
      if ok { rows := Without(rows, p); }
    }

    method UpdateUserRole(p: Pair, role: Role, dbOk: bool) returns (ok: bool)
      modifies this
      ensures ok == (dbOk && HasRow(old(rows), p))
      ensures rows == if ok then WithRole(old(rows), p, role) else old(rows)
      ensures ok ==> RowFor(old(rows), p).Some? && OnlyRow(old(rows), rows, p, Some(RowFor(old(rows), p).value.(role := role)))
    {
      RowForExact(rows, p);
      ok := dbOk && HasRow(rows, p);
      if ok {
        ChangedRow(rows, p, role, ActiveMember);
        rows := WithRole(rows, p, role);
      }
    }

    method UpdateUserStatus(p: Pair, st: Status, dbOk: bool) returns (ok: bool)
      modifies this
      ensures ok == (dbOk && HasRow(old(rows), p))
      ensures rows == if ok then WithStatus(old(rows), p, st) else old(rows)
      ensures ok ==> RowFor(old(rows), p).Some? && OnlyRow(old(rows), rows, p, Some(RowFor(old(rows), p).value.(status := st)))
    {
      RowForExact(rows, p);
      ok := dbOk && HasRow(rows, p);
      if ok {
        ChangedRow(rows, p, Member, st);
        rows := WithStatus(rows, p, st);
      }
    }
  }

  class CachedCompanyUserRepository {
    const delegate: CompanyUserRepository
    const ttl: nat
    var roles: map<Pair, RoleEntry>
    var lists: map<Uuid, ListEntry>
    var now: int

    constructor (delegate: CompanyUserRepository, ttl: nat)
      ensures this.delegate == delegate && this.ttl == (if ttl == 0 then 300 else ttl) && roles == map[] && lists == map[]
    {
      this.delegate := delegate;
      this.ttl := EffectiveTtl(ttl);
      roles, lists, now := map[], map[], 0;
    }

    ghost function Abs(): State reads this, delegate { State(now, delegate.rows, roles, lists) }

    method InvalidateUserCache(user: Uuid, delOk: bool)
      modifies this`lists
      ensures lists == if delOk then old(lists) - {user} else old(lists)
    {
      if delOk { lists := lists - {user}; }
    }

    method InvalidateRoleCache(p: Pair, delOk: bool)
      modifies this`roles
      ensures roles == if delOk then old(roles) - {p} else old(roles)
    {
      if delOk { roles := roles - {p}; }
    }

    /** Only the list entry is dropped here. */
    method AddUser(cu: CompanyUser, dbOk: bool, delList: bool) returns (ok: bool)
      modifies this`lists, delegate
      ensures ok == (dbOk && !HasRow(old(delegate.rows), KeyOf(cu)))
      ensures Abs() == Next(old(Abs()), Action.AddUser(cu, dbOk, delList), ttl)
    {
      ok := delegate.AddUser(cu, dbOk);
      if ok { InvalidateUserCache(cu.userId, delList); }
    }

    method RemoveUser(p: Pair, dbOk: bool, delList: bool, delRole: bool) returns (ok: bool)
      modifies this`lists, this`roles, delegate
      ensures ok == (dbOk && HasRow(old(delegate.rows), p))
      ensures Abs() == Next(old(Abs()), Action.RemoveUser(p, dbOk, delList, delRole), ttl)
    {
      ok := delegate.RemoveUser(p, dbOk);
      if !ok { return; }
      InvalidateUserCache(p.user, delList);
      InvalidateRoleCache(p, delRole);
    }

    method UpdateUserRole(p: Pair, role: Role, dbOk: bool, delList: bool, delRole: bool) returns (ok: bool)
      modifies this`lists, this`roles, delegate
      ensures ok == (dbOk && HasRow(old(delegate.rows), p))
      ensures Abs() == Next(old(Abs()), UpdateRole(p, role, dbOk, delList, delRole), ttl)
    {
      ok := delegate.UpdateUserRole(p, role, dbOk);
      if !ok { return; }
      InvalidateUserCache(p.user, delList);
      InvalidateRoleCache(p, delRole);
    }

    method UpdateUserStatus(p: Pair, st: Status, dbOk: bool, delList: bool, delRole: bool) returns (ok: bool)
      modifies this`lists, this`roles, delegate
      ensures ok == (dbOk && HasRow(old(delegate.rows), p))
      ensures Abs() == Next(old(Abs()), UpdateStatus(p, st, dbOk, delList, delRole), ttl)
    {
      ok := delegate.UpdateUserStatus(p, st, dbOk);
      if !ok { return; }
      InvalidateUserCache(p.user, delList);
      InvalidateRoleCache(p, delRole);
    }

    method GetUserRole(p: Pair, getOk: bool, dbOk: bool, setOk: bool) returns (answer: Option<RoleAnswer>)
      modifies this`roles
      ensures answer == ServeRole(old(Abs()), p, getOk, dbOk)
      ensures Abs() == Next(old(Abs()), GetRole(p, getOk, dbOk, setOk), ttl)
    {
      if getOk && p in roles && now < roles[p].expiresAt { return Some(roles[p].answer); }
      if !dbOk { return None; }
      var role := TableRole(delegate.rows, p);
      if setOk { roles := roles[p := RoleEntry(role, now + if role.NotMember? then MINUTE else ttl)]; }
      return Some(role);
    }

    method GetCompaniesForUser(u: Uuid, getOk: bool, dbOk: bool, setOk: bool) returns (answer: Option<seq<CompanyUser>>)
      modifies this`lists
      ensures answer == ServeList(old(Abs()), u, getOk, dbOk)
      ensures !(getOk && ListHit(old(Abs()), u)) && dbOk ==>
                answer.Some? && exists at :: Lists(delegate.rows, u, answer.value, at)
      ensures Abs() == Next(old(Abs()), GetList(u, getOk, dbOk, setOk), ttl)
    {
      if getOk && u in lists && now < lists[u].expiresAt { return Some(lists[u].list); }
      if !dbOk { return None; }
      var companies := TableList(delegate.rows, u);
      ghost var at := ListExact(delegate.rows, u);
      hide Lists;
      if setOk { lists := lists[u := ListEntry(companies, now + ttl)]; }
      return Some(companies);
    }
  }

  // ---------------------------------------------------------------- runs

  ghost predicate IsRun(states: seq<State>, actions: seq<Action>, ttl: int) {
    && |states| == |actions| + 1 && ttl > 0
    && states[0].roles == map[] && states[0].lists == map[]
    && forall i :: 0 <= i < |actions| ==> states[i + 1] == Next(states[i], actions[i], ttl)
  }

  lemma {:induction false} DropKeepsOrder(rows: seq<CompanyUser>, p: Pair)
    ensures forall r :: r in DropRow(rows, p) ==> r in rows && KeyOf(r) != p
    ensures UniquePairs(rows) ==> UniquePairs(DropRow(rows, p))
  {
    if rows != [] {
      DropKeepsOrder(rows[1..], p);
      var d := DropRow(rows[1..], p);
      if UniquePairs(rows) && KeyOf(rows[0]) != p {
        assert forall r :: r in d ==> r in rows[1..] && KeyOf(r) != KeyOf(rows[0]);
        assert UniquePairs([rows[0]] + d);
      }
    }
  }

  lemma SetKeepsKeys(rows: seq<CompanyUser>, p: Pair, f: CompanyUser -> CompanyUser)
    requires forall r :: KeyOf(f(r)) == KeyOf(r)
    requires UniquePairs(rows)
    ensures UniquePairs(SetRow(rows, p, f))
  {
    forall i | 0 <= i < |rows| ensures KeyOf(SetRow(rows, p, f)[i]) == KeyOf(rows[i]) { }
  }

  /** Every step keeps the primary key. */
  lemma PairsStayUnique(s: State, a: Action, ttl: int)
    requires UniquePairs(s.rows)
    ensures UniquePairs(Next(s, a, ttl).rows)
  {
    hide TableRole, TableList;
    match a
    case AddUser(cu, _, _) => assert HasRow(s.rows, KeyOf(cu)) || forall r :: r in s.rows ==> KeyOf(r) != KeyOf(cu);
    case RemoveUser(p, _, _, _) => DropKeepsOrder(s.rows, p);
    case UpdateRole(p, role, _, _, _) => SetKeepsKeys(s.rows, p, (r: CompanyUser) => r.(role := role));
    case UpdateStatus(p, st, _, _, _) => SetKeepsKeys(s.rows, p, (r: CompanyUser) => r.(status := st));
    case _ =>
  }

  /** So in every run the role answered for a pair is that of its one row, when that is active. */
  lemma {:induction false} RolesOfRows(states: seq<State>, actions: seq<Action>, ttl: int, i: nat, p: Pair)
    requires IsRun(states, actions, ttl) && i < |states| && UniquePairs(states[0].rows)
    ensures UniquePairs(states[i].rows)
    ensures TableRole(states[i].rows, p).HasRole? <==> exists r :: r in states[i].rows && KeyOf(r) == p && r.status.ActiveMember?
    ensures forall r :: r in states[i].rows && KeyOf(r) == p && r.status.ActiveMember? ==> TableRole(states[i].rows, p) == HasRole(r.role)
  {
    hide TableRole, TableList, Next, UniquePairs;
    if i > 0 {
      RolesOfRows(states, actions, ttl, i - 1, p);
      PairsStayUnique(states[i - 1], actions[i - 1], ttl);
    }
    RoleNeedsRow(states[i].rows, p);
  }

  // ---------------------------------------------------------------- any failures: bounded staleness

  ghost predicate RoleWas(states: seq<State>, i: nat, p: Pair, answer: RoleAnswer, since: int)
    requires i < |states|
  {
    exists j :: 0 <= j <= i && TableRole(states[j].rows, p) == answer && since <= states[j].now
  }

  ghost predicate RolesBacked(states: seq<State>, i: nat, ttl: int)
    requires i < |states|
  {
    forall p :: p in states[i].roles ==>
      RoleWas(states, i, p, states[i].roles[p].answer, states[i].roles[p].expiresAt - Lifetime(states[i].roles[p].answer, ttl))
  }

  /** An entry either was there before or was just filled from the table. */
  lemma RoleEntryOrigin(s: State, a: Action, ttl: int, p: Pair)
    requires p in Next(s, a, ttl).roles
    ensures var e := Next(s, a, ttl).roles[p];
            || (p in s.roles && e == s.roles[p])
            || (a.GetRole? && a.p == p && e == RoleEntry(TableRole(s.rows, p), s.now + Lifetime(TableRole(s.rows, p), ttl)))
  {
    hide TableRole, HasRow, Lifetime;
  }

  lemma {:induction false} RolesAlwaysBacked(states: seq<State>, actions: seq<Action>, ttl: int, i: nat)
    requires IsRun(states, actions, ttl) && i < |states|
    ensures RolesBacked(states, i, ttl)
  {
    hide TableRole, Next, Lifetime;
    if i > 0 {
      RolesAlwaysBacked(states, actions, ttl, i - 1);
      var s, s', a := states[i - 1], states[i], actions[i - 1];
      assert s' == Next(s, a, ttl);
      forall p | p in s'.roles ensures RoleWas(states, i, p, s'.roles[p].answer, s'.roles[p].expiresAt - Lifetime(s'.roles[p].answer, ttl)) {
        RoleEntryOrigin(s, a, ttl, p);
        if p in s.roles && s'.roles[p] == s.roles[p] {
          assert RoleWas(states, i - 1, p, s.roles[p].answer, s.roles[p].expiresAt - Lifetime(s.roles[p].answer, ttl));
        } else {
          assert TableRole(states[i - 1].rows, p) == s'.roles[p].answer;
        }
      }
    }
  }

  /** With every Redis and database call free to fail, every role or not-member answer served was the table's
      answer at some instant within the last max(ttl, one minute). */
  lemma {:induction false} RoleStalenessBound(states: seq<State>, actions: seq<Action>, ttl: int, i: nat)
    requires IsRun(states, actions, ttl) && i < |actions| && actions[i].GetRole?
    requires ServeRole(states[i], actions[i].p, actions[i].getOk, actions[i].dbOk).Some?
    ensures exists j :: 0 <= j <= i
              && TableRole(states[j].rows, actions[i].p) == ServeRole(states[i], actions[i].p, actions[i].getOk, actions[i].dbOk).value
              && states[i].now - states[j].now < Max(ttl, 60)
  {
    hide TableRole, Next;
    RolesAlwaysBacked(states, actions, ttl, i);
    var s, p := states[i], actions[i].p;
    if actions[i].getOk && RoleHit(s, p) {
      assert RoleWas(states, i, p, s.roles[p].answer, s.roles[p].expiresAt - Lifetime(s.roles[p].answer, ttl));
    } else {
      assert TableRole(states[i].rows, p) == ServeRole(s, p, actions[i].getOk, actions[i].dbOk).value;
    }
  }

  ghost predicate ListWas(states: seq<State>, i: nat, u: Uuid, list: seq<CompanyUser>, since: int)
    requires i < |states|
  {
    exists j :: 0 <= j <= i && TableList(states[j].rows, u) == list && since <= states[j].now
  }

  ghost predicate ListsBacked(states: seq<State>, i: nat, ttl: int)
    requires i < |states|
  {
    forall u :: u in states[i].lists ==> ListWas(states, i, u, states[i].lists[u].list, states[i].lists[u].expiresAt - ttl)
  }

  lemma ListEntryOrigin(s: State, a: Action, ttl: int, u: Uuid)
    requires u in Next(s, a, ttl).lists
    ensures var e := Next(s, a, ttl).lists[u];
            || (u in s.lists && e == s.lists[u])
            || (a.GetList? && a.u == u && e == ListEntry(TableList(s.rows, u), s.now + ttl))
  {
    hide TableList, TableRole, HasRow;
  }

  lemma {:induction false} ListsAlwaysBacked(states: seq<State>, actions: seq<Action>, ttl: int, i: nat)
    requires IsRun(states, actions, ttl) && i < |states|
    ensures ListsBacked(states, i, ttl)
  {
    hide TableList, Next;
    if i > 0 {
      ListsAlwaysBacked(states, actions, ttl, i - 1);
      var s, s', a := states[i - 1], states[i], actions[i - 1];
      assert s' == Next(s, a, ttl);
      forall u | u in s'.lists ensures ListWas(states, i, u, s'.lists[u].list, s'.lists[u].expiresAt - ttl) {
        ListEntryOrigin(s, a, ttl, u);
        if u in s.lists && s'.lists[u] == s.lists[u] {
          assert ListWas(states, i - 1, u, s.lists[u].list, s.lists[u].expiresAt - ttl);
        } else {
          assert TableList(states[i - 1].rows, u) == s'.lists[u].list;
        }
      }
    }
  }

  /** And every list served was the table's within the last ttl. */
  lemma {:induction false} ListStalenessBound(states: seq<State>, actions: seq<Action>, ttl: int, i: nat)
    requires IsRun(states, actions, ttl) && i < |actions| && actions[i].GetList?
    requires ServeList(states[i], actions[i].u, actions[i].getOk, actions[i].dbOk).Some?
    ensures exists j :: 0 <= j <= i
              && TableList(states[j].rows, actions[i].u) == ServeList(states[i], actions[i].u, actions[i].getOk, actions[i].dbOk).value
              && states[i].now - states[j].now < ttl
  {
    hide TableList, Next;
    ListsAlwaysBacked(states, actions, ttl, i);
    var s, u := states[i], actions[i].u;
    if actions[i].getOk && ListHit(s, u) {
      assert ListWas(states, i, u, s.lists[u].list, s.lists[u].expiresAt - ttl);
    } else {
      assert TableList(states[i].rows, u) == ServeList(s, u, actions[i].getOk, actions[i].dbOk).value;
    }
  }

  // ---------------------------------------------------------------- deletes succeed: the cache agrees with the table

  ghost predicate DeletesOk(a: Action) {
    && (a.AddUser? ==> a.delList)
    && (a.RemoveUser? || a.UpdateRole? || a.UpdateStatus? ==> a.delList && a.delRole)
  }

  ghost predicate RolesSound(s: State) {
    forall p :: p in s.roles && s.roles[p].answer.HasRole? ==> TableRole(s.rows, p) == s.roles[p].answer
  }

  ghost predicate ListsSound(s: State) {
    forall u :: u in s.lists ==> s.lists[u].list == TableList(s.rows, u)
  }

  /** The pair whose row a step may change. */
  function Touched(a: Action): Option<Pair> {
    match a
    case AddUser(cu, _, _) => Some(KeyOf(cu))
    case RemoveUser(p, _, _, _) => Some(p)
    case UpdateRole(p, _, _, _, _) => Some(p)
    case UpdateStatus(p, _, _, _, _) => Some(p)
    case _ => None
  }

  lemma StepAlike(s: State, a: Action, ttl: int)
    ensures var s' := Next(s, a, ttl);
            s'.rows == s.rows || (Touched(a).Some? && AlikeBut(s.rows, s'.rows, Touched(a).value))
  {
    hide AlikeBut, HasRow;
    match a
    case AddUser(cu, _, _) => AddAlike(s.rows, cu);
    case RemoveUser(p, _, _, _) => DropAlike(s.rows, p);
    case UpdateRole(p, role, _, _, _) => SetAlike(s.rows, p, (r: CompanyUser) => r.(role := role));
    case UpdateStatus(p, st, _, _, _) => SetAlike(s.rows, p, (r: CompanyUser) => r.(status := st));
    case _ =>
  }

  /** A step that changes the table drops the keys it may have made wrong, except AddUser's role key. */
  lemma StepDropsKeys(s: State, a: Action, ttl: int)
    requires DeletesOk(a) && Next(s, a, ttl).rows != s.rows && Touched(a).Some?
    ensures var s', p := Next(s, a, ttl), Touched(a).value;
            && s'.lists == s.lists - {p.user}
            && (a.AddUser? ==> s'.roles == s.roles && !HasRow(s.rows, p))
            && (!a.AddUser? ==> s'.roles == s.roles - {p})
  {
    hide HasRow, Without, WithRole, WithStatus;
  }

  lemma AbsentNotMember(rows: seq<CompanyUser>, p: Pair)
    requires !HasRow(rows, p)
    ensures TableRole(rows, p) == NotMember
  {
    NoRowNoRole(rows, p);
  }

  lemma SoundStep(s: State, a: Action, ttl: int)
    requires DeletesOk(a) && RolesSound(s) && ListsSound(s)
    ensures RolesSound(Next(s, a, ttl)) && ListsSound(Next(s, a, ttl))
  {
    hide TableRole, TableList, HasRow, Without, WithRole, WithStatus;
    var s' := Next(s, a, ttl);
    StepAlike(s, a, ttl);
    if s'.rows != s.rows {
      hide Next;
      StepDropsKeys(s, a, ttl);
      var p := Touched(a).value;
      if a.AddUser? { AbsentNotMember(s.rows, p); }
      forall q | q in s'.roles && s'.roles[q].answer.HasRole? ensures TableRole(s'.rows, q) == s'.roles[q].answer {
        assert q in s.roles && s'.roles[q] == s.roles[q];
      }
    }
  }

  /** For roles alone only the deletes of role keys matter. */
  ghost predicate RoleDeletesOk(a: Action) { a.RemoveUser? || a.UpdateRole? || a.UpdateStatus? ==> a.delRole }

  lemma RolesSoundStep(s: State, a: Action, ttl: int)
    requires RoleDeletesOk(a) && RolesSound(s)
    ensures RolesSound(Next(s, a, ttl))
  {
    hide TableRole, TableList, HasRow, Without, WithRole, WithStatus, AlikeBut;
    var s' := Next(s, a, ttl);
    StepAlike(s, a, ttl);
    if s'.rows != s.rows {
      var p := Touched(a).value;
      if a.AddUser? { AbsentNotMember(s.rows, p); }
      forall q | q in s'.roles && s'.roles[q].answer.HasRole? ensures TableRole(s'.rows, q) == s'.roles[q].answer {
        assert q in s.roles && s'.roles[q] == s.roles[q] && q != p;
        AlikeRole(s.rows, s'.rows, p, q);
      }
    }
  }

  lemma AlikeRole(rows: seq<CompanyUser>, rows': seq<CompanyUser>, p: Pair, q: Pair)
    requires AlikeBut(rows, rows', p) && q != p
    ensures TableRole(rows', q) == TableRole(rows, q)
  {
  }

  lemma {:induction false} AlwaysSound(states: seq<State>, actions: seq<Action>, ttl: int, i: nat)
    requires IsRun(states, actions, ttl) && i < |states| && forall a :: a in actions ==> DeletesOk(a)
    ensures RolesSound(states[i]) && ListsSound(states[i])
  {
    hide Next, TableRole, TableList, DeletesOk;
    if i > 0 {
      AlwaysSound(states, actions, ttl, i - 1);
      assert actions[i - 1] in actions;
      SoundStep(states[i - 1], actions[i - 1], ttl);
    }
  }

  /** In sequential runs whose cache deletes succeed (reads and sets may fail), a role served is the role of a
      currently active row and a list served is the table's list. */
  lemma ServedIsCurrent(states: seq<State>, actions: seq<Action>, ttl: int, i: nat, p: Pair, getOk: bool, dbOk: bool)
    requires IsRun(states, actions, ttl) && i < |states| && forall a :: a in actions ==> DeletesOk(a)
    ensures var r := ServeRole(states[i], p, getOk, dbOk);
            r.Some? && r.value.HasRole? ==>
              exists row :: row in states[i].rows && KeyOf(row) == p && row.status.ActiveMember? && row.role == r.value.role
    ensures var l := ServeList(states[i], p.user, getOk, dbOk);
            l.Some? ==> l.value == TableList(states[i].rows, p.user)
                        && (forall r :: r in l.value <==> r in states[i].rows && r.userId == p.user)
                        && exists at :: Lists(states[i].rows, p.user, l.value, at)
  {
    hide Next, TableRole, TableList, Lists;
    AlwaysSound(states, actions, ttl, i);
    RoleNeedsRow(states[i].rows, p);
    var at := ListExact(states[i].rows, p.user);
    ListsMembers(states[i].rows, p.user, TableList(states[i].rows, p.user), at);
  }

  ghost predicate Adds(s: State, a: Action, p: Pair) {
    a.AddUser? && KeyOf(a.cu) == p && a.dbOk && !HasRow(s.rows, p)
  }

  /** The negative entry was cached by step `m` one minute before it expires, when the table had no active row; if the
      table has one now, an AddUser for the pair came in between. */
  ghost predicate NegativeFrom(states: seq<State>, actions: seq<Action>, i: nat, p: Pair, m: nat)
    requires |states| == |actions| + 1 && i < |states| && p in states[i].roles
  {
    && m < i && actions[m].GetRole? && actions[m].p == p
    && states[i].roles[p].expiresAt == states[m].now + 60
    && TableRole(states[m].rows, p) == NotMember
    && (TableRole(states[i].rows, p) == NotMember || exists j :: m < j < i && Adds(states[j], actions[j], p))
  }

  lemma {:induction false} NegativeExplained(states: seq<State>, actions: seq<Action>, ttl: int, i: nat, p: Pair) returns (m: nat)
    requires IsRun(states, actions, ttl) && i < |states| && forall a :: a in actions ==> DeletesOk(a)
    requires p in states[i].roles && states[i].roles[p].answer == NotMember
    ensures NegativeFrom(states, actions, i, p, m)
  {
    hide TableRole, Next, HasRow, DeletesOk;
    var s, s', a := states[i - 1], states[i], actions[i - 1];
    assert s' == Next(s, a, ttl);
    assert a in actions;
    RoleEntryOrigin(s, a, ttl, p);
    if p in s.roles && s'.roles[p] == s.roles[p] {
      m := NegativeExplained(states, actions, ttl, i - 1, p);
      if TableRole(s'.rows, p) != NotMember && TableRole(s.rows, p) == NotMember {
        ChangeMeansAdd(s, a, ttl, p);
      }
    } else {
      m := i - 1;
      GetKeepsRows(s, a, ttl);
    }
  }

  lemma GetKeepsRows(s: State, a: Action, ttl: int)
    requires a.GetRole?
    ensures Next(s, a, ttl).rows == s.rows
  {
  }

  lemma ChangeMeansAdd(s: State, a: Action, ttl: int, p: Pair)
    requires DeletesOk(a) && p in Next(s, a, ttl).roles
    requires TableRole(Next(s, a, ttl).rows, p) != TableRole(s.rows, p)
    ensures Adds(s, a, p)
  {
    hide TableRole, TableList, HasRow, Without, WithRole, WithStatus;
    StepAlike(s, a, ttl);
    StepDropsKeys(s, a, ttl);
  }

  /** A false "not member" is served only within one minute of the negative entry being cached, and only if an
      AddUser for that pair came between the two. */
  lemma FalseNegativeExplained(states: seq<State>, actions: seq<Action>, ttl: int, i: nat, p: Pair, getOk: bool, dbOk: bool) returns (m: nat, j: nat)
    requires IsRun(states, actions, ttl) && i < |states| && forall a :: a in actions ==> DeletesOk(a)
    requires ServeRole(states[i], p, getOk, dbOk) == Some(NotMember) && TableRole(states[i].rows, p).HasRole?
    ensures m < j < i && actions[m].GetRole? && actions[m].p == p && Adds(states[j], actions[j], p)
    ensures states[i].now - states[m].now < 60
  {
    hide TableRole, Next, DeletesOk, HasRow;
    m := NegativeExplained(states, actions, ttl, i, p);
    j :| m < j < i && Adds(states[j], actions[j], p);
  }

  /** What a read caches is served without the database exactly as long as it lives: a role and a list for the ttl, a "not
      member" for a minute. */
  lemma ReadBackExactly(s: State, p: Pair, ttl: nat, d: nat)
    requires ttl > 0
    ensures var s1 := Next(Next(s, GetRole(p, false, true, true), ttl), Tick(d), ttl);
            ServeRole(s1, p, true, false) ==
              if d < (if TableRole(s.rows, p).NotMember? then 60 else ttl) then Some(TableRole(s.rows, p)) else None
    ensures var s1 := Next(Next(s, GetList(p.user, false, true, true), ttl), Tick(d), ttl);
            ServeList(s1, p.user, true, false) == if d < ttl then Some(TableList(s.rows, p.user)) else None
  {
    hide TableRole, TableList;
  }

  /** A write about another user keeps a user's cached list. */
  lemma OtherListsKept(s: State, a: Action, ttl: int, u: Uuid)
    requires Touched(a).Some? && Touched(a).value.user != u
    ensures (u in Next(s, a, ttl).lists <==> u in s.lists) && (u in s.lists ==> Next(s, a, ttl).lists[u] == s.lists[u])
  {
    hide TableRole, TableList, HasRow;
  }

  // ---------------------------------------------------------------- between two writes to a pair, exactly

  /** A successful write to the row of `p`. */
  ghost predicate Writes(s: State, a: Action, p: Pair) {
    Touched(a) == Some(p) && a.dbOk && (a.AddUser? <==> !HasRow(s.rows, p))
  }

  /** A read of the pair's role that could not read the cache but could fill it. */
  predicate Refills(a: Action, p: Pair) { a.GetRole? && a.p == p && !a.getOk && a.dbOk && a.setOk }

  ghost predicate Unwritten(states: seq<State>, actions: seq<Action>, m: nat, i: nat, p: Pair)
    requires |states| == |actions| + 1 && i <= |actions|
  {
    forall k :: m <= k < i ==> !Writes(states[k], actions[k], p)
  }

  ghost predicate Refilled(actions: seq<Action>, m: nat, i: nat, p: Pair)
    requires i <= |actions|
  {
    exists k :: m <= k < i && Refills(actions[k], p)
  }

  /** The entry a pair has, given the one it had at an earlier state: that one still, or no live one, or the table's answer. */
  ghost predicate EntryExact(s: State, earlier: State, refilled: bool, p: Pair) {
    if p in earlier.roles && !refilled && s.now < earlier.roles[p].expiresAt
    then p in s.roles && s.roles[p] == earlier.roles[p]
    else RoleHit(s, p) ==> s.roles[p].answer == TableRole(s.rows, p)
  }

  /** A step that does not write to the pair keeps its role and its cache entry, unless it reads the role past the cache. */
  lemma UnwrittenStep(s: State, a: Action, ttl: int, p: Pair)
    requires !Writes(s, a, p)
    ensures var s' := Next(s, a, ttl);
            && TableRole(s'.rows, p) == TableRole(s.rows, p) && s.now <= s'.now
            && (if a.GetRole? && a.p == p && a.dbOk && a.setOk && (!a.getOk || !RoleHit(s, p))
                then p in s'.roles && s'.roles[p].answer == TableRole(s.rows, p)
                else (p in s'.roles <==> p in s.roles) && (p in s.roles ==> s'.roles[p] == s.roles[p]))
  {
    hide TableRole, TableList, HasRow, Without, WithRole, WithStatus, Lifetime;
    StepAlike(s, a, ttl);
  }

  lemma {:induction false} EntryBetweenWrites(states: seq<State>, actions: seq<Action>, ttl: int, m: nat, i: nat, p: Pair)
    requires IsRun(states, actions, ttl) && m <= i < |states| && Unwritten(states, actions, m, i, p)
    ensures EntryExact(states[i], states[m], Refilled(actions, m, i, p), p)
    ensures TableRole(states[i].rows, p) == TableRole(states[m].rows, p)
    decreases i
  {
    hide TableRole, Next, Writes;
    if m < i {
      EntryBetweenWrites(states, actions, ttl, m, i - 1, p);
      UnwrittenStep(states[i - 1], actions[i - 1], ttl, p);
      assert Refilled(actions, m, i, p) <==> Refilled(actions, m, i - 1, p) || Refills(actions[i - 1], p);
    } else {
      assert EntryExact(states[i], states[m], false, p);
    }
  }

  /** As long as no write to a pair succeeds, a role read that reaches Redis and the table gets the answer cached at the
      start of that time until it expires or is refilled, and the table's answer from then on; whatever else runs and
      fails. */
  lemma ServedBetweenWritesExactly(states: seq<State>, actions: seq<Action>, ttl: int, m: nat, i: nat, p: Pair)
    requires IsRun(states, actions, ttl) && m <= i < |states| && Unwritten(states, actions, m, i, p)
    ensures ServeRole(states[i], p, true, true) ==
            if p in states[m].roles && states[i].now < states[m].roles[p].expiresAt && !Refilled(actions, m, i, p)
            then Some(states[m].roles[p].answer) else Some(TableRole(states[m].rows, p))
  {
    hide TableRole, Next, Writes, Refilled;
    EntryBetweenWrites(states, actions, ttl, m, i, p);
  }
  /** After an active row was added, the cache serves "not member" if and only if it held a live "not member" at the
      call, exactly until that entry expires or is refilled, while no later write to the pair succeeds. */
  lemma FalseNegativeExactly(states: seq<State>, actions: seq<Action>, ttl: int, m: nat, i: nat, p: Pair)
    requires IsRun(states, actions, ttl) && m < i < |states| && Unwritten(states, actions, m + 1, i, p)
    requires Adds(states[m], actions[m], p) && actions[m].cu.status.ActiveMember?
    ensures TableRole(states[i].rows, p) == HasRole(actions[m].cu.role)
    ensures ServeRole(states[i], p, true, true) == Some(NotMember) <==>
            && p in states[m].roles && states[m].roles[p].answer == NotMember
            && states[i].now < states[m].roles[p].expiresAt && !Refilled(actions, m + 1, i, p)
  {
    hide TableRole, Refilled, Unwritten;
    assert states[m + 1] == Next(states[m], actions[m], ttl);
    AbsentNotMember(states[m].rows, p);
    AddOwn(states[m].rows, actions[m].cu);
    hide Next, HasRow;
    EntryBetweenWrites(states, actions, ttl, m + 1, i, p);
    ServedBetweenWritesExactly(states, actions, ttl, m + 1, i, p);
  }

  /** After a row was removed, the cache serves a role if and only if it held that role live at the call and the delete of
      its key failed, exactly until that entry expires or is refilled, while no later write to the pair succeeds. */
  lemma StaleRoleExactly(states: seq<State>, actions: seq<Action>, ttl: int, m: nat, i: nat, p: Pair, role: Role)
    requires IsRun(states, actions, ttl) && m < i < |states| && Unwritten(states, actions, m + 1, i, p)
    requires actions[m].RemoveUser? && actions[m].p == p && actions[m].dbOk && HasRow(states[m].rows, p)
    ensures TableRole(states[i].rows, p) == NotMember
    ensures ServeRole(states[i], p, true, true) == Some(HasRole(role)) <==>
            && p in states[m].roles && states[m].roles[p].answer == HasRole(role) && !actions[m].delRole
            && states[i].now < states[m].roles[p].expiresAt && !Refilled(actions, m + 1, i, p)
  {
    hide TableRole, Refilled, Unwritten, HasRow, Without;
    assert states[m + 1] == Next(states[m], actions[m], ttl);
    DropAlike(states[m].rows, p);
    hide Next;
    EntryBetweenWrites(states, actions, ttl, m + 1, i, p);
    ServedBetweenWritesExactly(states, actions, ttl, m + 1, i, p);
  }

  /** And it does happen: asking before the user is added hides the new membership for the rest of the minute. */
  lemma FalseNegativeHappens(cu: CompanyUser, ttl: nat, now: int, d: nat)
    requires cu.status.ActiveMember? && d < 60 && ttl > 0
    ensures var s0, p := State(now, [], map[], map[]), KeyOf(cu);
            var s3 := Next(Next(Next(s0, GetRole(p, true, true, true), ttl), AddUser(cu, true, true), ttl), Tick(d), ttl);
            ServeRole(s3, p, true, true) == Some(NotMember) && TableRole(s3.rows, p) == HasRole(cu.role)
  {
    assert [] + [cu] == [cu];
    assert !HasRow([], KeyOf(cu));
  }

  // ---------------------------------------------------------------- which writes make a member active

  lemma {:induction false} AddOwn(rows: seq<CompanyUser>, cu: CompanyUser)
    ensures TableRole(rows + [cu], KeyOf(cu)) ==
            if TableRole(rows, KeyOf(cu)).HasRole? then TableRole(rows, KeyOf(cu))
            else if cu.status.ActiveMember? then HasRole(cu.role) else NotMember
  {
    if rows == [] {
      assert [] + [cu] == [cu] && [cu][1..] == [];
    } else {
      AddOwn(rows[1..], cu);
      assert (rows + [cu])[1..] == rows[1..] + [cu];
    }
  }

  lemma {:induction false} WithRoleKeepsActivity(rows: seq<CompanyUser>, p: Pair, role: Role)
    ensures TableRole(WithRole(rows, p, role), p).HasRole? <==> TableRole(rows, p).HasRole?
  {
    var f := (r: CompanyUser) => r.(role := role);
    if rows != [] {
      WithRoleKeepsActivity(rows[1..], p, role);
      assert SetRow(rows, p, f)[1..] == SetRow(rows[1..], p, f);
    }
  }

  /** A pair without an active row gains one only by adding an active row or by setting its status to active. */
  lemma Activation(s: State, a: Action, ttl: int, p: Pair)
    requires TableRole(s.rows, p) == NotMember && TableRole(Next(s, a, ttl).rows, p).HasRole?
    ensures || (a.AddUser? && KeyOf(a.cu) == p && a.cu.status.ActiveMember?)
            || (a.UpdateStatus? && a.p == p && a.st.ActiveMember?)
  {
    hide TableRole, HasRow, WithRole, Without, WithStatus;
    StepAlike(s, a, ttl);
    match a
    case AddUser(cu, _, _) => AddOwn(s.rows, cu);
    case RemoveUser(q, _, _, _) => DropAlike(s.rows, q);
    case UpdateRole(q, role, _, _, _) => WithRoleKeepsActivity(s.rows, q, role);
    case UpdateStatus(q, st, _, _, _) => if !st.ActiveMember? { InactiveStatus(s.rows, q, st); }
    case _ =>
  }

  lemma {:induction false} ActiveStatus(rows: seq<CompanyUser>, p: Pair)
    requires HasRow(rows, p)
    ensures TableRole(WithStatus(rows, p, ActiveMember), p).HasRole?
  {
    var f := (r: CompanyUser) => r.(status := ActiveMember);
    if KeyOf(rows[0]) != p {
      assert HasRow(rows[1..], p);
      ActiveStatus(rows[1..], p);
      assert SetRow(rows, p, f)[1..] == SetRow(rows[1..], p, f);
    }
  }

  lemma {:induction false} InactiveStatus(rows: seq<CompanyUser>, p: Pair, st: Status)
    requires !st.ActiveMember?
    ensures TableRole(WithStatus(rows, p, st), p) == NotMember
  {
    var f := (r: CompanyUser) => r.(status := st);
    if rows != [] {
      InactiveStatus(rows[1..], p, st);
      assert SetRow(rows, p, f)[1..] == SetRow(rows[1..], p, f);
    }
  }
}

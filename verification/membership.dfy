/** Who is a member of a company: the company and invitation services, reading roles through the membership cache. */
module Membership {
  import opened Common
  import opened CompanyUsers
  import CheckDigits
  import Cnpj

  datatype InvitationStatus = Pending | Accepted | Expired | Revoked

  /** `role` is stored as given; it is validated only on acceptance. */
  datatype Invitation = Invitation(company: Uuid, email: string, role: string, status: InvitationStatus, expiresAt: int)

  const INVITATION_DURATION: int := 7 * 24 * 3600

  /** Users with their e-mail addresses, companies with their CNPJ, invitations by token, and the membership table with its
      cache. */
  datatype World = World(users: map<Uuid, string>, companies: map<Uuid, string>, invitations: map<string, Invitation>, m: State)

  datatype Refusal = InvalidRole | InvalidCnpj | CnpjTaken | NoCompany | NoUser | AlreadyMember | NotAMember | NotAdmin
                   | ReadFailed | StoreFailed | NoInvitation | InvitationInvalid | InvitationExpired | EmailMismatch
                   | InvitationExists

  datatype Outcome = Done | Refused(why: Refusal)

  /** Which calls of one cached role read succeed: the Redis get, the query, the Redis set. */
  datatype Io = Io(getOk: bool, dbOk: bool, setOk: bool)

  /** Which calls of one membership write succeed: the statement and the two cache deletes. */
  datatype Wr = Wr(dbOk: bool, delList: bool, delRole: bool)

  /** Whether the look-ups of the company and of the user succeed. */
  datatype Look = Look(companyOk: bool, userOk: bool)

  /** What CreateCompany meets: the registry's situation if it answers, the two look-ups, the INSERT of the company, that of
      the membership, and the event write with the commit. */
  datatype Creation = Creation(situacao: Option<string>, cnpjReadOk: bool, userOk: bool, insertOk: bool, wr: Wr, commitOk: bool)

  /** What InviteUser meets: the inviter's role read, the user found for the address with the read of that user's role, the
      pending invitation found, and the INSERT. A look-up that fails is one that finds nothing. */
  datatype Inviting = Inviting(io: Io, known: Option<Uuid>, io2: Io, found: Option<string>, insertOk: bool)

  /** What AcceptInvitation meets. */
  datatype Accepting = Accepting(tokenOk: bool, userOk: bool, wr: Wr, updateOk: bool)

  datatype Action =
    | Register(user: Uuid, email: string)
    | CreateCompany(company: Uuid, creator: Uuid, cnpj: string, c: Creation)
    | AddUserToCompany(p: Pair, role: string, inviter: Uuid, look: Look, io: Io, wr: Wr)
    | RemoveUserFromCompany(p: Pair, companyOk: bool, io: Io, wr: Wr)
    | RequestJoin(p: Pair, look: Look, io: Io, wr: Wr)
    | ApproveMember(company: Uuid, admin: Uuid, target: Uuid, io: Io, wr: Wr)
    | RejectMember(company: Uuid, admin: Uuid, target: Uuid, io: Io, wr: Wr)
    | UpdateUserRole(p: Pair, role: string, io: Io, wr: Wr)
    | InviteUser(invitor: Uuid, company: Uuid, email: string, role: string, token: string, v: Inviting)
    | AcceptInvitation(token: string, user: Uuid, g: Accepting)
    | Tick(d: nat)

  function ParseRole(s: string): Option<Role> {
    if s == "admin" then Some(Admin) else if s == "member" then Some(Member) else if s == "viewer" then Some(Viewer) else None
  }

  /** The text of a role. */
  function RoleName(r: Role): (s: string)
    ensures (r.Admin? <==> s == "admin") && (r.Member? <==> s == "member") && (r.Viewer? <==> s == "viewer")
  {
    match r
    case Admin => "admin"
    case Member => "member"
    case Viewer => "viewer"
  }

  /** Exactly the names of the three roles parse, each to its role. */
  lemma ParseRoleExact(s: string)
    ensures forall r :: ParseRole(s) == Some(r) <==> s == RoleName(r)
    ensures ParseRole(s).None? <==> s != "admin" && s != "member" && s != "viewer"
  {
    forall r ensures ParseRole(s) == Some(r) <==> s == RoleName(r) {
      assert RoleName(Admin) == "admin" && RoleName(Member) == "member" && RoleName(Viewer) == "viewer";
    }
  }

  // ---------------------------------------------------------------- the operations

  /** A role read through the cache: the answer, None when it failed, and the world with the cache as it leaves it. */
  function RoleSeen(w: World, p: Pair, io: Io): Option<RoleAnswer> { ServeRole(w.m, p, io.getOk, io.dbOk) }

  function AfterRead(w: World, p: Pair, io: Io, ttl: int): (r: World)
    ensures r == w.(m := r.m) && r.m.now == w.m.now
  {
    w.(m := CompanyUsers.Next(w.m, GetRole(p, io.getOk, io.dbOk, io.setOk), ttl))
  }

  predicate SeenMember(w: World, p: Pair, io: Io) { RoleSeen(w, p, io).Some? && RoleSeen(w, p, io).value.HasRole? }

  function Insert(w: World, p: Pair, role: Role, inviter: Uuid, st: Status, wr: Wr, ttl: int): (r: (World, Outcome))
    ensures r.0 == w.(m := r.0.m)
  {
    var cu := CompanyUser(p.company, p.user, role, inviter, w.m.now, st);
    (w.(m := CompanyUsers.Next(w.m, AddUser(cu, wr.dbOk, wr.delList), ttl)),
     if wr.dbOk && !HasRow(w.m.rows, p) then Done else Refused(StoreFailed))
  }

  function Written(w: World, p: Pair, wr: Wr): Outcome { if wr.dbOk && HasRow(w.m.rows, p) then Done else Refused(StoreFailed) }

  function Remove(w: World, p: Pair, wr: Wr, ttl: int): (r: (World, Outcome))
    ensures r.0 == w.(m := r.0.m)
  {
    (w.(m := CompanyUsers.Next(w.m, RemoveUser(p, wr.dbOk, wr.delList, wr.delRole), ttl)), Written(w, p, wr))
  }

  function Activate(w: World, p: Pair, wr: Wr, ttl: int): (r: (World, Outcome))
    ensures r.0 == w.(m := r.0.m)
  {
    (w.(m := CompanyUsers.Next(w.m, UpdateStatus(p, ActiveMember, wr.dbOk, wr.delList, wr.delRole), ttl)), Written(w, p, wr))
  }

  function ChangeRole(w: World, p: Pair, role: Role, wr: Wr, ttl: int): (r: (World, Outcome))
    ensures r.0 == w.(m := r.0.m)
  {
    (w.(m := CompanyUsers.Next(w.m, UpdateRole(p, role, wr.dbOk, wr.delList, wr.delRole), ttl)), Written(w, p, wr))
  }

  predicate Closed(situacao: Option<string>) { situacao.Some? && situacao.value in {"BAIXADA", "NULA", "INAPTA"} }

  /** A transaction that fails after the membership was inserted is rolled back; the cache entry that was dropped stays
      dropped. */
  function DoCreateCompany(w: World, company: Uuid, creator: Uuid, cnpj: string, c: Creation, ttl: int): (World, Outcome) {
    var number := CheckDigits.Normalize(cnpj);
    if !Cnpj.ValidNumber(number) || Closed(c.situacao) then (w, Refused(InvalidCnpj))
    else if !c.cnpjReadOk then (w, Refused(ReadFailed))
    else if number in w.companies.Values then (w, Refused(CnpjTaken))
    else if !c.userOk || creator !in w.users then (w, Refused(NoUser))
    else if !c.insertOk || company in w.companies then (w, Refused(StoreFailed))
    else
      var (w1, r) := Insert(w, Pair(company, creator), Admin, creator, ActiveMember, c.wr, ttl);
      if r.Refused? then (w, r)
      else if !c.commitOk then (w.(m := w.m.(lists := w1.m.lists)), Refused(StoreFailed))
      else (w1.(companies := w.companies[company := number]), Done)
  }

  /** A role read that fails counts as no role here. */
  function DoAddUser(w: World, p: Pair, role: string, inviter: Uuid, look: Look, io: Io, wr: Wr, ttl: int): (World, Outcome) {
    if ParseRole(role).None? then (w, Refused(InvalidRole))
    else if !look.companyOk || p.company !in w.companies then (w, Refused(NoCompany))
    else if !look.userOk || p.user !in w.users then (w, Refused(NoUser))
    else if SeenMember(w, p, io) then (AfterRead(w, p, io, ttl), Refused(AlreadyMember))
    else Insert(AfterRead(w, p, io, ttl), p, ParseRole(role).value, inviter, ActiveMember, wr, ttl)
  }

  function DoRemoveUser(w: World, p: Pair, companyOk: bool, io: Io, wr: Wr, ttl: int): (World, Outcome) {
    if !companyOk || p.company !in w.companies then (w, Refused(NoCompany))
    else if !SeenMember(w, p, io) then (AfterRead(w, p, io, ttl), Refused(NotAMember))
    else Remove(AfterRead(w, p, io, ttl), p, wr, ttl)
  }

  function DoRequestJoin(w: World, p: Pair, look: Look, io: Io, wr: Wr, ttl: int): (World, Outcome) {
    if !look.companyOk || p.company !in w.companies then (w, Refused(NoCompany))
    else if !look.userOk || p.user !in w.users then (w, Refused(NoUser))
    else if SeenMember(w, p, io) then (AfterRead(w, p, io, ttl), Refused(AlreadyMember))
    else Insert(AfterRead(w, p, io, ttl), p, Member, p.user, PendingMember, wr, ttl)
  }

  /** The permission test shared by approval, rejection and invitation. */
  function AdminTest(w: World, p: Pair, io: Io): Option<Refusal> {
    match RoleSeen(w, p, io)
    case None => Some(ReadFailed)
    case Some(NotMember) => Some(NotAMember)
    case Some(HasRole(r)) => if r.Admin? then None else Some(NotAdmin)
  }

  function DoApprove(w: World, company: Uuid, admin: Uuid, target: Uuid, io: Io, wr: Wr, ttl: int): (World, Outcome) {
    var w1 := AfterRead(w, Pair(company, admin), io, ttl);
    match AdminTest(w, Pair(company, admin), io)
    case Some(why) => (w1, Refused(why))
    case None => Activate(w1, Pair(company, target), wr, ttl)
  }

  function DoReject(w: World, company: Uuid, admin: Uuid, target: Uuid, io: Io, wr: Wr, ttl: int): (World, Outcome) {
    var w1 := AfterRead(w, Pair(company, admin), io, ttl);
    match AdminTest(w, Pair(company, admin), io)
    case Some(why) => (w1, Refused(why))
    case None => Remove(w1, Pair(company, target), wr, ttl)
  }

  function DoUpdateRole(w: World, p: Pair, role: string, io: Io, wr: Wr, ttl: int): (World, Outcome) {
    if ParseRole(role).None? then (w, Refused(InvalidRole))
    else if !SeenMember(w, p, io) then (AfterRead(w, p, io, ttl), Refused(NotAMember))
    else if RoleSeen(w, p, io).value.role == ParseRole(role).value then (AfterRead(w, p, io, ttl), Done)
    else ChangeRole(AfterRead(w, p, io, ttl), p, ParseRole(role).value, wr, ttl)
  }

  /** The look-up of a pending invitation for the address and company found `token`. */
  predicate FindsPending(w: World, token: Option<string>, email: string, company: Uuid) {
    && token.Some? && token.value in w.invitations && w.invitations[token.value].status.Pending?
    && w.invitations[token.value].email == email && w.invitations[token.value].company == company
  }

  /** Creating the invitation, unless the pending one found is still open. */
  function DoOffer(w: World, company: Uuid, email: string, role: string, token: string, found: Option<string>, insertOk: bool): (World, Outcome) {
    if FindsPending(w, found, email, company) && w.m.now < w.invitations[found.value].expiresAt then (w, Refused(InvitationExists))
    else if !insertOk || token in w.invitations then (w, Refused(StoreFailed))
    else (w.(invitations := w.invitations[token := Invitation(company, email, role, Pending, w.m.now + INVITATION_DURATION)]), Done)
  }

  predicate FindsUser(w: World, user: Option<Uuid>, email: string) {
    user.Some? && user.value in w.users && w.users[user.value] == email
  }

  /** A failed read of the invited user's role counts as no role here. */
  function DoInvite(w: World, invitor: Uuid, company: Uuid, email: string, role: string, token: string, v: Inviting, ttl: int): (World, Outcome)
  {
    var w1 := AfterRead(w, Pair(company, invitor), v.io, ttl);
    match AdminTest(w, Pair(company, invitor), v.io)
    case Some(why) => (w1, Refused(why))
    case None =>
      if !FindsUser(w, v.known, email) then DoOffer(w1, company, email, role, token, v.found, v.insertOk)
      else
        var w2 := AfterRead(w1, Pair(company, v.known.value), v.io2, ttl);
        if SeenMember(w1, Pair(company, v.known.value), v.io2) then (w2, Refused(AlreadyMember))
        else DoOffer(w2, company, email, role, token, v.found, v.insertOk)
  }

  /** The invitation is marked after the member was added; that last write may fail on its own. */
  function DoAccept(w: World, token: string, user: Uuid, g: Accepting, ttl: int): (World, Outcome) {
    if !g.tokenOk || token !in w.invitations then (w, Refused(NoInvitation))
    else
      var inv := w.invitations[token];
      if !inv.status.Pending? then (w, Refused(InvitationInvalid))
      else if w.m.now > inv.expiresAt then (w, Refused(InvitationExpired))
      else if !g.userOk || user !in w.users then (w, Refused(NoUser))
      else if w.users[user] != inv.email then (w, Refused(EmailMismatch))
      else if ParseRole(inv.role).None? then (w, Refused(InvalidRole))
      else
        var (w1, r) := Insert(w, Pair(inv.company, user), ParseRole(inv.role).value, 0, ActiveMember, g.wr, ttl);
        if r.Refused? then (w1, r)
        else if !g.updateOk then (w1, Refused(StoreFailed))
        else (w1.(invitations := w1.invitations[token := inv.(status := Accepted)]), Done)
  }

  function Perform(w: World, a: Action, ttl: int): (World, Outcome) {
    match a
    case Register(user, email) => if user in w.users then (w, Refused(StoreFailed)) else (w.(users := w.users[user := email]), Done)
    case CreateCompany(company, creator, cnpj, c) => DoCreateCompany(w, company, creator, cnpj, c, ttl)
    case AddUserToCompany(p, role, inviter, look, io, wr) => DoAddUser(w, p, role, inviter, look, io, wr, ttl)
    case RemoveUserFromCompany(p, companyOk, io, wr) => DoRemoveUser(w, p, companyOk, io, wr, ttl)
    case RequestJoin(p, look, io, wr) => DoRequestJoin(w, p, look, io, wr, ttl)
    case ApproveMember(company, admin, target, io, wr) => DoApprove(w, company, admin, target, io, wr, ttl)
    case RejectMember(company, admin, target, io, wr) => DoReject(w, company, admin, target, io, wr, ttl)
    case UpdateUserRole(p, role, io, wr) => DoUpdateRole(w, p, role, io, wr, ttl)
    case InviteUser(invitor, company, email, role, token, v) => DoInvite(w, invitor, company, email, role, token, v, ttl)
    case AcceptInvitation(token, user, g) => DoAccept(w, token, user, g, ttl)
    case Tick(d) => (w.(m := w.m.(now := w.m.now + d)), Done)
  }

  function Step(w: World, a: Action, ttl: int): World { Perform(w, a, ttl).0 }

  // ---------------------------------------------------------------- what each operation does to the table

  predicate SeenAdmin(w: World, p: Pair, io: Io) { RoleSeen(w, p, io) == Some(HasRole(Admin)) }

  function Row(w: World, p: Pair): Option<CompanyUser> { RowFor(w.m.rows, p) }

  /** The step succeeded in giving `p` the row, or in taking it away, and changed no other pair; or it changed nothing. */
  ghost predicate Gives(w: World, w': World, done: bool, p: Pair, row: Option<CompanyUser>) {
    if done then OnlyRow(w.m.rows, w'.m.rows, p, row) else w'.m.rows == w.m.rows
  }

  lemma InsertGives(w: World, p: Pair, role: Role, inviter: Uuid, st: Status, wr: Wr, ttl: int)
    ensures var r := Insert(w, p, role, inviter, st, wr, ttl);
            && r.1 == (if wr.dbOk && Row(w, p).None? then Done else Refused(StoreFailed))
            && Gives(w, r.0, r.1.Done?, p, Some(CompanyUser(p.company, p.user, role, inviter, w.m.now, st)))
  {
    hide RowFor, HasRow, OnlyRow;
    RowForExact(w.m.rows, p);
    var cu := CompanyUser(p.company, p.user, role, inviter, w.m.now, st);
    if Row(w, p).None? { AddedRow(w.m.rows, cu); }
  }

  lemma RemoveGives(w: World, p: Pair, wr: Wr, ttl: int)
    ensures var r := Remove(w, p, wr, ttl);
            && r.1 == (if wr.dbOk && Row(w, p).Some? then Done else Refused(StoreFailed))
            && Gives(w, r.0, r.1.Done?, p, None)
  {
    hide RowFor, HasRow, OnlyRow, Without;
    RowForExact(w.m.rows, p);
    DroppedRow(w.m.rows, p);
  }

  lemma ChangeGives(w: World, p: Pair, role: Role, wr: Wr, ttl: int)
    ensures var r := Activate(w, p, wr, ttl);
            && r.1 == (if wr.dbOk && Row(w, p).Some? then Done else Refused(StoreFailed))
            && (Row(w, p).Some? ==> Gives(w, r.0, r.1.Done?, p, Some(Row(w, p).value.(status := ActiveMember))))
            && (r.1.Refused? ==> r.0.m.rows == w.m.rows)
    ensures var r := ChangeRole(w, p, role, wr, ttl);
            && r.1 == (if wr.dbOk && Row(w, p).Some? then Done else Refused(StoreFailed))
            && (Row(w, p).Some? ==> Gives(w, r.0, r.1.Done?, p, Some(Row(w, p).value.(role := role))))
            && (r.1.Refused? ==> r.0.m.rows == w.m.rows)
  {
    hide RowFor, HasRow, OnlyRow, WithRole, WithStatus;
    RowForExact(w.m.rows, p);
    if Row(w, p).Some? { ChangedRow(w.m.rows, p, role, ActiveMember); }
  }

  lemma ReadKeepsRows(w: World, p: Pair, io: Io, ttl: int)
    ensures AfterRead(w, p, io, ttl).m.rows == w.m.rows
  {
    hide TableRole, Lifetime;
  }

  /** Creation: everything it needs, and the admin row it gives. */
  lemma CreateExact(w: World, company: Uuid, creator: Uuid, cnpj: string, c: Creation, ttl: int)
    ensures var r, number, p := DoCreateCompany(w, company, creator, cnpj, c, ttl), CheckDigits.Normalize(cnpj), Pair(company, creator);
            && (r.1.Done? <==>
                  && Cnpj.ValidNumber(number) && c.situacao != Some("BAIXADA") && c.situacao != Some("NULA") && c.situacao != Some("INAPTA")
                  && c.cnpjReadOk && (forall d :: d in w.companies ==> w.companies[d] != number)
                  && c.userOk && creator in w.users && c.insertOk && company !in w.companies
                  && c.wr.dbOk && Row(w, p).None? && c.commitOk)
            && Gives(w, r.0, r.1.Done?, p, Some(CompanyUser(company, creator, Admin, creator, w.m.now, ActiveMember)))
            && r.0.companies == (if r.1.Done? then w.companies[company := number] else w.companies)
            && (r.1 == Refused(InvalidCnpj) <==>
                  !Cnpj.ValidNumber(number) || c.situacao == Some("BAIXADA") || c.situacao == Some("NULA") || c.situacao == Some("INAPTA"))
            && (r.1 == Refused(CnpjTaken) ==> exists d :: d in w.companies && w.companies[d] == number)
  {
    hide Insert, Row, Cnpj.ValidNumber, CheckDigits.Normalize, OnlyRow;
    InsertGives(w, Pair(company, creator), Admin, creator, ActiveMember, c.wr, ttl);
    var number := CheckDigits.Normalize(cnpj);
    assert number in w.companies.Values <==> exists d :: d in w.companies && w.companies[d] == number;
  }

  lemma AddUserExact(w: World, p: Pair, role: string, inviter: Uuid, look: Look, io: Io, wr: Wr, ttl: int, named: Role)
    requires role == RoleName(named)
    ensures var r := DoAddUser(w, p, role, inviter, look, io, wr, ttl);
            && (r.1.Done? <==>
                  && look.companyOk && p.company in w.companies && look.userOk && p.user in w.users
                  && !SeenMember(w, p, io) && wr.dbOk && Row(w, p).None?)
            && (r.1 == Refused(NoCompany) <==> !(look.companyOk && p.company in w.companies))
            && (r.1 == Refused(NoUser) <==> look.companyOk && p.company in w.companies && !(look.userOk && p.user in w.users))
            && (r.1 == Refused(AlreadyMember) <==>
                  look.companyOk && p.company in w.companies && look.userOk && p.user in w.users && SeenMember(w, p, io))
            && Gives(w, r.0, r.1.Done?, p, Some(CompanyUser(p.company, p.user, named, inviter, w.m.now, ActiveMember)))
  {
    hide Insert, RowFor, OnlyRow, AfterRead, SeenMember, ParseRole, RoleName;
    ParseRoleExact(role);
    ReadKeepsRows(w, p, io, ttl);
    InsertGives(AfterRead(w, p, io, ttl), p, named, inviter, ActiveMember, wr, ttl);
  }

  lemma RequestJoinExact(w: World, p: Pair, look: Look, io: Io, wr: Wr, ttl: int)
    ensures var r := DoRequestJoin(w, p, look, io, wr, ttl);
            && (r.1.Done? <==>
                  && look.companyOk && p.company in w.companies && look.userOk && p.user in w.users
                  && !SeenMember(w, p, io) && wr.dbOk && Row(w, p).None?)
            && (r.1 == Refused(NoCompany) <==> !(look.companyOk && p.company in w.companies))
            && (r.1 == Refused(NoUser) <==> look.companyOk && p.company in w.companies && !(look.userOk && p.user in w.users))
            && (r.1 == Refused(AlreadyMember) <==>
                  look.companyOk && p.company in w.companies && look.userOk && p.user in w.users && SeenMember(w, p, io))
            && Gives(w, r.0, r.1.Done?, p, Some(CompanyUser(p.company, p.user, Member, p.user, w.m.now, PendingMember)))
  {
    hide Insert, RowFor, OnlyRow, AfterRead, SeenMember;
    ReadKeepsRows(w, p, io, ttl);
    InsertGives(AfterRead(w, p, io, ttl), p, Member, p.user, PendingMember, wr, ttl);
  }

  lemma RemoveUserExact(w: World, p: Pair, companyOk: bool, io: Io, wr: Wr, ttl: int)
    ensures var r := DoRemoveUser(w, p, companyOk, io, wr, ttl);
            && (r.1.Done? <==> companyOk && p.company in w.companies && SeenMember(w, p, io) && wr.dbOk && Row(w, p).Some?)
            && (r.1 == Refused(NoCompany) <==> !(companyOk && p.company in w.companies))
            && (r.1 == Refused(NotAMember) <==> companyOk && p.company in w.companies && !SeenMember(w, p, io))
            && Gives(w, r.0, r.1.Done?, p, None)
  {
    hide Remove, RowFor, OnlyRow, AfterRead, SeenMember;
    ReadKeepsRows(w, p, io, ttl);
    RemoveGives(AfterRead(w, p, io, ttl), p, wr, ttl);
  }

  lemma ApproveExact(w: World, company: Uuid, admin: Uuid, target: Uuid, io: Io, wr: Wr, ttl: int)
    ensures var r, p := DoApprove(w, company, admin, target, io, wr, ttl), Pair(company, target);
            && (r.1.Done? <==> SeenAdmin(w, Pair(company, admin), io) && wr.dbOk && Row(w, p).Some?)
            && (r.1 == Refused(ReadFailed) <==> RoleSeen(w, Pair(company, admin), io) == None)
            && (r.1 == Refused(NotAMember) <==> RoleSeen(w, Pair(company, admin), io) == Some(NotMember))
            && (r.1 == Refused(NotAdmin) <==>
                  SeenMember(w, Pair(company, admin), io) && !SeenAdmin(w, Pair(company, admin), io))
            && (r.1.Done? ==> OnlyRow(w.m.rows, r.0.m.rows, p, Some(Row(w, p).value.(status := ActiveMember))))
            && (r.1.Refused? ==> r.0.m.rows == w.m.rows)
  {
    hide Activate, RowFor, OnlyRow, AfterRead, RoleSeen;
    ReadKeepsRows(w, Pair(company, admin), io, ttl);
    ChangeGives(AfterRead(w, Pair(company, admin), io, ttl), Pair(company, target), Member, wr, ttl);
  }

  lemma RejectExact(w: World, company: Uuid, admin: Uuid, target: Uuid, io: Io, wr: Wr, ttl: int)
    ensures var r, p := DoReject(w, company, admin, target, io, wr, ttl), Pair(company, target);
            && (r.1.Done? <==> SeenAdmin(w, Pair(company, admin), io) && wr.dbOk && Row(w, p).Some?)
            && (r.1 == Refused(ReadFailed) <==> RoleSeen(w, Pair(company, admin), io) == None)
            && (r.1 == Refused(NotAMember) <==> RoleSeen(w, Pair(company, admin), io) == Some(NotMember))
            && (r.1 == Refused(NotAdmin) <==>
                  SeenMember(w, Pair(company, admin), io) && !SeenAdmin(w, Pair(company, admin), io))
            && Gives(w, r.0, r.1.Done?, p, None)
  {
    hide Remove, RowFor, OnlyRow, AfterRead, RoleSeen;
    ReadKeepsRows(w, Pair(company, admin), io, ttl);
    RemoveGives(AfterRead(w, Pair(company, admin), io, ttl), Pair(company, target), wr, ttl);
  }

  lemma UpdateRoleExact(w: World, p: Pair, role: string, io: Io, wr: Wr, ttl: int, named: Role)
    requires role == RoleName(named)
    ensures var r := DoUpdateRole(w, p, role, io, wr, ttl);
            var same := RoleSeen(w, p, io) == Some(HasRole(named));
            && (r.1.Done? <==> SeenMember(w, p, io) && (same || (wr.dbOk && Row(w, p).Some?)))
            && (r.1 == Refused(NotAMember) <==> !SeenMember(w, p, io))
            && (r.1.Done? && !same ==> OnlyRow(w.m.rows, r.0.m.rows, p, Some(Row(w, p).value.(role := named))))
            && (r.1.Refused? || same ==> r.0.m.rows == w.m.rows)
  {
    hide ChangeRole, RowFor, OnlyRow, AfterRead, RoleSeen, ParseRole, RoleName;
    ParseRoleExact(role);
    ReadKeepsRows(w, p, io, ttl);
    ChangeGives(AfterRead(w, p, io, ttl), p, named, wr, ttl);
  }

  /** An addition gives the pair an active row with the named role; refused, it changes nothing. */
  ghost predicate RoleGiven(w: World, w': World, r: Outcome, p: Pair, role: string, inviter: Uuid) {
    if r.Refused? then w'.m.rows == w.m.rows
    else
      exists named ::
        && role == RoleName(named)
        && OnlyRow(w.m.rows, w'.m.rows, p, Some(CompanyUser(p.company, p.user, named, inviter, w.m.now, ActiveMember)))
  }

  lemma AddGivesRole(w: World, p: Pair, role: string, inviter: Uuid, look: Look, io: Io, wr: Wr, ttl: int)
    ensures var r := DoAddUser(w, p, role, inviter, look, io, wr, ttl);
            RoleGiven(w, r.0, r.1, p, role, inviter)
  {
    hide OnlyRow, RowFor, RoleSeen, RoleName, DoAddUser;
    ParseRoleExact(role);
    if ParseRole(role).Some? { AddUserExact(w, p, role, inviter, look, io, wr, ttl, ParseRole(role).value); }
    else { UnknownRoleRefused(w, p, role, inviter, look, io, wr, ttl); }
  }

  /** An update gives the pair's row the named role and changes nothing else, or nothing at all when that role is the one
      seen; refused, it changes nothing. */
  ghost predicate RoleSet(w: World, w': World, r: Outcome, p: Pair, role: string, io: Io) {
    if r.Refused? then w'.m.rows == w.m.rows
    else
      exists named ::
        && role == RoleName(named)
        && (if RoleSeen(w, p, io) == Some(HasRole(named)) then w'.m.rows == w.m.rows
            else Row(w, p).Some? && OnlyRow(w.m.rows, w'.m.rows, p, Some(Row(w, p).value.(role := named))))
  }

  lemma UpdateSetsRole(w: World, p: Pair, role: string, io: Io, wr: Wr, ttl: int)
    ensures var r := DoUpdateRole(w, p, role, io, wr, ttl);
            RoleSet(w, r.0, r.1, p, role, io)
  {
    hide OnlyRow, RowFor, RoleSeen, RoleName, DoUpdateRole;
    ParseRoleExact(role);
    if ParseRole(role).Some? { UpdateRoleExact(w, p, role, io, wr, ttl, ParseRole(role).value); }
    else { UnknownRoleRefused(w, p, role, 0, Look(true, true), io, wr, ttl); }
  }

  /** A role text that names no role is refused before anything is read or written. */
  lemma UnknownRoleRefused(w: World, p: Pair, role: string, inviter: Uuid, look: Look, io: Io, wr: Wr, ttl: int)
    requires role != "admin" && role != "member" && role != "viewer"
    ensures DoAddUser(w, p, role, inviter, look, io, wr, ttl) == (w, Refused(InvalidRole)) == DoUpdateRole(w, p, role, io, wr, ttl)
  {
  }

  /** Acceptance: what makes the user a member, with the invited role, and what marks the invitation. */
  lemma AcceptExact(w: World, token: string, user: Uuid, g: Accepting, ttl: int, inv: Invitation, named: Role)
    requires token in w.invitations && w.invitations[token] == inv && inv.role == RoleName(named)
    ensures var r, p := DoAccept(w, token, user, g, ttl), Pair(inv.company, user);
            var joins := g.tokenOk && inv.status.Pending? && w.m.now <= inv.expiresAt && g.userOk && user in w.users
                         && w.users[user] == inv.email && g.wr.dbOk && Row(w, p).None?;
            && Gives(w, r.0, joins, p, Some(CompanyUser(inv.company, user, named, 0, w.m.now, ActiveMember)))
            && (r.1.Done? <==> joins && g.updateOk)
            && (r.1 == Refused(NoInvitation) <==> !g.tokenOk)
            && (r.1 == Refused(InvitationInvalid) <==> g.tokenOk && !inv.status.Pending?)
            && (r.1 == Refused(InvitationExpired) <==> g.tokenOk && inv.status.Pending? && w.m.now > inv.expiresAt)
            && (r.1 == Refused(EmailMismatch) <==> g.tokenOk && inv.status.Pending? && w.m.now <= inv.expiresAt
                                                   && g.userOk && user in w.users && w.users[user] != inv.email)
            && r.0.invitations == (if r.1.Done? then w.invitations[token := inv.(status := Accepted)] else w.invitations)
  {
    hide Insert, RowFor, OnlyRow, ParseRole, RoleName;
    ParseRoleExact(inv.role);
    InsertGives(w, Pair(inv.company, user), named, 0, ActiveMember, g.wr, ttl);
  }

  /** An invitation that is missing or names no role makes nobody a member. */
  lemma UnknownInvitationRefused(w: World, token: string, user: Uuid, g: Accepting, ttl: int)
    requires token in w.invitations ==>
               var role := w.invitations[token].role; role != "admin" && role != "member" && role != "viewer"
    ensures DoAccept(w, token, user, g, ttl).0 == w && DoAccept(w, token, user, g, ttl).1.Refused?
  {
  }

  /** Invitation: everything it needs, and what is stored. */
  lemma InviteExact(w: World, invitor: Uuid, company: Uuid, email: string, role: string, token: string, v: Inviting, ttl: int)
    ensures var r, w1 := DoInvite(w, invitor, company, email, role, token, v, ttl), AfterRead(w, Pair(company, invitor), v.io, ttl);
            var member := v.known.Some? && v.known.value in w.users && w.users[v.known.value] == email
                          && SeenMember(w1, Pair(company, v.known.value), v.io2);
            var open := v.found.Some? && v.found.value in w.invitations && var inv := w.invitations[v.found.value];
                        inv.status.Pending? && inv.email == email && inv.company == company && w.m.now < inv.expiresAt;
            && (r.1.Done? <==> SeenAdmin(w, Pair(company, invitor), v.io) && !member && !open && v.insertOk && token !in w.invitations)
            && (r.1 == Refused(AlreadyMember) <==> SeenAdmin(w, Pair(company, invitor), v.io) && member)
            && (r.1 == Refused(InvitationExists) <==> SeenAdmin(w, Pair(company, invitor), v.io) && !member && open)
            && r.0.invitations == (if r.1.Done? then w.invitations[token := Invitation(company, email, role, Pending, w.m.now + 604800)] else w.invitations)
            && r.0.m.rows == w.m.rows
  {
    hide RowFor, AfterRead, RoleSeen, SeenMember;
    ReadKeepsRows(w, Pair(company, invitor), v.io, ttl);
    if v.known.Some? { ReadKeepsRows(AfterRead(w, Pair(company, invitor), v.io, ttl), Pair(company, v.known.value), v.io2, ttl); }
  }

  // ---------------------------------------------------------------- the services

  /** The repositories the two services share. */
  class Repositories {
    const members: CachedCompanyUserRepository
    var users: map<Uuid, string>
    var companies: map<Uuid, string>
    var invitations: map<string, Invitation>

    constructor (members: CachedCompanyUserRepository)
      ensures this.members == members && users == map[] && companies == map[] && invitations == map[]
    {
      this.members := members;
      users, companies, invitations := map[], map[], map[];
    }

    ghost function Abs(): World reads this, members, members.delegate { World(users, companies, invitations, members.Abs()) }

    /** Whether the cached read shows a role. */
    method SeesMember(p: Pair, io: Io) returns (seen: bool)
      modifies members`roles
      ensures seen == SeenMember(old(Abs()), p, io) && Abs() == AfterRead(old(Abs()), p, io, members.ttl)
    {
      hide CompanyUsers.Next, TableRole;
      var role := members.GetUserRole(p, io.getOk, io.dbOk, io.setOk);
      return role.Some? && role.value.HasRole?;
    }

    /** Why the cached read does not show an admin, if it does not. */
    method TestAdmin(p: Pair, io: Io) returns (why: Option<Refusal>)
      modifies members`roles
      ensures why == AdminTest(old(Abs()), p, io) && Abs() == AfterRead(old(Abs()), p, io, members.ttl)
    {
      hide CompanyUsers.Next, TableRole;
      var role := members.GetUserRole(p, io.getOk, io.dbOk, io.setOk);
      if role.None? { return Some(ReadFailed); }
      if role.value.NotMember? { return Some(NotAMember); }
      if role.value.role != Admin { return Some(NotAdmin); }
      return None;
    }
  }

  class CompanyService {
    const repos: Repositories

    constructor (repos: Repositories)
      ensures this.repos == repos
    {
      this.repos := repos;
    }

    /** One transaction: the company row and its creator's admin row. */
    method CreateCompany(company: Uuid, creator: Uuid, cnpj: string, c: Creation) returns (r: Outcome)
      modifies repos`companies, repos.members`lists, repos.members.delegate
      ensures (repos.Abs(), r) == DoCreateCompany(old(repos.Abs()), company, creator, cnpj, c, repos.members.ttl)
      ensures Gives(old(repos.Abs()), repos.Abs(), r.Done?, Pair(company, creator),
                    Some(CompanyUser(company, creator, Admin, creator, old(repos.Abs()).m.now, ActiveMember)))
      ensures r.Refused? ==> repos.companies == old(repos.companies)
    {
      CreateExact(repos.Abs(), company, creator, cnpj, c, repos.members.ttl);
      hide Gives;
      hide Cnpj.ValidNumber, CheckDigits.Normalize;
      var number := CheckDigits.Normalize(cnpj);
      var valid := Cnpj.ValidateCNPJ(number);
      SameNumber(cnpj);
      if !valid || Closed(c.situacao) { return Refused(InvalidCnpj); }
      if !c.cnpjReadOk { return Refused(ReadFailed); }
      if number in repos.companies.Values { return Refused(CnpjTaken); }
      if !c.userOk || creator !in repos.users { return Refused(NoUser); }
      if !c.insertOk || company in repos.companies { return Refused(StoreFailed); }
      var cu := CompanyUser(company, creator, Admin, creator, repos.members.now, ActiveMember);
      var before := repos.members.delegate.rows;
      var ok := repos.members.AddUser(cu, c.wr.dbOk, c.wr.delList);
      if !ok { return Refused(StoreFailed); }
      if !c.commitOk {
        repos.members.delegate.rows := before;
        return Refused(StoreFailed);
      }
      repos.companies := repos.companies[company := number];
      return Done;
    }

    method AddUserToCompany(p: Pair, role: string, inviter: Uuid, look: Look, io: Io, wr: Wr) returns (r: Outcome)
      modifies repos.members`roles, repos.members`lists, repos.members.delegate
      ensures (repos.Abs(), r) == DoAddUser(old(repos.Abs()), p, role, inviter, look, io, wr, repos.members.ttl)
      ensures RoleGiven(old(repos.Abs()), repos.Abs(), r, p, role, inviter)
    {
      AddGivesRole(repos.Abs(), p, role, inviter, look, io, wr, repos.members.ttl);
      hide RoleGiven;
      hide TableRole;
      var valid := ParseRole(role);
      if valid.None? { return Refused(InvalidRole); }
      if !look.companyOk || p.company !in repos.companies { return Refused(NoCompany); }
      if !look.userOk || p.user !in repos.users { return Refused(NoUser); }
      var seen := repos.SeesMember(p, io);
      if seen { return Refused(AlreadyMember); }
      var cu := CompanyUser(p.company, p.user, valid.value, inviter, repos.members.now, ActiveMember);
      var ok := repos.members.AddUser(cu, wr.dbOk, wr.delList);
      return if ok then Done else Refused(StoreFailed);
    }

    method RequestJoin(p: Pair, look: Look, io: Io, wr: Wr) returns (r: Outcome)
      modifies repos.members`roles, repos.members`lists, repos.members.delegate
      ensures (repos.Abs(), r) == DoRequestJoin(old(repos.Abs()), p, look, io, wr, repos.members.ttl)
      ensures Gives(old(repos.Abs()), repos.Abs(), r.Done?, p,
                    Some(CompanyUser(p.company, p.user, Member, p.user, old(repos.Abs()).m.now, PendingMember)))
    {
      RequestJoinExact(repos.Abs(), p, look, io, wr, repos.members.ttl);
      hide Gives;
      hide TableRole, RowFor, OnlyRow, HasRow;
      if !look.companyOk || p.company !in repos.companies { return Refused(NoCompany); }
      if !look.userOk || p.user !in repos.users { return Refused(NoUser); }
      var seen := repos.SeesMember(p, io);
      if seen { return Refused(AlreadyMember); }
      var cu := CompanyUser(p.company, p.user, Member, p.user, repos.members.now, PendingMember);
      var ok := repos.members.AddUser(cu, wr.dbOk, wr.delList);
      return if ok then Done else Refused(StoreFailed);
    }

    method RemoveUserFromCompany(p: Pair, companyOk: bool, io: Io, wr: Wr) returns (r: Outcome)
      modifies repos.members`roles, repos.members`lists, repos.members.delegate
      ensures (repos.Abs(), r) == DoRemoveUser(old(repos.Abs()), p, companyOk, io, wr, repos.members.ttl)
      ensures Gives(old(repos.Abs()), repos.Abs(), r.Done?, p, None)
    {
      RemoveUserExact(repos.Abs(), p, companyOk, io, wr, repos.members.ttl);
      hide Gives;
      hide TableRole;
      if !companyOk || p.company !in repos.companies { return Refused(NoCompany); }
      var seen := repos.SeesMember(p, io);
      if !seen { return Refused(NotAMember); }
      var ok := repos.members.RemoveUser(p, wr.dbOk, wr.delList, wr.delRole);
      return if ok then Done else Refused(StoreFailed);
    }

    method ApproveMember(company: Uuid, admin: Uuid, target: Uuid, io: Io, wr: Wr) returns (r: Outcome)
      modifies repos.members`roles, repos.members`lists, repos.members.delegate
      ensures (repos.Abs(), r) == DoApprove(old(repos.Abs()), company, admin, target, io, wr, repos.members.ttl)
      ensures r.Done? ==>
                && Row(old(repos.Abs()), Pair(company, target)).Some?
                && OnlyRow(old(repos.members.delegate.rows), repos.members.delegate.rows, Pair(company, target),
                           Some(Row(old(repos.Abs()), Pair(company, target)).value.(status := ActiveMember)))
      ensures r.Refused? ==> repos.members.delegate.rows == old(repos.members.delegate.rows)
    {
      ApproveExact(repos.Abs(), company, admin, target, io, wr, repos.members.ttl);
      hide TableRole, AfterRead, AdminTest;
      var why := repos.TestAdmin(Pair(company, admin), io);
      if why.Some? { return Refused(why.value); }
      var ok := repos.members.UpdateUserStatus(Pair(company, target), ActiveMember, wr.dbOk, wr.delList, wr.delRole);
      return if ok then Done else Refused(StoreFailed);
    }

    method RejectMember(company: Uuid, admin: Uuid, target: Uuid, io: Io, wr: Wr) returns (r: Outcome)
      modifies repos.members`roles, repos.members`lists, repos.members.delegate
      ensures (repos.Abs(), r) == DoReject(old(repos.Abs()), company, admin, target, io, wr, repos.members.ttl)
      ensures Gives(old(repos.Abs()), repos.Abs(), r.Done?, Pair(company, target), None)
    {
      RejectExact(repos.Abs(), company, admin, target, io, wr, repos.members.ttl);
      hide Gives;
      hide TableRole, AfterRead, AdminTest;
      var why := repos.TestAdmin(Pair(company, admin), io);
      if why.Some? { return Refused(why.value); }
      var ok := repos.members.RemoveUser(Pair(company, target), wr.dbOk, wr.delList, wr.delRole);
      return if ok then Done else Refused(StoreFailed);
    }

    method UpdateUserRole(p: Pair, role: string, io: Io, wr: Wr) returns (r: Outcome)
      modifies repos.members`roles, repos.members`lists, repos.members.delegate
      ensures (repos.Abs(), r) == DoUpdateRole(old(repos.Abs()), p, role, io, wr, repos.members.ttl)
      ensures RoleSet(old(repos.Abs()), repos.Abs(), r, p, role, io)
    {
      hide TableRole, RoleSet;
      UpdateSetsRole(repos.Abs(), p, role, io, wr, repos.members.ttl);
      var valid := ParseRole(role);
      if valid.None? { return Refused(InvalidRole); }
      var current := repos.members.GetUserRole(p, io.getOk, io.dbOk, io.setOk);
      if current.None? || current.value.NotMember? { return Refused(NotAMember); }
      if current.value.role == valid.value { return Done; }
      var ok := repos.members.UpdateUserRole(p, valid.value, wr.dbOk, wr.delList, wr.delRole);
      return if ok then Done else Refused(StoreFailed);
    }
  }

  lemma SameNumber(cnpj: string)
    ensures CheckDigits.Normalize(CheckDigits.Normalize(cnpj)) == CheckDigits.Normalize(cnpj)
  {
    CheckDigits.NormalizeDigits(cnpj);
    CheckDigits.NormalizeDigits(CheckDigits.Normalize(cnpj));
  }

  class InvitationService {
    const repos: Repositories

    constructor (repos: Repositories)
      ensures this.repos == repos
    {
      this.repos := repos;
    }

    method InviteUser(invitor: Uuid, company: Uuid, email: string, role: string, token: string, v: Inviting) returns (r: Outcome)
      modifies repos`invitations, repos.members`roles
      ensures (repos.Abs(), r) == DoInvite(old(repos.Abs()), invitor, company, email, role, token, v, repos.members.ttl)
    {
      hide CompanyUsers.Next, TableRole, DoOffer, AfterRead, AdminTest, SeenMember;
      var why := repos.TestAdmin(Pair(company, invitor), v.io);
      if why.Some? { return Refused(why.value); }
      if v.known.Some? && v.known.value in repos.users && repos.users[v.known.value] == email {
        var seen := repos.SeesMember(Pair(company, v.known.value), v.io2);
        if seen { return Refused(AlreadyMember); }
      }
      r := Offer(company, email, role, token, v.found, v.insertOk);
    }

    method Offer(company: Uuid, email: string, role: string, token: string, found: Option<string>, insertOk: bool) returns (r: Outcome)
      modifies repos`invitations
      ensures (repos.Abs(), r) == DoOffer(old(repos.Abs()), company, email, role, token, found, insertOk)
    {
      if found.Some? && found.value in repos.invitations {
        var inv := repos.invitations[found.value];
        if inv.status.Pending? && inv.email == email && inv.company == company && repos.members.now < inv.expiresAt {
          return Refused(InvitationExists);
        }
      }
      if !insertOk || token in repos.invitations { return Refused(StoreFailed); }
      var inv := Invitation(company, email, role, Pending, repos.members.now + INVITATION_DURATION);
      repos.invitations := repos.invitations[token := inv];
      return Done;
    }

    method AcceptInvitation(token: string, user: Uuid, g: Accepting) returns (r: Outcome)
      modifies repos`invitations, repos.members`lists, repos.members.delegate
      ensures (repos.Abs(), r) == DoAccept(old(repos.Abs()), token, user, g, repos.members.ttl)
      ensures r.Done? ==> token in old(repos.invitations) && var inv := old(repos.invitations)[token];
                exists named ::
                && inv.role == RoleName(named)
                && OnlyRow(old(repos.members.delegate.rows), repos.members.delegate.rows, Pair(inv.company, user),
                           Some(CompanyUser(inv.company, user, named, 0, repos.members.now, ActiveMember)))
                && repos.invitations == old(repos.invitations)[token := inv.(status := Accepted)]
    {
      if token in repos.invitations {
        ghost var inv := repos.invitations[token];
        ParseRoleExact(inv.role);
        if ParseRole(inv.role).Some? { AcceptExact(repos.Abs(), token, user, g, repos.members.ttl, inv, ParseRole(inv.role).value); }
      }
      if !g.tokenOk || token !in repos.invitations { return Refused(NoInvitation); }
      var inv := repos.invitations[token];
      if !inv.status.Pending? { return Refused(InvitationInvalid); }
      if repos.members.now > inv.expiresAt { return Refused(InvitationExpired); }
      if !g.userOk || user !in repos.users { return Refused(NoUser); }
      if repos.users[user] != inv.email { return Refused(EmailMismatch); }
      var role := ParseRole(inv.role);
      if role.None? { return Refused(InvalidRole); }
      var ok := repos.members.AddUser(CompanyUser(inv.company, user, role.value, 0, repos.members.now, ActiveMember), g.wr.dbOk, g.wr.delList);
      if !ok { return Refused(StoreFailed); }
      if !g.updateOk { return Refused(StoreFailed); }
      repos.invitations := repos.invitations[token := inv.(status := Accepted)];
      return Done;
    }
  }

  // ---------------------------------------------------------------- what a step does to the cache

  /** Every role entry was there before or was just filled from the table. */
  ghost predicate Filled(m: State, m': State, ttl: int) {
    forall p :: p in m'.roles ==>
      (p in m.roles && m'.roles[p] == m.roles[p]) || m'.roles[p] == RoleEntry(TableRole(m.rows, p), m.now + Lifetime(TableRole(m.rows, p), ttl))
  }

  lemma NextFilled(m: State, a: CompanyUsers.Action, ttl: int)
    ensures Filled(m, CompanyUsers.Next(m, a, ttl), ttl)
  {
    hide CompanyUsers.Next, TableRole, Lifetime;
    var m' := CompanyUsers.Next(m, a, ttl);
    forall p | p in m'.roles
      ensures (p in m.roles && m'.roles[p] == m.roles[p]) || m'.roles[p] == RoleEntry(TableRole(m.rows, p), m.now + Lifetime(TableRole(m.rows, p), ttl))
    {
      RoleEntryOrigin(m, a, ttl, p);
    }
  }

  lemma FilledAgain(m: State, m1: State, m2: State, ttl: int)
    requires Filled(m, m1, ttl) && m1.rows == m.rows && m1.now == m.now && Filled(m1, m2, ttl)
    ensures Filled(m, m2, ttl)
  {
    hide TableRole, Lifetime;
  }

  lemma SameRolesFilled(m: State, m': State, ttl: int)
    requires m'.roles == m.roles
    ensures Filled(m, m', ttl)
  {
  }

  lemma ReadFilled(w: World, p: Pair, io: Io, ttl: int)
    ensures Filled(w.m, AfterRead(w, p, io, ttl).m, ttl)
    ensures AfterRead(w, p, io, ttl) == w.(m := AfterRead(w, p, io, ttl).m)
    ensures AfterRead(w, p, io, ttl).m.rows == w.m.rows && AfterRead(w, p, io, ttl).m.now == w.m.now
  {
    hide TableRole, Lifetime, Filled;
    NextFilled(w.m, GetRole(p, io.getOk, io.dbOk, io.setOk), ttl);
  }

  /** The table writes after the reads. */
  lemma WriteFilled(w: World, p: Pair, role: Role, inviter: Uuid, st: Status, wr: Wr, ttl: int)
    ensures Filled(w.m, Insert(w, p, role, inviter, st, wr, ttl).0.m, ttl) && Filled(w.m, Remove(w, p, wr, ttl).0.m, ttl)
    ensures Filled(w.m, Activate(w, p, wr, ttl).0.m, ttl) && Filled(w.m, ChangeRole(w, p, role, wr, ttl).0.m, ttl)
    ensures Insert(w, p, role, inviter, st, wr, ttl).0.m.roles == w.m.roles
  {
    hide TableRole, Lifetime, Filled, HasRow;
    NextFilled(w.m, AddUser(CompanyUser(p.company, p.user, role, inviter, w.m.now, st), wr.dbOk, wr.delList), ttl);
    NextFilled(w.m, RemoveUser(p, wr.dbOk, wr.delList, wr.delRole), ttl);
    NextFilled(w.m, UpdateStatus(p, ActiveMember, wr.dbOk, wr.delList, wr.delRole), ttl);
    NextFilled(w.m, UpdateRole(p, role, wr.dbOk, wr.delList, wr.delRole), ttl);
  }

  /** A read of `p` followed by a write to `q`. */
  lemma ReadWriteFilled(w: World, p: Pair, io: Io, q: Pair, role: Role, inviter: Uuid, st: Status, wr: Wr, ttl: int)
    ensures var w1 := AfterRead(w, p, io, ttl);
            && Filled(w.m, w1.m, ttl)
            && Filled(w.m, Insert(w1, q, role, inviter, st, wr, ttl).0.m, ttl) && Filled(w.m, Remove(w1, q, wr, ttl).0.m, ttl)
            && Filled(w.m, Activate(w1, q, wr, ttl).0.m, ttl) && Filled(w.m, ChangeRole(w1, q, role, wr, ttl).0.m, ttl)
  {
    hide Filled, Insert, Remove, Activate, ChangeRole, AfterRead;
    var w1 := AfterRead(w, p, io, ttl);
    ReadFilled(w, p, io, ttl);
    WriteFilled(w1, q, role, inviter, st, wr, ttl);
    FilledAgain(w.m, w1.m, Insert(w1, q, role, inviter, st, wr, ttl).0.m, ttl);
    FilledAgain(w.m, w1.m, Remove(w1, q, wr, ttl).0.m, ttl);
    FilledAgain(w.m, w1.m, Activate(w1, q, wr, ttl).0.m, ttl);
    FilledAgain(w.m, w1.m, ChangeRole(w1, q, role, wr, ttl).0.m, ttl);
  }

  lemma InviteFilled(w: World, a: Action, ttl: int)
    requires a.InviteUser?
    ensures Filled(w.m, Step(w, a, ttl).m, ttl)
  {
    hide Filled, AfterRead, RoleSeen;
    var p, w1 := Pair(a.company, a.invitor), AfterRead(w, Pair(a.company, a.invitor), a.v.io, ttl);
    ReadFilled(w, p, a.v.io, ttl);
    if a.v.known.Some? {
      var q := Pair(a.company, a.v.known.value);
      ReadFilled(w1, q, a.v.io2, ttl);
      FilledAgain(w.m, w1.m, AfterRead(w1, q, a.v.io2, ttl).m, ttl);
    }
  }

  /** Each operation reads roles first and then writes the table at most once, so the entries it leaves are old ones or
      the table's answers at its start. */
  lemma StepFilled(w: World, a: Action, ttl: int)
    ensures Filled(w.m, Step(w, a, ttl).m, ttl)
  {
    hide Filled, Insert, Remove, Activate, ChangeRole, AfterRead, RoleSeen, ParseRole, Cnpj.ValidNumber, CheckDigits.Normalize;
    SameRolesFilled(w.m, w.m, ttl);
    match a
    case Register(_, _) =>
    case Tick(d) => SameRolesFilled(w.m, Step(w, a, ttl).m, ttl);
    case CreateCompany(company, creator, _, c) =>
      WriteFilled(w, Pair(company, creator), Admin, creator, ActiveMember, c.wr, ttl);
      var m1 := Insert(w, Pair(company, creator), Admin, creator, ActiveMember, c.wr, ttl).0.m;
      SameRolesFilled(w.m, w.m.(lists := m1.lists), ttl);
    case AddUserToCompany(p, role, inviter, _, io, wr) =>
      if ParseRole(role).Some? { ReadWriteFilled(w, p, io, p, ParseRole(role).value, inviter, ActiveMember, wr, ttl); }
    case RemoveUserFromCompany(p, _, io, wr) => ReadWriteFilled(w, p, io, p, Member, 0, ActiveMember, wr, ttl);
    case RequestJoin(p, _, io, wr) => ReadWriteFilled(w, p, io, p, Member, p.user, PendingMember, wr, ttl);
    case ApproveMember(company, admin, target, io, wr) =>
      ReadWriteFilled(w, Pair(company, admin), io, Pair(company, target), Member, 0, ActiveMember, wr, ttl);
    case RejectMember(company, admin, target, io, wr) =>
      ReadWriteFilled(w, Pair(company, admin), io, Pair(company, target), Member, 0, ActiveMember, wr, ttl);
    case UpdateUserRole(p, role, io, wr) =>
      if ParseRole(role).Some? { ReadWriteFilled(w, p, io, p, ParseRole(role).value, 0, ActiveMember, wr, ttl); }
    case InviteUser(_, _, _, _, _, _) => InviteFilled(w, a, ttl);
    case AcceptInvitation(token, user, g) =>
      if token in w.invitations && ParseRole(w.invitations[token].role).Some? {
        var inv := w.invitations[token];
        WriteFilled(w, Pair(inv.company, user), ParseRole(inv.role).value, 0, ActiveMember, g.wr, ttl);
      }
  }

  // ---------------------------------------------------------------- who was an admin

  ghost predicate IsRun(states: seq<World>, actions: seq<Action>, ttl: int) {
    && |states| == |actions| + 1 && ttl > 0
    && states[0].m.rows == [] && states[0].m.roles == map[] && states[0].m.lists == map[]
    && states[0].invitations == map[] && states[0].companies == map[]
    && forall i :: 0 <= i < |actions| ==> states[i + 1] == Step(states[i], actions[i], ttl)
  }

  /** The table had `answer` for the pair at an instant of the run not before `since`. */
  ghost predicate RoleWas(states: seq<World>, i: nat, p: Pair, answer: RoleAnswer, since: int)
    requires i < |states|
  {
    exists j :: 0 <= j <= i && TableRole(states[j].m.rows, p) == answer && since <= states[j].m.now
  }

  ghost predicate RolesBacked(states: seq<World>, i: nat, ttl: int)
    requires i < |states|
  {
    forall p :: p in states[i].m.roles ==>
      RoleWas(states, i, p, states[i].m.roles[p].answer, states[i].m.roles[p].expiresAt - Lifetime(states[i].m.roles[p].answer, ttl))
  }

  lemma {:induction false} RolesAlwaysBacked(states: seq<World>, actions: seq<Action>, ttl: int, i: nat)
    requires IsRun(states, actions, ttl) && i < |states|
    ensures RolesBacked(states, i, ttl)
  {
    hide TableRole, Step, Lifetime;
    if i > 0 {
      RolesAlwaysBacked(states, actions, ttl, i - 1);
      var m, m' := states[i - 1].m, states[i].m;
      StepFilled(states[i - 1], actions[i - 1], ttl);
      forall p | p in m'.roles ensures RoleWas(states, i, p, m'.roles[p].answer, m'.roles[p].expiresAt - Lifetime(m'.roles[p].answer, ttl)) {
        if p in m.roles && m'.roles[p] == m.roles[p] {
          assert RoleWas(states, i - 1, p, m.roles[p].answer, m.roles[p].expiresAt - Lifetime(m.roles[p].answer, ttl));
        } else {
          assert TableRole(states[i - 1].m.rows, p) == m'.roles[p].answer;
        }
      }
    }
  }

  /** The pair had an active admin row less than ttl before state `i`. */
  ghost predicate WasAdmin(states: seq<World>, i: nat, p: Pair, ttl: int)
    requires i < |states|
  {
    exists j :: 0 <= j <= i && TableRole(states[j].m.rows, p) == HasRole(Admin) && states[i].m.now - states[j].m.now < ttl
  }

  /** Whatever calls fail in a run, whoever a service takes for an admin was one in the table less than ttl before. */
  lemma {:induction false} AdminSeenWasAdmin(states: seq<World>, actions: seq<Action>, ttl: int, i: nat, p: Pair, io: Io)
    requires IsRun(states, actions, ttl) && i < |states| && SeenAdmin(states[i], p, io)
    ensures WasAdmin(states, i, p, ttl)
  {
    hide TableRole, Step;
    var m := states[i].m;
    if io.getOk && RoleHit(m, p) {
      RolesAlwaysBacked(states, actions, ttl, i);
      assert RoleWas(states, i, p, m.roles[p].answer, m.roles[p].expiresAt - Lifetime(m.roles[p].answer, ttl));
    } else {
      assert TableRole(states[i].m.rows, p) == HasRole(Admin);
    }
  }

  /** The role-key delete of the step's table write, if it makes one, succeeds. */
  predicate RoleDeleteOk(a: Action) {
    match a
    case RemoveUserFromCompany(_, _, _, wr) => wr.delRole
    case ApproveMember(_, _, _, _, wr) => wr.delRole
    case RejectMember(_, _, _, _, wr) => wr.delRole
    case UpdateUserRole(_, _, _, wr) => wr.delRole
    case _ => true
  }

  lemma ReadSound(w: World, p: Pair, io: Io, ttl: int)
    requires RolesSound(w.m)
    ensures RolesSound(AfterRead(w, p, io, ttl).m)
    ensures RoleSeen(w, p, io).Some? && RoleSeen(w, p, io).value.HasRole? ==> TableRole(w.m.rows, p) == RoleSeen(w, p, io).value
  {
    hide TableRole, CompanyUsers.Next;
    RolesSoundStep(w.m, GetRole(p, io.getOk, io.dbOk, io.setOk), ttl);
  }

  lemma WriteSound(w: World, p: Pair, role: Role, inviter: Uuid, st: Status, wr: Wr, ttl: int)
    requires RolesSound(w.m)
    ensures RolesSound(Insert(w, p, role, inviter, st, wr, ttl).0.m)
    ensures wr.delRole ==> RolesSound(Remove(w, p, wr, ttl).0.m) && RolesSound(Activate(w, p, wr, ttl).0.m)
    ensures wr.delRole ==> RolesSound(ChangeRole(w, p, role, wr, ttl).0.m)
  {
    hide CompanyUsers.Next, HasRow, RolesSound;
    RolesSoundStep(w.m, AddUser(CompanyUser(p.company, p.user, role, inviter, w.m.now, st), wr.dbOk, wr.delList), ttl);
    if wr.delRole {
      RolesSoundStep(w.m, RemoveUser(p, wr.dbOk, wr.delList, wr.delRole), ttl);
      RolesSoundStep(w.m, UpdateStatus(p, ActiveMember, wr.dbOk, wr.delList, wr.delRole), ttl);
      RolesSoundStep(w.m, UpdateRole(p, role, wr.dbOk, wr.delList, wr.delRole), ttl);
    }
  }

  lemma SoundFrame(m: State, m': State)
    requires RolesSound(m) && m'.rows == m.rows && m'.roles == m.roles
    ensures RolesSound(m')
  {
    hide TableRole;
  }

  lemma InviteSound(w: World, a: Action, ttl: int)
    requires RolesSound(w.m) && a.InviteUser?
    ensures RolesSound(Step(w, a, ttl).m)
  {
    hide RolesSound, AfterRead, RoleSeen;
    var p, w1 := Pair(a.company, a.invitor), AfterRead(w, Pair(a.company, a.invitor), a.v.io, ttl);
    ReadSound(w, p, a.v.io, ttl);
    if a.v.known.Some? { ReadSound(w1, Pair(a.company, a.v.known.value), a.v.io2, ttl); }
  }

  /** With its role-key delete succeeding an operation leaves no role in the cache that the table does not have. */
  lemma PerformSound(w: World, a: Action, ttl: int)
    requires RolesSound(w.m) && RoleDeleteOk(a)
    ensures RolesSound(Step(w, a, ttl).m)
  {
    hide RolesSound, Insert, Remove, Activate, ChangeRole, AfterRead, RoleSeen, ParseRole, Cnpj.ValidNumber, CheckDigits.Normalize;
    match a
    case Register(_, _) =>
    case Tick(d) => SoundFrame(w.m, Step(w, a, ttl).m);
    case CreateCompany(company, creator, _, c) =>
      WriteSound(w, Pair(company, creator), Admin, creator, ActiveMember, c.wr, ttl);
      var m1 := Insert(w, Pair(company, creator), Admin, creator, ActiveMember, c.wr, ttl).0.m;
      SoundFrame(w.m, w.m.(lists := m1.lists));
    case AddUserToCompany(p, role, inviter, _, io, wr) =>
      ReadSound(w, p, io, ttl);
      if ParseRole(role).Some? { WriteSound(AfterRead(w, p, io, ttl), p, ParseRole(role).value, inviter, ActiveMember, wr, ttl); }
    case RemoveUserFromCompany(p, _, io, wr) =>
      ReadSound(w, p, io, ttl);
      WriteSound(AfterRead(w, p, io, ttl), p, Member, 0, ActiveMember, wr, ttl);
    case RequestJoin(p, _, io, wr) =>
      ReadSound(w, p, io, ttl);
      WriteSound(AfterRead(w, p, io, ttl), p, Member, p.user, PendingMember, wr, ttl);
    case ApproveMember(company, admin, target, io, wr) =>
      ReadSound(w, Pair(company, admin), io, ttl);
      WriteSound(AfterRead(w, Pair(company, admin), io, ttl), Pair(company, target), Member, 0, ActiveMember, wr, ttl);
    case RejectMember(company, admin, target, io, wr) =>
      ReadSound(w, Pair(company, admin), io, ttl);
      WriteSound(AfterRead(w, Pair(company, admin), io, ttl), Pair(company, target), Member, 0, ActiveMember, wr, ttl);
    case UpdateUserRole(p, role, io, wr) =>
      ReadSound(w, p, io, ttl);
      if ParseRole(role).Some? { WriteSound(AfterRead(w, p, io, ttl), p, ParseRole(role).value, 0, ActiveMember, wr, ttl); }
    case InviteUser(_, _, _, _, _, _) => InviteSound(w, a, ttl);
    case AcceptInvitation(token, user, g) =>
      if token in w.invitations && ParseRole(w.invitations[token].role).Some? {
        var inv := w.invitations[token];
        WriteSound(w, Pair(inv.company, user), ParseRole(inv.role).value, 0, ActiveMember, g.wr, ttl);
      }
  }

  lemma {:induction false} AlwaysSoundWorld(states: seq<World>, actions: seq<Action>, ttl: int, i: nat)
    requires IsRun(states, actions, ttl) && i < |states| && forall k :: 0 <= k < i ==> RoleDeleteOk(actions[k])
    ensures RolesSound(states[i].m)
  {
    hide Step, TableRole, RoleDeleteOk;
    if i > 0 {
      AlwaysSoundWorld(states, actions, ttl, i - 1);
      PerformSound(states[i - 1], actions[i - 1], ttl);
    }
  }

  /** While no delete of a role key fails, whoever a service takes for an admin is one in the table at that moment. */
  lemma AdminSeenIsAdmin(states: seq<World>, actions: seq<Action>, ttl: int, i: nat, p: Pair, io: Io)
    requires IsRun(states, actions, ttl) && i < |states| && forall k :: 0 <= k < i ==> RoleDeleteOk(actions[k])
    requires SeenAdmin(states[i], p, io)
    ensures TableRole(states[i].m.rows, p) == HasRole(Admin)
  {
    hide Step, TableRole, RoleDeleteOk, RoleSeen;
    AlwaysSoundWorld(states, actions, ttl, i);
    ReadSound(states[i], p, io, ttl);
  }

  /** One failing delete is enough to break that: in any world an admin who is removed while the role key stays can still
      approve a member for as long as the key lives. */
  lemma RemovedAdminApproves(w: World, p: Pair, target: Uuid, d: nat, ttl: int)
    requires TableRole(w.m.rows, p) == HasRole(Admin) && HasRow(w.m.rows, p) && p.company in w.companies
    requires target != p.user && HasRow(Without(w.m.rows, p), Pair(p.company, target)) && d < ttl
    ensures var w1 := Step(w, RemoveUserFromCompany(p, true, Io(false, true, true), Wr(true, true, false)), ttl);
            var w2 := Step(w1, Action.Tick(d), ttl);
            var w3 := Step(w2, ApproveMember(p.company, p.user, target, Io(true, true, true), Wr(true, true, true)), ttl);
            TableRole(w2.m.rows, p) == NotMember && TableRole(w3.m.rows, Pair(p.company, target)).HasRole?
  {
    hide TableRole, HasRow, Without, WithStatus;
    DropAlike(w.m.rows, p);
    ActiveStatus(Without(w.m.rows, p), Pair(p.company, target));
  }

  // ---------------------------------------------------------------- every active membership has a cause

  /** Step `a`, taken in world `w`, is one of the four ways to make `p` an active member. */
  ghost predicate Cause(w: World, a: Action, p: Pair) {
    match a
    case CreateCompany(company, creator, _, _) => p == Pair(company, creator) && company !in w.companies && creator in w.users
    case AddUserToCompany(q, role, _, _, _, _) => p == q && q.company in w.companies && q.user in w.users && ParseRole(role).Some?
    case AcceptInvitation(token, user, _) =>
      && token in w.invitations && w.invitations[token].status.Pending? && w.m.now <= w.invitations[token].expiresAt
      && user in w.users && w.users[user] == w.invitations[token].email
      && p == Pair(w.invitations[token].company, user)
    case ApproveMember(company, admin, target, io, _) => p == Pair(company, target) && SeenAdmin(w, Pair(company, admin), io)
    case _ => false
  }

  lemma InsertActivates(w: World, q: Pair, role: Role, inviter: Uuid, st: Status, wr: Wr, ttl: int, p: Pair)
    requires TableRole(w.m.rows, p) == NotMember
    ensures TableRole(Insert(w, q, role, inviter, st, wr, ttl).0.m.rows, p).HasRole? ==> p == q && st.ActiveMember?
  {
    hide TableRole, HasRow, CompanyUsers.Next;
    var a := AddUser(CompanyUser(q.company, q.user, role, inviter, w.m.now, st), wr.dbOk, wr.delList);
    if TableRole(CompanyUsers.Next(w.m, a, ttl).rows, p).HasRole? { Activation(w.m, a, ttl, p); }
  }

  lemma ChangeActivates(w: World, q: Pair, role: Role, wr: Wr, ttl: int, p: Pair)
    requires TableRole(w.m.rows, p) == NotMember
    ensures TableRole(Remove(w, q, wr, ttl).0.m.rows, p) == NotMember
    ensures TableRole(ChangeRole(w, q, role, wr, ttl).0.m.rows, p) == NotMember
    ensures TableRole(Activate(w, q, wr, ttl).0.m.rows, p).HasRole? ==> p == q
  {
    hide TableRole, HasRow, CompanyUsers.Next;
    var a := RemoveUser(q, wr.dbOk, wr.delList, wr.delRole);
    if TableRole(CompanyUsers.Next(w.m, a, ttl).rows, p).HasRole? { Activation(w.m, a, ttl, p); }
    a := UpdateRole(q, role, wr.dbOk, wr.delList, wr.delRole);
    if TableRole(CompanyUsers.Next(w.m, a, ttl).rows, p).HasRole? { Activation(w.m, a, ttl, p); }
    a := UpdateStatus(q, ActiveMember, wr.dbOk, wr.delList, wr.delRole);
    if TableRole(CompanyUsers.Next(w.m, a, ttl).rows, p).HasRole? { Activation(w.m, a, ttl, p); }
  }

  lemma InviteKeepsRows(w: World, a: Action, ttl: int)
    requires a.InviteUser?
    ensures Step(w, a, ttl).m.rows == w.m.rows
  {
    hide AfterRead, RoleSeen;
    var w1 := AfterRead(w, Pair(a.company, a.invitor), a.v.io, ttl);
    ReadFilled(w, Pair(a.company, a.invitor), a.v.io, ttl);
    if a.v.known.Some? { ReadFilled(w1, Pair(a.company, a.v.known.value), a.v.io2, ttl); }
  }

  /** Only the four causes make a pair active, whatever calls fail; in particular a join request never does. */
  lemma StepActivates(w: World, a: Action, ttl: int, p: Pair)
    requires TableRole(w.m.rows, p) == NotMember && TableRole(Step(w, a, ttl).m.rows, p).HasRole?
    ensures Cause(w, a, p)
  {
    hide TableRole, Insert, Remove, Activate, ChangeRole, AfterRead, RoleSeen, ParseRole, Cnpj.ValidNumber, CheckDigits.Normalize;
    match a
    case Register(_, _) =>
    case Tick(d) =>
    case CreateCompany(company, creator, _, c) =>
      InsertActivates(w, Pair(company, creator), Admin, creator, ActiveMember, c.wr, ttl, p);
    case AddUserToCompany(q, role, inviter, _, io, wr) =>
      ReadFilled(w, q, io, ttl);
      if ParseRole(role).Some? { InsertActivates(AfterRead(w, q, io, ttl), q, ParseRole(role).value, inviter, ActiveMember, wr, ttl, p); }
    case RemoveUserFromCompany(q, _, io, wr) =>
      ReadFilled(w, q, io, ttl);
      ChangeActivates(AfterRead(w, q, io, ttl), q, Member, wr, ttl, p);
    case RequestJoin(q, _, io, wr) =>
      ReadFilled(w, q, io, ttl);
      InsertActivates(AfterRead(w, q, io, ttl), q, Member, q.user, PendingMember, wr, ttl, p);
    case ApproveMember(company, admin, target, io, wr) =>
      ReadFilled(w, Pair(company, admin), io, ttl);
      ChangeActivates(AfterRead(w, Pair(company, admin), io, ttl), Pair(company, target), Member, wr, ttl, p);
    case RejectMember(company, admin, target, io, wr) =>
      ReadFilled(w, Pair(company, admin), io, ttl);
      ChangeActivates(AfterRead(w, Pair(company, admin), io, ttl), Pair(company, target), Member, wr, ttl, p);
    case UpdateUserRole(q, role, io, wr) =>
      ReadFilled(w, q, io, ttl);
      if ParseRole(role).Some? { ChangeActivates(AfterRead(w, q, io, ttl), q, ParseRole(role).value, wr, ttl, p); }
    case InviteUser(_, _, _, _, _, _) => InviteKeepsRows(w, a, ttl);
    case AcceptInvitation(token, user, g) =>
      if token in w.invitations && ParseRole(w.invitations[token].role).Some? {
        var inv := w.invitations[token];
        InsertActivates(w, Pair(inv.company, user), ParseRole(inv.role).value, 0, ActiveMember, g.wr, ttl, p);
      }
  }

  ghost predicate ActiveSince(states: seq<World>, j: nat, i: nat, p: Pair)
    requires i < |states|
  {
    forall k :: j < k <= i ==> TableRole(states[k].m.rows, p).HasRole?
  }

  /** The approver of an approval, as a pair. */
  function Approver(a: Action): Pair
    requires a.ApproveMember?
  {
    Pair(a.company, a.admin)
  }

  /** In every reachable state, whatever calls failed on the way, each active membership goes back to a cause and has been
      active without a break since: company creation, AddUserToCompany, acceptance of a pending unexpired invitation by
      the user with the invited address, or approval by someone who was an active admin less than ttl before, and at that
      very moment if no delete of a role key had failed. */
  lemma {:induction false} ActiveMembershipTraced(states: seq<World>, actions: seq<Action>, ttl: int, i: nat, p: Pair) returns (j: nat)
    requires IsRun(states, actions, ttl) && i < |states| && TableRole(states[i].m.rows, p).HasRole?
    ensures j < i && Cause(states[j], actions[j], p) && ActiveSince(states, j, i, p)
    ensures actions[j].ApproveMember? ==> WasAdmin(states, j, Approver(actions[j]), ttl)
    ensures actions[j].ApproveMember? && (forall k :: 0 <= k < j ==> RoleDeleteOk(actions[k])) ==>
              TableRole(states[j].m.rows, Approver(actions[j])) == HasRole(Admin)
  {
    hide Step, TableRole, SeenAdmin, WasAdmin, RoleDeleteOk;
    if i == 0 {
      NoRowNoRole([], p);
      assert false;
    }
    if TableRole(states[i - 1].m.rows, p).HasRole? {
      j := ActiveMembershipTraced(states, actions, ttl, i - 1, p);
    } else {
      j := i - 1;
      StepActivates(states[j], actions[j], ttl, p);
      if actions[j].ApproveMember? {
        AdminSeenWasAdmin(states, actions, ttl, j, Approver(actions[j]), actions[j].io);
        if forall k :: 0 <= k < j ==> RoleDeleteOk(actions[k]) {
          AdminSeenIsAdmin(states, actions, ttl, j, Approver(actions[j]), actions[j].io);
        }
      }
    }
  }

  // ---------------------------------------------------------------- invitations

  ghost predicate Invites(w: World, a: Action, token: string, inv: Invitation) {
    && a.InviteUser? && a.token == token && a.company == inv.company && a.email == inv.email && a.role == inv.role
    && inv.expiresAt == w.m.now + 604800
    && SeenAdmin(w, Pair(inv.company, a.invitor), a.v.io)
  }

  lemma StepInvitations(w: World, a: Action, ttl: int, token: string)
    requires token in Step(w, a, ttl).invitations
    ensures var inv := Step(w, a, ttl).invitations[token];
            if token in w.invitations
            then inv == w.invitations[token] || (w.invitations[token].status.Pending? && inv == w.invitations[token].(status := Accepted))
            else inv.status.Pending? && Invites(w, a, token, inv)
  {
    hide RoleSeen, ParseRole, Insert, Remove, Activate, ChangeRole, AfterRead, SeenMember, Cnpj.ValidNumber, CheckDigits.Normalize;
    if !a.InviteUser? && !a.AcceptInvitation? {
      OthersKeepInvitations(w, a, ttl);
    }
  }

  lemma OthersKeepInvitations(w: World, a: Action, ttl: int)
    requires !a.InviteUser? && !a.AcceptInvitation?
    ensures Step(w, a, ttl).invitations == w.invitations
  {
    hide RoleSeen, ParseRole, Insert, Remove, Activate, ChangeRole, AfterRead, SeenMember, AdminTest, Cnpj.ValidNumber, CheckDigits.Normalize;
  }

  /** Every stored invitation was issued by someone who had been an active admin of its company less than ttl before (and
      was one then, if no delete of a role key had failed), keeps the content it was issued with, and once accepted stays
      accepted. */
  lemma {:induction false} InvitationTraced(states: seq<World>, actions: seq<Action>, ttl: int, i: nat, token: string) returns (j: nat)
    requires IsRun(states, actions, ttl) && i < |states| && token in states[i].invitations
    ensures j < i && Invites(states[j], actions[j], token, states[i].invitations[token])
    ensures WasAdmin(states, j, Pair(actions[j].company, actions[j].invitor), ttl)
    ensures (forall k :: 0 <= k < j ==> RoleDeleteOk(actions[k])) ==>
              TableRole(states[j].m.rows, Pair(actions[j].company, actions[j].invitor)) == HasRole(Admin)
    ensures forall k :: j < k <= i ==> token in states[k].invitations
    ensures forall k :: j < k <= i && states[k].invitations[token].status.Accepted? ==>
              states[i].invitations[token] == states[k].invitations[token]
  {
    hide Step, TableRole, WasAdmin, SeenAdmin, RoleDeleteOk;
    assert i > 0;
    StepInvitations(states[i - 1], actions[i - 1], ttl, token);
    if token in states[i - 1].invitations {
      j := InvitationTraced(states, actions, ttl, i - 1, token);
    } else {
      j := i - 1;
      var p := Pair(actions[j].company, actions[j].invitor);
      AdminSeenWasAdmin(states, actions, ttl, j, p, actions[j].v.io);
      if forall k :: 0 <= k < j ==> RoleDeleteOk(actions[k]) { AdminSeenIsAdmin(states, actions, ttl, j, p, actions[j].v.io); }
    }
  }

  // ---------------------------------------------------------------- companies

  /** Every company has a valid CNPJ of its own. */
  ghost predicate CompaniesSound(w: World) {
    && (forall c :: c in w.companies ==> Cnpj.ValidNumber(w.companies[c]))
    && (forall c, d :: c in w.companies && d in w.companies && w.companies[c] == w.companies[d] ==> c == d)
  }

  lemma OthersKeepCompanies(w: World, a: Action, ttl: int)
    requires !a.CreateCompany?
    ensures Step(w, a, ttl).companies == w.companies
  {
    hide RoleSeen, ParseRole, Insert, Remove, Activate, ChangeRole, AfterRead, SeenMember, AdminTest;
  }

  lemma CreationAddsCompany(w: World, a: Action, ttl: int)
    requires a.CreateCompany?
    ensures var number := CheckDigits.Normalize(a.cnpj);
            || Step(w, a, ttl).companies == w.companies
            || (Cnpj.ValidNumber(number) && number !in w.companies.Values && a.company !in w.companies
                && Step(w, a, ttl).companies == w.companies[a.company := number])
  {
    hide Insert, Cnpj.ValidNumber, CheckDigits.Normalize;
  }

  lemma CompanyStep(w: World, a: Action, ttl: int)
    requires CompaniesSound(w)
    ensures CompaniesSound(Step(w, a, ttl))
  {
    hide Step, Cnpj.ValidNumber, CheckDigits.Normalize;
    if a.CreateCompany? { CreationAddsCompany(w, a, ttl); } else { OthersKeepCompanies(w, a, ttl); }
  }

  lemma {:induction false} CompaniesAlwaysSound(states: seq<World>, actions: seq<Action>, ttl: int, i: nat)
    requires IsRun(states, actions, ttl) && i < |states|
    ensures CompaniesSound(states[i])
  {
    hide Step;
    if i > 0 {
      CompaniesAlwaysSound(states, actions, ttl, i - 1);
      CompanyStep(states[i - 1], actions[i - 1], ttl);
    }
  }
}

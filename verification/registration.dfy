/** Registration of a user with a new tenant: six writes in one database transaction, the last two of them into the
    event outbox. */
module Registration {
  import opened Common

  datatype Tenant = Tenant(id: Uuid, name: string)
  datatype User = User(id: Uuid, tenantId: Uuid, email: string, passwordHash: string)
  datatype PolicyTuple = PolicyTuple(tenantId: Uuid, subject: Uuid, relation: string, tenant: Uuid)

  datatype EventType = TenantProvisioned | UserCreated

  /** An event as handed to the outbox publisher, its aggregate being the payload's tenant or user. */
  datatype Event = TenantEvent(tenantId: Uuid, name: string) | UserEvent(userId: Uuid, tenantId: Uuid, email: string)

  datatype OutboxRow = OutboxRow(aggregateType: string, aggregateId: Uuid, eventType: EventType, payload: Event)

  datatype Database = Database(tenants: map<Uuid, Tenant>, users: map<Uuid, User>, tuples: set<PolicyTuple>, outbox: seq<OutboxRow>)

  const EMPTY: Database := Database(map[], map[], {}, [])

  /** How a commit can end; a lost reply is a commit that took effect but was reported as an error. */
  datatype Commit = Committed | RolledBack | ReplyLost

  /** Which calls succeed. */
  datatype Faults = Faults(hashOk: bool, cpfOk: bool, entityOk: bool, beginOk: bool, tenantOk: bool, setTenantOk: bool,
                           userOk: bool, tupleOk: bool, event1Ok: bool, event2Ok: bool, commit: Commit)

  /** The row the publisher inserts for an event. */
  function RowOf(e: Event): OutboxRow {
    match e
    case TenantEvent(t, _) => OutboxRow("Tenant", t, TenantProvisioned, e)
    case UserEvent(u, _, _) => OutboxRow("User", u, UserCreated, e)
  }

  /** Everything one registration adds. */
  function Registered(db: Database, t: Tenant, u: User): Database {
    Database(db.tenants[t.id := t], db.users[u.id := u],
             db.tuples + {PolicyTuple(t.id, u.id, "owner", t.id)},
             db.outbox + [RowOf(TenantEvent(t.id, t.name)), RowOf(UserEvent(u.id, t.id, u.email))])
  }

  /** The calls that run before the commit all succeed; ids already in use fail their INSERT. */
  predicate StepsSucceed(db: Database, t: Tenant, u: User, f: Faults) {
    && f.hashOk && f.cpfOk && f.entityOk && f.beginOk && f.tenantOk && f.setTenantOk
    && f.userOk && f.tupleOk && f.event1Ok && f.event2Ok
    && t.id !in db.tenants && u.id !in db.users
  }

  class RegistrationService {
    var db: Database

    constructor ()
      ensures db == EMPTY
    {
      db := EMPTY;
    }

    /** The body of the transaction, on the transaction's own view `work` of the database. */
    method WriteAll(work: Database, t: Tenant, u: User, f: Faults) returns (ok: bool, result: Database)
      requires u.tenantId == t.id
      ensures ok <==> f.tenantOk && f.setTenantOk && f.userOk && f.tupleOk && f.event1Ok && f.event2Ok
                      && t.id !in work.tenants && u.id !in work.users
      ensures ok ==> result == Registered(work, t, u)
    {
      result := work;
      if !f.tenantOk || t.id in result.tenants { return false, result; }
      result := result.(tenants := result.tenants[t.id := t]);
      if !f.setTenantOk { return false, result; }
      if !f.userOk || u.id in result.users { return false, result; }
      result := result.(users := result.users[u.id := u]);
      if !f.tupleOk { return false, result; }
      result := result.(tuples := result.tuples + {PolicyTuple(t.id, u.id, "owner", t.id)});
      if !f.event1Ok { return false, result; }
      result := result.(outbox := result.outbox + [RowOf(TenantEvent(t.id, t.name))]);
      if !f.event2Ok { return false, result; }
      result := result.(outbox := result.outbox + [RowOf(UserEvent(u.id, t.id, u.email))]);
      assert work.outbox + [RowOf(TenantEvent(t.id, t.name))] + [RowOf(UserEvent(u.id, t.id, u.email))]
          == work.outbox + [RowOf(TenantEvent(t.id, t.name)), RowOf(UserEvent(u.id, t.id, u.email))];
      return true, result;
    }

    /** The database is left unchanged, or exactly one tenant, user, owner tuple and pair of events are added. */
    method RegisterWithTenant(tenantId: Uuid, userId: Uuid, name: string, email: string, hash: string, f: Faults) returns (ok: bool)
      modifies this
      ensures var t, u := Tenant(tenantId, name), User(userId, tenantId, email, hash);
              db == if StepsSucceed(old(db), t, u, f) && !f.commit.RolledBack? then Registered(old(db), t, u) else old(db)
      ensures ok <==> StepsSucceed(old(db), Tenant(tenantId, name), User(userId, tenantId, email, hash), f) && f.commit.Committed?
      ensures db == After(old(db), Attempt(tenantId, userId, name, email, hash, f))
      ensures !(f.hashOk && f.cpfOk && f.entityOk && f.beginOk && f.tenantOk && f.setTenantOk && f.userOk && f.tupleOk
                && f.event1Ok && f.event2Ok) || f.commit.RolledBack? || tenantId in old(db.tenants) || userId in old(db.users) ==>
                !ok && db == old(db)
      // success means registered; failure means unchanged, but for a commit whose reply was lost
      ensures ok ==>
                && db.tenants == old(db.tenants)[tenantId := Tenant(tenantId, name)]
                && db.users == old(db.users)[userId := User(userId, tenantId, email, hash)]
                && db.tuples == old(db.tuples) + {PolicyTuple(tenantId, userId, "owner", tenantId)}
                && db.outbox == old(db.outbox) + [OutboxRow("Tenant", tenantId, TenantProvisioned, TenantEvent(tenantId, name)),
                                                  OutboxRow("User", userId, UserCreated, UserEvent(userId, tenantId, email))]
      ensures !ok ==> (db == old(db) || (f.commit.ReplyLost? && tenantId !in old(db.tenants) && tenantId in db.tenants))
    {
      if !f.hashOk || !f.cpfOk || !f.entityOk { return false; }
      if !f.beginOk { return false; }
      var done, work := WriteAll(db, Tenant(tenantId, name), User(userId, tenantId, email, hash), f);
      if !done { return false; }
      match f.commit
      case Committed =>
        db := work;
        return true;
      case ReplyLost =>
        db := work;
        return false;
      case RolledBack => return false;
    }
  }

  // ---------------------------------------------------------------- over all runs

  datatype Attempt = Attempt(tenantId: Uuid, userId: Uuid, name: string, email: string, hash: string, faults: Faults)

  function After(db: Database, a: Attempt): Database {
    var t, u := Tenant(a.tenantId, a.name), User(a.userId, a.tenantId, a.email, a.hash);
    if StepsSucceed(db, t, u, a.faults) && !a.faults.commit.RolledBack? then Registered(db, t, u) else db
  }

  function RunFrom(db: Database, attempts: seq<Attempt>): Database
    decreases |attempts|
  {
    if attempts == [] then db else RunFrom(After(db, attempts[0]), attempts[1..])
  }

  /** How many outbox rows of type `ty` are about `id`. */
  function Announcements(rows: seq<OutboxRow>, ty: EventType, id: Uuid): nat {
    if rows == [] then 0
    else (if rows[0].eventType == ty && rows[0].aggregateId == id then 1 else 0) + Announcements(rows[1..], ty, id)
  }

  /** Tenants and TenantProvisioned events correspond one to one, and so do users and UserCreated events. */
  ghost predicate Announced(db: Database) {
    && (forall t :: Announcements(db.outbox, TenantProvisioned, t) == if t in db.tenants then 1 else 0)
    && (forall u :: Announcements(db.outbox, UserCreated, u) == if u in db.users then 1 else 0)
  }

  /** Rows are stored under their own ids, every tenant has an owner, every user belongs to a tenant, and every owner
      tuple joins a tenant with one of its users. */
  ghost predicate WellOwned(db: Database) {
    && (forall t :: t in db.tenants ==> db.tenants[t].id == t && HasOwner(db, t))
    && (forall u :: u in db.users ==> db.users[u].id == u && db.users[u].tenantId in db.tenants)
    && (forall p :: p in db.tuples ==> p.tenant in db.tenants && p.subject in db.users && db.users[p.subject].tenantId == p.tenant)
  }

  ghost predicate Consistent(db: Database) { Announced(db) && WellOwned(db) }

  ghost predicate HasOwner(db: Database, t: Uuid) {
    exists u :: u in db.users && PolicyTuple(t, u, "owner", t) in db.tuples
  }

  lemma {:induction false} AnnouncementsConcat(x: seq<OutboxRow>, y: seq<OutboxRow>, ty: EventType, id: Uuid)
    ensures Announcements(x + y, ty, id) == Announcements(x, ty, id) + Announcements(y, ty, id)
  {
    if x == [] {
      assert x + y == y;
    } else {
      AnnouncementsConcat(x[1..], y, ty, id);
      assert (x + y)[1..] == x[1..] + y;
    }
  }

  function NewRows(a: Attempt): seq<OutboxRow> {
    [RowOf(TenantEvent(a.tenantId, a.name)), RowOf(UserEvent(a.userId, a.tenantId, a.email))]
  }

  lemma PairAnnouncements(a: Attempt, ty: EventType, id: Uuid)
    ensures Announcements(NewRows(a), ty, id) == if id == (if ty.TenantProvisioned? then a.tenantId else a.userId) then 1 else 0
  {
    var first, second := [NewRows(a)[0]], [NewRows(a)[1]];
    assert NewRows(a) == first + second && first[1..] == [] && second[1..] == [];
    AnnouncementsConcat(first, second, ty, id);
  }

  lemma AttemptAnnounced(db: Database, a: Attempt)
    requires Announced(db)
    ensures Announced(After(db, a))
  {
    hide Announcements, NewRows;
    var db' := After(db, a);
    if db' != db {
      AddsNewRows(db, a);
      forall t ensures Announcements(db'.outbox, TenantProvisioned, t) == if t in db'.tenants then 1 else 0 {
        AnnouncementsConcat(db.outbox, NewRows(a), TenantProvisioned, t);
        PairAnnouncements(a, TenantProvisioned, t);
      }
      forall u ensures Announcements(db'.outbox, UserCreated, u) == if u in db'.users then 1 else 0 {
        AnnouncementsConcat(db.outbox, NewRows(a), UserCreated, u);
        PairAnnouncements(a, UserCreated, u);
      }
    }
  }

  lemma AddsNewRows(db: Database, a: Attempt)
    requires After(db, a) != db
    ensures After(db, a).outbox == db.outbox + NewRows(a)
  {
  }

  lemma AttemptWellOwned(db: Database, a: Attempt)
    requires WellOwned(db)
    ensures WellOwned(After(db, a))
  {
    var db' := After(db, a);
    if db' != db {
      forall t | t in db'.tenants ensures HasOwner(db', t) {
        if t == a.tenantId {
          assert PolicyTuple(t, a.userId, "owner", t) in db'.tuples;
        } else {
          var u :| u in db.users && PolicyTuple(t, u, "owner", t) in db.tuples;
          assert u in db'.users && PolicyTuple(t, u, "owner", t) in db'.tuples;
        }
      }
    }
  }

  /** Over any run of registration attempts, with any pattern of failures and of reused ids, TenantProvisioned events
      and tenants stay in bijection, as do UserCreated events and users, and no tenant is left without its owner. */
  lemma {:induction false} RunsConsistent(db: Database, attempts: seq<Attempt>)
    requires Consistent(db)
    ensures Consistent(RunFrom(db, attempts))
    decreases |attempts|
  {
    hide After, Announced, WellOwned;
    if attempts != [] {
      AttemptAnnounced(db, attempts[0]);
      AttemptWellOwned(db, attempts[0]);
      RunsConsistent(After(db, attempts[0]), attempts[1..]);
    }
  }

  lemma EmptyConsistent()
    ensures Consistent(EMPTY)
  {
  }
}

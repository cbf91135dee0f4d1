/** Workspaces, their members and invitations (app/services/team_service.py,
    app/services/tenant_service.py, app/services/account_service.py). Ids and tokens are given fresh;
    times, password checks and the resolution of emailed tokens are arguments. */
module Membership {
  import opened Dicts

  type Id = string
  type Time = int

  datatype Role = VIEWER | DEVELOPER | ADMIN | OWNER

  datatype Tenant = Tenant(email: string, verifiedAt: Option<Time>, active: bool)

  datatype User = User(
    tenant: Id, email: string, role: Role, verifiedAt: Option<Time>, active: bool, hasPassword: bool)

  /** Kept under its token. */
  datatype Invitation = Invitation(
    id: Id, tenant: Id, email: string, role: Role, expiresAt: Time, acceptedAt: Option<Time>)

  datatype Db = Db(tenants: map<Id, Tenant>, users: map<Id, User>, invitations: map<string, Invitation>)

  datatype Outcome = Done | Conflict | NotFound | Forbidden | BadRequest | Unauthorized

  predicate UserEmailExists(db: Db, email: string) {
    exists u :: u in db.users && db.users[u].email == email
  }

  /** `_email_exists`: across workspaces and users. */
  predicate EmailExists(db: Db, email: string) {
    (exists t :: t in db.tenants && db.tenants[t].email == email) || UserEmailExists(db, email)
  }

  // ---- What each operation does to the tables ----

  function Register(db: Db, tid: Id, uid: Id, email: string, hasPassword: bool, verifiedAt: Option<Time>): (Db, Outcome)
  {
    if EmailExists(db, email) then (db, Conflict)
    else (Db(db.tenants[tid := Tenant(email, verifiedAt, true)],
             db.users[uid := User(tid, email, OWNER, verifiedAt, true, hasPassword)], db.invitations), Done)
  }

  /** Invitations without the pending ones for this workspace and address. */
  function WithoutPending(invitations: map<string, Invitation>, tenant: Id, email: string): map<string, Invitation> {
    map t | t in invitations
            && !(invitations[t].tenant == tenant && invitations[t].email == email && invitations[t].acceptedAt.None?)
      :: invitations[t]
  }

  function Invite(db: Db, tenant: Id, email: string, role: Role, id: Id, token: string, expiresAt: Time): (Db, Outcome)
  {
    if UserEmailExists(db, email) then (db, Conflict)
    else (db.(invitations :=
            WithoutPending(db.invitations, tenant, email)
            [token := Invitation(id, tenant, email, role, expiresAt, None)]), Done)
  }

  function Revoke(db: Db, tenant: Id, id: Id): (Db, Outcome) {
    var kept := map t | t in db.invitations
                        && !(&& db.invitations[t].id == id && db.invitations[t].tenant == tenant
                             && db.invitations[t].acceptedAt.None?)
                  :: db.invitations[t];
    if kept == db.invitations then (db, NotFound) else (db.(invitations := kept), Done)
  }

  function Accept(db: Db, token: string, uid: Id, now: Time): (Db, Outcome) {
    if token !in db.invitations then (db, BadRequest)
    else
      var i := db.invitations[token];
      if i.acceptedAt.Some? || i.expiresAt <= now then (db, BadRequest)
      else if i.tenant !in db.tenants || !db.tenants[i.tenant].active then (db, BadRequest)
      else if UserEmailExists(db, i.email) then (db, Conflict)
      else (db.(users := db.users[uid := User(i.tenant, i.email, i.role, Some(now), true, true)],
                invitations := db.invitations[token := i.(acceptedAt := Some(now))]), Done)
  }

  /** `_mark_verified`, after the emailed token named user `uid` (None: no valid token). */
  function Verify(db: Db, uid: Option<Id>, now: Time): (Db, Outcome) {
    if uid.None? || uid.value !in db.users then (db, BadRequest)
    else
      var u := db.users[uid.value];
      if u.tenant !in db.tenants || !u.active || !db.tenants[u.tenant].active then (db, BadRequest)
      else
        var users := if u.verifiedAt.None? then db.users[uid.value := u.(verifiedAt := Some(now))] else db.users;
        var t := db.tenants[u.tenant];
        var tenants := if u.role == OWNER && t.verifiedAt.None? then db.tenants[u.tenant := t.(verifiedAt := Some(now))]
                       else db.tenants;
        (db.(users := users, tenants := tenants), Done)
  }

  predicate IsMember(db: Db, tenant: Id, uid: Id) {
    uid in db.users && db.users[uid].tenant == tenant
  }

  function ChangeRole(db: Db, tenant: Id, actor: Option<Id>, uid: Id, role: Role): (Db, Outcome) {
    if !IsMember(db, tenant, uid) then (db, NotFound)
    else if actor == Some(uid) then (db, Forbidden)
    else if db.users[uid].role == OWNER then (db, Forbidden)
    else (db.(users := db.users[uid := db.users[uid].(role := role)]), Done)
  }

  function Remove(db: Db, tenant: Id, uid: Id): (Db, Outcome) {
    if !IsMember(db, tenant, uid) then (db, NotFound)
    else if db.users[uid].role == OWNER then (db, Forbidden)
    else (db.(users := db.users - {uid}), Done)
  }

  function Transfer(db: Db, tenant: Id, owner: Id, uid: Id, passwordOk: bool): (Db, Outcome)
    requires owner in db.users && tenant in db.tenants
  {
    if db.users[owner].hasPassword && !passwordOk then (db, Forbidden)
    else if !IsMember(db, tenant, uid) then (db, NotFound)
    else if uid == owner then (db, BadRequest)
    else
      var member := db.users[uid];
      if !(member.active && member.verifiedAt.Some?) then (db, BadRequest)
      else
        (db.(users := db.users[uid := member.(role := OWNER)][owner := db.users[owner].(role := ADMIN)],
             tenants := db.tenants[tenant :=
               db.tenants[tenant].(email := member.email, verifiedAt := member.verifiedAt)]), Done)
  }

  /** `delete_account`, `confirm` being the typed address in lower case: users and invitations go with the
      workspace; its vectors went first. */
  function Delete(db: Db, tenant: Id, confirm: string, user: Option<Id>, passwordOk: bool): (Db, Outcome)
    requires tenant in db.tenants
  {
    if confirm != db.tenants[tenant].email then (db, BadRequest)
    else if user.Some? && user.value in db.users && db.users[user.value].hasPassword && !passwordOk then
      (db, Unauthorized)
    else (Db(db.tenants - {tenant},
             map u | u in db.users && db.users[u].tenant != tenant :: db.users[u],
             map t | t in db.invitations && db.invitations[t].tenant != tenant :: db.invitations[t]), Done)
  }

  // ---- The invariant ----

  ghost predicate IsOwner(db: Db, tenant: Id, uid: Id) {
    uid in db.users && db.users[uid].tenant == tenant && db.users[uid].role == OWNER
  }

  /** The workspace has one owner, and its email and verification time are the owner's. */
  ghost predicate OwnedBy(db: Db, tenant: Id, uid: Id)
    requires tenant in db.tenants
  {
    && IsOwner(db, tenant, uid)
    && (forall v :: IsOwner(db, tenant, v) ==> v == uid)
    && db.tenants[tenant].email == db.users[uid].email
    && db.tenants[tenant].verifiedAt == db.users[uid].verifiedAt
  }

  ghost predicate Homes(db: Db) {
    forall u :: u in db.users ==> db.users[u].tenant in db.tenants
  }

  ghost predicate EmailsDistinct(users: map<Id, User>) {
    forall u, v :: u in users && v in users && users[u].email == users[v].email ==> u == v
  }

  ghost predicate AllOwned(db: Db) {
    forall t :: t in db.tenants ==> exists u :: OwnedBy(db, t, u)
  }

  ghost predicate NoOwnerInvited(invitations: map<string, Invitation>) {
    forall i :: i in invitations ==> invitations[i].role != OWNER
  }

  ghost predicate Inv(db: Db) {
    Homes(db) && EmailsDistinct(db.users) && AllOwned(db) && NoOwnerInvited(db.invitations)
  }

  datatype Op =
    | OpRegister(tid: Id, uid: Id, email: string, hasPassword: bool, verifiedAt: Option<Time>)
    | OpInvite(tenant: Id, email: string, role: Role, id: Id, token: string, expiresAt: Time)
    | OpRevoke(tenant: Id, id: Id)
    | OpAccept(token: string, uid: Id, now: Time)
    | OpVerify(user: Option<Id>, now: Time)
    | OpChangeRole(tenant: Id, actor: Option<Id>, uid: Id, role: Role)
    | OpRemove(tenant: Id, uid: Id)
    | OpTransfer(tenant: Id, owner: Id, uid: Id, passwordOk: bool)
    | OpDelete(tenant: Id, confirm: string, user: Option<Id>, passwordOk: bool)

  /** New rows get fresh ids; the request schemas refuse OWNER as a role; only the owner transfers. */
  ghost predicate Allowed(db: Db, op: Op) {
    match op
    case OpRegister(tid, uid, _, _, _) => tid !in db.tenants && uid !in db.users
    case OpInvite(_, _, role, _, token, _) => role != OWNER && token !in db.invitations
    case OpAccept(_, uid, _) => uid !in db.users
    case OpChangeRole(_, _, _, role) => role != OWNER
    case OpTransfer(tenant, owner, _, _) => tenant in db.tenants && IsOwner(db, tenant, owner)
    case OpDelete(tenant, _, _, _) => tenant in db.tenants
    case _ => true
  }

  function Apply(db: Db, op: Op): (Db, Outcome)
    requires Allowed(db, op)
  {
    match op
    case OpRegister(tid, uid, email, hasPassword, verifiedAt) => Register(db, tid, uid, email, hasPassword, verifiedAt)
    case OpInvite(tenant, email, role, id, token, expiresAt) => Invite(db, tenant, email, role, id, token, expiresAt)
    case OpRevoke(tenant, id) => Revoke(db, tenant, id)
    case OpAccept(token, uid, now) => Accept(db, token, uid, now)
    case OpVerify(user, now) => Verify(db, user, now)
    case OpChangeRole(tenant, actor, uid, role) => ChangeRole(db, tenant, actor, uid, role)
    case OpRemove(tenant, uid) => Remove(db, tenant, uid)
    case OpTransfer(tenant, owner, uid, passwordOk) => Transfer(db, tenant, owner, uid, passwordOk)
    case OpDelete(tenant, confirm, user, passwordOk) => Delete(db, tenant, confirm, user, passwordOk)
  }

  /** An owner whose row and workspace are untouched, among users that gained no owner, stays. */
  lemma OwnerStays(db: Db, db': Db, tenant: Id, uid: Id)
    requires tenant in db.tenants && tenant in db'.tenants && OwnedBy(db, tenant, uid)
    requires db'.tenants[tenant] == db.tenants[tenant]
    requires uid in db'.users && db'.users[uid] == db.users[uid]
    requires forall v :: IsOwner(db', tenant, v) ==> IsOwner(db, tenant, v)
    ensures OwnedBy(db', tenant, uid)
  {
  }

  ghost function OwnerOf(db: Db, tenant: Id): (u: Id)
    requires Inv(db) && tenant in db.tenants
    ensures OwnedBy(db, tenant, u)
  {
    var u :| OwnedBy(db, tenant, u); u
  }

  lemma RegisterKeepsOwner(db: Db, tid: Id, uid: Id, email: string, hasPassword: bool, verifiedAt: Option<Time>, t: Id)
    requires Inv(db) && tid !in db.tenants && uid !in db.users && t in db.tenants
    ensures OwnedBy(Register(db, tid, uid, email, hasPassword, verifiedAt).0, t, OwnerOf(db, t))
  {
    OwnerStays(db, Register(db, tid, uid, email, hasPassword, verifiedAt).0, t, OwnerOf(db, t));
  }

  lemma RegisterKeepsInv(db: Db, tid: Id, uid: Id, email: string, hasPassword: bool, verifiedAt: Option<Time>)
    requires Inv(db) && tid !in db.tenants && uid !in db.users
    ensures Inv(Register(db, tid, uid, email, hasPassword, verifiedAt).0)
  {
    var db' := Register(db, tid, uid, email, hasPassword, verifiedAt).0;
    if db' != db {
      forall t | t in db'.tenants ensures exists u :: OwnedBy(db', t, u) {
        if t == tid {
          assert OwnedBy(db', t, uid);
        } else {
          RegisterKeepsOwner(db, tid, uid, email, hasPassword, verifiedAt, t);
        }
      }
    }
  }

  lemma AcceptKeepsInv(db: Db, token: string, uid: Id, now: Time)
    requires Inv(db) && uid !in db.users
    ensures Inv(Accept(db, token, uid, now).0)
  {
    var db' := Accept(db, token, uid, now).0;
    if db' != db {
      forall t | t in db'.tenants ensures exists u :: OwnedBy(db', t, u) {
        OwnerStays(db, db', t, OwnerOf(db, t));
      }
    }
  }

  lemma VerifyKeepsOwner(db: Db, x: Id, now: Time, t: Id)
    requires Inv(db) && t in db.tenants
    ensures OwnedBy(Verify(db, Some(x), now).0, t, OwnerOf(db, t))
  {
    var db', u := Verify(db, Some(x), now).0, OwnerOf(db, t);
    forall v | IsOwner(db', t, v) ensures v == u { assert IsOwner(db, t, v); }
    if IsOwner(db, t, x) { assert x == u; }
  }

  lemma VerifyKeepsInv(db: Db, user: Option<Id>, now: Time)
    requires Inv(db)
    ensures Inv(Verify(db, user, now).0)
  {
    var db' := Verify(db, user, now).0;
    if user.Some? {
      forall t | t in db'.tenants ensures exists u :: OwnedBy(db', t, u) {
        VerifyKeepsOwner(db, user.value, now, t);
      }
    }
  }

  /** Nothing the invariant reads has changed. */
  predicate SamePerson(a: User, b: User) {
    a.tenant == b.tenant && a.email == b.email && a.verifiedAt == b.verifiedAt && (a.role == OWNER <==> b.role == OWNER)
  }

  /** Members may go or change among the lesser roles; owners stay. */
  ghost predicate MinorUpdate(db: Db, db': Db) {
    && db'.tenants == db.tenants && db'.users.Keys <= db.users.Keys
    && (forall u :: u in db'.users ==> SamePerson(db.users[u], db'.users[u]))
    && (forall u :: u in db.users && db.users[u].role == OWNER ==> u in db'.users)
  }

  lemma MinorUpdateOwned(db: Db, db': Db)
    requires AllOwned(db) && MinorUpdate(db, db')
    ensures AllOwned(db')
  {
    forall t | t in db'.tenants ensures exists u :: OwnedBy(db', t, u) {
      var u :| OwnedBy(db, t, u);
      assert db'.users[u].role == OWNER;
      forall v | IsOwner(db', t, v) ensures v == u { assert IsOwner(db, t, v); }
      assert OwnedBy(db', t, u);
    }
  }

  lemma UpdateKeepsInv(db: Db, db': Db)
    requires Inv(db) && MinorUpdate(db, db') && NoOwnerInvited(db'.invitations)
    ensures Inv(db')
  {
    MinorUpdateOwned(db, db');
  }

  lemma InviteKeepsInv(db: Db, tenant: Id, email: string, role: Role, id: Id, token: string, expiresAt: Time)
    requires Inv(db) && role != OWNER
    ensures Inv(Invite(db, tenant, email, role, id, token, expiresAt).0)
  {
    UpdateKeepsInv(db, Invite(db, tenant, email, role, id, token, expiresAt).0);
  }

  lemma RevokeKeepsInv(db: Db, tenant: Id, id: Id)
    requires Inv(db)
    ensures Inv(Revoke(db, tenant, id).0)
  {
    UpdateKeepsInv(db, Revoke(db, tenant, id).0);
  }

  lemma ChangeRoleIsMinor(db: Db, tenant: Id, actor: Option<Id>, uid: Id, role: Role)
    requires role != OWNER
    ensures MinorUpdate(db, ChangeRole(db, tenant, actor, uid, role).0)
    ensures ChangeRole(db, tenant, actor, uid, role).0.invitations == db.invitations
  {
  }

  lemma ChangeRoleKeepsInv(db: Db, tenant: Id, actor: Option<Id>, uid: Id, role: Role)
    requires Inv(db) && role != OWNER
    ensures Inv(ChangeRole(db, tenant, actor, uid, role).0)
  {
    ChangeRoleIsMinor(db, tenant, actor, uid, role);
    UpdateKeepsInv(db, ChangeRole(db, tenant, actor, uid, role).0);
  }

  lemma RemoveIsMinor(db: Db, tenant: Id, uid: Id)
    ensures MinorUpdate(db, Remove(db, tenant, uid).0)
    ensures Remove(db, tenant, uid).0.invitations == db.invitations
  {
  }

  lemma RemoveKeepsInv(db: Db, tenant: Id, uid: Id)
    requires Inv(db)
    ensures Inv(Remove(db, tenant, uid).0)
  {
    RemoveIsMinor(db, tenant, uid);
    UpdateKeepsInv(db, Remove(db, tenant, uid).0);
  }

  /** What a successful transfer writes. */
  ghost predicate Transferred(db: Db, db': Db, tenant: Id, owner: Id, uid: Id) {
    && tenant in db.tenants && IsOwner(db, tenant, owner) && IsMember(db, tenant, uid) && uid != owner
    && db'.users == db.users[uid := db.users[uid].(role := OWNER)][owner := db.users[owner].(role := ADMIN)]
    && db'.tenants == db.tenants[tenant := db.tenants[tenant].(
                        email := db.users[uid].email, verifiedAt := db.users[uid].verifiedAt)]
    && db'.invitations == db.invitations
  }

  lemma TransferOwners(db: Db, db': Db, tenant: Id, owner: Id, uid: Id, t: Id)
    requires Inv(db) && Transferred(db, db', tenant, owner, uid) && t in db.tenants
    ensures exists u :: OwnedBy(db', t, u)
  {
    var u := OwnerOf(db, t);
    if t == tenant {
      assert u == owner;
      forall v | IsOwner(db', t, v) ensures v == uid { assert v != uid && v != owner ==> IsOwner(db, t, v); }
      assert OwnedBy(db', t, uid);
    } else {
      forall v | IsOwner(db', t, v) ensures IsOwner(db, t, v) {}
      OwnerStays(db, db', t, u);
    }
  }

  lemma TransferOwned(db: Db, db': Db, tenant: Id, owner: Id, uid: Id)
    requires Inv(db) && Transferred(db, db', tenant, owner, uid)
    ensures AllOwned(db')
  {
    forall t | t in db'.tenants ensures exists u :: OwnedBy(db', t, u) {
      TransferOwners(db, db', tenant, owner, uid, t);
    }
  }

  lemma TransferHomes(db: Db, db': Db, tenant: Id, owner: Id, uid: Id)
    requires Homes(db) && EmailsDistinct(db.users) && Transferred(db, db', tenant, owner, uid)
    ensures Homes(db') && EmailsDistinct(db'.users)
  {
    forall u | u in db'.users ensures u in db.users && db'.users[u].tenant == db.users[u].tenant {}
    assert forall u :: u in db.users ==> db'.users[u].email == db.users[u].email;
  }

  lemma TransferKeepsInv(db: Db, tenant: Id, owner: Id, uid: Id, passwordOk: bool)
    requires Inv(db) && tenant in db.tenants && IsOwner(db, tenant, owner)
    ensures Inv(Transfer(db, tenant, owner, uid, passwordOk).0)
  {
    var (db', r) := Transfer(db, tenant, owner, uid, passwordOk);
    if r == Done {
      TransferOwned(db, db', tenant, owner, uid);
      TransferHomes(db, db', tenant, owner, uid);
    }
  }

  lemma DeleteKeepsInv(db: Db, tenant: Id, confirm: string, user: Option<Id>, passwordOk: bool)
    requires Inv(db) && tenant in db.tenants
    ensures Inv(Delete(db, tenant, confirm, user, passwordOk).0)
  {
    var db' := Delete(db, tenant, confirm, user, passwordOk).0;
    if db' != db {
      forall t | t in db'.tenants ensures exists u :: OwnedBy(db', t, u) {
        OwnerStays(db, db', t, OwnerOf(db, t));
      }
    }
  }

  lemma ApplyKeepsInv(db: Db, op: Op)
    requires Inv(db) && Allowed(db, op)
    ensures Inv(Apply(db, op).0)
  {
    match op {
      case OpRegister(tid, uid, email, hasPassword, verifiedAt) =>
        RegisterKeepsInv(db, tid, uid, email, hasPassword, verifiedAt);
      case OpAccept(token, uid, now) => AcceptKeepsInv(db, token, uid, now);
      case OpVerify(user, now) => VerifyKeepsInv(db, user, now);
      case OpTransfer(tenant, owner, uid, passwordOk) => TransferKeepsInv(db, tenant, owner, uid, passwordOk);
      case OpDelete(tenant, confirm, user, passwordOk) => DeleteKeepsInv(db, tenant, confirm, user, passwordOk);
      case OpInvite(tenant, email, role, id, token, expiresAt) =>
        InviteKeepsInv(db, tenant, email, role, id, token, expiresAt);
      case OpRevoke(tenant, id) => RevokeKeepsInv(db, tenant, id);
      case OpChangeRole(tenant, actor, uid, role) => ChangeRoleKeepsInv(db, tenant, actor, uid, role);
      case OpRemove(tenant, uid) => RemoveKeepsInv(db, tenant, uid);
    }
  }

  ghost predicate IsRun(dbs: seq<Db>, ops: seq<Op>) {
    && |dbs| == |ops| + 1
    && forall i :: 0 <= i < |ops| ==> Allowed(dbs[i], ops[i]) && dbs[i + 1] == Apply(dbs[i], ops[i]).0
  }

  /** Over every serial run of membership operations: each workspace has exactly one owner, whose
      email and verification time it carries; user emails are distinct; no invitation carries OWNER. */
  lemma {:induction false} RunKeepsInv(dbs: seq<Db>, ops: seq<Op>)
    requires IsRun(dbs, ops) && Inv(dbs[0])
    ensures Inv(dbs[|ops|])
    decreases |ops|
  {
    if ops != [] {
      var last := |ops| - 1;
      var front := dbs[..last + 1];
      assert forall i :: 0 <= i <= last ==> front[i] == dbs[i];
      RunKeepsInv(front, ops[..last]);
      ApplyKeepsInv(dbs[last], ops[last]);
    }
  }

  /** Two workspaces never share an email, so the unique column can never refuse a transfer. */
  lemma TenantEmailsDistinct(db: Db, t: Id, t': Id)
    requires Inv(db) && t in db.tenants && t' in db.tenants && db.tenants[t].email == db.tenants[t'].email
    ensures t == t'
  {
    var u, u' := OwnerOf(db, t), OwnerOf(db, t');
    assert db.users[u].email == db.users[u'].email;
  }

  lemma OthersKeepOwner(db: Db, op: Op, tenant: Id, owner: Id)
    requires !op.OpTransfer? && Allowed(db, op) && IsOwner(db, tenant, owner) && tenant in Apply(db, op).0.tenants
    ensures IsOwner(Apply(db, op).0, tenant, owner)
  {
    match op {
      case OpRegister(_, _, _, _, _) =>
      case OpInvite(_, _, _, _, _, _) =>
      case OpRevoke(_, _) =>
      case OpAccept(_, _, _) =>
      case OpVerify(_, _) =>
      case OpChangeRole(_, _, _, _) =>
      case OpRemove(_, _) =>
      case OpDelete(_, _, _, _) =>
    }
  }

  /** Ownership moves only by transfer: any other operation leaves a surviving workspace's owner
      alone; a transfer makes the member owner and the old owner ADMIN. */
  lemma OwnershipMovesByTransfer(db: Db, op: Op, tenant: Id, owner: Id)
    requires Inv(db) && Allowed(db, op) && IsOwner(db, tenant, owner) && tenant in db.tenants
    requires tenant in Apply(db, op).0.tenants
    ensures var (db', r) := Apply(db, op);
            if op.OpTransfer? && op.tenant == tenant && r == Done
            then IsOwner(db', tenant, op.uid) && op.uid != owner && owner in db'.users && db'.users[owner].role == ADMIN
            else IsOwner(db', tenant, owner)
  {
    if !op.OpTransfer? { OthersKeepOwner(db, op, tenant, owner); }
  }

  // ---- The services, updating rows in place ----

  /** Whoever owned a workspace that is still there owns it still. */
  ghost predicate KeepsOwners(before: Db, after: Db) {
    forall t, u :: t in after.tenants && IsOwner(before, t, u) ==> IsOwner(after, t, u)
  }

  ghost predicate Safe(before: Db, after: Db) {
    Inv(after) && KeepsOwners(before, after)
  }

  /** The tokens of a workspace's pending invitations to an address. */
  function Pending(invitations: map<string, Invitation>, tenant: Id, email: string): set<string> {
    set t | && t in invitations && invitations[t].tenant == tenant && invitations[t].email == email
            && invitations[t].acceptedAt.None?
  }

  /** The same, by the invitation's id. */
  function PendingAs(invitations: map<string, Invitation>, tenant: Id, id: Id): set<string> {
    set t | && t in invitations && invitations[t].tenant == tenant && invitations[t].id == id
            && invitations[t].acceptedAt.None?
  }

  /** All rows of `before` but those with keys in `gone` are in `after`, as they were. */
  ghost predicate KeepsBut<T>(before: map<string, T>, after: map<string, T>, gone: set<string>) {
    forall k :: k in before && k !in gone ==> k in after && after[k] == before[k]
  }

  /** The token opens an invitation that can still be accepted. */
  predicate IsOpen(db: Db, token: string, now: Time) {
    && token in db.invitations && db.invitations[token].acceptedAt.None? && now < db.invitations[token].expiresAt
    && db.invitations[token].tenant in db.tenants && db.tenants[db.invitations[token].tenant].active
  }

  /** An active user of an active workspace. */
  predicate IsActive(db: Db, uid: Id) {
    && uid in db.users && db.users[uid].active
    && db.users[uid].tenant in db.tenants && db.tenants[db.users[uid].tenant].active
  }

  /** The invited person is a verified member with the invitation's role, and it is open no more. */
  ghost predicate Joined(before: Db, after: Db, token: string, uid: Id, now: Time) {
    && token in before.invitations && uid in after.users && token in after.invitations
    && var i := before.invitations[token];
    && after.users[uid] == User(i.tenant, i.email, i.role, Some(now), true, true)
    && after.invitations[token] == i.(acceptedAt := Some(now)) && (forall later :: !IsOpen(after, token, later))
    && after.tenants == before.tenants && KeepsBut(before.users, after.users, {uid})
    && KeepsBut(before.invitations, after.invitations, {token})
  }

  /** One person's role is now this; nothing else of anyone has changed. */
  ghost predicate HasRole(before: map<Id, User>, after: map<Id, User>, uid: Id, role: Role) {
    && after.Keys == before.Keys && KeepsBut(before, after, {uid})
    && uid in before && uid in after && after[uid].role == role && after[uid].(role := before[uid].role) == before[uid]
  }

  lemma OthersAreSafe(db: Db, op: Op)
    requires Inv(db) && Allowed(db, op) && !op.OpTransfer?
    ensures Safe(db, Apply(db, op).0)
  {
    ApplyKeepsInv(db, op);
    forall t, u | t in Apply(db, op).0.tenants && IsOwner(db, t, u) ensures IsOwner(Apply(db, op).0, t, u) {
      OthersKeepOwner(db, op, t, u);
    }
  }

  /** The owner of a sound workspace owns it, email and verification included. */
  lemma OwnerOwns(db: Db, tenant: Id, uid: Id)
    requires Inv(db) && tenant in db.tenants && IsOwner(db, tenant, uid)
    ensures OwnedBy(db, tenant, uid)
  {
    assert OwnedBy(db, tenant, OwnerOf(db, tenant));
  }

  /** Nothing of the workspace is left, and nothing of any other is touched. */
  ghost predicate Erased(before: Db, after: Db, tenant: Id) {
    && tenant !in after.tenants && (forall u :: u in after.users ==> after.users[u].tenant != tenant)
    && (forall t :: t in after.invitations ==> after.invitations[t].tenant != tenant)
    && KeepsBut(before.tenants, after.tenants, {tenant})
    && KeepsBut(before.users, after.users, set u | u in before.users && before.users[u].tenant == tenant)
    && KeepsBut(before.invitations, after.invitations,
                set t | t in before.invitations && before.invitations[t].tenant == tenant)
  }

  lemma DeleteMeans(db: Db, tenant: Id, confirm: string, user: Option<Id>, passwordOk: bool)
    requires tenant in db.tenants
    ensures var (db', r) := Delete(db, tenant, confirm, user, passwordOk);
            if r == Done then Erased(db, db', tenant) else db' == db
  {
  }

  class Store {
    var tenants: map<Id, Tenant>
    var users: map<Id, User>
    var invitations: map<string, Invitation>

    constructor ()
      ensures Inv(Tables()) && Tables() == Db(map[], map[], map[])
    {
      tenants, users, invitations := map[], map[], map[];
    }

    function Tables(): Db
      reads this
    {
      Db(tenants, users, invitations)
    }

    /** An unused email gets a workspace of its own, owned under that email. */
    method CreateTenant(tid: Id, uid: Id, email: string, hasPassword: bool, verified: bool, now: Time)
      returns (r: Outcome)
      modifies this
      ensures (Tables(), r)
           == Register(old(Tables()), tid, uid, email, hasPassword, if verified then Some(now) else None)
      ensures r == Conflict <==>
                || (exists t :: t in old(tenants) && old(tenants)[t].email == email)
                || exists u :: u in old(users) && old(users)[u].email == email
      ensures if r == Conflict then Tables() == old(Tables())
              else
                && r == Done && invitations == old(invitations)
                && var verifiedAt := if verified then Some(now) else None;
                   && tenants == old(tenants)[tid := Tenant(email, verifiedAt, true)]
                   && users == old(users)[uid := User(tid, email, OWNER, verifiedAt, true, hasPassword)]
      ensures Inv(old(Tables())) && tid !in old(tenants) && uid !in old(users) ==> Safe(old(Tables()), Tables())
      ensures Inv(old(Tables())) && uid !in old(users) && tid !in old(tenants) && r == Done ==>
        OwnedBy(Tables(), tid, uid) && tenants[tid].email == email
    {
      ghost var before := Tables();
      if Inv(before) && tid !in tenants && uid !in users {
        OthersAreSafe(before, OpRegister(tid, uid, email, hasPassword, if verified then Some(now) else None));
      }
      if EmailExists(Tables(), email) { return Conflict; }
      var verifiedAt := if verified then Some(now) else None;
      tenants := tenants[tid := Tenant(email, verifiedAt, true)];
      users := users[uid := User(tid, email, OWNER, verifiedAt, true, hasPassword)];
      return Done;
    }

    /** The new invitation is the workspace's only pending one to the address. */
    method InviteMember(tenant: Id, email: string, role: Role, id: Id, token: string, expiresAt: Time)
      returns (r: Outcome)
      modifies this`invitations
      ensures (Tables(), r) == Invite(old(Tables()), tenant, email, role, id, token, expiresAt)
      ensures r == if UserEmailExists(old(Tables()), email) then Conflict else Done
      ensures r == Conflict ==> invitations == old(invitations)
      ensures r == Done ==>
        && Pending(invitations, tenant, email) == {token}
        && invitations[token] == Invitation(id, tenant, email, role, expiresAt, None)
        && KeepsBut(old(invitations), invitations, Pending(old(invitations), tenant, email) + {token})
      ensures Inv(old(Tables())) && role != OWNER ==> Safe(old(Tables()), Tables())
    {
      ghost var before := Tables();
      if Inv(before) && role != OWNER { InviteKeepsInv(before, tenant, email, role, id, token, expiresAt); }
      if UserEmailExists(Tables(), email) { return Conflict; }
      invitations := WithoutPending(invitations, tenant, email);
      invitations := invitations[token := Invitation(id, tenant, email, role, expiresAt, None)];
      return Done;
    }

    /** The pending invitation of that id is gone, and no other. */
    method RevokeInvitation(tenant: Id, id: Id) returns (r: Outcome)
      modifies this`invitations
      ensures (Tables(), r) == Revoke(old(Tables()), tenant, id)
      ensures r == if PendingAs(old(invitations), tenant, id) != {} then Done else NotFound
      ensures PendingAs(invitations, tenant, id) == {} && invitations.Keys <= old(invitations).Keys
      ensures KeepsBut(old(invitations), invitations, PendingAs(old(invitations), tenant, id))
      ensures Inv(old(Tables())) ==> Safe(old(Tables()), Tables())
    {
      ghost var before := Tables();
      if Inv(before) { OthersAreSafe(before, OpRevoke(tenant, id)); }
      RevokedKeys(invitations, tenant, id);
      var kept := map t | t in invitations
                          && !(&& invitations[t].id == id && invitations[t].tenant == tenant
                               && invitations[t].acceptedAt.None?)
                    :: invitations[t];
      if kept == invitations { return NotFound; }
      invitations := kept;
      return Done;
    }

    /** An open invitation makes one verified member with its role, and is open no more. */
    method AcceptInvitation(token: string, uid: Id, now: Time) returns (r: Outcome)
      modifies this
      ensures (Tables(), r) == Accept(old(Tables()), token, uid, now)
      ensures r == if !IsOpen(old(Tables()), token, now) then BadRequest
                   else if UserEmailExists(old(Tables()), old(invitations)[token].email) then Conflict else Done
      ensures if r == Done then Joined(old(Tables()), Tables(), token, uid, now) else Tables() == old(Tables())
      ensures Inv(old(Tables())) && uid !in old(users) ==> Safe(old(Tables()), Tables())
    {
      ghost var before := Tables();
      if Inv(before) && uid !in users { OthersAreSafe(before, OpAccept(token, uid, now)); }
      if token !in invitations { return BadRequest; }
      var i := invitations[token];
      if i.acceptedAt.Some? || i.expiresAt <= now { return BadRequest; }
      if i.tenant !in tenants || !tenants[i.tenant].active { return BadRequest; }
      if UserEmailExists(Tables(), i.email) { return Conflict; }
      users := users[uid := User(i.tenant, i.email, i.role, Some(now), true, true)];
      invitations := invitations[token := i.(acceptedAt := Some(now))];
      return Done;
    }

    /** The user is verified, once and for all; an owner's workspace with them. */
    method MarkVerified(uid: Option<Id>, now: Time) returns (r: Outcome)
      modifies this
      ensures (Tables(), r) == Verify(old(Tables()), uid, now)
      ensures r == if uid.Some? && IsActive(old(Tables()), uid.value) then Done else BadRequest
      ensures r != Done ==> Tables() == old(Tables())
      ensures r == Done ==>
        && uid.value in users && uid.value in old(users)
        && users[uid.value] == old(users)[uid.value].(
             verifiedAt := Some(FirstTime(old(users)[uid.value].verifiedAt, now)))
        && KeepsBut(old(users), users, {uid.value}) && KeepsBut(old(tenants), tenants, {users[uid.value].tenant})
      ensures Inv(old(Tables())) ==> Safe(old(Tables()), Tables())
      ensures Inv(old(Tables())) && r == Done && users[uid.value].role == OWNER ==>
        OwnedBy(Tables(), users[uid.value].tenant, uid.value)
    {
      ghost var before := Tables();
      if Inv(before) {
        OthersAreSafe(before, OpVerify(uid, now));
      }
      if uid.None? || uid.value !in users { return BadRequest; }
      var u := users[uid.value];
      if u.tenant !in tenants || !u.active || !tenants[u.tenant].active { return BadRequest; }
      if u.verifiedAt.None? {
        users := users[uid.value := u.(verifiedAt := Some(now))];
      }
      var t := tenants[u.tenant];
      if u.role == OWNER && t.verifiedAt.None? {
        tenants := tenants[u.tenant := t.(verifiedAt := Some(now))];
      }
      if Inv(before) && u.role == OWNER { OwnerOwns(Tables(), u.tenant, uid.value); }
      return Done;
    }

    /** Only a member's role changes, never one's own and never the owner's. */
    method ChangeMemberRole(tenant: Id, actor: Option<Id>, uid: Id, role: Role) returns (r: Outcome)
      modifies this`users
      ensures (Tables(), r) == ChangeRole(old(Tables()), tenant, actor, uid, role)
      ensures r == if !IsMember(old(Tables()), tenant, uid) then NotFound
                   else if actor == Some(uid) || IsOwner(old(Tables()), tenant, uid) then Forbidden else Done
      ensures if r == Done then HasRole(old(users), users, uid, role) else users == old(users)
      ensures Inv(old(Tables())) && role != OWNER ==> Safe(old(Tables()), Tables())
    {
      ghost var before := Tables();
      if Inv(before) && role != OWNER { OthersAreSafe(before, OpChangeRole(tenant, actor, uid, role)); }
      if !IsMember(Tables(), tenant, uid) { return NotFound; }
      if actor == Some(uid) { return Forbidden; }
      if users[uid].role == OWNER { return Forbidden; }
      users := users[uid := users[uid].(role := role)];
      return Done;
    }

    /** Exactly the member goes, never the owner. */
    method RemoveMember(tenant: Id, uid: Id) returns (r: Outcome)
      modifies this`users
      ensures (Tables(), r) == Remove(old(Tables()), tenant, uid)
      ensures r == if !IsMember(old(Tables()), tenant, uid) then NotFound
                   else if IsOwner(old(Tables()), tenant, uid) then Forbidden else Done
      ensures r != Done ==> users == old(users)
      ensures r == Done ==> users.Keys == old(users).Keys - {uid} && KeepsBut(old(users), users, {uid})
      ensures Inv(old(Tables())) ==> Safe(old(Tables()), Tables())
    {
      ghost var before := Tables();
      if Inv(before) { OthersAreSafe(before, OpRemove(tenant, uid)); }
      if !IsMember(Tables(), tenant, uid) { return NotFound; }
      if users[uid].role == OWNER { return Forbidden; }
      users := users - {uid};
      return Done;
    }

    /** The member owns the workspace, email and verification included; the old owner is ADMIN; nobody else
        is concerned. */
    method TransferOwnership(tenant: Id, owner: Id, uid: Id, passwordOk: bool) returns (r: Outcome)
      requires tenant in tenants && IsOwner(Tables(), tenant, owner)
      modifies this
      ensures (Tables(), r) == Transfer(old(Tables()), tenant, owner, uid, passwordOk)
      ensures r == if old(users)[owner].hasPassword && !passwordOk then Forbidden
                   else if !IsMember(old(Tables()), tenant, uid) then NotFound
                   else if uid == owner || !old(users)[uid].active || old(users)[uid].verifiedAt.None? then BadRequest
                   else Done
      ensures r != Done ==> Tables() == old(Tables())
      ensures r == Done ==>
        && HasRole(old(users)[owner := users[owner]], users, uid, OWNER)
        && HasRole(old(users)[uid := users[uid]], users, owner, ADMIN)
        && KeepsBut(old(tenants), tenants, {tenant})
      ensures Inv(old(Tables())) ==> Inv(Tables())
      ensures Inv(old(Tables())) && r == Done ==>
        OwnedBy(Tables(), tenant, uid) && IsMember(Tables(), tenant, owner) && users[owner].role == ADMIN
    {
      ghost var before := Tables();
      if Inv(before) { TransferKeepsInv(before, tenant, owner, uid, passwordOk); }
      if users[owner].hasPassword && !passwordOk { return Forbidden; }
      if !IsMember(Tables(), tenant, uid) { return NotFound; }
      if uid == owner { return BadRequest; }
      var member := users[uid];
      if !(member.active && member.verifiedAt.Some?) { return BadRequest; }
      users := users[uid := member.(role := OWNER)];
      users := users[owner := users[owner].(role := ADMIN)];
      tenants := tenants[tenant := tenants[tenant].(email := member.email, verifiedAt := member.verifiedAt)];
      return Done;
    }

    /** Nothing of the workspace is left, and nothing of any other is touched. */
    method DeleteAccount(tenant: Id, confirm: string, user: Option<Id>, passwordOk: bool) returns (r: Outcome)
      requires tenant in tenants
      modifies this
      ensures (Tables(), r) == Delete(old(Tables()), tenant, confirm, user, passwordOk)
      ensures r == if confirm != old(tenants)[tenant].email then BadRequest
                   else if user.Some? && user.value in old(users) && old(users)[user.value].hasPassword && !passwordOk
                   then Unauthorized else Done
      ensures if r == Done then Erased(old(Tables()), Tables(), tenant) else Tables() == old(Tables())
      ensures Inv(old(Tables())) ==> Safe(old(Tables()), Tables())
    {
      ghost var before := Tables();
      DeleteMeans(before, tenant, confirm, user, passwordOk);
      if Inv(before) { OthersAreSafe(before, OpDelete(tenant, confirm, user, passwordOk)); }
      if confirm != tenants[tenant].email { return BadRequest; }
      if user.Some? && user.value in users && users[user.value].hasPassword && !passwordOk { return Unauthorized; }
      tenants := tenants - {tenant};
      users := map u | u in users && users[u].tenant != tenant :: users[u];
      invitations := map t | t in invitations && invitations[t].tenant != tenant :: invitations[t];
      return Done;
    }

    /** Any one operation keeps the invariant. */
    method Perform(op: Op) returns (r: Outcome)
      requires Allowed(Tables(), op) && Inv(Tables())
      modifies this
      ensures (Tables(), r) == Apply(old(Tables()), op)
      ensures Inv(Tables())
    {
      ApplyKeepsInv(Tables(), op);
      match op
      case OpRegister(tid, uid, email, hasPassword, verifiedAt) =>
        r := CreateTenant(tid, uid, email, hasPassword, verifiedAt.Some?,
                          if verifiedAt.Some? then verifiedAt.value else 0);
      case OpInvite(tenant, email, role, id, token, expiresAt) =>
        r := InviteMember(tenant, email, role, id, token, expiresAt);
      case OpRevoke(tenant, id) => r := RevokeInvitation(tenant, id);
      case OpAccept(token, uid, now) => r := AcceptInvitation(token, uid, now);
      case OpVerify(user, now) => r := MarkVerified(user, now);
      case OpChangeRole(tenant, actor, uid, role) => r := ChangeMemberRole(tenant, actor, uid, role);
      case OpRemove(tenant, uid) => r := RemoveMember(tenant, uid);
      case OpTransfer(tenant, owner, uid, passwordOk) => r := TransferOwnership(tenant, owner, uid, passwordOk);
      case OpDelete(tenant, confirm, user, passwordOk) => r := DeleteAccount(tenant, confirm, user, passwordOk);
    }
  }

  /** A time once set stays. */
  function FirstTime(at: Option<Time>, now: Time): Time {
    match at case Some(t) => t case None => now
  }

  lemma RevokedKeys(invitations: map<string, Invitation>, tenant: Id, id: Id)
    ensures Revoke(Db(map[], map[], invitations), tenant, id).1 == NotFound <==>
              PendingAs(invitations, tenant, id) == {}
  {
    var kept := map t | t in invitations && t !in PendingAs(invitations, tenant, id) :: invitations[t];
    assert PendingAs(invitations, tenant, id) == {} ==> kept == invitations;
    forall t | t in PendingAs(invitations, tenant, id) ensures kept != invitations {
      assert t in invitations && t !in kept;
    }
  }
}

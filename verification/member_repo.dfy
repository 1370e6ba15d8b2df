/** The member repository, statement by statement. */
module MemberRepo {
  import opened Domain
  import opened Tables
  import opened Roles
  import opened MemberTx
  import opened StoreMachine
  import opened Evolution
  import opened Keyset
  import opened Listing
  import opened Database

  datatype MemberEntry = MemberEntry(member: Member, email: string, name: string)

  /** Each membership with its user's email and name. */
  ghost function Roster(db: DB): map<Id, MemberEntry>
    requires MembersOk(db.members, db.events, db.users)
  {
    map m | m in db.members ::
      MemberEntry(db.members[m], db.users[db.members[m].userId].email, db.users[db.members[m].userId].name)
  }

  /** What adding a member does: the transaction, if its insert found the account
      and the guard let it pass; otherwise a classification by whether the account
      exists in the store as others have left it by then. */
  ghost predicate CreateOutcome(
    before: DB, after: DB, actor: Id, event: Id, email: string, role: Role, id: Id, now: Time, r: Result<Id>, alone: bool)
  {
    if HasEmail(before.users, email) && CanGrant(before.members, event, actor, role)
    then (after, r) == CreateMember(before, actor, event, email, role, id, now)
    else
      && Inv(after) && Evolves(before, after) && (alone ==> after == before)
      && r == Err(if HasEmail(after.users, email) then ErrForbidden else ErrNotFound)
  }

  class MemberRepository {
    const pool: Pool

    constructor (pool: Pool)
      ensures this.pool == pool
    {
      this.pool := pool;
    }

    /** One guarded INSERT ... SELECT; only if it matched nothing, a second
        statement, after others may have run, says why. */
    method Create(actor: Id, event: Id, email: string, role: Role, id: Id, now: Time) returns (r: Result<Id>)
      requires Inv(pool.View()) && Fresh(pool.View(), id)
      modifies pool
      ensures CreateOutcome(old(pool.View()), pool.View(), actor, event, email, role, id, now, r, pool.alone)
      ensures Inv(pool.View())
    {
      hide Inv, CanGrant, IsMember, Evolves;
      CreateMemberKeepsInv(pool.View(), actor, event, email, role, id, now);
      var snapshot := pool.Begin();
      if HasEmail(pool.users, email) && CanGrant(pool.members, event, actor, role) {
        var user :| user in pool.users && pool.users[user].email == email;
        EmailNamesOneUser(pool.View(), user, email);
        if IsMember(pool.members, event, user) {
          return Err(ErrConflict);
        }
        var row := Member(event, user, role, 1, now);
        pool.members := pool.members[id := row];
        pool.issued := pool.issued + {id};
        var audited := pool.Audit(AuditRow(actor, KMember, id, Action.Create, None, Some(Full(MemberRow(row)))));
        if !audited {
          pool.Rollback(snapshot);
          return Err(ErrInternal);
        }
        return Ok(id);
      }
      pool.Others([]);
      if !HasEmail(pool.users, email) {
        return Err(ErrNotFound);
      }
      return Err(ErrForbidden);
    }

    /** Lock the event row, write under the guard, audit and commit; or classify
        the refusal while the lock is still held, and roll back. */
    method AssignRole(actor: Id, event: Id, member: Id, version: int, role: Role) returns (r: Result<Id>)
      modifies pool
      ensures (pool.View(), r) == WriteRole(old(pool.View()), actor, event, member, version, Assign(role))
    {
      hide IsAdminRow;
      var snapshot := pool.Begin();
      if !GuardHolds(pool.members, event, member, version, Assign(role)) {
        var e := DiagnoseAdminGuardedFailure(event, member, version);
        return Err(e);
      }
      var before := pool.members[member];
      var after := before.(role := role, version := before.version + 1);
      pool.members := pool.members[member := after];
      var audited := pool.Audit(
        AuditRow(actor, KMember, member, Update, Some(Full(MemberRow(before))), Some(Full(MemberRow(after)))));
      if !audited {
        pool.Rollback(snapshot);
        return Err(ErrInternal);
      }
      r := Ok(member);
    }

    method Delete(actor: Id, event: Id, member: Id, version: int) returns (r: Result<Id>)
      modifies pool
      ensures (pool.View(), r) == WriteRole(old(pool.View()), actor, event, member, version, Remove)
    {
      hide IsAdminRow;
      var snapshot := pool.Begin();
      if !GuardHolds(pool.members, event, member, version, Remove) {
        var e := DiagnoseAdminGuardedFailure(event, member, version);
        return Err(e);
      }
      var before := pool.members[member];
      pool.members := pool.members - {member};
      var audited := pool.Audit(AuditRow(actor, KMember, member, Action.Delete, Some(Full(MemberRow(before))), None));
      if !audited {
        pool.Rollback(snapshot);
        return Err(ErrInternal);
      }
      r := Ok(member);
    }

    /** One page of an event's roster, with each user's email and name joined in. */
    method List(event: Id, limit: nat, after: Option<Key>) returns (page: Page<MemberEntry>)
      requires Inv(pool.View()) && limit > 0
      ensures Shows(page, Roster(pool.View()), MemberKeys(pool.View(), event), limit, after)
    {
      hide BookingOk, UsersOk, EventsOk, MembersOk, AdminsOk, InvitationsOk, IssuedOk, Roster, Shows, Sort, Beyond, PageOf;
      ghost var roster := Roster(pool.View());
      var keys := set m | m in pool.members && pool.members[m].eventId == event :: Key(pool.members[m].createdAt, m);
      assert keys == MemberKeys(pool.View(), event);
      var fetched := Fetch(keys, after, limit + 1);
      var members := Scan(fetched);
      TrimmedIsPage(members, fetched, roster, keys, limit, after);
      page := Page(members, None);
      if |members| > limit {
        page := Page(members[..limit], Some(Key(members[limit - 1].1.member.createdAt, members[limit - 1].0)));
      }
    }

    /** Read the fetched rows one by one. */
    method Scan(fetched: seq<Key>) returns (members: seq<(Id, MemberEntry)>)
      requires Inv(pool.View())
      requires forall i | 0 <= i < |fetched| ::
        fetched[i].id in pool.members && fetched[i].at == pool.members[fetched[i].id].createdAt
      ensures |members| == |fetched|
      ensures forall i | 0 <= i < |fetched| ::
        && fetched[i].id in Roster(pool.View()) && members[i] == (fetched[i].id, Roster(pool.View())[fetched[i].id])
        && members[i].1.member.createdAt == fetched[i].at
    {
      hide BookingOk, UsersOk, EventsOk, MembersOk, AdminsOk, InvitationsOk, IssuedOk, Roster;
      ghost var roster := Roster(pool.View());
      RosterHas(pool.View());
      members := [];
      for n := 0 to |fetched|
        invariant |members| == n
        invariant forall i | 0 <= i < n ::
          fetched[i].id in roster && members[i] == (fetched[i].id, roster[fetched[i].id])
          && members[i].1.member.createdAt == fetched[i].at
      {
        var m := pool.members[fetched[n].id];
        members := members + [(fetched[n].id, MemberEntry(m, pool.users[m.userId].email, pool.users[m.userId].name))];
      }
    }

    method DiagnoseAdminGuardedFailure(event: Id, member: Id, version: int) returns (e: Error)
      ensures e == Diagnose(pool.members, event, member, version)
    {
      if member !in pool.members || pool.members[member].eventId != event {
        return ErrNotFound;
      }
      if pool.members[member].version != version {
        return ErrVersionMismatch;
      }
      return ErrConflict;
    }
  }

  /** What the two errors mean. "Not found": there was no account at the insert
      either. "Forbidden": the guard refused, if the account existed at the insert;
      an actor the guard would have let pass is told so only about an account that
      signed up between the two statements. Alone, the call is the transaction. */
  lemma CreateErrorsMean(
    before: DB, after: DB, actor: Id, event: Id, email: string, role: Role, id: Id, now: Time, r: Result<Id>, alone: bool)
    requires CreateOutcome(before, after, actor, event, email, role, id, now, r, alone)
    ensures r == Err(ErrNotFound) ==> !HasEmail(before.users, email)
    ensures r == Err(ErrForbidden) && HasEmail(before.users, email) ==> !CanGrant(before.members, event, actor, role)
    ensures r == Err(ErrForbidden) && CanGrant(before.members, event, actor, role) ==>
      !HasEmail(before.users, email) && HasEmail(after.users, email)
    ensures alone ==> (after, r) == CreateMember(before, actor, event, email, role, id, now)
  {
    hide Inv, CanGrant, IsMember, HasEmail, Evolves;
    AccountsStay(before, after, email);
  }

  lemma AccountsStay(before: DB, after: DB, email: string)
    ensures Evolves(before, after) && HasEmail(before.users, email) ==> HasEmail(after.users, email)
  {
    hide EventsEvolve, MembersEvolve, RoomsEvolve, SessionsEvolve;
    if Evolves(before, after) && HasEmail(before.users, email) {
      var u :| u in before.users && before.users[u].email == email;
      assert u in after.users && after.users[u] == before.users[u];
    }
  }

  lemma NewcomerCanBeAdded(
    before: DB, actor: Id, event: Id, email: string, role: Role, id: Id, now: Time, newcomer: Id, user: User)
    requires Inv(before) && CanGrant(before.members, event, actor, role) && !HasEmail(before.users, email)
    requires Fresh(before, newcomer) && user.email == email && !KnownSubject(before.users, user.subject)
    ensures CreateMember(SignIn(before, newcomer, user).0, actor, event, email, role, id, now).1 == Ok(id)
  {
    hide BookingOk, RecordsOk, EventsOk, AdminsOk, InvitationsOk;
    var users := SignIn(before, newcomer, user).0.users;
    assert newcomer in users && users[newcomer].email == email;
    assert forall u | u in users && users[u].email == email :: u == newcomer;
  }

  /** And that does happen: whoever may grant the role is told "forbidden" about an
      address nobody had at the insert, when its owner signs up before the read -
      though the very same call, made then, would have succeeded. */
  lemma SignUpInBetweenIsForbidden(
    before: DB, actor: Id, event: Id, email: string, role: Role, id: Id, now: Time, newcomer: Id, user: User)
    requires Inv(before) && CanGrant(before.members, event, actor, role) && !HasEmail(before.users, email)
    requires Fresh(before, newcomer) && user.email == email && !KnownSubject(before.users, user.subject)
    ensures var after := SignIn(before, newcomer, user).0;
      && CreateOutcome(before, after, actor, event, email, role, id, now, Err(ErrForbidden), false)
      && CreateMember(after, actor, event, email, role, id, now).1 == Ok(id)
  {
    NewcomerCanBeAdded(before, actor, event, email, role, id, now, newcomer, user);
    hide AccessOk, BookingOk, RecordsOk, CanGrant, Evolves, KnownSubject, Enabled, CreateMember;
    var tx := AddUser(newcomer, user);
    SignUpIsEnabled(before, newcomer, user);
    ApplyKeepsInv(before, tx);
    ApplyEvolves(before, tx);
    var after := SignIn(before, newcomer, user).0;
    assert newcomer in after.users && after.users[newcomer].email == email;
  }

  lemma SignUpIsEnabled(db: DB, newcomer: Id, user: User)
    requires Fresh(db, newcomer)
    ensures Enabled(db, AddUser(newcomer, user))
  {
  }

  lemma RosterHas(db: DB)
    requires MembersOk(db.members, db.events, db.users)
    ensures forall m | m in db.members ::
      && db.members[m].userId in db.users && m in Roster(db)
      && Roster(db)[m] ==
           MemberEntry(db.members[m], db.users[db.members[m].userId].email, db.users[db.members[m].userId].name)
  {
  }

  /** The email lookup has one possible answer. */
  lemma EmailNamesOneUser(db: DB, user: Id, email: string)
    requires Inv(db) && user in db.users && db.users[user].email == email
    ensures UserByEmail(db.users, email) == Some(user)
  {
    hide BookingOk, EventsOk, MembersOk, AdminsOk, InvitationsOk, IssuedOk;
  }
}

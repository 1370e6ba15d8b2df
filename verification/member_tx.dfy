/** Atomic transactions of the member repository, as functions of the tables. */
module MemberTx {
  import opened Domain
  import opened Tables
  import opened Roles

  /** A new role for a member, or its removal. */
  datatype MemberChange = Assign(role: Role) | Remove

  /** Add the user with this email. No event lock is taken. */
  ghost function CreateMember(
    db: DB, actor: Id, event: Id, email: string, role: Role, id: Id, now: Time): (DB, Result<Id>)
  {
    var user := UserByEmail(db.users, email);
    if user.None? then (db, Err(ErrNotFound))
    else if !CanGrant(db.members, event, actor, role) then (db, Err(ErrForbidden))
    else if IsMember(db.members, event, user.value) then (db, Err(ErrConflict))
    else if actor !in db.users then (db, Err(ErrInternal))
    else
      var row := Member(event, user.value, role, 1, now);
      (db.(members := db.members[id := row],
           audit := db.audit + [AuditRow(actor, KMember, id, Create, None, Some(Full(MemberRow(row))))],
           issued := db.issued + {id}),
       Ok(id))
  }

  /** The WHERE clause of the guarded write: the row, its event and version
      match, and the change does not take the event's only admin away. */
  predicate GuardHolds(members: map<Id, Member>, event: Id, member: Id, version: int, c: MemberChange) {
    && member in members && members[member].eventId == event && members[member].version == version
    && (|| members[member].role != Admin
        || c == Assign(Admin)
        || exists other :: other in members && other != member && IsAdminRow(members, other, event))
  }

  /** The classification of a guarded write that matched no row. */
  function Diagnose(members: map<Id, Member>, event: Id, member: Id, version: int): Error {
    if member !in members || members[member].eventId != event then ErrNotFound
    else if members[member].version != version then ErrVersionMismatch
    else ErrConflict
  }

  function MemberAfter(before: Member, c: MemberChange): Option<Member> {
    match c
    case Assign(role) => Some(before.(role := role, version := before.version + 1))
    case Remove => None
  }

  function Replace(members: map<Id, Member>, member: Id, after: Option<Member>): map<Id, Member> {
    if after.Some? then members[member := after.value] else members - {member}
  }

  /** What committing the guarded write does, given the row it matched. */
  ghost function CommitRole(db: DB, actor: Id, member: Id, before: Member, c: MemberChange): DB {
    var after := MemberAfter(before, c);
    db.(members := Replace(db.members, member, after),
        audit := db.audit + [
          AuditRow(actor, KMember, member, if c.Assign? then Update else Delete,
                   Some(Full(MemberRow(before))),
                   if after.Some? then Some(Full(MemberRow(after.value))) else None)])
  }

  /** The whole role change as if nothing else ran meanwhile. */
  ghost function WriteRole(
    db: DB, actor: Id, event: Id, member: Id, version: int, c: MemberChange): (DB, Result<Id>)
  {
    if !GuardHolds(db.members, event, member, version, c) then (db, Err(Diagnose(db.members, event, member, version)))
    else if actor !in db.users then (db, Err(ErrInternal))
    else (CommitRole(db, actor, member, db.members[member], c), Ok(member))
  }

  /** For a row the statement does match, the guard refuses exactly the changes
      that would leave the event without an admin. */
  lemma GuardRefusesLastAdmin(members: map<Id, Member>, event: Id, member: Id, c: MemberChange)
    requires member in members && members[member].eventId == event && HasAdmin(members, event)
    ensures GuardHolds(members, event, member, members[member].version, c)
       <==> HasAdmin(Replace(members, member, MemberAfter(members[member], c)), event)
  {
    var after := Replace(members, member, MemberAfter(members[member], c));
    var a :| IsAdminRow(members, a, event);
    if GuardHolds(members, event, member, members[member].version, c) {
      if c == Assign(Admin) {
        assert IsAdminRow(after, member, event);
      } else if members[member].role != Admin {
        AdminSurvives(members, after, a, event);
      } else {
        var other :| other in members && other != member && IsAdminRow(members, other, event);
        AdminSurvives(members, after, other, event);
      }
    }
  }

  /** ErrConflict is reported exactly when row, event and version all match and
      the change would leave the event without any admin. */
  lemma ConflictExactlyLastAdmin(db: DB, actor: Id, event: Id, member: Id, version: int, c: MemberChange)
    requires Inv(db)
    ensures WriteRole(db, actor, event, member, version, c).1 == Err(ErrConflict) <==>
            && member in db.members && db.members[member].eventId == event && db.members[member].version == version
            && !HasAdmin(CommitRole(db, actor, member, db.members[member], c).members, event)
  {
    hide BookingOk, UsersOk, EventsOk, InvitationsOk, UniqueMembers, IssuedOk, GuardHolds, HasAdmin;
    if member in db.members && db.members[member].eventId == event && db.members[member].version == version {
      GuardRefusesLastAdmin(db.members, event, member, c);
    } else {
      GuardNeedsMatch(db.members, event, member, version, c);
    }
  }

  lemma GuardNeedsMatch(members: map<Id, Member>, event: Id, member: Id, version: int, c: MemberChange)
    ensures GuardHolds(members, event, member, version, c) ==>
            member in members && members[member].eventId == event && members[member].version == version
  {
  }

  lemma CreateMemberKeepsInv(db: DB, actor: Id, event: Id, email: string, role: Role, id: Id, now: Time)
    requires Inv(db) && Fresh(db, id)
    ensures Inv(CreateMember(db, actor, event, email, role, id, now).0)
  {
    hide BookingOk, UsersOk, EventsOk, InvitationsOk, AdminsOk, UniqueMembers;
    var db' := CreateMember(db, actor, event, email, role, id, now).0;
    if db' != db {
      AddMemberKeepsAdmins(db.events, db.members, id, db'.members[id]);
      AddMemberKeepsMembers(db.members, db.events, db.users, id, db'.members[id]);
    }
  }

  lemma WriteRoleKeepsAdmins(
    events: map<Id, Event>, members: map<Id, Member>, event: Id, member: Id, version: int, c: MemberChange)
    requires AdminsOk(events, members) && GuardHolds(members, event, member, version, c)
    ensures AdminsOk(events, Replace(members, member, MemberAfter(members[member], c)))
  {
    var members' := Replace(members, member, MemberAfter(members[member], c));
    forall e | e in events ensures HasAdmin(members', e) {
      var m :| IsAdminRow(members, m, e);
      if m != member {
        AdminSurvives(members, members', m, e);
      } else if c == Assign(Admin) {
        assert IsAdminRow(members', member, e);
      } else {
        var other :| other in members && other != member && IsAdminRow(members, other, event);
        AdminSurvives(members, members', other, e);
      }
    }
  }

  lemma WriteRoleKeepsMembers(
    members: map<Id, Member>, events: map<Id, Event>, users: map<Id, User>, member: Id, c: MemberChange)
    requires MembersOk(members, events, users) && member in members
    ensures MembersOk(Replace(members, member, MemberAfter(members[member], c)), events, users)
  {
  }

  /** Whatever the change, an event that had an admin still has one. */
  lemma WriteRoleKeepsInv(db: DB, actor: Id, event: Id, member: Id, version: int, c: MemberChange)
    requires Inv(db)
    ensures Inv(WriteRole(db, actor, event, member, version, c).0)
  {
    hide BookingOk, UsersOk, EventsOk, MembersOk, AdminsOk, InvitationsOk;
    if GuardHolds(db.members, event, member, version, c) {
      WriteRoleKeepsAdmins(db.events, db.members, event, member, version, c);
      WriteRoleKeepsMembers(db.members, db.events, db.users, member, c);
    }
  }
}

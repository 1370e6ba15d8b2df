/** Atomic transactions of the invitation repository, as functions of the tables. */
module InvitationTx {
  import opened Domain
  import opened Tables
  import opened Roles

  ghost function Invite(
    db: DB, actor: Id, event: Id, email: string, role: Role, id: Id, now: Time): (DB, Result<Id>)
  {
    if !CanGrant(db.members, event, actor, role) then (db, Err(ErrForbidden))
    else if Invited(db.invitations, event, email) then (db, Err(ErrConflict))
    else if actor !in db.users then (db, Err(ErrInternal))
    else
      var row := Invitation(event, UserByEmail(db.users, email), email, role, now);
      (db.(invitations := db.invitations[id := row],
           audit := db.audit + [AuditRow(actor, KInvitation, id, Create, None, Some(Full(InvitationRow(row))))],
           issued := db.issued + {id}),
       Ok(id))
  }

  /** INSERT ... ON CONFLICT (actor_id, key) DO NOTHING. */
  ghost function RecordKey(db: DB, actor: Id, key: string, hash: string, items: seq<ItemResult>): (DB, Result<bool>) {
    if (actor, key) in db.keys then (db, Ok(false))
    else if actor !in db.users then (db, Err(ErrInternal))
    else (db.(keys := db.keys[(actor, key) := KeyRow(hash, items)]), Ok(true))
  }

  lemma AddInvitationKeepsInvitations(
    invitations: map<Id, Invitation>, events: map<Id, Event>, users: map<Id, User>, id: Id, row: Invitation)
    requires InvitationsOk(invitations, events, users) && id !in invitations
    requires row.eventId in events && (row.userId.Some? ==> row.userId.value in users)
    requires !Invited(invitations, row.eventId, row.email)
    ensures InvitationsOk(invitations[id := row], events, users)
  {
  }

  lemma InviteKeepsInv(db: DB, actor: Id, event: Id, email: string, role: Role, id: Id, now: Time)
    requires Inv(db) && Fresh(db, id)
    ensures Inv(Invite(db, actor, event, email, role, id, now).0)
  {
    hide BookingOk, UsersOk, EventsOk, AdminsOk, InvitationsOk, UniqueMembers;
    var db' := Invite(db, actor, event, email, role, id, now).0;
    if db' != db {
      var m :| m in db.members && db.members[m].eventId == event && db.members[m].userId == actor;
      AddInvitationKeepsInvitations(db.invitations, db.events, db.users, id, db'.invitations[id]);
    }
  }
}

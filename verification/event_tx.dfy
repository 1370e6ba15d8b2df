/** Atomic transactions of the event repository, as functions of the tables. */
module EventTx {
  import opened Domain
  import opened Tables

  datatype EventChange =
    | EventPatch(name: Option<string>, startsAt: Option<Time>, endsAt: Option<Time>)
    | EventDelete

  function Or<T>(o: Option<T>, d: T): T {
    if o.Some? then o.value else d
  }

  function EventAfter(e: Event, c: EventChange): Event {
    match c
    case EventPatch(n, s, t) =>
      e.(name := Or(n, e.name), startsAt := Or(s, e.startsAt), endsAt := Or(t, e.endsAt), version := e.version + 1)
    case EventDelete => e.(deleted := true, version := e.version + 1)
  }

  function EventActionOf(c: EventChange): Action {
    if c.EventPatch? then Update else Delete
  }

  /** The event row, its creator's admin membership and both audit rows appear
      together or not at all. */
  ghost function CreateEvent(
    db: DB, actor: Id, event: Id, member: Id, name: string, startsAt: Time, endsAt: Time, now: Time): (DB, Result<Id>)
  {
    if startsAt >= endsAt || actor !in db.users then (db, Err(ErrInternal))
    else
      var row := Event(name, startsAt, endsAt, 1, false, now);
      (db.(events := db.events[event := row],
           members := db.members[member := Member(event, actor, Admin, 1, now)],
           audit := db.audit + [
             AuditRow(actor, KEvent, event, Create, None, Some(Full(EventRow(row)))),
             AuditRow(actor, KMember, member, Create, None, Some(Unversioned(event, actor, Admin, now)))],
           issued := db.issued + {event, member}),
       Ok(event))
  }

  predicate EventMatches(events: map<Id, Event>, event: Id, version: int) {
    event in events && !events[event].deleted && events[event].version == version
  }

  /** A version-gated update or soft delete of a live event, with its audit row. */
  ghost function WriteEvent(db: DB, actor: Id, event: Id, version: int, c: EventChange): (DB, Result<Id>) {
    if !EventMatches(db.events, event, version) then (db, Err(ErrNoRow))
    else
      var before := db.events[event];
      var after := EventAfter(before, c);
      if after.startsAt >= after.endsAt || actor !in db.users then (db, Err(ErrInternal))
      else
        (db.(events := db.events[event := after],
             audit := db.audit + [
               AuditRow(actor, KEvent, event, EventActionOf(c), Some(Full(EventRow(before))), Some(Full(EventRow(after))))]),
         Ok(event))
  }

  lemma PutEventKeepsAccess(
    users: map<Id, User>, events: map<Id, Event>, members: map<Id, Member>, invitations: map<Id, Invitation>,
    event: Id, row: Event)
    requires AccessOk(users, events, members, invitations)
    requires row.startsAt < row.endsAt && row.version >= 1
    requires event in events || HasAdmin(members, event)
    ensures AccessOk(users, events[event := row], members, invitations)
  {
  }

  /** A new event is born with its creator as admin, so no event is ever without one. */
  lemma CreateEventKeepsAccess(
    users: map<Id, User>, events: map<Id, Event>, members: map<Id, Member>, invitations: map<Id, Invitation>,
    actor: Id, event: Id, member: Id, row: Event, now: Time)
    requires AccessOk(users, events, members, invitations)
    requires event !in events && member !in members && actor in users
    requires row.startsAt < row.endsAt && row.version >= 1
    ensures AccessOk(users, events[event := row], members[member := Member(event, actor, Admin, 1, now)], invitations)
  {
    var grant := Member(event, actor, Admin, 1, now);
    assert IsAdminRow(members[member := grant], member, event);
    AddMemberKeepsAdmins(events, members, member, grant);
    assert MembersOk(members, events[event := row], users);
    AddMemberKeepsMembers(members, events[event := row], users, member, grant);
  }

  lemma CreateEventKeepsInv(
    db: DB, actor: Id, event: Id, member: Id, name: string, startsAt: Time, endsAt: Time, now: Time)
    requires Inv(db) && Fresh(db, event) && Fresh(db, member) && event != member
    ensures Inv(CreateEvent(db, actor, event, member, name, startsAt, endsAt, now).0)
  {
    hide AccessOk, BookingOk;
    var db' := CreateEvent(db, actor, event, member, name, startsAt, endsAt, now).0;
    if db' != db {
      CreateEventKeepsAccess(db.users, db.events, db.members, db.invitations, actor, event, member, db'.events[event], now);
      MoreEventsAndUsers(db, db'.events, db.users);
    }
  }

  lemma WriteEventKeepsInv(db: DB, actor: Id, event: Id, version: int, c: EventChange)
    requires Inv(db)
    ensures Inv(WriteEvent(db, actor, event, version, c).0)
  {
    hide BookingOk, UsersOk, MembersOk, AdminsOk, InvitationsOk;
    var db' := WriteEvent(db, actor, event, version, c).0;
    if db' != db {
      PutEventKeepsAccess(db.users, db.events, db.members, db.invitations, event, db'.events[event]);
      MoreEventsAndUsers(db, db'.events, db.users);
    }
  }
}

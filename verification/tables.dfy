/** The database: one map per table, two append-only logs, and the integrity
    constraints the migrations declare. */
module Tables {
  import opened Domain

  datatype User = User(subject: string, email: string, name: string)

  datatype Event = Event(name: string, startsAt: Time, endsAt: Time, version: int, deleted: bool, createdAt: Time)

  datatype Member = Member(eventId: Id, userId: Id, role: Role, version: int, createdAt: Time)

  datatype Room = Room(eventId: Id, name: string, capacity: Option<int>, version: int, createdAt: Time)

  datatype Session = Session(
    eventId: Id, roomId: Id, speakerId: Id, title: string, startsAt: Time, endsAt: Time,
    version: int, deleted: bool, seriesId: Option<Id>, createdAt: Time)

  datatype Invitation = Invitation(eventId: Id, userId: Option<Id>, email: string, role: Role, createdAt: Time)

  datatype Freq = Daily | Weekly

  datatype Series = Series(
    eventId: Id, roomId: Id, speakerId: Id, title: string, freq: Freq, interval: int, occurrences: int, createdAt: Time)

  datatype ExceptionStatus = Modified | Cancelled

  datatype ExceptionRow = ExceptionRow(seriesId: Id, sessionId: Id, status: ExceptionStatus, originalStartsAt: Time)

  /** One entry of a bulk invite's result list. */
  datatype ItemResult = Created(email: string, id: Id) | Conflict(email: string) | Forbidden(email: string)

  datatype KeyRow = KeyRow(hash: string, items: seq<ItemResult>)

  datatype Row =
    | EventRow(event: Event)
    | MemberRow(member: Member)
    | RoomRow(room: Room)
    | SessionRow(session: Session)
    | InvitationRow(invitation: Invitation)

  /** What an audit row stores of a table row. The membership an event's creator
      is granted is logged without its version column. */
  datatype Payload =
    | Full(row: Row)
    | Unversioned(eventId: Id, userId: Id, role: Role, createdAt: Time)

  datatype Kind = KEvent | KMember | KRoom | KSession | KInvitation

  datatype Action = Create | Update | Delete

  datatype AuditRow = AuditRow(
    actor: Id, kind: Kind, id: Id, action: Action, before: Option<Payload>, after: Option<Payload>)

  /** `issued` holds every identifier the database has ever generated. */
  datatype DB = DB(
    users: map<Id, User>,
    events: map<Id, Event>,
    members: map<Id, Member>,
    rooms: map<Id, Room>,
    sessions: map<Id, Session>,
    invitations: map<Id, Invitation>,
    keys: map<(Id, string), KeyRow>,
    series: map<Id, Series>,
    exceptions: seq<ExceptionRow>,
    audit: seq<AuditRow>,
    issued: set<Id>)

  const EMPTY := DB(map[], map[], map[], map[], map[], map[], map[], map[], [], [], {})

  // ---------------------------------------------------------------------
  // Reading single facts off the tables
  // ---------------------------------------------------------------------

  predicate IsMember(members: map<Id, Member>, event: Id, user: Id) {
    exists m :: m in members && members[m].eventId == event && members[m].userId == user
  }

  predicate IsAdminRow(members: map<Id, Member>, m: Id, event: Id) {
    m in members && members[m].eventId == event && members[m].role == Admin
  }

  ghost predicate HasAdmin(members: map<Id, Member>, event: Id) {
    exists m :: IsAdminRow(members, m, event)
  }

  predicate Invited(invitations: map<Id, Invitation>, event: Id, email: string) {
    exists i :: i in invitations && invitations[i].eventId == event && invitations[i].email == email
  }

  predicate HasEmail(users: map<Id, User>, email: string) {
    exists u :: u in users && users[u].email == email
  }

  ghost function UserByEmail(users: map<Id, User>, email: string): (u: Option<Id>)
    ensures u.Some? <==> HasEmail(users, email)
    ensures u.Some? ==> u.value in users && users[u.value].email == email
  {
    if HasEmail(users, email) then
      var u :| u in users && users[u].email == email;
      Some(u)
    else
      None
  }

  /** Two sessions compete for the same room or the same speaker at one instant. */
  predicate Clash(s: Session, t: Session) {
    && (s.roomId == t.roomId || s.speakerId == t.speakerId)
    && Overlaps(s.startsAt, s.endsAt, t.startsAt, t.endsAt)
  }

  /** Some live session other than `self` clashes with `s`. */
  predicate SlotTaken(sessions: map<Id, Session>, self: Id, s: Session) {
    exists t :: t in sessions && t != self && !sessions[t].deleted && Clash(s, sessions[t])
  }

  /** A room that any session row, live or cancelled, or any series still names. */
  predicate RoomReferenced(sessions: map<Id, Session>, series: map<Id, Series>, room: Id) {
    || (exists s :: s in sessions && sessions[s].roomId == room)
    || (exists r :: r in series && series[r].roomId == room)
  }

  // ---------------------------------------------------------------------
  // Integrity
  // ---------------------------------------------------------------------

  ghost predicate UsersOk(users: map<Id, User>) {
    forall u, v | u in users && v in users && (users[u].email == users[v].email || users[u].subject == users[v].subject) ::
      u == v
  }

  ghost predicate EventsOk(events: map<Id, Event>) {
    forall e | e in events :: events[e].startsAt < events[e].endsAt && events[e].version >= 1
  }

  ghost predicate MembersOk(members: map<Id, Member>, events: map<Id, Event>, users: map<Id, User>) {
    && (forall m | m in members ::
          members[m].eventId in events && members[m].userId in users && members[m].version >= 1)
    && UniqueMembers(members)
  }

  ghost predicate UniqueMembers(members: map<Id, Member>) {
    forall m, n | m in members && n in members
      && members[m].eventId == members[n].eventId && members[m].userId == members[n].userId :: m == n
  }

  ghost predicate AdminsOk(events: map<Id, Event>, members: map<Id, Member>) {
    forall e | e in events :: HasAdmin(members, e)
  }

  ghost predicate InvitationsOk(invitations: map<Id, Invitation>, events: map<Id, Event>, users: map<Id, User>) {
    && (forall i | i in invitations ::
          invitations[i].eventId in events && (invitations[i].userId.Some? ==> invitations[i].userId.value in users))
    && UniqueInvitations(invitations)
  }

  ghost predicate UniqueInvitations(invitations: map<Id, Invitation>) {
    forall i, j | i in invitations && j in invitations
      && invitations[i].eventId == invitations[j].eventId && invitations[i].email == invitations[j].email :: i == j
  }

  predicate CapacityOk(capacity: Option<int>) {
    capacity.Some? ==> capacity.value > 0
  }

  ghost predicate RoomsOk(rooms: map<Id, Room>, events: map<Id, Event>) {
    && (forall r | r in rooms ::
          rooms[r].eventId in events && CapacityOk(rooms[r].capacity) && rooms[r].version >= 1)
    && UniqueRooms(rooms)
  }

  ghost predicate UniqueRooms(rooms: map<Id, Room>) {
    forall r, q | r in rooms && q in rooms
      && rooms[r].eventId == rooms[q].eventId && rooms[r].name == rooms[q].name :: r == q
  }

  ghost predicate SessionRefOk(s: Session, rooms: map<Id, Room>, users: map<Id, User>, series: map<Id, Series>) {
    && s.roomId in rooms
    && rooms[s.roomId].eventId == s.eventId
    && s.speakerId in users
    && (s.seriesId.Some? ==> s.seriesId.value in series)
    && s.startsAt < s.endsAt
    && s.version >= 1
  }

  ghost predicate SessionRefsOk(
    sessions: map<Id, Session>, rooms: map<Id, Room>, users: map<Id, User>, series: map<Id, Series>)
  {
    forall s | s in sessions :: SessionRefOk(sessions[s], rooms, users, series)
  }

  /** The two partial EXCLUDE constraints: no two live sessions share a room, or
      a speaker, at any instant. Speakers are compared across events. */
  ghost predicate NoDoubleBooking(sessions: map<Id, Session>) {
    forall s, t | s in sessions && t in sessions && s != t && !sessions[s].deleted && !sessions[t].deleted ::
      !Clash(sessions[s], sessions[t])
  }

  ghost predicate SeriesOk(
    series: map<Id, Series>, events: map<Id, Event>, rooms: map<Id, Room>, users: map<Id, User>)
  {
    forall r | r in series ::
      && series[r].eventId in events && series[r].roomId in rooms && series[r].speakerId in users
      && series[r].interval > 0 && 1 <= series[r].occurrences <= 52
  }

  /** Who may do what: users, events, memberships and invitations. */
  ghost predicate AccessOk(
    users: map<Id, User>, events: map<Id, Event>, members: map<Id, Member>, invitations: map<Id, Invitation>)
  {
    && UsersOk(users)
    && EventsOk(events)
    && MembersOk(members, events, users)
    && AdminsOk(events, members)
    && InvitationsOk(invitations, events, users)
  }

  /** What is booked where: rooms, sessions and series. */
  ghost predicate BookingOk(
    rooms: map<Id, Room>, sessions: map<Id, Session>, series: map<Id, Series>,
    events: map<Id, Event>, users: map<Id, User>)
  {
    && RoomsOk(rooms, events)
    && SessionRefsOk(sessions, rooms, users, series)
    && NoDoubleBooking(sessions)
    && SeriesOk(series, events, rooms, users)
  }

  /** The foreign keys of the rows that only record: who acted, whose key it is,
      which occurrence of which series deviated. */
  ghost predicate RecordsOk(
    users: map<Id, User>, sessions: map<Id, Session>, series: map<Id, Series>,
    keys: map<(Id, string), KeyRow>, audit: seq<AuditRow>, exceptions: seq<ExceptionRow>)
  {
    && (forall i | 0 <= i < |audit| :: audit[i].actor in users)
    && (forall k | k in keys :: k.0 in users)
    && (forall i | 0 <= i < |exceptions| :: exceptions[i].seriesId in series && exceptions[i].sessionId in sessions)
  }

  ghost predicate IssuedOk(db: DB) {
    && db.users.Keys <= db.issued && db.events.Keys <= db.issued && db.members.Keys <= db.issued
    && db.rooms.Keys <= db.issued && db.sessions.Keys <= db.issued && db.invitations.Keys <= db.issued
    && db.series.Keys <= db.issued
  }

  /** The store's invariant: every unique, check, exclusion and foreign-key
      constraint the migrations declare, plus what the schema cannot express (an
      admin per event, a session's room in its own event, identifiers never reused). */
  ghost predicate Inv(db: DB) {
    && AccessOk(db.users, db.events, db.members, db.invitations)
    && BookingOk(db.rooms, db.sessions, db.series, db.events, db.users)
    && RecordsOk(db.users, db.sessions, db.series, db.keys, db.audit, db.exceptions)
    && IssuedOk(db)
  }

  ghost predicate Fresh(db: DB, id: Id) {
    id !in db.issued
  }

  ghost predicate FreshIds(db: DB, ids: seq<Id>) {
    && (forall i | 0 <= i < |ids| :: ids[i] !in db.issued)
    && (forall i, j | 0 <= i < j < |ids| :: ids[i] != ids[j])
  }

  lemma FirstIsFresh(db: DB, ids: seq<Id>, i: nat)
    requires i < |ids| && FreshIds(db, ids[i..])
    ensures Fresh(db, ids[i])
  {
    assert ids[i..][0] == ids[i];
  }

  lemma RestIsFresh(mid: DB, after: DB, ids: seq<Id>, i: nat)
    requires i < |ids| && FreshIds(mid, ids[i..]) && after.issued <= mid.issued + {ids[i]}
    ensures FreshIds(after, ids[i + 1..])
  {
    assert ids[i..][0] == ids[i];
    assert ids[i + 1..] == ids[i..][1..];
  }

  // ---------------------------------------------------------------------
  // How one row write affects one constraint
  // ---------------------------------------------------------------------

  /** Writing a session into a slot no other live session holds, or cancelling
      it, cannot create a double booking. */
  lemma PutSessionKeepsBookings(sessions: map<Id, Session>, id: Id, row: Session)
    requires NoDoubleBooking(sessions)
    requires row.deleted || !SlotTaken(sessions, id, row)
    ensures NoDoubleBooking(sessions[id := row])
  {
  }

  lemma PutSessionKeepsRefs(
    sessions: map<Id, Session>, rooms: map<Id, Room>, users: map<Id, User>, series: map<Id, Series>, id: Id, row: Session)
    requires SessionRefsOk(sessions, rooms, users, series)
    requires SessionRefOk(row, rooms, users, series)
    ensures SessionRefsOk(sessions[id := row], rooms, users, series)
  {
  }

  /** A row that is an admin of `e` before and after the write keeps `e` administered. */
  lemma AdminSurvives(before: map<Id, Member>, after: map<Id, Member>, m: Id, e: Id)
    requires IsAdminRow(before, m, e) && m in after && after[m] == before[m]
    ensures HasAdmin(after, e)
  {
    assert IsAdminRow(after, m, e);
  }

  /** Adding membership rows never takes an admin away. */
  lemma AddMemberKeepsAdmins(events: map<Id, Event>, members: map<Id, Member>, id: Id, row: Member)
    requires AdminsOk(events, members) && id !in members
    ensures AdminsOk(events, members[id := row])
  {
    forall e | e in events ensures HasAdmin(members[id := row], e) {
      var m :| IsAdminRow(members, m, e);
      AdminSurvives(members, members[id := row], m, e);
    }
  }

  lemma AddMemberKeepsMembers(
    members: map<Id, Member>, events: map<Id, Event>, users: map<Id, User>, id: Id, row: Member)
    requires MembersOk(members, events, users) && id !in members
    requires row.eventId in events && row.userId in users && row.version >= 1
    requires !IsMember(members, row.eventId, row.userId)
    ensures MembersOk(members[id := row], events, users)
  {
  }

  /** Rows that only name keys of `events` and `users` survive growth of both. */
  lemma MoreEventsAndUsers(db: DB, events: map<Id, Event>, users: map<Id, User>)
    requires db.events.Keys <= events.Keys && db.users.Keys <= users.Keys
    requires BookingOk(db.rooms, db.sessions, db.series, db.events, db.users)
    ensures BookingOk(db.rooms, db.sessions, db.series, events, users)
  {
    assert forall s | s in db.sessions :: SessionRefOk(db.sessions[s], db.rooms, users, db.series);
  }
}

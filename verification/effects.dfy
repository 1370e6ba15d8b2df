/** What every transaction answers and what it leaves behind, read off the rows
    themselves and told column by column. */
module Effects {
  import opened Domain
  import opened Tables
  import opened EventTx
  import opened MemberTx
  import opened InvitationTx
  import opened RoomTx
  import opened SessionTx
  import opened StoreMachine
  import Roles

  // ---------------------------------------------------------------------
  // Grants: invitations and memberships
  // ---------------------------------------------------------------------

  /** Whoever has any row in the event may invite an attendee; a higher role takes
      an admin row of the inviter there; everybody else is refused, before anything
      is said about the address. */
  lemma InviteAnswers(db: DB, actor: Id, event: Id, email: string, role: Role, id: Id, now: Time)
    requires Inv(db)
    ensures var member := exists m ::
        m in db.members && db.members[m].eventId == event && db.members[m].userId == actor;
      var admin := exists m ::
        m in db.members && db.members[m].eventId == event && db.members[m].userId == actor && db.members[m].role == Admin;
      var invited := exists i ::
        i in db.invitations && db.invitations[i].eventId == event && db.invitations[i].email == email;
      Invite(db, actor, event, email, role, id, now).1 ==
        if !member || (role != Attendee && !admin) then Err(ErrForbidden)
        else if invited then Err(ErrConflict)
        else Ok(id)
  {
    hide BookingOk, UsersOk, EventsOk, AdminsOk, InvitationsOk, IssuedOk, UniqueMembers, RecordsOk, UserByEmail;
  }

  /** An invitation is stored for this event and address at the role asked for, and
      names the account with that address if and only if there is one. */
  lemma InviteStores(db: DB, actor: Id, event: Id, email: string, role: Role, id: Id, now: Time)
    requires Inv(db)
    ensures var (db', r) := Invite(db, actor, event, email, role, id, now);
      r.Ok? ==>
        && r.value == id && id in db'.invitations
        && var user := db'.invitations[id].userId;
        && (forall u | u in db.users && db.users[u].email == email :: user == Some(u))
        && (user.Some? ==> user.value in db.users && db.users[user.value].email == email)
        && db' == db.(
             invitations := db.invitations[id := Invitation(event, user, email, role, now)],
             audit := db.audit + [
               AuditRow(actor, KInvitation, id, Create, None,
                        Some(Full(InvitationRow(Invitation(event, user, email, role, now)))))],
             issued := db.issued + {id})
  {
    hide BookingOk, EventsOk, MembersOk, AdminsOk, InvitationsOk, IssuedOk, RecordsOk, Roles.CanGrant, Invited;
  }

  /** Adding a member: the account first, then the same grant rule, then uniqueness. */
  lemma AddMemberAnswers(db: DB, actor: Id, event: Id, email: string, role: Role, id: Id, now: Time)
    requires Inv(db)
    ensures var account := exists u :: u in db.users && db.users[u].email == email;
      var member := exists m ::
        m in db.members && db.members[m].eventId == event && db.members[m].userId == actor;
      var admin := exists m ::
        m in db.members && db.members[m].eventId == event && db.members[m].userId == actor && db.members[m].role == Admin;
      var already := exists m, u ::
        m in db.members && db.members[m].eventId == event && db.members[m].userId == u
        && u in db.users && db.users[u].email == email;
      CreateMember(db, actor, event, email, role, id, now).1 ==
        if !account then Err(ErrNotFound)
        else if !member || (role != Attendee && !admin) then Err(ErrForbidden)
        else if already then Err(ErrConflict)
        else Ok(id)
  {
    hide BookingOk, EventsOk, AdminsOk, InvitationsOk, IssuedOk, UniqueMembers, RecordsOk;
    var user := UserByEmail(db.users, email);
    if user.Some? {
      OneAccount(db.users, user.value, email);
    }
  }

  lemma OneAccount(users: map<Id, User>, user: Id, email: string)
    requires UsersOk(users) && user in users && users[user].email == email
    ensures forall u | u in users && users[u].email == email :: u == user
  {
  }

  /** The membership stored is the account's, in this event, at the role asked for. */
  lemma AddMemberStores(db: DB, actor: Id, event: Id, email: string, role: Role, id: Id, now: Time)
    ensures var (db', r) := CreateMember(db, actor, event, email, role, id, now);
      r.Ok? ==>
        && r.value == id && id in db'.members
        && var user := db'.members[id].userId;
        && user in db.users && db.users[user].email == email
        && db' == db.(
             members := db.members[id := Member(event, user, role, 1, now)],
             audit := db.audit + [
               AuditRow(actor, KMember, id, Create, None, Some(Full(MemberRow(Member(event, user, role, 1, now)))))],
             issued := db.issued + {id})
  {
    hide Roles.CanGrant, IsMember;
  }

  // ---------------------------------------------------------------------
  // Role changes
  // ---------------------------------------------------------------------

  /** A role change touches this row only, and of it only the role, to the one asked
      for, and the version; a removal takes the row away. */
  ghost predicate RoleStored(before: map<Id, Member>, after: map<Id, Member>, member: Id, c: MemberChange) {
    && member in before
    && match c
       case Assign(role) =>
         after == before[member :=
           Member(before[member].eventId, before[member].userId, role, before[member].version + 1, before[member].createdAt)]
       case Remove => after == before - {member}
  }

  lemma ChangeRoleStores(db: DB, actor: Id, event: Id, member: Id, version: int, c: MemberChange)
    ensures var (db', r) := WriteRole(db, actor, event, member, version, c);
      r.Ok? ==>
        && r.value == member && RoleStored(db.members, db'.members, member, c)
        && db' == db.(
             members := db'.members,
             audit := db.audit + [
               AuditRow(actor, KMember, member, if c == Remove then Delete else Update,
                        Some(Full(MemberRow(db.members[member]))),
                        if member in db'.members then Some(Full(MemberRow(db'.members[member]))) else None)])
  {
    hide IsAdminRow, Diagnose;
  }

  /** Not found outside the event, a mismatch at another version, a conflict for the
      last admin, in this order; a change that leaves an admin goes through. */
  lemma ChangeRoleAnswers(db: DB, actor: Id, event: Id, member: Id, version: int, c: MemberChange)
    requires actor in db.users
    ensures var another := exists a ::
        a in db.members && a != member && db.members[a].eventId == event && db.members[a].role == Admin;
      WriteRole(db, actor, event, member, version, c).1 ==
        if member !in db.members || db.members[member].eventId != event then Err(ErrNotFound)
        else if db.members[member].version != version then Err(ErrVersionMismatch)
        else if db.members[member].role == Admin && c != Assign(Admin) && !another then Err(ErrConflict)
        else Ok(member)
  {
  }

  // ---------------------------------------------------------------------
  // Events
  // ---------------------------------------------------------------------

  /** The event as asked for, and its creator as admin. */
  lemma CreateEventStores(
    db: DB, actor: Id, event: Id, member: Id, name: string, startsAt: Time, endsAt: Time, now: Time)
    ensures var (db', r) := CreateEvent(db, actor, event, member, name, startsAt, endsAt, now);
      && r == (if startsAt < endsAt && actor in db.users then Ok(event) else Err(ErrInternal))
      && (r.Ok? ==>
            db' == db.(
              events := db.events[event := Event(name, startsAt, endsAt, 1, false, now)],
              members := db.members[member := Member(event, actor, Admin, 1, now)],
              audit := db.audit + [
                AuditRow(actor, KEvent, event, Create, None, Some(Full(EventRow(Event(name, startsAt, endsAt, 1, false, now))))),
                AuditRow(actor, KMember, member, Create, None, Some(Unversioned(event, actor, Admin, now)))],
              issued := db.issued + {event, member}))
  {
  }

  /** An edit gives each column the value asked for, or leaves it; a deletion only
      marks the row. Both count the version up. */
  lemma WriteEventStores(db: DB, actor: Id, event: Id, version: int, c: EventChange)
    ensures var (db', r) := WriteEvent(db, actor, event, version, c);
      r.Ok? ==>
        && r.value == event && event in db.events
        && var was := db.events[event];
        var row := match c
          case EventPatch(name, startsAt, endsAt) =>
            Event(if name.Some? then name.value else was.name, if startsAt.Some? then startsAt.value else was.startsAt,
                  if endsAt.Some? then endsAt.value else was.endsAt, was.version + 1, false, was.createdAt)
          case EventDelete => Event(was.name, was.startsAt, was.endsAt, was.version + 1, true, was.createdAt);
        db' == db.(
          events := db.events[event := row],
          audit := db.audit + [
            AuditRow(actor, KEvent, event, if c == EventDelete then Delete else Update,
                     Some(Full(EventRow(was))), Some(Full(EventRow(row))))])
  {
  }

  lemma WriteEventAnswers(db: DB, actor: Id, event: Id, version: int, c: EventChange)
    requires Inv(db) && actor in db.users
    ensures WriteEvent(db, actor, event, version, c).1 ==
      if event !in db.events || db.events[event].deleted || db.events[event].version != version then Err(ErrNoRow)
      else if c.EventPatch?
        && (if c.startsAt.Some? then c.startsAt.value else db.events[event].startsAt)
           >= (if c.endsAt.Some? then c.endsAt.value else db.events[event].endsAt) then Err(ErrInternal)
      else Ok(event)
  {
    hide BookingOk, UsersOk, MembersOk, AdminsOk, InvitationsOk, IssuedOk, RecordsOk;
  }

  // ---------------------------------------------------------------------
  // Rooms
  // ---------------------------------------------------------------------

  /** A room stores name and capacity as given; a capacity must be positive, the
      name new to the event, the event there. */
  lemma CreateRoomStores(db: DB, actor: Id, event: Id, name: string, capacity: Option<int>, id: Id, now: Time)
    requires id !in db.rooms && actor in db.users
    ensures var (db', r) := CreateRoom(db, actor, event, name, capacity, id, now);
      var taken := exists q :: q in db.rooms && db.rooms[q].eventId == event && db.rooms[q].name == name;
      && r == (if capacity.Some? && capacity.value <= 0 then Err(ErrInternal)
               else if taken then Err(ErrConflict)
               else if event !in db.events then Err(ErrInternal)
               else Ok(id))
      && (r.Ok? ==>
            db' == db.(
              rooms := db.rooms[id := Room(event, name, capacity, 1, now)],
              audit := db.audit + [
                AuditRow(actor, KRoom, id, Create, None, Some(Full(RoomRow(Room(event, name, capacity, 1, now)))))],
              issued := db.issued + {id}))
  {
  }

  lemma WriteRoomStores(db: DB, actor: Id, event: Id, room: Id, version: int, c: RoomChange)
    ensures var (db', r) := WriteRoom(db, actor, event, room, version, c);
      r.Ok? ==>
        && r.value == room && room in db.rooms
        && var was := db.rooms[room];
        match c
        case RoomPatch(name, capacity) =>
          var row := Room(was.eventId, if name.Some? then name.value else was.name,
                          if capacity.Some? then capacity.value else was.capacity, was.version + 1, was.createdAt);
          db' == db.(
            rooms := db.rooms[room := row],
            audit := db.audit + [
              AuditRow(actor, KRoom, room, Update, Some(Full(RoomRow(was))), Some(Full(RoomRow(row))))])
        case RoomDelete =>
          db' == db.(
            rooms := db.rooms - {room},
            audit := db.audit + [AuditRow(actor, KRoom, room, Delete, Some(Full(RoomRow(was))), None)])
  {
    hide NameTaken, RoomReferenced;
  }

  /** A rename onto another room's name is a conflict, and so is deleting a room that
      any session row or series names. */
  lemma WriteRoomAnswers(db: DB, actor: Id, event: Id, room: Id, version: int, c: RoomChange)
    requires Inv(db) && actor in db.users
    ensures WriteRoom(db, actor, event, room, version, c).1 ==
      if room !in db.rooms || db.rooms[room].eventId != event || db.rooms[room].version != version then Err(ErrNoRow)
      else match c
        case RoomPatch(name, capacity) =>
          if capacity.Some? && capacity.value.Some? && capacity.value.value <= 0 then Err(ErrInternal)
          else if name.Some? && exists q ::
            q in db.rooms && q != room && db.rooms[q].eventId == event && db.rooms[q].name == name.value
          then Err(ErrConflict)
          else Ok(room)
        case RoomDelete =>
          if (exists s :: s in db.sessions && db.sessions[s].roomId == room)
             || (exists q :: q in db.series && db.series[q].roomId == room)
          then Err(ErrConflict)
          else Ok(room)
  {
    hide AccessOk, SessionRefsOk, NoDoubleBooking, SeriesOk, IssuedOk, RecordsOk;
    if c.RoomPatch? && RoomMatches(db.rooms, event, room, version) {
      OwnNameIsFree(db.rooms, db.events, room);
    }
  }

  lemma OwnNameIsFree(rooms: map<Id, Room>, events: map<Id, Event>, room: Id)
    requires RoomsOk(rooms, events) && room in rooms
    ensures !NameTaken(rooms, room, rooms[room].eventId, rooms[room].name)
  {
  }

  // ---------------------------------------------------------------------
  // Sessions and series
  // ---------------------------------------------------------------------

  predicate Covers(start: Time, end: Time, t: Time) {
    start <= t < end
  }

  /** Two non-empty intervals overlap exactly when some instant lies in both. */
  lemma OverlapIsASharedInstant(s0: Time, e0: Time, s1: Time, e1: Time)
    requires s0 < e0 && s1 < e1
    ensures Overlaps(s0, e0, s1, e1) <==> exists t: Time :: Covers(s0, e0, t) && Covers(s1, e1, t)
  {
    if Overlaps(s0, e0, s1, e1) {
      var t := if s0 < s1 then s1 else s0;
      assert Covers(s0, e0, t) && Covers(s1, e1, t);
    }
  }

  /** In a valid store no room hosts, and no speaker gives, two live sessions at one instant. */
  lemma OneSessionAtATime(db: DB, s: Id, t: Id, now: Time)
    requires Inv(db) && s in db.sessions && t in db.sessions && !db.sessions[s].deleted && !db.sessions[t].deleted
    requires db.sessions[s].startsAt <= now < db.sessions[s].endsAt && db.sessions[t].startsAt <= now < db.sessions[t].endsAt
    requires db.sessions[s].roomId == db.sessions[t].roomId || db.sessions[s].speakerId == db.sessions[t].speakerId
    ensures s == t
  {
    hide AccessOk, RoomsOk, SeriesOk, IssuedOk, RecordsOk, SessionRefsOk;
  }

  /** The room decides first, then the range, then the schedule of room and speaker,
      then the speaker's account; the row is stored as asked for. */
  lemma BookStores(db: DB, actor: Id, event: Id, s: SessionInput, id: Id, now: Time)
    requires Inv(db) && Fresh(db, id) && actor in db.users && (s.seriesId.Some? ==> s.seriesId.value in db.series)
    ensures var (db', r) := CreateSession(db, actor, event, s, id, now);
      var taken := exists t ::
        && t in db.sessions && !db.sessions[t].deleted
        && (db.sessions[t].roomId == s.roomId || db.sessions[t].speakerId == s.speakerId)
        && db.sessions[t].startsAt < s.endsAt && s.startsAt < db.sessions[t].endsAt;
      && r == (if s.roomId !in db.rooms || db.rooms[s.roomId].eventId != event then Err(ErrInvalidRoom)
               else if s.startsAt >= s.endsAt then Err(ErrInternal)
               else if taken then Err(ErrConflict)
               else if s.speakerId !in db.users then Err(ErrInvalidSpeaker)
               else Ok(id))
      && var row := Session(event, s.roomId, s.speakerId, s.title, s.startsAt, s.endsAt, 1, false, s.seriesId, now);
      (r.Ok? ==>
         db' == db.(
           sessions := db.sessions[id := row],
           audit := db.audit + [AuditRow(actor, KSession, id, Create, None, Some(Full(SessionRow(row))))],
           issued := db.issued + {id}))
  {
    hide AccessOk, BookingOk, RecordsOk, SlotTaken;
    TakenMeans(db.sessions, id, NewSession(event, s, now));
    FreshIsNoSession(db, id);
  }

  lemma FreshIsNoSession(db: DB, id: Id)
    requires IssuedOk(db) && Fresh(db, id)
    ensures id !in db.sessions
  {
  }

  lemma TakenMeans(sessions: map<Id, Session>, self: Id, row: Session)
    ensures SlotTaken(sessions, self, row) <==> exists t ::
      && t in sessions && t != self && !sessions[t].deleted
      && (sessions[t].roomId == row.roomId || sessions[t].speakerId == row.speakerId)
      && sessions[t].startsAt < row.endsAt && row.startsAt < sessions[t].endsAt
  {
    if SlotTaken(sessions, self, row) {
      var t :| t in sessions && t != self && !sessions[t].deleted && Clash(row, sessions[t]);
      assert sessions[t].startsAt < row.endsAt && row.startsAt < sessions[t].endsAt;
    }
    if t :| && t in sessions && t != self && !sessions[t].deleted
            && (sessions[t].roomId == row.roomId || sessions[t].speakerId == row.speakerId)
            && sessions[t].startsAt < row.endsAt && row.startsAt < sessions[t].endsAt {
      assert Clash(row, sessions[t]);
    }
  }

  /** An edit gives title and times the values asked for, or leaves them; a
      cancellation only marks the row. An occurrence of a series also leaves a record
      of the start it deviated from. */
  lemma WriteSessionStores(db: DB, actor: Id, event: Id, session: Id, version: int, c: SessionChange)
    ensures var (db', r) := WriteSession(db, actor, event, session, version, c);
      r.Ok? ==>
        && r.value == session && session in db.sessions
        && var was := db.sessions[session];
        var row := match c
          case SessionPatch(title, slot) =>
            Session(was.eventId, was.roomId, was.speakerId, if title.Some? then title.value else was.title,
                    if slot.Some? then slot.value.0 else was.startsAt, if slot.Some? then slot.value.1 else was.endsAt,
                    was.version + 1, false, was.seriesId, was.createdAt)
          case SessionDelete =>
            Session(was.eventId, was.roomId, was.speakerId, was.title, was.startsAt, was.endsAt,
                    was.version + 1, true, was.seriesId, was.createdAt);
        db' == db.(
          sessions := db.sessions[session := row],
          audit := db.audit + [
            AuditRow(actor, KSession, session, if c == SessionDelete then Delete else Update,
                     Some(Full(SessionRow(was))), Some(Full(SessionRow(row))))],
          exceptions := db.exceptions +
            if was.seriesId.None? then []
            else [ExceptionRow(was.seriesId.value, session, if c == SessionDelete then Cancelled else Modified, was.startsAt)])
  {
    hide SlotTaken;
  }

  lemma WriteSessionAnswers(db: DB, actor: Id, event: Id, session: Id, version: int, c: SessionChange)
    requires Inv(db) && actor in db.users
    ensures WriteSession(db, actor, event, session, version, c).1 ==
      if session !in db.sessions || db.sessions[session].eventId != event || db.sessions[session].deleted
         || db.sessions[session].version != version then Err(ErrNoRow)
      else if c.SessionPatch? && c.slot.Some? &&
        (c.slot.value.0 >= c.slot.value.1 ||
         exists t ::
           && t in db.sessions && t != session && !db.sessions[t].deleted
           && (db.sessions[t].roomId == db.sessions[session].roomId || db.sessions[t].speakerId == db.sessions[session].speakerId)
           && db.sessions[t].startsAt < c.slot.value.1 && c.slot.value.0 < db.sessions[t].endsAt)
      then Err(ErrInternal)
      else Ok(session)
  {
    hide AccessOk, RoomsOk, SeriesOk, IssuedOk, RecordsOk, SlotTaken, Clash;
    if SessionMatches(db.sessions, event, session, version) {
      var was := db.sessions[session];
      assert SessionRefOk(was, db.rooms, db.users, db.series);
      TakenMeans(db.sessions, session, SessionAfter(was, c));
      OwnTimesAreFree(db.sessions, session, was.(title := SessionAfter(was, c).title, version := was.version + 1));
    }
  }

  lemma OwnTimesAreFree(sessions: map<Id, Session>, session: Id, row: Session)
    requires NoDoubleBooking(sessions) && session in sessions && !sessions[session].deleted
    requires row.roomId == sessions[session].roomId && row.speakerId == sessions[session].speakerId
    requires row.startsAt == sessions[session].startsAt && row.endsAt == sessions[session].endsAt
    ensures !SlotTaken(sessions, session, row)
  {
    forall t | t in sessions && t != session && !sessions[t].deleted ensures !Clash(row, sessions[t]) {
      assert !Clash(sessions[session], sessions[t]);
    }
  }

  lemma InsertSeriesStores(db: DB, s: Series, id: Id)
    ensures var (db', r) := InsertSeries(db, s, id);
      && r == (if 0 < s.interval < 0x8000_0000 && 1 <= s.occurrences <= 52
                  && s.eventId in db.events && s.roomId in db.rooms && s.speakerId in db.users
               then Ok(id) else Err(ErrInternal))
      && db' == if r.Ok? then db.(series := db.series[id := s], issued := db.issued + {id}) else db
  {
  }

  // ---------------------------------------------------------------------
  // Accounts and keys
  // ---------------------------------------------------------------------

  /** A known subject signs in to its own account, whatever else it now claims; a new
      one is given an account as it presents itself, unless another has the address. */
  lemma SignInStores(db: DB, id: Id, user: User)
    requires Inv(db)
    ensures var (db', r) := SignIn(db, id, user);
      && (forall u | u in db.users && db.users[u].subject == user.subject :: (db', r) == (db, Ok(u)))
      && ((forall u | u in db.users :: db.users[u].subject != user.subject) ==>
            if exists u :: u in db.users && db.users[u].email == user.email then (db', r) == (db, Err(ErrInternal))
            else (db', r) == (db.(users := db.users[id := user], issued := db.issued + {id}), Ok(id)))
  {
    hide BookingOk, EventsOk, MembersOk, AdminsOk, InvitationsOk, IssuedOk, RecordsOk;
  }

  /** A free key is stored with exactly this hash and answer; a taken one is left. */
  lemma RecordKeyStores(db: DB, actor: Id, key: string, hash: string, items: seq<ItemResult>)
    requires actor in db.users
    ensures RecordKey(db, actor, key, hash, items) ==
      if (actor, key) in db.keys then (db, Ok(false))
      else (db.(keys := db.keys[(actor, key) := KeyRow(hash, items)]), Ok(true))
  {
  }

  // ---------------------------------------------------------------------
  // The log
  // ---------------------------------------------------------------------

  /** Whose transaction it is; signing in and a series row belong to nobody. */
  function AuthorOf(tx: Tx): Option<Id> {
    match tx
    case AddUser(_, _) => None
    case NewSeries(_, _) => None
    case NewEvent(a, _, _, _, _, _, _) => Some(a)
    case PutEvent(a, _, _, _) => Some(a)
    case NewMember(a, _, _, _, _, _) => Some(a)
    case PutRole(a, _, _, _, _) => Some(a)
    case NewInvitation(a, _, _, _, _, _) => Some(a)
    case NewKey(a, _, _, _) => Some(a)
    case NewRoom(a, _, _, _, _, _) => Some(a)
    case PutRoom(a, _, _, _, _) => Some(a)
    case NewBooking(a, _, _, _, _) => Some(a)
    case PutSession(a, _, _, _, _) => Some(a)
  }

  ghost predicate OnlyEntriesBy(before: seq<AuditRow>, after: seq<AuditRow>, author: Option<Id>) {
    before <= after && forall i | |before| <= i < |after| :: Some(after[i].actor) == author
  }

  /** Every audit row a transaction writes names that transaction's author. */
  lemma AuditNamesItsAuthor(db: DB, tx: Tx)
    ensures OnlyEntriesBy(db.audit, Apply(db, tx).0.audit, AuthorOf(tx))
  {
    hide Apply, OnlyEntriesBy;
    if tx.NewRoom? || tx.PutRoom? || tx.NewSeries? || tx.NewBooking? || tx.PutSession? {
      BookingEntries(db, tx);
    } else if tx.NewMember? || tx.PutRole? || tx.NewInvitation? {
      GrantEntries(db, tx);
    } else {
      OtherEntries(db, tx);
    }
  }

  lemma BookingEntries(db: DB, tx: Tx)
    requires tx.NewRoom? || tx.PutRoom? || tx.NewSeries? || tx.NewBooking? || tx.PutSession?
    ensures OnlyEntriesBy(db.audit, Apply(db, tx).0.audit, AuthorOf(tx))
  {
    hide SlotTaken, NameTaken, RoomReferenced, RoomAfter, SessionAfter, NewSession;
  }

  lemma GrantEntries(db: DB, tx: Tx)
    requires tx.NewMember? || tx.PutRole? || tx.NewInvitation?
    ensures OnlyEntriesBy(db.audit, Apply(db, tx).0.audit, AuthorOf(tx))
  {
    hide Invited, IsMember, Roles.CanGrant, UserByEmail, GuardHolds, Diagnose, MemberAfter, Replace;
  }

  lemma OtherEntries(db: DB, tx: Tx)
    requires tx.AddUser? || tx.NewEvent? || tx.PutEvent? || tx.NewKey?
    ensures OnlyEntriesBy(db.audit, Apply(db, tx).0.audit, AuthorOf(tx))
  {
    hide HasEmail, KnownSubject, UserBySubject, EventAfter;
  }

  lemma {:induction false} EveryEntryNamesItsAuthor(run: seq<DB>, txs: seq<Tx>, k: nat, i: nat)
    requires IsRun(run, txs) && |run[0].audit| <= i && k < |run| && i < |run[k].audit|
    ensures exists t | 0 <= t < k ::
      |run[t].audit| <= i < |run[t + 1].audit| && Some(run[k].audit[i].actor) == AuthorOf(txs[t])
  {
    hide Apply, Enabled, AuthorOf;
    AuditNamesItsAuthor(run[k - 1], txs[k - 1]);
    if i < |run[k - 1].audit| {
      EveryEntryNamesItsAuthor(run, txs, k - 1, i);
    }
  }
}

/** Atomic transactions of the session repository, as functions of the tables. */
module SessionTx {
  import opened Domain
  import opened Tables

  datatype SessionChange = SessionPatch(title: Option<string>, slot: Option<(Time, Time)>) | SessionDelete

  datatype SessionInput = SessionInput(
    roomId: Id, speakerId: Id, title: string, startsAt: Time, endsAt: Time, seriesId: Option<Id>)

  function NewSession(event: Id, s: SessionInput, now: Time): Session {
    Session(event, s.roomId, s.speakerId, s.title, s.startsAt, s.endsAt, 1, false, s.seriesId, now)
  }

  /** The room lookup decides first; then the range and exclusion constraints;
      the speaker's foreign key is only reached by a row that passed those. */
  ghost function CreateSession(db: DB, actor: Id, event: Id, s: SessionInput, id: Id, now: Time): (DB, Result<Id>) {
    if s.roomId !in db.rooms || db.rooms[s.roomId].eventId != event then (db, Err(ErrInvalidRoom))
    else if s.startsAt >= s.endsAt then (db, Err(ErrInternal))
    else if SlotTaken(db.sessions, id, NewSession(event, s, now)) then (db, Err(ErrConflict))
    else if s.speakerId !in db.users then (db, Err(ErrInvalidSpeaker))
    else if (s.seriesId.Some? && s.seriesId.value !in db.series) || actor !in db.users then (db, Err(ErrInternal))
    else
      var row := NewSession(event, s, now);
      (db.(sessions := db.sessions[id := row],
           audit := db.audit + [AuditRow(actor, KSession, id, Create, None, Some(Full(SessionRow(row))))],
           issued := db.issued + {id}),
       Ok(id))
  }

  predicate SessionMatches(sessions: map<Id, Session>, event: Id, session: Id, version: int) {
    && session in sessions && sessions[session].eventId == event
    && sessions[session].version == version && !sessions[session].deleted
  }

  function SessionAfter(s: Session, c: SessionChange): Session {
    match c
    case SessionPatch(t, slot) =>
      s.(title := if t.Some? then t.value else s.title,
         startsAt := if slot.Some? then slot.value.0 else s.startsAt,
         endsAt := if slot.Some? then slot.value.1 else s.endsAt,
         version := s.version + 1)
    case SessionDelete => s.(deleted := true, version := s.version + 1)
  }

  function SessionActionOf(c: SessionChange): Action {
    if c.SessionPatch? then Update else Delete
  }

  function ExceptionsOf(session: Id, before: Session, c: SessionChange): seq<ExceptionRow> {
    if before.seriesId.None? then []
    else [ExceptionRow(before.seriesId.value, session, if c.SessionPatch? then Modified else Cancelled, before.startsAt)]
  }

  /** A version-gated update or soft delete of a live session, its audit row and,
      for an occurrence of a series, its exception row. A move into a taken slot
      is reported as an unclassified failure, not as a conflict. */
  ghost function WriteSession(
    db: DB, actor: Id, event: Id, session: Id, version: int, c: SessionChange): (DB, Result<Id>)
  {
    if !SessionMatches(db.sessions, event, session, version) then (db, Err(ErrNoRow))
    else
      var before := db.sessions[session];
      var after := SessionAfter(before, c);
      if after.startsAt >= after.endsAt || (!after.deleted && SlotTaken(db.sessions, session, after)) || actor !in db.users
      then (db, Err(ErrInternal))
      else
        (db.(sessions := db.sessions[session := after],
             audit := db.audit + [
               AuditRow(actor, KSession, session, SessionActionOf(c),
                        Some(Full(SessionRow(before))), Some(Full(SessionRow(after))))],
             exceptions := db.exceptions + ExceptionsOf(session, before, c)),
         Ok(session))
  }

  /** The series row commits on its own, unaudited, before any occurrence; its
      room need only exist, not belong to the event. */
  ghost function InsertSeries(db: DB, s: Series, id: Id): (DB, Result<Id>) {
    if s.interval <= 0 || s.interval >= 0x8000_0000 || s.occurrences < 1 || s.occurrences > 52
       || s.eventId !in db.events || s.roomId !in db.rooms || s.speakerId !in db.users
    then (db, Err(ErrInternal))
    else (db.(series := db.series[id := s], issued := db.issued + {id}), Ok(id))
  }

  lemma CreateSessionKeepsInv(db: DB, actor: Id, event: Id, s: SessionInput, id: Id, now: Time)
    requires Inv(db) && Fresh(db, id)
    ensures Inv(CreateSession(db, actor, event, s, id, now).0)
  {
    hide AccessOk, NoDoubleBooking, RoomsOk, SeriesOk, SlotTaken, SessionRefsOk;
    var db' := CreateSession(db, actor, event, s, id, now).0;
    if db' != db {
      PutSessionKeepsBookings(db.sessions, id, db'.sessions[id]);
      PutSessionKeepsRefs(db.sessions, db.rooms, db.users, db.series, id, db'.sessions[id]);
    }
  }

  lemma WriteSessionKeepsInv(db: DB, actor: Id, event: Id, session: Id, version: int, c: SessionChange)
    requires Inv(db)
    ensures Inv(WriteSession(db, actor, event, session, version, c).0)
  {
    hide AccessOk, NoDoubleBooking, RoomsOk, SeriesOk, SlotTaken;
    var db' := WriteSession(db, actor, event, session, version, c).0;
    if db' != db {
      assert SessionRefOk(db.sessions[session], db.rooms, db.users, db.series);
      PutSessionKeepsBookings(db.sessions, session, db'.sessions[session]);
      PutSessionKeepsRefs(db.sessions, db.rooms, db.users, db.series, session, db'.sessions[session]);
    }
  }

  lemma InsertSeriesKeepsInv(db: DB, s: Series, id: Id)
    requires Inv(db) && Fresh(db, id)
    ensures Inv(InsertSeries(db, s, id).0)
  {
    hide AccessOk, NoDoubleBooking, RoomsOk;
    var db' := InsertSeries(db, s, id).0;
    assert forall t | t in db.sessions :: SessionRefOk(db.sessions[t], db.rooms, db.users, db'.series);
  }
}

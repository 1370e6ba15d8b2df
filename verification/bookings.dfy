/** What the booking transactions decide, stated without their branches. */
module Bookings {
  import opened Domain
  import opened Tables
  import opened RoomTx
  import opened SessionTx
  import opened StoreMachine
  import opened Evolution

  ghost function WithSession(db: DB, id: Id, row: Session): DB {
    db.(sessions := db.sessions[id := row], issued := db.issued + {id})
  }

  /** A booking is accepted exactly when the store with that session added would
      still satisfy every constraint: nothing valid is refused, nothing invalid
      gets in. */
  lemma AcceptedExactlyWhenValid(db: DB, actor: Id, event: Id, s: SessionInput, id: Id, now: Time)
    requires Inv(db) && Fresh(db, id) && actor in db.users
    ensures CreateSession(db, actor, event, s, id, now).1.Ok? <==> Inv(WithSession(db, id, NewSession(event, s, now)))
  {
    var row := NewSession(event, s, now);
    var db' := WithSession(db, id, row);
    if CreateSession(db, actor, event, s, id, now).1.Ok? {
      hide AccessOk, NoDoubleBooking, RoomsOk, SeriesOk, SlotTaken, SessionRefsOk;
      PutSessionKeepsBookings(db.sessions, id, row);
      PutSessionKeepsRefs(db.sessions, db.rooms, db.users, db.series, id, row);
    } else {
      hide AccessOk, RoomsOk, SeriesOk;
      assert db'.sessions[id] == row;
      if SlotTaken(db.sessions, id, row) {
        var t :| t in db.sessions && t != id && !db.sessions[t].deleted && Clash(row, db.sessions[t]);
        assert t in db'.sessions && db'.sessions[t] == db.sessions[t];
        assert !NoDoubleBooking(db'.sessions);
      } else {
        assert !SessionRefOk(row, db.rooms, db.users, db.series);
      }
    }
  }

  /** Some live session besides `self` and `other` clashes with `s`. */
  ghost predicate TakenBesides(sessions: map<Id, Session>, self: Id, other: Id, s: Session) {
    exists t :: t in sessions && t != self && t != other && !sessions[t].deleted && Clash(s, sessions[t])
  }

  lemma DeletedRowBlocksNothing(sessions: map<Id, Session>, session: Id, row: Session, self: Id, candidate: Session)
    requires row.deleted
    ensures SlotTaken(sessions[session := row], self, candidate) <==> TakenBesides(sessions, self, session, candidate)
  {
    var sessions' := sessions[session := row];
    if SlotTaken(sessions', self, candidate) {
      var t :| t in sessions' && t != self && !sessions'[t].deleted && Clash(candidate, sessions'[t]);
      assert t in sessions && sessions[t] == sessions'[t];
    }
    if TakenBesides(sessions, self, session, candidate) {
      var t :| t in sessions && t != self && t != session && !sessions[t].deleted && Clash(candidate, sessions[t]);
      assert t in sessions' && sessions'[t] == sessions[t];
    }
  }

  /** Cancelling a session always works, and removes exactly that session from
      everyone else's way. */
  lemma CancelFreesExactlyItsSlot(
    db: DB, actor: Id, event: Id, session: Id, version: int, self: Id, candidate: Session)
    requires SessionMatches(db.sessions, event, session, version) && Inv(db) && actor in db.users
    ensures var r := WriteSession(db, actor, event, session, version, SessionDelete);
      && r.1 == Ok(session)
      && (SlotTaken(r.0.sessions, self, candidate) <==> TakenBesides(db.sessions, self, session, candidate))
  {
    hide AccessOk, RoomsOk, NoDoubleBooking, SeriesOk, SlotTaken, TakenBesides;
    assert SessionRefOk(db.sessions[session], db.rooms, db.users, db.series);
    var row := SessionAfter(db.sessions[session], SessionDelete);
    DeletedRowBlocksNothing(db.sessions, session, row, self, candidate);
  }

  lemma NothingElseInTheSlot(sessions: map<Id, Session>, session: Id, self: Id, row: Session)
    requires NoDoubleBooking(sessions) && session in sessions && !sessions[session].deleted
    requires row.roomId == sessions[session].roomId && row.speakerId == sessions[session].speakerId
    requires row.startsAt == sessions[session].startsAt && row.endsAt == sessions[session].endsAt
    ensures !TakenBesides(sessions, self, session, row)
  {
  }

  /** A cancelled slot is bookable again at once, by the same room and speaker. */
  lemma CancelledSlotIsBookable(
    db: DB, actor: Id, event: Id, session: Id, version: int, title: string, id: Id, now: Time)
    requires SessionMatches(db.sessions, event, session, version) && Inv(db) && actor in db.users
    ensures var was := db.sessions[session];
      var freed := WriteSession(db, actor, event, session, version, SessionDelete).0;
      var again := SessionInput(was.roomId, was.speakerId, title, was.startsAt, was.endsAt, None);
      CreateSession(freed, actor, event, again, id, now).1 == Ok(id)
  {
    hide AccessOk, RoomsOk, SeriesOk, SlotTaken, TakenBesides;
    var was := db.sessions[session];
    var row := NewSession(event, SessionInput(was.roomId, was.speakerId, title, was.startsAt, was.endsAt, None), now);
    assert SessionRefOk(was, db.rooms, db.users, db.series);
    CancelFreesExactlyItsSlot(db, actor, event, session, version, id, row);
    NothingElseInTheSlot(db.sessions, session, id, row);
  }

  // ---------------------------------------------------------------------
  // Changing a booked session
  // ---------------------------------------------------------------------

  /** No update or cancellation is ever answered with a conflict, in any store. */
  lemma ChangesNeverConflict(db: DB, actor: Id, event: Id, session: Id, version: int, c: SessionChange)
    ensures WriteSession(db, actor, event, session, version, c).1 != Err(ErrConflict)
  {
    hide SlotTaken;
  }

  ghost function WithChange(db: DB, session: Id, c: SessionChange): DB
    requires session in db.sessions
  {
    db.(sessions := db.sessions[session := SessionAfter(db.sessions[session], c)])
  }

  /** A change of a matching session is accepted exactly when the store with the
      changed row would still satisfy every constraint; any other is an
      unclassified failure that leaves the store alone. */
  lemma ChangeAcceptedExactlyWhenValid(db: DB, actor: Id, event: Id, session: Id, version: int, c: SessionChange)
    requires Inv(db) && SessionMatches(db.sessions, event, session, version) && actor in db.users
    ensures var (db', r) := WriteSession(db, actor, event, session, version, c);
      && (r.Ok? <==> Inv(WithChange(db, session, c)))
      && (!r.Ok? ==> (db', r) == (db, Err(ErrInternal)))
  {
    hide AccessOk, NoDoubleBooking, RoomsOk, SeriesOk, SlotTaken, SessionRefsOk, RecordsOk;
    var row := SessionAfter(db.sessions[session], c);
    ChangedRecords(db, session, row);
    if WriteSession(db, actor, event, session, version, c).1.Ok? {
      SessionIsReferenced(db, session);
      PutSessionKeepsBookings(db.sessions, session, row);
      PutSessionKeepsRefs(db.sessions, db.rooms, db.users, db.series, session, row);
    } else {
      BadChangeShows(db.sessions, db.rooms, db.users, db.series, session, row);
    }
  }

  lemma SessionIsReferenced(db: DB, session: Id)
    requires SessionRefsOk(db.sessions, db.rooms, db.users, db.series) && session in db.sessions
    ensures SessionRefOk(db.sessions[session], db.rooms, db.users, db.series)
  {
  }

  lemma ChangedRecords(db: DB, session: Id, row: Session)
    requires RecordsOk(db.users, db.sessions, db.series, db.keys, db.audit, db.exceptions)
    ensures RecordsOk(db.users, db.sessions[session := row], db.series, db.keys, db.audit, db.exceptions)
  {
  }

  /** A row without duration, or live in a taken slot, breaks the table it is put in. */
  lemma BadChangeShows(
    sessions: map<Id, Session>, rooms: map<Id, Room>, users: map<Id, User>, series: map<Id, Series>, id: Id, row: Session)
    requires row.startsAt >= row.endsAt || (!row.deleted && SlotTaken(sessions, id, row))
    ensures !SessionRefsOk(sessions[id := row], rooms, users, series) || !NoDoubleBooking(sessions[id := row])
  {
    var sessions' := sessions[id := row];
    assert sessions'[id] == row;
    if row.startsAt < row.endsAt {
      var t :| t in sessions && t != id && !sessions[t].deleted && Clash(row, sessions[t]);
      assert t in sessions' && sessions'[t] == sessions[t];
    } else {
      assert !SessionRefOk(row, rooms, users, series);
    }
  }

  /** Moving a session fails exactly when the new slot is empty or held by another
      live session, and even then not with a conflict; any other edit succeeds. */
  lemma MoveFailsExactlyWhenTakenOrEmpty(
    db: DB, actor: Id, event: Id, session: Id, version: int, title: Option<string>, slot: Option<(Time, Time)>)
    requires Inv(db) && SessionMatches(db.sessions, event, session, version) && actor in db.users
    ensures var (db', r) := WriteSession(db, actor, event, session, version, SessionPatch(title, slot));
      var was := db.sessions[session];
      var fails := slot.Some? &&
        (slot.value.0 >= slot.value.1
         || SlotTaken(db.sessions, session, was.(startsAt := slot.value.0, endsAt := slot.value.1)));
      if fails then (db', r) == (db, Err(ErrInternal)) else r == Ok(session)
  {
    hide AccessOk, NoDoubleBooking, RoomsOk, SeriesOk, SlotTaken, SessionRefsOk, RecordsOk, Clash;
    var was := db.sessions[session];
    SessionIsReferenced(db, session);
    var after := SessionAfter(was, SessionPatch(title, slot));
    if slot.Some? {
      SameSlotSameAnswer(db.sessions, session, after, was.(startsAt := slot.value.0, endsAt := slot.value.1));
    } else {
      SameSlotSameAnswer(db.sessions, session, after, was);
      OwnSlotIsFree(db.sessions, session);
    }
  }

  lemma SameSlotSameAnswer(sessions: map<Id, Session>, self: Id, s: Session, t: Session)
    requires s.roomId == t.roomId && s.speakerId == t.speakerId && s.startsAt == t.startsAt && s.endsAt == t.endsAt
    ensures SlotTaken(sessions, self, s) <==> SlotTaken(sessions, self, t)
  {
    forall u | u in sessions ensures Clash(s, sessions[u]) <==> Clash(t, sessions[u]) {
    }
  }

  lemma OwnSlotIsFree(sessions: map<Id, Session>, session: Id)
    requires NoDoubleBooking(sessions) && session in sessions && !sessions[session].deleted
    ensures !SlotTaken(sessions, session, sessions[session])
  {
  }

  /** A series row is never removed, so from the moment it is stored its room can
      never be deleted again - by whatever event, and even if the call that stored
      the row failed and booked nothing. */
  lemma SeriesPinsItsRoom(
    run: seq<DB>, txs: seq<Tx>, i: nat, j: nat, series: Id, actor: Id, event: Id, version: int)
    requires IsRun(run, txs) && Inv(run[0]) && i <= j < |run| && series in run[i].series
    ensures var room := run[i].series[series].roomId;
      && room in run[j].rooms
      && (RoomMatches(run[j].rooms, event, room, version) ==>
            WriteRoom(run[j], actor, event, room, version, RoomDelete) == (run[j], Err(ErrConflict)))
  {
    hide IsRun, AccessOk, RoomsOk, SessionRefsOk, NoDoubleBooking, RecordsOk;
    RunKeepsInv(run, txs, j);
    RunEvolves(run, txs, i, j);
    assert series in run[j].series && run[j].series[series] == run[i].series[series];
  }

  /** One room, one speaker, two sessions: [0, 10) and [10, 20). */
  const TWO_SESSIONS := DB(
    map[0 := User("sub", "a@x", "A")],
    map[1 := Event("E", 0, 100, 1, false, 0)],
    map[2 := Member(1, 0, Admin, 1, 0)],
    map[3 := Room(1, "R", None, 1, 0)],
    map[4 := Session(1, 3, 0, "S", 0, 10, 1, false, None, 0), 5 := Session(1, 3, 0, "T", 10, 20, 1, false, None, 0)],
    map[], map[], map[], [], [], {0, 1, 2, 3, 4, 5})

  lemma TwoSessionsAreValid()
    ensures Inv(TWO_SESSIONS)
  {
    hide AccessOk, BookingOk;
    TwoSessionsAccess();
    TwoSessionsBooking();
  }

  lemma TwoSessionsAccess()
    ensures var d := TWO_SESSIONS; AccessOk(d.users, d.events, d.members, d.invitations)
  {
    assert IsAdminRow(TWO_SESSIONS.members, 2, 1);
  }

  lemma TwoSessionsBooking()
    ensures var d := TWO_SESSIONS; BookingOk(d.rooms, d.sessions, d.series, d.events, d.users)
  {
  }

  /** The two answers to one wish: booking [5, 15) anew is a conflict, moving the
      second session there is an unclassified failure. */
  lemma SameSlotTwoAnswers()
    ensures Inv(TWO_SESSIONS)
    ensures CreateSession(TWO_SESSIONS, 0, 1, SessionInput(3, 0, "U", 5, 15, None), 6, 0) == (TWO_SESSIONS, Err(ErrConflict))
    ensures WriteSession(TWO_SESSIONS, 0, 1, 5, 1, SessionPatch(None, Some((5, 15)))) == (TWO_SESSIONS, Err(ErrInternal))
  {
    TwoSessionsAreValid();
    hide Inv;
    var d := TWO_SESSIONS;
    assert 4 in d.sessions && Clash(NewSession(1, SessionInput(3, 0, "U", 5, 15, None), 0), d.sessions[4]);
    assert Clash(SessionAfter(d.sessions[5], SessionPatch(None, Some((5, 15)))), d.sessions[4]);
  }
}

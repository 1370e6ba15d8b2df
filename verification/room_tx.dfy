/** Atomic transactions of the room repository, as functions of the tables. */
module RoomTx {
  import opened Domain
  import opened Tables

  datatype RoomChange = RoomPatch(name: Option<string>, capacity: Option<Option<int>>) | RoomDelete

  predicate NameTaken(rooms: map<Id, Room>, self: Id, event: Id, name: string) {
    exists r :: r in rooms && r != self && rooms[r].eventId == event && rooms[r].name == name
  }

  ghost function CreateRoom(
    db: DB, actor: Id, event: Id, name: string, capacity: Option<int>, id: Id, now: Time): (DB, Result<Id>)
  {
    if !CapacityOk(capacity) then (db, Err(ErrInternal))
    else if NameTaken(db.rooms, id, event, name) then (db, Err(ErrConflict))
    else if event !in db.events || actor !in db.users then (db, Err(ErrInternal))
    else
      var row := Room(event, name, capacity, 1, now);
      (db.(rooms := db.rooms[id := row],
           audit := db.audit + [AuditRow(actor, KRoom, id, Create, None, Some(Full(RoomRow(row))))],
           issued := db.issued + {id}),
       Ok(id))
  }

  predicate RoomMatches(rooms: map<Id, Room>, event: Id, room: Id, version: int) {
    room in rooms && rooms[room].eventId == event && rooms[room].version == version
  }

  function RoomAfter(r: Room, c: RoomChange): Option<Room> {
    match c
    case RoomPatch(n, cap) =>
      Some(r.(name := if n.Some? then n.value else r.name,
              capacity := if cap.Some? then cap.value else r.capacity,
              version := r.version + 1))
    case RoomDelete => None
  }

  /** A version-gated rename/resize, or a hard delete that the session and series
      foreign keys may veto. */
  ghost function WriteRoom(
    db: DB, actor: Id, event: Id, room: Id, version: int, c: RoomChange): (DB, Result<Id>)
  {
    if !RoomMatches(db.rooms, event, room, version) then (db, Err(ErrNoRow))
    else
      var before := db.rooms[room];
      var after := RoomAfter(before, c);
      if after.Some? && !CapacityOk(after.value.capacity) then (db, Err(ErrInternal))
      else if after.Some? && NameTaken(db.rooms, room, event, after.value.name) then (db, Err(ErrConflict))
      else if after.None? && RoomReferenced(db.sessions, db.series, room) then (db, Err(ErrConflict))
      else if actor !in db.users then (db, Err(ErrInternal))
      else
        (db.(rooms := if after.Some? then db.rooms[room := after.value] else db.rooms - {room},
             audit := db.audit + [
               AuditRow(actor, KRoom, room, if c.RoomPatch? then Update else Delete,
                        Some(Full(RoomRow(before))),
                        if after.Some? then Some(Full(RoomRow(after.value))) else None)]),
         Ok(room))
  }

  lemma PutRoomKeepsBooking(
    rooms: map<Id, Room>, sessions: map<Id, Session>, series: map<Id, Series>,
    events: map<Id, Event>, users: map<Id, User>, id: Id, row: Room)
    requires BookingOk(rooms, sessions, series, events, users)
    requires id in rooms ==> rooms[id].eventId == row.eventId
    requires row.eventId in events && CapacityOk(row.capacity) && row.version >= 1
    requires !NameTaken(rooms, id, row.eventId, row.name)
    ensures BookingOk(rooms[id := row], sessions, series, events, users)
  {
    assert forall s | s in sessions :: SessionRefOk(sessions[s], rooms[id := row], users, series);
  }

  /** The foreign keys veto exactly the deletions that would orphan a session or series. */
  lemma DropRoomKeepsBooking(
    rooms: map<Id, Room>, sessions: map<Id, Session>, series: map<Id, Series>,
    events: map<Id, Event>, users: map<Id, User>, id: Id)
    requires BookingOk(rooms, sessions, series, events, users) && id in rooms
    ensures BookingOk(rooms - {id}, sessions, series, events, users) <==> !RoomReferenced(sessions, series, id)
  {
    if !RoomReferenced(sessions, series, id) {
      assert forall s | s in sessions :: SessionRefOk(sessions[s], rooms - {id}, users, series);
    }
  }

  lemma CreateRoomKeepsInv(
    db: DB, actor: Id, event: Id, name: string, capacity: Option<int>, id: Id, now: Time)
    requires Inv(db) && Fresh(db, id)
    ensures Inv(CreateRoom(db, actor, event, name, capacity, id, now).0)
  {
    hide AccessOk, BookingOk;
    var db' := CreateRoom(db, actor, event, name, capacity, id, now).0;
    if db' != db {
      PutRoomKeepsBooking(db.rooms, db.sessions, db.series, db.events, db.users, id, db'.rooms[id]);
    }
  }

  lemma WriteRoomKeepsInv(db: DB, actor: Id, event: Id, room: Id, version: int, c: RoomChange)
    requires Inv(db)
    ensures Inv(WriteRoom(db, actor, event, room, version, c).0)
  {
    hide AccessOk, SessionRefsOk, NoDoubleBooking, SeriesOk, UniqueRooms, NameTaken, RoomReferenced;
    var db' := WriteRoom(db, actor, event, room, version, c).0;
    if db' != db {
      if c.RoomPatch? {
        PutRoomKeepsBooking(db.rooms, db.sessions, db.series, db.events, db.users, room, db'.rooms[room]);
      } else {
        DropRoomKeepsBooking(db.rooms, db.sessions, db.series, db.events, db.users, room);
      }
    }
  }
}

/** The room repository, statement by statement. */
module RoomRepo {
  import opened Domain
  import opened Tables
  import opened Evolution
  import opened RoomTx
  import opened Keyset
  import opened Listing
  import opened StoreMachine
  import opened Diagnosis
  import opened Database

  class RoomRepository {
    const pool: Pool

    constructor (pool: Pool)
      ensures this.pool == pool
    {
      this.pool := pool;
    }

    method Create(actor: Id, event: Id, name: string, capacity: Option<int>, id: Id, now: Time) returns (r: Result<Id>)
      modifies pool
      ensures (pool.View(), r) == CreateRoom(old(pool.View()), actor, event, name, capacity, id, now)
    {
      hide NameTaken;
      var snapshot := pool.Begin();
      if !CapacityOk(capacity) {
        return Err(ErrInternal);
      }
      if NameTaken(pool.rooms, id, event, name) {
        return Err(ErrConflict);
      }
      if event !in pool.events {
        return Err(ErrInternal);
      }
      var row := Room(event, name, capacity, 1, now);
      pool.rooms := pool.rooms[id := row];
      pool.issued := pool.issued + {id};
      var audited := pool.Audit(AuditRow(actor, KRoom, id, Action.Create, None, Some(Full(RoomRow(row)))));
      if !audited {
        pool.Rollback(snapshot);
        return Err(ErrInternal);
      }
      r := Ok(id);
    }

    /** A gated UPDATE; a rename onto a taken name is a conflict. */
    method Update(
      actor: Id, event: Id, room: Id, version: int, name: Option<string>, capacity: Option<Option<int>>)
      returns (r: Result<Id>)
      requires Inv(pool.View())
      modifies pool
      ensures VersionedOutcome(
        old(pool.View()), PutRoom(actor, event, room, version, RoomPatch(name, capacity)), pool.View(), r, pool.alone)
    {
      hide Inv, Evolves, NameTaken, RoomReferenced;
      var snapshot := pool.Begin();
      if !RoomMatches(pool.rooms, event, room, version) {
        r := WhyNot(event, room);
        return;
      }
      var before := pool.rooms[room];
      var after := before.(
        name := if name.Some? then name.value else before.name,
        capacity := if capacity.Some? then capacity.value else before.capacity,
        version := before.version + 1);
      if !CapacityOk(after.capacity) {
        return Err(ErrInternal);
      }
      if NameTaken(pool.rooms, room, event, after.name) {
        return Err(ErrConflict);
      }
      pool.rooms := pool.rooms[room := after];
      var audited := pool.Audit(
        AuditRow(actor, KRoom, room, Action.Update, Some(Full(RoomRow(before))), Some(Full(RoomRow(after)))));
      if !audited {
        pool.Rollback(snapshot);
        return Err(ErrInternal);
      }
      r := Ok(room);
    }

    /** A gated hard DELETE that the foreign keys of sessions and series may veto. */
    method Delete(actor: Id, event: Id, room: Id, version: int) returns (r: Result<Id>)
      requires Inv(pool.View())
      modifies pool
      ensures VersionedOutcome(
        old(pool.View()), PutRoom(actor, event, room, version, RoomDelete), pool.View(), r, pool.alone)
    {
      hide Inv, Evolves, NameTaken, RoomReferenced;
      var snapshot := pool.Begin();
      if !RoomMatches(pool.rooms, event, room, version) {
        r := WhyNot(event, room);
        return;
      }
      if RoomReferenced(pool.sessions, pool.series, room) {
        return Err(ErrConflict);
      }
      var before := pool.rooms[room];
      pool.rooms := pool.rooms - {room};
      var audited := pool.Audit(AuditRow(actor, KRoom, room, Action.Delete, Some(Full(RoomRow(before))), None));
      if !audited {
        pool.Rollback(snapshot);
        return Err(ErrInternal);
      }
      r := Ok(room);
    }

    /** The diagnostic read, after others may have run. */
    method WhyNot(event: Id, room: Id) returns (r: Result<Id>)
      requires Inv(pool.View())
      modifies pool
      ensures Inv(pool.View()) && Evolves(old(pool.View()), pool.View())
      ensures pool.alone ==> pool.View() == old(pool.View())
      ensures r == Err(
        if room in pool.rooms && pool.rooms[room].eventId == event then ErrVersionMismatch else ErrNotFound)
    {
      hide Inv, Evolves;
      pool.Others([]);
      if room !in pool.rooms || pool.rooms[room].eventId != event {
        return Err(ErrNotFound);
      }
      return Err(ErrVersionMismatch);
    }

    /** One page of an event's rooms. */
    method List(event: Id, limit: nat, after: Option<Key>) returns (page: Page<Room>)
      requires limit > 0
      ensures Shows(page, pool.rooms, RoomKeys(pool.View(), event), limit, after)
    {
      hide Shows, Sort, Beyond, PageOf;
      var keys := set k | k in pool.rooms && pool.rooms[k].eventId == event :: Key(pool.rooms[k].createdAt, k);
      var fetched := Fetch(keys, after, limit + 1);
      var rooms := [];
      for n := 0 to |fetched|
        invariant |rooms| == n
        invariant forall i | 0 <= i < n ::
          fetched[i].id in pool.rooms && rooms[i] == (fetched[i].id, pool.rooms[fetched[i].id])
          && fetched[i].at == rooms[i].1.createdAt
      {
        assert fetched[n] in keys;
        rooms := rooms + [(fetched[n].id, pool.rooms[fetched[n].id])];
      }
      TrimmedIsPage(rooms, fetched, pool.rooms, keys, limit, after);
      page := Page(rooms, None);
      if |rooms| > limit {
        page := Page(rooms[..limit], Some(Key(rooms[limit - 1].1.createdAt, rooms[limit - 1].0)));
      }
    }
  }
}

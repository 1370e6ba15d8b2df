/** Generated rows as tables, and how each appended row affects the store's
    constraints. */
module SeedRows {
  import opened Domain
  import opened Tables
  import opened InvitationTx
  import opened RoomTx

  /** A list of rows with their identifiers, as a table. */
  function AsMap<T>(rows: seq<(Id, T)>): map<Id, T> {
    if rows == [] then map[]
    else
      var last := rows[|rows| - 1];
      AsMap(rows[..|rows| - 1])[last.0 := last.1]
  }

  lemma AppendIsPut<T>(rows: seq<(Id, T)>, id: Id, row: T)
    ensures AsMap(rows + [(id, row)]) == AsMap(rows)[id := row]
  {
    assert (rows + [(id, row)])[..|rows|] == rows;
  }

  /** No identifier is used twice, so the table has every row of the list. */
  ghost predicate Keyed<T>(rows: seq<(Id, T)>) {
    && (forall i, j | 0 <= i < j < |rows| :: rows[i].0 != rows[j].0)
    && (forall i | 0 <= i < |rows| :: rows[i].0 in AsMap(rows) && AsMap(rows)[rows[i].0] == rows[i].1)
  }

  lemma AppendKeepsKeyed<T>(rows: seq<(Id, T)>, id: Id, row: T)
    requires Keyed(rows) && id !in AsMap(rows)
    ensures Keyed(rows + [(id, row)])
  {
    AppendIsPut(rows, id, row);
  }

  lemma {:induction false} TableRowsAreListed<T>(rows: seq<(Id, T)>, id: Id)
    requires id in AsMap(rows)
    ensures exists i :: 0 <= i < |rows| && rows[i] == (id, AsMap(rows)[id])
  {
    var last := rows[|rows| - 1];
    if last.0 == id {
      assert rows[|rows| - 1] == (id, AsMap(rows)[id]);
    } else {
      TableRowsAreListed(rows[..|rows| - 1], id);
      var i :| 0 <= i < |rows| - 1 && rows[..|rows| - 1][i] == (id, AsMap(rows[..|rows| - 1])[id]);
      assert rows[i] == (id, AsMap(rows)[id]);
    }
  }

  /** Every constraint of the store, except that event `pending` may still be
      waiting for its first admin. */
  ghost predicate Loaded(d: DB, pending: Option<Id>) {
    && UsersOk(d.users)
    && EventsOk(d.events)
    && MembersOk(d.members, d.events, d.users)
    && InvitationsOk(d.invitations, d.events, d.users)
    && BookingOk(d.rooms, d.sessions, d.series, d.events, d.users)
    && RecordsOk(d.users, d.sessions, d.series, d.keys, d.audit, d.exceptions)
    && IssuedOk(d)
    && forall e | e in d.events && Some(e) != pending :: HasAdmin(d.members, e)
  }

  lemma LoadedIsInv(d: DB)
    ensures Loaded(d, None) <==> Inv(d)
  {
  }

  lemma PutEvent(d: DB, id: Id, row: Event)
    requires Loaded(d, None) && Fresh(d, id) && row.startsAt < row.endsAt && row.version >= 1
    ensures Loaded(d.(events := d.events[id := row], issued := d.issued + {id}), Some(id))
  {
    hide BookingOk, UsersOk, HasAdmin;
    MoreEventsAndUsers(d, d.events[id := row], d.users);
  }

  lemma PutMember(d: DB, pending: Option<Id>, id: Id, row: Member)
    requires Loaded(d, pending) && Fresh(d, id)
    requires row.eventId in d.events && row.userId in d.users && row.version >= 1
    requires !IsMember(d.members, row.eventId, row.userId)
    ensures Loaded(
      d.(members := d.members[id := row], issued := d.issued + {id}),
      if row.role == Admin && pending == Some(row.eventId) then None else pending)
  {
    hide BookingOk, UsersOk, EventsOk, InvitationsOk, UniqueMembers;
    AddMemberKeepsMembers(d.members, d.events, d.users, id, row);
    var members' := d.members[id := row];
    forall e | e in d.events && (Some(e) != pending || (row.role == Admin && row.eventId == e)) ensures HasAdmin(members', e) {
      if Some(e) != pending {
        var m :| IsAdminRow(d.members, m, e);
        AdminSurvives(d.members, members', m, e);
      } else {
        assert IsAdminRow(members', id, e);
      }
    }
  }

  lemma PutRoom(d: DB, pending: Option<Id>, id: Id, row: Room)
    requires Loaded(d, pending) && Fresh(d, id)
    requires row.eventId in d.events && CapacityOk(row.capacity) && row.version >= 1
    requires !NameTaken(d.rooms, id, row.eventId, row.name)
    ensures Loaded(d.(rooms := d.rooms[id := row], issued := d.issued + {id}), pending)
  {
    hide UsersOk, EventsOk, MembersOk, InvitationsOk, BookingOk, HasAdmin, NameTaken;
    PutRoomKeepsBooking(d.rooms, d.sessions, d.series, d.events, d.users, id, row);
  }

  lemma PutSession(d: DB, pending: Option<Id>, id: Id, row: Session)
    requires Loaded(d, pending) && Fresh(d, id)
    requires SessionRefOk(row, d.rooms, d.users, d.series) && !SlotTaken(d.sessions, id, row)
    ensures Loaded(d.(sessions := d.sessions[id := row], issued := d.issued + {id}), pending)
  {
    hide UsersOk, EventsOk, MembersOk, InvitationsOk, NoDoubleBooking, SessionRefsOk, SessionRefOk, RoomsOk, SeriesOk,
      HasAdmin, SlotTaken;
    PutSessionKeepsBookings(d.sessions, id, row);
    PutSessionKeepsRefs(d.sessions, d.rooms, d.users, d.series, id, row);
  }

  lemma PutInvitation(d: DB, pending: Option<Id>, id: Id, row: Invitation)
    requires Loaded(d, pending) && Fresh(d, id)
    requires row.eventId in d.events && (row.userId.Some? ==> row.userId.value in d.users)
    requires !Invited(d.invitations, row.eventId, row.email)
    ensures Loaded(d.(invitations := d.invitations[id := row], issued := d.issued + {id}), pending)
  {
    hide UsersOk, EventsOk, MembersOk, BookingOk, UniqueInvitations, HasAdmin, Invited;
    AddInvitationKeepsInvitations(d.invitations, d.events, d.users, id, row);
  }

  // ---------------------------------------------------------------------
  // Counting rows
  // ---------------------------------------------------------------------

  /** How many invitations an event has. */
  function InvitationCount(rows: seq<(Id, Invitation)>, event: Id): nat {
    if rows == [] then 0
    else
      InvitationCount(rows[..|rows| - 1], event) + if rows[|rows| - 1].1.eventId == event then 1 else 0
  }

  /** How many sessions a room hosts. */
  function Load(rows: seq<(Id, Session)>, room: Id): nat {
    if rows == [] then 0
    else Load(rows[..|rows| - 1], room) + if rows[|rows| - 1].1.roomId == room then 1 else 0
  }

  lemma {:induction false} NoneCounted(rows: seq<(Id, Invitation)>, event: Id)
    ensures InvitationCount(rows, event) == 0 <==> forall i | 0 <= i < |rows| :: rows[i].1.eventId != event
  {
    if rows != [] {
      NoneCounted(rows[..|rows| - 1], event);
      assert rows == rows[..|rows| - 1] + [rows[|rows| - 1]];
    }
  }

  lemma {:induction false} NothingLoaded(rows: seq<(Id, Session)>, room: Id)
    requires forall i | 0 <= i < |rows| :: rows[i].1.roomId != room
    ensures Load(rows, room) == 0
  {
    if rows != [] {
      NothingLoaded(rows[..|rows| - 1], room);
    }
  }

  lemma InvitationCountAppend(rows: seq<(Id, Invitation)>, last: (Id, Invitation), event: Id)
    ensures InvitationCount(rows + [last], event) ==
            InvitationCount(rows, event) + if last.1.eventId == event then 1 else 0
  {
    assert (rows + [last])[..|rows|] == rows;
  }

  lemma LoadAppend(rows: seq<(Id, Session)>, last: (Id, Session), room: Id)
    ensures Load(rows + [last], room) == Load(rows, room) + if last.1.roomId == room then 1 else 0
  {
    assert (rows + [last])[..|rows|] == rows;
  }
}

/** What a later state of the store always has in common with an earlier one:
    immutable columns, growing versions, rows that stay gone, append-only logs. */
module Evolution {
  import opened Domain
  import opened Tables
  import opened MemberTx
  import opened RoomTx
  import opened StoreMachine

  ghost predicate EventGrew(x: Event, y: Event) {
    && x.createdAt == y.createdAt && x.version <= y.version
    && (x.version == y.version ==> x == y) && (x.deleted ==> x == y)
  }

  ghost predicate MemberGrew(x: Member, y: Member) {
    && x.eventId == y.eventId && x.userId == y.userId && x.createdAt == y.createdAt
    && x.version <= y.version && (x.version == y.version ==> x == y)
  }

  ghost predicate RoomGrew(x: Room, y: Room) {
    && x.eventId == y.eventId && x.createdAt == y.createdAt
    && x.version <= y.version && (x.version == y.version ==> x == y)
  }

  ghost predicate SessionGrew(x: Session, y: Session) {
    && x.eventId == y.eventId && x.roomId == y.roomId && x.speakerId == y.speakerId
    && x.seriesId == y.seriesId && x.createdAt == y.createdAt
    && x.version <= y.version && (x.version == y.version ==> x == y) && (x.deleted ==> x == y)
  }

  ghost predicate EventsEvolve(a: map<Id, Event>, b: map<Id, Event>) {
    forall e | e in a :: e in b && EventGrew(a[e], b[e])
  }

  ghost predicate SessionsEvolve(a: map<Id, Session>, b: map<Id, Session>) {
    forall s | s in a :: s in b && SessionGrew(a[s], b[s])
  }

  /** Memberships and rooms are hard-deleted; an identifier once issued never
      comes back as a new row. */
  ghost predicate MembersEvolve(a: map<Id, Member>, issued: set<Id>, b: map<Id, Member>) {
    && (forall m | m in a && m in b :: MemberGrew(a[m], b[m]))
    && (forall m | m in b && m in issued :: m in a)
  }

  ghost predicate RoomsEvolve(a: map<Id, Room>, issued: set<Id>, b: map<Id, Room>) {
    && (forall r | r in a && r in b :: RoomGrew(a[r], b[r]))
    && (forall r | r in b && r in issued :: r in a)
  }

  /** Tables that are only ever inserted into. */
  ghost predicate Extends<K, V>(a: map<K, V>, b: map<K, V>) {
    forall k | k in a :: k in b && a[k] == b[k]
  }

  ghost predicate Evolves(a: DB, b: DB) {
    && a.issued <= b.issued
    && Extends(a.users, b.users)
    && EventsEvolve(a.events, b.events)
    && MembersEvolve(a.members, a.issued, b.members)
    && RoomsEvolve(a.rooms, a.issued, b.rooms)
    && SessionsEvolve(a.sessions, b.sessions)
    && Extends(a.invitations, b.invitations)
    && Extends(a.keys, b.keys)
    && Extends(a.series, b.series)
    && a.audit <= b.audit
    && a.exceptions <= b.exceptions
  }

  lemma EvolvesReflexive(a: DB)
    ensures Evolves(a, a)
  {
  }

  lemma EvolvesTransitive(a: DB, b: DB, c: DB)
    requires Evolves(a, b) && Evolves(b, c) && IssuedOk(a)
    ensures Evolves(a, c)
  {
    assert MembersEvolve(a.members, a.issued, c.members) by {
      forall m | m in a.members && m in c.members ensures MemberGrew(a.members[m], c.members[m]) {
        assert m in b.members;
      }
    }
    assert RoomsEvolve(a.rooms, a.issued, c.rooms) by {
      forall r | r in a.rooms && r in c.rooms ensures RoomGrew(a.rooms[r], c.rooms[r]) {
        assert r in b.rooms;
      }
    }
  }

  lemma PutEventEvolves(events: map<Id, Event>, id: Id, row: Event)
    requires id in events ==> EventGrew(events[id], row)
    ensures EventsEvolve(events, events[id := row])
  {
  }

  lemma ReplaceMemberEvolves(members: map<Id, Member>, issued: set<Id>, id: Id, row: Option<Member>)
    requires if id in members then row.Some? ==> MemberGrew(members[id], row.value) else id !in issued
    ensures MembersEvolve(members, issued, Replace(members, id, row))
  {
  }

  lemma PutRoomEvolves(rooms: map<Id, Room>, issued: set<Id>, id: Id, row: Room)
    requires if id in rooms then RoomGrew(rooms[id], row) else id !in issued
    ensures RoomsEvolve(rooms, issued, rooms[id := row])
  {
  }

  lemma PutSessionEvolves(sessions: map<Id, Session>, id: Id, row: Session)
    requires id in sessions ==> SessionGrew(sessions[id], row)
    ensures SessionsEvolve(sessions, sessions[id := row])
  {
  }

  lemma AccessTxEvolves(db: DB, tx: Tx)
    requires IssuedOk(db) && Enabled(db, tx)
    requires tx.NewEvent? || tx.PutEvent? || tx.NewMember? || tx.PutRole?
    ensures Evolves(db, Apply(db, tx).0)
  {
    hide EventsEvolve, MembersEvolve, GuardHolds, Roles.CanGrant, IsMember, UserByEmail, Diagnose, RoomsEvolve, SessionsEvolve;
    EvolvesReflexive(db);
    var db' := Apply(db, tx).0;
    if db' != db {
      match tx
      case NewEvent(a, e, m, n, s, t, now) =>
        PutEventEvolves(db.events, e, db'.events[e]);
        ReplaceMemberEvolves(db.members, db.issued, m, Some(db'.members[m]));
      case PutEvent(a, e, v, c) => PutEventEvolves(db.events, e, db'.events[e]);
      case NewMember(a, e, mail, role, id, now) => ReplaceMemberEvolves(db.members, db.issued, id, Some(db'.members[id]));
      case PutRole(a, e, m, v, c) =>
        assert m in db.members by { GuardNamesRow(db.members, e, m, v, c); }
        ReplaceMemberEvolves(db.members, db.issued, m, MemberAfter(db.members[m], c));
    }
  }

  lemma GuardNamesRow(members: map<Id, Member>, event: Id, member: Id, version: int, c: MemberChange)
    requires GuardHolds(members, event, member, version, c)
    ensures member in members
  {
  }

  lemma BookingTxEvolves(db: DB, tx: Tx)
    requires IssuedOk(db) && Enabled(db, tx)
    requires tx.NewRoom? || tx.PutRoom? || tx.NewSeries? || tx.NewBooking? || tx.PutSession?
    ensures Evolves(db, Apply(db, tx).0)
  {
    hide SlotTaken, NameTaken, RoomReferenced, RoomsEvolve, SessionsEvolve, EventsEvolve, MembersEvolve;
    EvolvesReflexive(db);
    var db' := Apply(db, tx).0;
    if db' != db {
      match tx
      case NewRoom(a, e, n, cap, id, now) => PutRoomEvolves(db.rooms, db.issued, id, db'.rooms[id]);
      case PutRoom(a, e, r, v, c) =>
        if c.RoomPatch? {
          PutRoomEvolves(db.rooms, db.issued, r, db'.rooms[r]);
        } else {
          DropRoomEvolves(db.rooms, db.issued, r);
        }
      case NewSeries(s, id) =>
      case NewBooking(a, e, input, id, now) => PutSessionEvolves(db.sessions, id, db'.sessions[id]);
      case PutSession(a, e, s, v, c) => PutSessionEvolves(db.sessions, s, db'.sessions[s]);
    }
  }

  lemma DropRoomEvolves(rooms: map<Id, Room>, issued: set<Id>, id: Id)
    ensures RoomsEvolve(rooms, issued, rooms - {id})
  {
  }

  lemma InsertTxEvolves(db: DB, tx: Tx)
    requires IssuedOk(db) && Enabled(db, tx)
    requires tx.AddUser? || tx.NewInvitation? || tx.NewKey?
    ensures Evolves(db, Apply(db, tx).0)
  {
    hide RoomsEvolve, SessionsEvolve, EventsEvolve, MembersEvolve, Roles.CanGrant, Invited, UserByEmail;
    EvolvesReflexive(db);
  }

  /** One transaction is one small step of evolution. */
  lemma ApplyEvolves(db: DB, tx: Tx)
    requires IssuedOk(db) && Enabled(db, tx)
    ensures Evolves(db, Apply(db, tx).0)
  {
    hide Apply, Evolves, Enabled, IssuedOk;
    if tx.NewEvent? || tx.PutEvent? || tx.NewMember? || tx.PutRole? {
      AccessTxEvolves(db, tx);
    } else if tx.AddUser? || tx.NewInvitation? || tx.NewKey? {
      InsertTxEvolves(db, tx);
    } else {
      BookingTxEvolves(db, tx);
    }
  }

  lemma {:induction false} RunEvolves(run: seq<DB>, txs: seq<Tx>, i: nat, j: nat)
    requires IsRun(run, txs) && Inv(run[0]) && i <= j < |run|
    ensures Evolves(run[i], run[j])
    decreases j
  {
    hide AccessOk, BookingOk, Apply, Enabled;
    RunKeepsInv(run, txs, i);
    if i == j {
      EvolvesReflexive(run[i]);
    } else {
      RunEvolves(run, txs, i, j - 1);
      RunKeepsInv(run, txs, j - 1);
      ApplyEvolves(run[j - 1], txs[j - 1]);
      EvolvesTransitive(run[i], run[j - 1], run[j]);
    }
  }
}

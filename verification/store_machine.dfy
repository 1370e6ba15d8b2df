/** The store as a state machine: one constructor per transaction the
    repositories commit, and the runs made of them. */
module StoreMachine {
  import opened Domain
  import opened Tables
  import opened EventTx
  import opened MemberTx
  import opened InvitationTx
  import opened RoomTx
  import opened SessionTx

  datatype Tx =
    | AddUser(id: Id, user: User)
    | NewEvent(actor: Id, event: Id, member: Id, name: string, startsAt: Time, endsAt: Time, now: Time)
    | PutEvent(actor: Id, event: Id, version: int, eventChange: EventChange)
    | NewMember(actor: Id, event: Id, email: string, role: Role, id: Id, now: Time)
    | PutRole(actor: Id, event: Id, member: Id, version: int, memberChange: MemberChange)
    | NewInvitation(actor: Id, event: Id, email: string, role: Role, id: Id, now: Time)
    | NewKey(actor: Id, key: string, hash: string, items: seq<ItemResult>)
    | NewRoom(actor: Id, event: Id, name: string, capacity: Option<int>, id: Id, now: Time)
    | PutRoom(actor: Id, event: Id, room: Id, version: int, roomChange: RoomChange)
    | NewSeries(series: Series, id: Id)
    | NewBooking(actor: Id, event: Id, input: SessionInput, id: Id, now: Time)
    | PutSession(actor: Id, event: Id, session: Id, version: int, sessionChange: SessionChange)

  ghost predicate KnownSubject(users: map<Id, User>, subject: string) {
    exists u :: u in users && users[u].subject == subject
  }

  ghost function UserBySubject(users: map<Id, User>, subject: string): (u: Id)
    requires KnownSubject(users, subject)
    ensures u in users && users[u].subject == subject
  {
    var u :| u in users && users[u].subject == subject;
    u
  }

  /** A sign-in by a subject seen before changes nothing; a second subject with
      the same email is refused by the unique constraint. */
  ghost function SignIn(db: DB, id: Id, user: User): (DB, Result<Id>) {
    if KnownSubject(db.users, user.subject) then
      (db, Ok(UserBySubject(db.users, user.subject)))
    else if HasEmail(db.users, user.email) then (db, Err(ErrInternal))
    else (db.(users := db.users[id := user], issued := db.issued + {id}), Ok(id))
  }

  ghost function Keyed(r: (DB, Result<bool>)): (DB, Result<Id>) {
    (r.0, if r.1.Err? then Err(r.1.error) else if r.1.value then Ok(0) else Err(ErrNoRow))
  }

  ghost function Apply(db: DB, tx: Tx): (DB, Result<Id>) {
    match tx
    case AddUser(id, user) => SignIn(db, id, user)
    case NewEvent(a, e, m, n, s, t, now) => CreateEvent(db, a, e, m, n, s, t, now)
    case PutEvent(a, e, v, c) => WriteEvent(db, a, e, v, c)
    case NewMember(a, e, mail, role, id, now) => CreateMember(db, a, e, mail, role, id, now)
    case PutRole(a, e, m, v, c) => WriteRole(db, a, e, m, v, c)
    case NewInvitation(a, e, mail, role, id, now) => Invite(db, a, e, mail, role, id, now)
    case NewKey(a, k, h, items) => Keyed(RecordKey(db, a, k, h, items))
    case NewRoom(a, e, n, cap, id, now) => CreateRoom(db, a, e, n, cap, id, now)
    case PutRoom(a, e, r, v, c) => WriteRoom(db, a, e, r, v, c)
    case NewSeries(s, id) => InsertSeries(db, s, id)
    case NewBooking(a, e, input, id, now) => CreateSession(db, a, e, input, id, now)
    case PutSession(a, e, s, v, c) => WriteSession(db, a, e, s, v, c)
  }

  /** The identifiers a transaction draws from the generator. */
  function Draws(tx: Tx): set<Id> {
    match tx
    case AddUser(id, _) => {id}
    case NewEvent(_, e, m, _, _, _, _) => {e, m}
    case NewMember(_, _, _, _, id, _) => {id}
    case NewInvitation(_, _, _, _, id, _) => {id}
    case NewRoom(_, _, _, _, id, _) => {id}
    case NewSeries(_, id) => {id}
    case NewBooking(_, _, _, id, _) => {id}
    case _ => {}
  }

  ghost predicate Enabled(db: DB, tx: Tx) {
    Draws(tx) !! db.issued && (tx.NewEvent? ==> tx.event != tx.member)
  }

  /** A transaction that reports an error left every table exactly as it was. */
  lemma FailureChangesNothing(db: DB, tx: Tx)
    ensures Apply(db, tx).1.Err? ==> Apply(db, tx).0 == db
  {
  }

  lemma AddUserKeepsAccess(
    users: map<Id, User>, events: map<Id, Event>, members: map<Id, Member>, invitations: map<Id, Invitation>,
    id: Id, user: User)
    requires AccessOk(users, events, members, invitations)
    requires !HasEmail(users, user.email) && !KnownSubject(users, user.subject)
    ensures AccessOk(users[id := user], events, members, invitations)
  {
    hide EventsOk, UniqueMembers, AdminsOk, UniqueInvitations;
  }

  lemma SignInKeepsInv(db: DB, id: Id, user: User)
    requires Inv(db) && Fresh(db, id)
    ensures Inv(SignIn(db, id, user).0)
  {
    hide AccessOk, BookingOk;
    var db' := SignIn(db, id, user).0;
    if db' != db {
      AddUserKeepsAccess(db.users, db.events, db.members, db.invitations, id, user);
      MoreEventsAndUsers(db, db.events, db'.users);
    }
  }

  /** Every transaction keeps every integrity rule of the store. */
  lemma ApplyKeepsInv(db: DB, tx: Tx)
    requires Inv(db) && Enabled(db, tx)
    ensures Inv(Apply(db, tx).0)
  {
    hide AccessOk, BookingOk, IssuedOk;
    match tx
    case AddUser(id, user) => SignInKeepsInv(db, id, user);
    case NewEvent(a, e, m, n, s, t, now) => CreateEventKeepsInv(db, a, e, m, n, s, t, now);
    case PutEvent(a, e, v, c) => WriteEventKeepsInv(db, a, e, v, c);
    case NewMember(a, e, mail, role, id, now) => CreateMemberKeepsInv(db, a, e, mail, role, id, now);
    case PutRole(a, e, m, v, c) => WriteRoleKeepsInv(db, a, e, m, v, c);
    case NewInvitation(a, e, mail, role, id, now) => InviteKeepsInv(db, a, e, mail, role, id, now);
    case NewKey(a, k, h, items) => KeyKeepsInv(db, a, k, h, items);
    case NewRoom(a, e, n, cap, id, now) => CreateRoomKeepsInv(db, a, e, n, cap, id, now);
    case PutRoom(a, e, r, v, c) => WriteRoomKeepsInv(db, a, e, r, v, c);
    case NewSeries(s, id) => InsertSeriesKeepsInv(db, s, id);
    case NewBooking(a, e, input, id, now) => CreateSessionKeepsInv(db, a, e, input, id, now);
    case PutSession(a, e, s, v, c) => WriteSessionKeepsInv(db, a, e, s, v, c);
  }

  lemma KeyKeepsInv(db: DB, actor: Id, key: string, hash: string, items: seq<ItemResult>)
    requires Inv(db)
    ensures Inv(RecordKey(db, actor, key, hash, items).0)
  {
    hide AccessOk, BookingOk;
  }

  // ---------------------------------------------------------------------
  // Runs
  // ---------------------------------------------------------------------

  /** `run[k+1]` is the store after `txs[k]` on `run[k]`. */
  ghost predicate IsRun(run: seq<DB>, txs: seq<Tx>) {
    && |run| == |txs| + 1
    && (forall k | 0 <= k < |txs| :: Enabled(run[k], txs[k]) && run[k + 1] == Apply(run[k], txs[k]).0)
  }

  /** From any store that satisfies the constraints, no sequence of transactions
      reaches one that does not: in particular no two live sessions ever share a
      room or speaker, every session's room exists and is its event's, and every
      event has an admin. */
  lemma {:induction false} RunKeepsInv(run: seq<DB>, txs: seq<Tx>, k: nat)
    requires IsRun(run, txs) && Inv(run[0]) && k < |run|
    ensures Inv(run[k])
  {
    hide Inv, Apply;
    if k > 0 {
      RunKeepsInv(run, txs, k - 1);
      ApplyKeepsInv(run[k - 1], txs[k - 1]);
    }
  }

  lemma EmptyStoreIsValid()
    ensures Inv(EMPTY)
  {
  }
}

/** The list queries: joins that neither drop nor repeat a row, and pages of real
    tables that change while a caller follows the cursors. */
module Listing {
  import opened Domain
  import opened Tables
  import opened StoreMachine
  import opened Evolution
  import opened Keyset

  datatype SessionView = SessionView(id: Id, roomName: string, speakerName: string)

  /** A table scan: every key once, in whatever order the database likes. */
  ghost predicate IsScan(scan: seq<Id>, keys: set<Id>) {
    && Distinct(scan)
    && (forall k :: k in scan <==> k in keys)
  }

  predicate Listed(db: DB, event: Id, s: Id)
    requires s in db.sessions
  {
    db.sessions[s].eventId == event && !db.sessions[s].deleted
  }

  // ---------------------------------------------------------------------
  // sessions JOIN rooms JOIN users, as three nested loops
  // ---------------------------------------------------------------------

  function JoinUsers(db: DB, s: Id, roomName: string, users: seq<Id>): seq<SessionView>
    requires s in db.sessions && forall u | u in users :: u in db.users
  {
    if users == [] then []
    else
      (if users[0] == db.sessions[s].speakerId then [SessionView(s, roomName, db.users[users[0]].name)] else [])
      + JoinUsers(db, s, roomName, users[1..])
  }

  function JoinRooms(db: DB, s: Id, rooms: seq<Id>, users: seq<Id>): seq<SessionView>
    requires s in db.sessions && (forall r | r in rooms :: r in db.rooms) && (forall u | u in users :: u in db.users)
  {
    if rooms == [] then []
    else
      (if rooms[0] == db.sessions[s].roomId then JoinUsers(db, s, db.rooms[rooms[0]].name, users) else [])
      + JoinRooms(db, s, rooms[1..], users)
  }

  function JoinSessions(db: DB, event: Id, sessions: seq<Id>, rooms: seq<Id>, users: seq<Id>): seq<SessionView>
    requires forall s | s in sessions :: s in db.sessions
    requires (forall r | r in rooms :: r in db.rooms) && (forall u | u in users :: u in db.users)
  {
    if sessions == [] then []
    else
      (if Listed(db, event, sessions[0]) then JoinRooms(db, sessions[0], rooms, users) else [])
      + JoinSessions(db, event, sessions[1..], rooms, users)
  }

  /** The same listing, by filtering and looking each room and speaker up. */
  function LookUp(db: DB, event: Id, sessions: seq<Id>): seq<SessionView>
    requires forall s | s in sessions ::
      s in db.sessions && db.sessions[s].roomId in db.rooms && db.sessions[s].speakerId in db.users
  {
    if sessions == [] then []
    else
      var s := sessions[0];
      (if Listed(db, event, s)
       then [SessionView(s, db.rooms[db.sessions[s].roomId].name, db.users[db.sessions[s].speakerId].name)] else [])
      + LookUp(db, event, sessions[1..])
  }

  lemma {:induction false} UsersMatchOnce(db: DB, s: Id, roomName: string, users: seq<Id>)
    requires s in db.sessions && Distinct(users) && forall u | u in users :: u in db.users
    ensures var sp := db.sessions[s].speakerId;
      JoinUsers(db, s, roomName, users) == if sp in users then [SessionView(s, roomName, db.users[sp].name)] else []
  {
    if users != [] {
      UsersMatchOnce(db, s, roomName, users[1..]);
    }
  }

  lemma {:induction false} RoomsMatchOnce(db: DB, s: Id, rooms: seq<Id>, users: seq<Id>)
    requires s in db.sessions && Distinct(rooms)
    requires (forall r | r in rooms :: r in db.rooms) && (forall u | u in users :: u in db.users)
    ensures var r := db.sessions[s].roomId;
      JoinRooms(db, s, rooms, users) == if r in rooms then JoinUsers(db, s, db.rooms[r].name, users) else []
  {
    if rooms != [] {
      RoomsMatchOnce(db, s, rooms[1..], users);
    }
  }

  lemma {:induction false} JoinEqualsLookUp(db: DB, event: Id, sessions: seq<Id>, rooms: seq<Id>, users: seq<Id>)
    requires SessionRefsOk(db.sessions, db.rooms, db.users, db.series)
    requires (forall s | s in sessions :: s in db.sessions) && IsScan(rooms, db.rooms.Keys) && IsScan(users, db.users.Keys)
    ensures JoinSessions(db, event, sessions, rooms, users) == LookUp(db, event, sessions)
  {
    if sessions != [] {
      var s := sessions[0];
      JoinEqualsLookUp(db, event, sessions[1..], rooms, users);
      assert SessionRefOk(db.sessions[s], db.rooms, db.users, db.series);
      RoomsMatchOnce(db, s, rooms, users);
      UsersMatchOnce(db, s, db.rooms[db.sessions[s].roomId].name, users);
    }
  }

  lemma {:induction false} LookUpListsOnlyMatches(db: DB, event: Id, sessions: seq<Id>)
    requires forall s | s in sessions ::
      s in db.sessions && db.sessions[s].roomId in db.rooms && db.sessions[s].speakerId in db.users
    ensures forall v | v in LookUp(db, event, sessions) :: v.id in sessions && Listed(db, event, v.id)
  {
    if sessions != [] {
      LookUpListsOnlyMatches(db, event, sessions[1..]);
    }
  }

  lemma {:induction false} LookUpListsEveryMatch(db: DB, event: Id, sessions: seq<Id>, s: Id)
    requires forall s | s in sessions ::
      s in db.sessions && db.sessions[s].roomId in db.rooms && db.sessions[s].speakerId in db.users
    requires s in sessions && Listed(db, event, s)
    ensures exists v :: v in LookUp(db, event, sessions) && v.id == s
  {
    var r := LookUp(db, event, sessions);
    if sessions[0] == s {
      assert r[0].id == s && r[0] in r;
    } else {
      LookUpListsEveryMatch(db, event, sessions[1..], s);
      var v :| v in LookUp(db, event, sessions[1..]) && v.id == s;
      assert v in r;
    }
  }

  predicate DistinctViews(r: seq<SessionView>) {
    forall i, j | 0 <= i < j < |r| :: r[i].id != r[j].id
  }

  lemma PrependView(v: SessionView, rest: seq<SessionView>)
    requires DistinctViews(rest) && forall w | w in rest :: w.id != v.id
    ensures DistinctViews([v] + rest)
  {
  }

  lemma {:induction false} LookUpListsEachOnce(db: DB, event: Id, sessions: seq<Id>)
    requires Distinct(sessions)
    requires forall s | s in sessions ::
      s in db.sessions && db.sessions[s].roomId in db.rooms && db.sessions[s].speakerId in db.users
    ensures DistinctViews(LookUp(db, event, sessions))
  {
    hide DistinctViews, Listed;
    if sessions == [] {
      NoViews();
    } else {
      var s, rest := sessions[0], LookUp(db, event, sessions[1..]);
      LookUpListsEachOnce(db, event, sessions[1..]);
      LookUpListsOnlyMatches(db, event, sessions[1..]);
      assert s !in sessions[1..];
      if Listed(db, event, s) {
        PrependView(LookUp(db, event, sessions)[0], rest);
      } else {
        assert LookUp(db, event, sessions) == rest;
      }
    }
  }

  lemma NoViews()
    ensures DistinctViews([])
  {
  }

  /** In every reachable store the joined session listing is the filtered session
      table with each name looked up: whatever order the tables are scanned in,
      the JOIN never drops a live session and never repeats one. */
  lemma JoinedListingIsExact(
    run: seq<DB>, txs: seq<Tx>, k: nat, event: Id, sessions: seq<Id>, rooms: seq<Id>, users: seq<Id>)
    requires IsRun(run, txs) && Inv(run[0]) && k < |run|
    requires IsScan(sessions, run[k].sessions.Keys) && IsScan(rooms, run[k].rooms.Keys) && IsScan(users, run[k].users.Keys)
    ensures var r := JoinSessions(run[k], event, sessions, rooms, users);
      && (forall s | s in sessions :: run[k].sessions[s].roomId in run[k].rooms && run[k].sessions[s].speakerId in run[k].users)
      && r == LookUp(run[k], event, sessions)
      && DistinctViews(r)
      && (forall s | s in run[k].sessions && Listed(run[k], event, s) :: exists v :: v in r && v.id == s)
  {
    RunKeepsInv(run, txs, k);
    hide IsRun, AccessOk, RoomsOk, NoDoubleBooking, SeriesOk;
    JoinEqualsLookUp(run[k], event, sessions, rooms, users);
    LookUpListsEachOnce(run[k], event, sessions);
    forall s | s in run[k].sessions && Listed(run[k], event, s)
      ensures exists v :: v in LookUp(run[k], event, sessions) && v.id == s
    {
      LookUpListsEveryMatch(run[k], event, sessions, s);
    }
  }

  // ---------------------------------------------------------------------
  // events JOIN event_members, as two nested loops
  // ---------------------------------------------------------------------

  function JoinMembers(db: DB, e: Id, user: Id, members: seq<Id>): seq<Id>
    requires forall m | m in members :: m in db.members
  {
    if members == [] then []
    else
      (if db.members[members[0]].eventId == e && db.members[members[0]].userId == user then [e] else [])
      + JoinMembers(db, e, user, members[1..])
  }

  lemma {:induction false} MembersMatchAtMostOnce(db: DB, e: Id, user: Id, members: seq<Id>)
    requires UniqueMembers(db.members) && Distinct(members) && forall m | m in members :: m in db.members
    ensures JoinMembers(db, e, user, members) ==
      if exists m :: m in members && db.members[m].eventId == e && db.members[m].userId == user then [e] else []
  {
    if members != [] {
      MembersMatchAtMostOnce(db, e, user, members[1..]);
    }
  }

  function JoinEvents(db: DB, user: Id, events: seq<Id>, members: seq<Id>): seq<Id>
    requires (forall e | e in events :: e in db.events) && (forall m | m in members :: m in db.members)
  {
    if events == [] then []
    else
      (if !db.events[events[0]].deleted then JoinMembers(db, events[0], user, members) else [])
      + JoinEvents(db, user, events[1..], members)
  }

  /** The event listing of a user shows exactly the live events the user is a
      member of, and none of them twice, because memberships are unique. */
  lemma {:induction false} EventListingIsExact(db: DB, user: Id, events: seq<Id>, members: seq<Id>)
    requires UniqueMembers(db.members) && Distinct(events) && IsScan(members, db.members.Keys)
    requires forall e | e in events :: e in db.events
    ensures var r := JoinEvents(db, user, events, members);
      && Distinct(r)
      && (forall e :: e in r <==> e in events && !db.events[e].deleted && IsMember(db.members, e, user))
  {
    if events != [] {
      var e := events[0];
      EventListingIsExact(db, user, events[1..], members);
      MembersMatchAtMostOnce(db, e, user, members);
      assert IsMember(db.members, e, user) <==>
        exists m :: m in members && db.members[m].eventId == e && db.members[m].userId == user;
      assert events == [e] + events[1..];
    }
  }

  // ---------------------------------------------------------------------
  // Following cursors through a store that keeps changing
  // ---------------------------------------------------------------------

  ghost function InvitationKeys(db: DB, event: Id): set<Key> {
    set i | i in db.invitations && db.invitations[i].eventId == event :: Key(db.invitations[i].createdAt, i)
  }

  ghost function SessionKeys(db: DB, event: Id): set<Key> {
    set s | s in db.sessions && Listed(db, event, s) :: Key(db.sessions[s].createdAt, s)
  }

  ghost function EventKeys(db: DB, user: Id): set<Key> {
    set e | e in db.events && !db.events[e].deleted && IsMember(db.members, e, user) :: Key(db.events[e].createdAt, e)
  }

  ghost function MemberKeys(db: DB, event: Id): set<Key> {
    set m | m in db.members && db.members[m].eventId == event :: Key(db.members[m].createdAt, m)
  }

  ghost function RoomKeys(db: DB, event: Id): set<Key> {
    set r | r in db.rooms && db.rooms[r].eventId == event :: Key(db.rooms[r].createdAt, r)
  }

  /** The five paged listings. */
  datatype Query =
    | InvitationsOf(event: Id)
    | SessionsOf(event: Id)
    | MembersOf(event: Id)
    | RoomsOf(event: Id)
    | EventsOf(user: Id)

  ghost function QueryKeys(db: DB, q: Query): set<Key> {
    match q
    case InvitationsOf(e) => InvitationKeys(db, e)
    case SessionsOf(e) => SessionKeys(db, e)
    case MembersOf(e) => MemberKeys(db, e)
    case RoomsOf(e) => RoomKeys(db, e)
    case EventsOf(u) => EventKeys(db, u)
  }

  /** The row matches the query's filter. */
  predicate Matches(db: DB, q: Query, id: Id) {
    match q
    case InvitationsOf(e) => id in db.invitations && db.invitations[id].eventId == e
    case SessionsOf(e) => id in db.sessions && Listed(db, e, id)
    case MembersOf(e) => id in db.members && db.members[id].eventId == e
    case RoomsOf(e) => id in db.rooms && db.rooms[id].eventId == e
    case EventsOf(u) => id in db.events && !db.events[id].deleted && IsMember(db.members, id, u)
  }

  function CreatedAt(db: DB, q: Query, id: Id): Time
    requires Matches(db, q, id)
  {
    match q
    case InvitationsOf(_) => db.invitations[id].createdAt
    case SessionsOf(_) => db.sessions[id].createdAt
    case MembersOf(_) => db.members[id].createdAt
    case RoomsOf(_) => db.rooms[id].createdAt
    case EventsOf(_) => db.events[id].createdAt
  }

  lemma MatchingRowIsListed(db: DB, q: Query, id: Id)
    requires Matches(db, q, id)
    ensures Key(CreatedAt(db, q, id), id) in QueryKeys(db, q)
  {
  }

  /** A listing holds exactly the rows its filter asks for, each under its own creation
      time: nothing of another event, nothing deleted, nothing of somebody else's. */
  lemma ListedExactlyTheMatches(db: DB, q: Query, k: Key)
    ensures k in QueryKeys(db, q) <==> Matches(db, q, k.id) && k.at == CreatedAt(db, q, k.id)
    ensures k in QueryKeys(db, q) <==>
      match q
      case InvitationsOf(e) =>
        k.id in db.invitations && db.invitations[k.id].eventId == e && db.invitations[k.id].createdAt == k.at
      case SessionsOf(e) =>
        && k.id in db.sessions && db.sessions[k.id].eventId == e && !db.sessions[k.id].deleted
        && db.sessions[k.id].createdAt == k.at
      case MembersOf(e) => k.id in db.members && db.members[k.id].eventId == e && db.members[k.id].createdAt == k.at
      case RoomsOf(e) => k.id in db.rooms && db.rooms[k.id].eventId == e && db.rooms[k.id].createdAt == k.at
      case EventsOf(u) =>
        && k.id in db.events && !db.events[k.id].deleted && db.events[k.id].createdAt == k.at
        && exists m :: m in db.members && db.members[m].eventId == k.id && db.members[m].userId == u
  {
  }

  /** The sessions listed are the ones the join of sessions, rooms and users produces. */
  lemma SessionsListedAreTheJoin(db: DB, event: Id, sessions: seq<Id>, rooms: seq<Id>, users: seq<Id>, k: Key)
    requires SessionRefsOk(db.sessions, db.rooms, db.users, db.series)
    requires IsScan(sessions, db.sessions.Keys) && IsScan(rooms, db.rooms.Keys) && IsScan(users, db.users.Keys)
    ensures k in SessionKeys(db, event) <==>
      && (exists v :: v in JoinSessions(db, event, sessions, rooms, users) && v.id == k.id)
      && k.id in db.sessions && db.sessions[k.id].createdAt == k.at
  {
    hide JoinSessions, LookUp;
    JoinEqualsLookUp(db, event, sessions, rooms, users);
    assert forall s | s in sessions :: SessionRefOk(db.sessions[s], db.rooms, db.users, db.series);
    LookUpListsOnlyMatches(db, event, sessions);
    if k.id in db.sessions && Listed(db, event, k.id) {
      LookUpListsEveryMatch(db, event, sessions, k.id);
    }
  }

  /** The events listed for a user are the ones the join with the memberships produces. */
  lemma EventsListedAreTheJoin(db: DB, user: Id, events: seq<Id>, members: seq<Id>, k: Key)
    requires UniqueMembers(db.members) && IsScan(events, db.events.Keys) && IsScan(members, db.members.Keys)
    ensures k in EventKeys(db, user) <==>
      k.id in db.events && k.id in JoinEvents(db, user, events, members) && db.events[k.id].createdAt == k.at
  {
    hide JoinEvents, UniqueMembers;
    EventListingIsExact(db, user, events, members);
  }

  /** Listed earlier: created earlier, or at the same time under a smaller identifier. */
  predicate Precedes(db: DB, q: Query, a: Id, b: Id)
    requires Matches(db, q, a) && Matches(db, q, b)
  {
    CreatedAt(db, q, a) < CreatedAt(db, q, b) || (CreatedAt(db, q, a) == CreatedAt(db, q, b) && a < b)
  }

  /** Not listed before the cursor yet. */
  predicate StillAhead(db: DB, q: Query, cursor: Option<Key>, id: Id)
    requires Matches(db, q, id)
  {
    match cursor
    case None => true
    case Some(c) => c.at < CreatedAt(db, q, id) || (c.at == CreatedAt(db, q, id) && c.id < id)
  }

  lemma PageIsShort(s: set<Key>, limit: nat, cursor: Option<Key>)
    requires limit > 0
    ensures |PageOf(s, limit, cursor).0| <= limit
  {
  }

  /** A page of a listing shows matching rows only, each as it is stored, in their
      order, none listed before; and a match still ahead that is not on the page comes
      after all of a full page that carries a cursor. */
  lemma PageIsExact<T>(page: Page<T>, table: map<Id, T>, db: DB, q: Query, limit: nat, after: Option<Key>)
    requires limit > 0 && Shows(page, table, QueryKeys(db, q), limit, after)
    ensures |page.rows| <= limit
    ensures forall i | 0 <= i < |page.rows| ::
      var (id, row) := page.rows[i];
      id in table && row == table[id] && Matches(db, q, id) && StillAhead(db, q, after, id)
    ensures forall i, j | 0 <= i < j < |page.rows| :: Precedes(db, q, page.rows[i].0, page.rows[j].0)
    ensures forall id: Id | Matches(db, q, id) && StillAhead(db, q, after, id) ::
      || (exists i :: 0 <= i < |page.rows| && page.rows[i].0 == id)
      || (page.next.Some? && |page.rows| == limit && forall i | 0 <= i < limit :: Precedes(db, q, page.rows[i].0, id))
  {
    hide QueryKeys, Matches, CreatedAt, PageOf;
    var s := QueryKeys(db, q);
    var (keys, next) := PageOf(s, limit, after);
    PageIsCut(s, limit, after);
    PageIsShort(s, limit, after);
    forall i | 0 <= i < |keys|
      ensures keys[i] in s && Matches(db, q, keys[i].id) && keys[i].at == CreatedAt(db, q, keys[i].id) && After(keys[i], after)
    {
      assert keys[i] in keys;
      ListedExactlyTheMatches(db, q, keys[i]);
    }
    forall id: Id | Matches(db, q, id) && StillAhead(db, q, after, id)
      ensures (exists i :: 0 <= i < |page.rows| && page.rows[i].0 == id)
        || (page.next.Some? && |page.rows| == limit && forall i | 0 <= i < limit :: Precedes(db, q, page.rows[i].0, id))
    {
      var k := Key(CreatedAt(db, q, id), id);
      ListedExactlyTheMatches(db, q, k);
      PageCovers(s, limit, after, k);
      if k in keys {
        var i :| 0 <= i < |keys| && keys[i] == k;
        assert page.rows[i].0 == id;
      }
    }
  }

  /** However a row is edited, it keeps its place in every listing. */
  lemma PlaceNeverChanges(a: DB, b: DB, q: Query, id: Id)
    requires Evolves(a, b) && Matches(a, q, id) && Matches(b, q, id)
    ensures CreatedAt(a, q, id) == CreatedAt(b, q, id)
  {
  }

  /** The listing as of the moments `times` of a run at which pages are fetched. */
  ghost function Snapshots(run: seq<DB>, times: seq<nat>, q: Query): seq<set<Key>>
    requires forall i | 0 <= i < |times| :: times[i] < |run|
  {
    seq(|times|, i requires 0 <= i < |times| => QueryKeys(run[times[i]], q))
  }

  ghost predicate Moments(run: seq<DB>, times: seq<nat>) {
    && (forall i | 0 <= i < |times| :: times[i] < |run|)
    && (forall i, j | 0 <= i <= j < |times| :: times[i] <= times[j])
  }

  /** Whatever transactions commit between the fetches, a row that matches the
      filter at every fetch comes back exactly once, in the place it always had. */
  lemma RowsListedExactlyOnce(run: seq<DB>, txs: seq<Tx>, times: seq<nat>, q: Query, limit: nat, id: Id)
    requires IsRun(run, txs) && Inv(run[0]) && Moments(run, times) && limit > 0 && times != []
    requires forall i | 0 <= i < |times| :: Matches(run[times[i]], q, id)
    requires Finishes(Snapshots(run, times, q), limit, None)
    ensures multiset(Flatten(Walk(Snapshots(run, times, q), limit, None)))[Key(CreatedAt(run[times[0]], q, id), id)] == 1
  {
    hide IsRun, Inv, Evolves, Matches, CreatedAt, QueryKeys;
    var snaps := Snapshots(run, times, q);
    var key := Key(CreatedAt(run[times[0]], q, id), id);
    forall i | 0 <= i < |snaps| ensures key in snaps[i] {
      RunEvolves(run, txs, times[0], times[i]);
      PlaceNeverChanges(run[times[0]], run[times[i]], q, id);
      MatchingRowIsListed(run[times[i]], q, id);
    }
    EachRowExactlyOnce(snaps, limit, key);
  }

  /** Invitations are never withdrawn: being there at the first fetch is enough. */
  lemma InvitationsListedExactlyOnce(run: seq<DB>, txs: seq<Tx>, times: seq<nat>, event: Id, limit: nat, id: Id)
    requires IsRun(run, txs) && Inv(run[0]) && Moments(run, times) && limit > 0 && times != []
    requires Matches(run[times[0]], InvitationsOf(event), id)
    requires Finishes(Snapshots(run, times, InvitationsOf(event)), limit, None)
    ensures multiset(Flatten(Walk(Snapshots(run, times, InvitationsOf(event)), limit, None)))
              [Key(CreatedAt(run[times[0]], InvitationsOf(event), id), id)] == 1
  {
    forall i | 0 <= i < |times| ensures Matches(run[times[i]], InvitationsOf(event), id) {
      hide IsRun, Inv;
      RunEvolves(run, txs, times[0], times[i]);
    }
    hide IsRun, Inv, Matches, CreatedAt, QueryKeys;
    RowsListedExactlyOnce(run, txs, times, InvitationsOf(event), limit, id);
  }

  /** And nothing else comes back: every row of every page matched the filter in the
      store from which that page was fetched. */
  lemma WalkReturnsOnlyMatches(run: seq<DB>, times: seq<nat>, q: Query, limit: nat, i: nat, k: Key)
    requires (forall n | 0 <= n < |times| :: times[n] < |run|) && limit > 0
    requires i < |Walk(Snapshots(run, times, q), limit, None)| && k in Walk(Snapshots(run, times, q), limit, None)[i]
    ensures i < |times| && Matches(run[times[i]], q, k.id) && k.at == CreatedAt(run[times[i]], q, k.id)
  {
    hide QueryKeys, Matches, CreatedAt, Walk;
    WalkInventsNothing(Snapshots(run, times, q), limit, None, i);
    ListedExactlyTheMatches(run[times[i]], q, k);
  }
}

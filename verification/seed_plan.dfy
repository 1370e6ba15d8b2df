/** What generated data is to look like - its numbers, rosters, programmes and
    invitations - and the facts that keep a growing dataset that way. */
module SeedPlan {
  import opened Domain
  import opened Tables
  import opened RoomTx
  import opened Arithmetic
  import opened Random
  import opened Sampling
  import opened SeedNames
  import opened SeedRows
  import opened SeedSchedule
  import opened Text

  const MINUTE := 60_000_000_000
  const HOUR := 60 * MINUTE

  /** Every generated row's creation time. */
  const SEED_TIME: Time := 1_767_225_600_000_000_000

  function Pos(x: int): nat {
    if x > 0 then x else 0
  }

  /** As many as asked for, as far as available. */
  function Capped(n: int, available: int): nat {
    Pos(if n > available then available else n)
  }

  datatype Config = Config(
    userCount: int, bulkEventCount: int, invitationsPerEvent: int,
    minRooms: int, maxRooms: int, minSessions: int, maxSessions: int, largeRooms: int, largeSessions: int)

  /** The demo identities are generated whatever the configured count. */
  function UserTotal(c: Config): nat {
    if c.userCount < 3 then 3 else c.userCount
  }

  /** Four fifths of an event's invitations go to accounts. */
  function RealCount(c: Config): nat {
    Pos(c.invitationsPerEvent) * 4 / 5
  }

  /** The most sessions a configuration can ask for: the bulk events and the demo
      event, the large event, and three in each of the two fixtures. */
  function MostSessions(c: Config): nat {
    (Pos(c.bulkEventCount) + 1) * Pos(c.maxSessions) + Pos(c.largeSessions) + 6
  }

  /** The configurations the generator can run on without a panic. */
  predicate Runnable(c: Config) {
    && 1 <= c.minRooms <= c.maxRooms && 1 <= c.largeRooms && c.minSessions <= c.maxSessions
    && -1 <= c.invitationsPerEvent && RealCount(c) <= UserTotal(c)
    && MostSessions(c) <= UserTotal(c)
  }

  const DEFAULT_CONFIG := Config(5000, 46, 1000, 2, 6, 5, 20, 10, 500)

  /** The shipped configuration leaves room to spare: 1446 sessions at most, for
      5000 users. */
  lemma DefaultConfigIsRunnable()
    ensures Runnable(DEFAULT_CONFIG) && MostSessions(DEFAULT_CONFIG) == 1446
    ensures UserTotal(DEFAULT_CONFIG) == 5000 && RealCount(DEFAULT_CONFIG) == 800
  {
  }

  /** Four fifths of the invitations, rounded down. */
  lemma RealCountIsFourFifths(c: Config)
    requires c.invitationsPerEvent >= 0
    ensures 5 * RealCount(c) <= 4 * c.invitationsPerEvent < 5 * RealCount(c) + 5
  {
  }

  // ---------------------------------------------------------------------
  // Days and clock changes
  // ---------------------------------------------------------------------

  /** Asia/Colombo is the first of the bulk time zones; New York is not one of them. */
  const COLOMBO: nat := 0
  const NEW_YORK: nat := 5

  /** `midnight(z, d)` is the start of day d of 2026 in zone z; `spring` and `fall` are
      the times of the two sessions that cross a clock change. */
  datatype Almanac = Almanac(midnight: (nat, int) -> Time, spring: Range, fall: Range)

  /** Later days start later. */
  ghost predicate Ascend(midnight: (nat, int) -> Time) {
    forall z: nat, a: int, b: int | a < b :: midnight(z, a) < midnight(z, b)
  }

  ghost predicate AlmanacOk(a: Almanac) {
    Ascend(a.midnight) && a.spring.start < a.spring.end && a.fall.start < a.fall.end
  }

  // ---------------------------------------------------------------------
  // Users
  // ---------------------------------------------------------------------

  /** Identifiers are drawn from a counter, so account i has identifier i. */
  predicate Accounts(users: seq<(Id, User)>) {
    forall i | 0 <= i < |users| :: users[i] == (i, Account(i))
  }

  lemma {:induction false} AccountsTable(users: seq<(Id, User)>)
    requires Accounts(users)
    ensures forall u: Id :: u in AsMap(users) <==> u < |users|
    ensures forall u: Id | u in AsMap(users) :: AsMap(users)[u] == Account(u)
  {
    if users != [] {
      var init := users[..|users| - 1];
      AccountsTable(init);
      assert users[|users| - 1] == (|users| - 1, Account(|users| - 1));
      assert AsMap(users) == AsMap(init)[|users| - 1 := Account(|users| - 1)];
    }
  }

  lemma AccountsAreUnique(users: seq<(Id, User)>)
    requires Accounts(users)
    ensures UsersOk(AsMap(users))
  {
    AccountsTable(users);
    hide Account;
    forall u, v | u in AsMap(users) && v in AsMap(users)
      && (AsMap(users)[u].email == AsMap(users)[v].email || AsMap(users)[u].subject == AsMap(users)[v].subject)
      ensures u == v
    {
      if u != v {
        AccountEmailsDiffer(u, v);
        AccountSubjectsDiffer(u, v);
      }
    }
  }

  // ---------------------------------------------------------------------
  // What an event holds
  // ---------------------------------------------------------------------

  /** Every session is live and on its speaker's calendar. */
  ghost predicate OnCalendar(sessions: map<Id, Session>, busy: map<Id, seq<Range>>) {
    forall s | s in sessions ::
      && !sessions[s].deleted
      && Range(sessions[s].startsAt, sessions[s].endsAt) in Calendar(busy, sessions[s].speakerId)
  }

  /** Nothing is booked in `room` at or after `t`. */
  ghost predicate RoomFreeFrom(sessions: map<Id, Session>, room: Id, t: Time) {
    forall s | s in sessions && sessions[s].roomId == room :: sessions[s].endsAt <= t
  }

  /** The members of `event` are exactly `who`. */
  ghost predicate Roster(members: map<Id, Member>, event: Id, who: set<Id>) {
    forall u: Id :: IsMember(members, event, u) <==> u in who
  }

  /** The kinds of generated events; `Spring` and `Fall` are the two clock changes. */
  datatype EventKind = Ordinary | Demo | Large | Spring | Fall

  /** The fixed identities and roles an event's roster starts with. */
  function DemoRoles(kind: EventKind): seq<Role> {
    if kind == Demo then [Admin, Contributor, Attendee] else []
  }

  predicate AllOf(slots: seq<(Id, Session)>, event: Id) {
    forall i | 0 <= i < |slots| :: slots[i].1.eventId == event
  }

  /** The event's sessions: `total` of them, split as evenly as they go over these
      rooms; room after room, each room's follow one another from nine hours after the
      event's start. */
  ghost predicate SlotsFor(
    event: Id, startsAt: Time, name: string, slots: seq<(Id, Session)>, roomIds: seq<Id>, total: int)
  {
    && AllOf(slots, event) && roomIds != [] && Distinct(roomIds)
    && |slots| == Pos(total) && RoomsLoaded(slots, roomIds, total, |roomIds|)
    && Blocks(slots, event, roomIds, total, startsAt + 32_400_000_000_000, name, |roomIds|)
  }

  /** An even programme with so many rooms and sessions. */
  ghost predicate Programme(
    event: Id, startsAt: Time, name: string, roomIds: seq<Id>, slots: seq<(Id, Session)>,
    minRooms: int, maxRooms: int, minSessions: int, maxSessions: int)
  {
    && minRooms <= |roomIds| <= maxRooms
    && exists total: int :: SlotsFor(event, startsAt, name, slots, roomIds, total) && minSessions <= total <= maxSessions
  }

  /** The fixture alone in the first room, two fillers in the second, nine hours after
      the event's start. */
  ghost predicate FixtureSlots(
    event: Id, startsAt: Time, name: string, roomIds: seq<Id>, slots: seq<(Id, Session)>, fixture: Range, title: string)
  {
    && AllOf(slots, event) && |slots| == 3 && |roomIds| == 2 && roomIds[0] != roomIds[1]
    && Slot(slots[0].1, event, roomIds[0], title, fixture.start, fixture.end)
    && BackToBack(slots[1..], event, roomIds[1], startsAt + 32_400_000_000_000, name + " Filler")
  }

  ghost predicate SlotsOfKind(
    cfg: Config, a: Almanac, kind: EventKind, event: Id, row: Event, roomIds: seq<Id>, slots: seq<(Id, Session)>)
  {
    match kind
    case Large =>
      Programme(event, row.startsAt, row.name, roomIds, slots, cfg.largeRooms, cfg.largeRooms, cfg.largeSessions,
                cfg.largeSessions)
    case Ordinary =>
      Programme(event, row.startsAt, row.name, roomIds, slots, cfg.minRooms, cfg.maxRooms, cfg.minSessions, cfg.maxSessions)
    case Demo =>
      Programme(event, row.startsAt, row.name, roomIds, slots, cfg.minRooms, cfg.maxRooms, cfg.minSessions, cfg.maxSessions)
    case Spring =>
      FixtureSlots(event, row.startsAt, row.name, roomIds, slots, a.spring, "Crosses 2026-03-08 Spring-Forward Gap")
    case Fall =>
      FixtureSlots(event, row.startsAt, row.name, roomIds, slots, a.fall, "Crosses 2026-11-01 Fall-Back Overlap")
  }

  /** The event runs from the start of one day to the start of another, in this zone. */
  predicate RunsFrom(a: Almanac, zone: nat, from: int, to: int, row: Event) {
    row.startsAt == a.midnight(zone, from) && row.endsAt == a.midnight(zone, to)
  }

  predicate BulkDays(a: Almanac, zone: nat, number: int, row: Event) {
    RunsFrom(a, zone, (number - 1) * 3, (number - 1) * 3 + 14, row)
  }

  /** The `number`-th event, counted from 1, has its name and its days: a bulk event
      starts three days after the one before it and lasts two weeks, in one of five
      time zones; the others have their fixed dates. */
  ghost predicate Scheduled(a: Almanac, kind: EventKind, number: nat, row: Event) {
    && row == Event(row.name, row.startsAt, row.endsAt, 1, false, SEED_TIME)
    && match kind
       case Ordinary =>
         && row.name == "Seed Bulk Event " + Padded(number, 3)
         && exists zone: nat :: zone < 5 && BulkDays(a, zone, number, row)
       case Spring =>
         && row.name == "Seed DST Spring-Forward Fixture"
         && RunsFrom(a, NEW_YORK, 59, 74, row)
       case Fall =>
         && row.name == "Seed DST Fall-Back Fixture"
         && RunsFrom(a, NEW_YORK, 297, 336, row)
       case Large =>
         && row.name == "Seed Large-Scale Fixture Event"
         && RunsFrom(a, COLOMBO, 151, 241, row)
       case Demo =>
         && row.name == "Seed Demo Event"
         && RunsFrom(a, COLOMBO, 243, 257, row)
  }

  /** The event's rooms, in order, under their names. */
  ghost predicate Furnished(rows: seq<(Id, Room)>, event: Id, roomIds: seq<Id>) {
    && |rows| == |roomIds|
    && forall k | 0 <= k < |rows| :: rows[k] == (roomIds[k], Room(event, RoomName(k), None, 1, SEED_TIME))
  }

  /** All that belongs to the `number`-th event: its own row, its roster among the
      memberships, its rooms, its sessions in them, its invitations. */
  ghost predicate EventComplete(
    cfg: Config, a: Almanac, kind: EventKind, e: (Id, Event), number: nat, membersBefore: seq<(Id, Member)>,
    membersAfter: seq<(Id, Member)>, rooms: seq<(Id, Room)>, slots: seq<(Id, Session)>, sent: seq<(Id, Invitation)>)
  {
    && Scheduled(a, kind, number, e.1)
    && (exists ids: seq<Id>, admins: nat, contributors: nat ::
          Enrolled(
            membersBefore, membersAfter, e.0, ids, DemoRoles(kind), admins, contributors, UserTotal(cfg)))
    && (exists roomIds: seq<Id> ::
          Furnished(rooms, e.0, roomIds) && SlotsOfKind(cfg, a, kind, e.0, e.1, roomIds, slots))
    && |sent| == Pos(cfg.invitationsPerEvent) && Sent(sent, e.0, UserTotal(cfg), RealCount(cfg), number)
  }

  /** The rows of the five tables that an event brings with it. */
  datatype Rows = Rows(
    events: seq<(Id, Event)>, members: seq<(Id, Member)>, rooms: seq<(Id, Room)>, sessions: seq<(Id, Session)>,
    invitations: seq<(Id, Invitation)>)

  const NO_ROWS := Rows([], [], [], [], [])

  lemma NothingMade()
    ensures Rows([], [], [], [], []) == NO_ROWS
  {
  }

  /** `y` continues `x` in every table, by one event. */
  ghost predicate Continues(x: Rows, y: Rows) {
    && x.events <= y.events && |y.events| == |x.events| + 1
    && x.members <= y.members && x.rooms <= y.rooms && x.sessions <= y.sessions && x.invitations <= y.invitations
  }

  /** What `y` has beyond `x` is one complete event of this kind. */
  ghost predicate NextEvent(cfg: Config, a: Almanac, kind: EventKind, x: Rows, y: Rows)
    requires Continues(x, y)
  {
    EventComplete(
      cfg, a, kind, y.events[|x.events|], |y.events|, x.members, y.members, y.rooms[|x.rooms|..], y.sessions[|x.sessions|..],
      y.invitations[|x.invitations|..])
  }

  /** The rows are those of the events, event by event and in order, and nothing else. */
  ghost predicate Complete(cfg: Config, a: Almanac, kinds: seq<EventKind>, y: Rows)
    decreases |kinds|
  {
    if kinds == [] then y == NO_ROWS
    else
      exists x: Rows ::
        && Continues(x, y) && NextEvent(cfg, a, kinds[|kinds| - 1], x, y)
        && Complete(cfg, a, kinds[..|kinds| - 1], x)
  }

  /** From position `at` on, the rows grant `role` to `ids`, in order. */
  ghost predicate Granted(rows: seq<(Id, Member)>, at: nat, event: Id, ids: seq<Id>, role: Role) {
    && at + |ids| <= |rows|
    && forall i | 0 <= i < |ids| :: rows[at + i].1 == Member(event, ids[i], role, 1, SEED_TIME)
  }

  function RoleAt(i: nat, demo: seq<Role>, admins: nat, contributors: nat): Role {
    if i < |demo| then demo[i]
    else if i < |demo| + admins then Admin
    else if i < |demo| + admins + contributors then Contributor
    else Attendee
  }

  /** The new rows make `ids` members of the event: first at the demo roles, then
      one or two admins, two to five contributors and ten to forty attendees - or
      fewer, once the pool is exhausted. */
  ghost predicate Enrolled(
    before: seq<(Id, Member)>, after: seq<(Id, Member)>, event: Id, ids: seq<Id>, demo: seq<Role>, admins: nat,
    contributors: nat, pool: nat)
  {
    && before <= after && |after| == |before| + |ids|
    && (forall i | 0 <= i < |ids| ::
          after[|before| + i].1 == Member(event, ids[i], RoleAt(i, demo, admins, contributors), 1, SEED_TIME))
    && |demo| + admins + contributors <= |ids|
    && var attendees := |ids| - |demo| - admins - contributors;
    && admins <= 2 && contributors <= 5 && attendees <= 40
    && (|ids| < pool ==> admins >= 1 && contributors >= 2 && attendees >= 10)
  }

  /** Each event has its `share` of invitations, except that `pending` has `own`. */
  ghost predicate Counted(
    events: map<Id, Event>, invitations: seq<(Id, Invitation)>, pending: Option<Id>, own: nat, share: nat)
  {
    && (forall i | 0 <= i < |invitations| :: invitations[i].1.eventId in events)
    && (forall e | e in events :: InvitationCount(invitations, e) == if Some(e) == pending then own else share)
  }

  /** The invitations of `event` so far went to the first `i` accounts of `perm` and
      to made-up addresses numbered below `n`. */
  ghost predicate Addressed(
    invitations: map<Id, Invitation>, event: Id, perm: seq<nat>, i: nat, eventSeq: nat, n: nat)
    requires i <= |perm|
  {
    forall k | k in invitations && invitations[k].eventId == event ::
      || (exists j: nat :: j < i && invitations[k].email == Account(perm[j]).email)
      || (exists m: nat :: 1 <= m < n && invitations[k].email == ExternalEmail(eventSeq, m))
  }

  lemma FreshIsNext(d: DB, next: nat, pending: Option<Id>)
    requires Loaded(d, pending) && d.issued == Below(next)
    ensures Fresh(d, next) && Below(next + 1) == Below(next) + {next}
    ensures next !in d.events && next !in d.members && next !in d.rooms && next !in d.sessions && next !in d.invitations
  {
    BelowHolds(next);
  }

  predicate RoomUnused(sessions: map<Id, Session>, room: Id) {
    forall s | s in sessions :: sessions[s].roomId != room
  }

  lemma NewRoomIsUnused(d: DB, room: Id, pending: Option<Id>)
    requires Loaded(d, pending) && Fresh(d, room)
    ensures RoomUnused(d.sessions, room)
  {
    hide UsersOk, EventsOk, MembersOk, InvitationsOk, NoDoubleBooking, SeriesOk, HasAdmin;
  }

  /** A slot at the end of its room and clear on its speaker's calendar is free. */
  lemma SlotIsFree(sessions: map<Id, Session>, busy: map<Id, seq<Range>>, id: Id, row: Session)
    requires OnCalendar(sessions, busy) && RoomFreeFrom(sessions, row.roomId, row.startsAt)
    requires !Collides(Calendar(busy, row.speakerId), row.startsAt, row.endsAt)
    ensures !SlotTaken(sessions, id, row)
  {
    forall t | t in sessions ensures !Clash(row, sessions[t]) {
      var range := Range(sessions[t].startsAt, sessions[t].endsAt);
      if sessions[t].speakerId == row.speakerId {
        var ranges := Calendar(busy, row.speakerId);
        var i :| 0 <= i < |ranges| && ranges[i] == range;
      }
    }
  }

  lemma Reserved(sessions: map<Id, Session>, busy: map<Id, seq<Range>>, id: Id, row: Session)
    requires OnCalendar(sessions, busy) && id !in sessions && !row.deleted
    ensures var busy' := busy[row.speakerId := Calendar(busy, row.speakerId) + [Range(row.startsAt, row.endsAt)]];
      OnCalendar(sessions[id := row], busy') && |busy'| <= |busy| + 1
  {
  }

  /** Booking a free speaker at the end of a room keeps every constraint. */
  lemma Booking(d: DB, busy: map<Id, seq<Range>>, next: nat, row: Session)
    requires Loaded(d, None) && OnCalendar(d.sessions, busy) && d.issued == Below(next)
    requires row.roomId in d.rooms && d.rooms[row.roomId].eventId == row.eventId && row.speakerId in d.users
    requires row.startsAt < row.endsAt && row.version >= 1 && row.seriesId.None? && !row.deleted
    requires RoomFreeFrom(d.sessions, row.roomId, row.startsAt)
    requires !Collides(Calendar(busy, row.speakerId), row.startsAt, row.endsAt)
    ensures next !in d.sessions
    ensures Loaded(d.(sessions := d.sessions[next := row], issued := Below(next + 1)), None)
    ensures var busy' := busy[row.speakerId := Calendar(busy, row.speakerId) + [Range(row.startsAt, row.endsAt)]];
      OnCalendar(d.sessions[next := row], busy') && |busy'| <= |busy| + 1
  {
    hide Loaded, OnCalendar, RoomFreeFrom, Collides, Below;
    FreshIsNext(d, next, None);
    SlotIsFree(d.sessions, busy, next, row);
    SeedRows.PutSession(d, None, next, row);
    Reserved(d.sessions, busy, next, row);
  }

  lemma NothingGenerated(users: seq<(Id, User)>)
    requires Accounts(users)
    ensures Loaded(
      DB(AsMap(users), map[], map[], map[], map[], map[], map[], map[], [], [], Below(|users|)), None)
    ensures OnCalendar(map[], map[])
  {
    hide AsMap, Accounts, Below, Loaded, UsersOk;
    AccountsAreUnique(users);
    AccountsTable(users);
    BelowHolds(|users|);
    OnlyUsers(AsMap(users), Below(|users|));
  }

  lemma OnlyUsers(users: map<Id, User>, issued: set<Id>)
    requires UsersOk(users) && users.Keys <= issued
    ensures Loaded(DB(users, map[], map[], map[], map[], map[], map[], map[], [], [], issued), None)
  {
    hide UsersOk;
  }

  lemma NobodyGranted(rows: seq<(Id, Member)>, event: Id, picked: seq<Id>, role: Role)
    ensures Granted(rows, |rows|, event, picked[..0], role)
  {
  }

  lemma OneMoreGranted(rows: seq<(Id, Member)>, at: nat, event: Id, picked: seq<Id>, i: nat, role: Role, id: Id)
    requires i < |picked| && at + i == |rows| && Granted(rows, at, event, picked[..i], role)
    ensures Granted(rows + [(id, Member(event, picked[i], role, 1, SEED_TIME))], at, event, picked[..i + 1], role)
  {
  }

  lemma AllEnrolled(
    before: seq<(Id, Member)>, m0: seq<(Id, Member)>, m1: seq<(Id, Member)>, m2: seq<(Id, Member)>,
    after: seq<(Id, Member)>, event: Id, ids1: seq<Id>, ids2: seq<Id>, ids: seq<Id>, demo: seq<Role>, pool: nat)
    requires before <= m0 <= m1 <= m2 <= after && |m0| == |before| + |demo| && |demo| <= |ids1|
    requires ids1 <= ids2 <= ids && |m1| == |before| + |ids1| && |m2| == |before| + |ids2| && |after| == |before| + |ids|
    requires forall i | 0 <= i < |demo| :: m0[|before| + i].1 == Member(event, ids1[i], demo[i], 1, SEED_TIME)
    requires Granted(m1, |m0|, event, ids1[|demo|..], Admin)
    requires Granted(m2, |m1|, event, ids2[|ids1|..], Contributor)
    requires Granted(after, |m2|, event, ids[|ids2|..], Attendee)
    requires |ids1| - |demo| <= 2 && |ids2| - |ids1| <= 5 && |ids| - |ids2| <= 40
    requires |ids1| < pool ==> |ids1| - |demo| >= 1
    requires |ids2| < pool ==> |ids2| - |ids1| >= 2
    requires |ids| < pool ==> |ids| - |ids2| >= 10
    ensures Enrolled(before, after, event, ids, demo, |ids1| - |demo|, |ids2| - |ids1|, pool)
  {
    forall i | 0 <= i < |ids|
      ensures after[|before| + i].1 ==
        Member(event, ids[i], RoleAt(i, demo, |ids1| - |demo|, |ids2| - |ids1|), 1, SEED_TIME)
    {
      if i < |demo| {
        assert after[|before| + i] == m0[|before| + i];
      } else if i < |ids1| {
        assert after[|before| + i] == m1[|m0| + (i - |demo|)];
        assert ids1[|demo|..][i - |demo|] == ids[i];
      } else if i < |ids2| {
        assert after[|before| + i] == m2[|m1| + (i - |ids1|)];
        assert ids2[|ids1|..][i - |ids1|] == ids[i];
      } else {
        assert after[|before| + i] == after[|m2| + (i - |ids2|)];
        assert ids[|ids2|..][i - |ids2|] == ids[i];
      }
    }
  }

  function Elements(s: seq<Id>): set<Id> {
    set u | u in s
  }

  lemma ElementsAre(s: seq<Id>)
    ensures forall u: Id :: u in s <==> u in Elements(s)
  {
  }

  lemma ElementsGrow(s: seq<Id>, i: nat)
    requires i < |s|
    ensures Elements(s[..i + 1]) == Elements(s[..i]) + {s[i]}
  {
    assert s[..i + 1] == s[..i] + [s[i]];
  }

  lemma AccountAt(users: seq<(Id, User)>, i: nat)
    requires Accounts(users) && i < |users|
    ensures users[i].0 == i
  {
  }

  lemma NothingAccepted(stream: nat -> nat, p: nat, n: nat, exclude: set<Id>)
    requires n > 0
    ensures Accepted(stream, p, 0, n, exclude) == {}
  {
  }

  lemma EnoughDraws(stream: nat -> nat, p: nat, n: nat, exclude: set<Id>, want: nat) returns (len: nat)
    requires n > 0 && Offers(stream, p, n, exclude, want)
    ensures |Accepted(stream, p, len, n, exclude)| >= want
  {
    len :| |Accepted(stream, p, len, n, exclude)| >= want;
  }

  /** The picks in order, and as a set. */
  ghost predicate Picked(picked: seq<Id>, seen: set<Id>) {
    Distinct(picked) && Elements(picked) == seen && |seen| == |picked|
  }

  /** With too little accepted so far, the draws that are enough are not yet made. */
  lemma StillDrawing(
    stream: nat -> nat, p: nat, len: nat, enough: nat, n: nat, exclude: set<Id>, want: nat, picked: seq<Id>, seen: set<Id>)
    requires n > 0 && |Accepted(stream, p, enough, n, exclude)| >= want > |picked|
    requires Picked(picked, seen) && seen == Accepted(stream, p, len, n, exclude)
    ensures len < enough
    ensures Accepted(stream, p, len + 1, n, exclude) ==
      seen + if At(stream, p + len, n) in exclude then {} else {At(stream, p + len, n)}
  {
    if enough <= len {
      AcceptedGrows(stream, p, enough, len, n, exclude);
    }
  }

  lemma AllAcceptable(
    stream: nat -> nat, p: nat, len: nat, n: nat, exclude: set<Id>, picked: seq<Id>, seen: set<Id>)
    requires n > 0 && Picked(picked, seen) && seen == Accepted(stream, p, len, n, exclude)
    ensures Distinct(picked) && Elements(picked) == seen && forall u: Id | u in picked :: u < n && u !in exclude
  {
    hide Accepted, Distinct;
    AcceptedIsAcceptable(stream, p, len, n, exclude);
    ElementsAre(picked);
  }

  lemma CappedFits(n: int, available: int)
    ensures available >= 0 ==> Capped(n, available) <= available
  {
  }

  lemma WithinPoolSize(s: seq<Id>, n: nat)
    requires Elements(s) <= Below(n) && |Elements(s)| == |s|
    ensures |s| <= n
  {
    BelowHolds(n);
    SmallerSubset(Elements(s), Below(n));
  }

  lemma NothingPicked()
    ensures Distinct([]) && Elements([]) == {} && Picked([], {})
  {
  }

  lemma DistinctGrows(picked: seq<Id>, seen: set<Id>, id: Id)
    requires Picked(picked, seen) && id !in seen
    ensures Picked(picked + [id], seen + {id})
  {
  }

  lemma NotYetMember(members: map<Id, Member>, event: Id, exclude: set<Id>, picked: seq<Id>, i: nat)
    requires i < |picked| && Distinct(picked) && picked[i] !in exclude
    requires Roster(members, event, exclude + Elements(picked[..i]))
    ensures !IsMember(members, event, picked[i])
  {
    hide IsMember;
    assert picked[i] !in picked[..i];
  }

  lemma RosterGrows(
    before: map<Id, Member>, after: map<Id, Member>, id: Id, event: Id, user: Id, role: Role, who: set<Id>)
    requires Roster(before, event, who) && id !in before && after == before[id := Member(event, user, role, 1, SEED_TIME)]
    ensures Roster(after, event, who + {user})
  {
    forall u ensures IsMember(after, event, u) <==> u in who + {user} {
      if u == user {
        assert id in after && after[id].eventId == event && after[id].userId == user;
      } else if IsMember(before, event, u) {
        var m :| m in before && before[m].eventId == event && before[m].userId == u;
        assert m in after && after[m] == before[m];
      }
    }
  }

  lemma Singleton(id: Id)
    ensures Distinct([id]) && Elements([id]) == {id}
  {
  }

  lemma Joined(a: seq<Id>, b: seq<Id>)
    requires Distinct(a) && Distinct(b) && forall u | u in b :: u !in Elements(a)
    ensures Distinct(a + b) && Elements(a + b) == Elements(a) + Elements(b)
  {
    forall i, j | 0 <= i < j < |a + b| ensures (a + b)[i] != (a + b)[j] {
      if i < |a| <= j {
        assert b[j - |a|] in b && a[i] in Elements(a);
      }
    }
  }

  lemma WithinPool(s: seq<Id>, n: nat)
    requires Distinct(s) && forall u | u in s :: u < n
    ensures Elements(s) <= Below(n) && |Elements(s)| == |s|
    ensures forall u: Id :: u in s <==> u in Elements(s)
  {
    BelowHolds(n);
    DistinctCount(s);
  }

  lemma {:induction false} DistinctCount(s: seq<Id>)
    requires Distinct(s)
    ensures |Elements(s)| == |s|
  {
    if s != [] {
      var init, last := s[..|s| - 1], s[|s| - 1];
      DistinctCount(init);
      assert s == init + [last];
      assert last !in init;
      assert Elements(s) == Elements(init) + {last};
    }
  }

  /** The rooms of `event` so far carry the first `n` room names. */
  ghost predicate RoomsNamed(rooms: map<Id, Room>, event: Id, n: nat) {
    forall r | r in rooms && rooms[r].eventId == event :: exists k: nat :: k < n && rooms[r].name == RoomName(k)
  }

  /** A room of the event that hosts nothing yet. */
  ghost predicate RoomReady(rooms: map<Id, Room>, sessions: map<Id, Session>, room: Id, event: Id) {
    room in rooms && rooms[room].eventId == event && RoomUnused(sessions, room)
  }

  lemma NameIsFree(rooms: map<Id, Room>, id: Id, event: Id, k: nat)
    requires RoomsNamed(rooms, event, k)
    ensures !NameTaken(rooms, id, event, RoomName(k))
  {
    hide RoomName;
    forall r | r in rooms && rooms[r].eventId == event ensures rooms[r].name != RoomName(k) {
      var j: nat :| j < k && rooms[r].name == RoomName(j);
      RoomNamesDiffer(j, k);
    }
  }

  lemma RoomAdded(
    before: map<Id, Room>, after: map<Id, Room>, sessions: map<Id, Session>, ids: seq<Id>, id: Id, event: Id, k: nat)
    requires id !in before && after == before[id := Room(event, RoomName(k), None, 1, SEED_TIME)]
    requires RoomsNamed(before, event, k) && RoomUnused(sessions, id) && Distinct(ids)
    requires forall j | 0 <= j < |ids| :: RoomReady(before, sessions, ids[j], event)
    ensures RoomsNamed(after, event, k + 1) && Distinct(ids + [id])
    ensures forall j | 0 <= j < |ids| :: RoomReady(after, sessions, ids[j], event)
    ensures RoomReady(after, sessions, id, event)
  {
    hide RoomName, RoomUnused;
    forall r | r in after && after[r].eventId == event
      ensures exists j: nat :: j < k + 1 && after[r].name == RoomName(j)
    {
      if r != id {
        var j: nat :| j < k && before[r].name == RoomName(j);
        assert j < k + 1;
      }
    }
  }

  lemma SessionAdded(before: map<Id, Session>, rows: seq<(Id, Session)>, last: (Id, Session), room: Id)
    requires last.1.roomId == room && last.0 !in before
    ensures forall q | q != room && RoomUnused(before, q) :: RoomUnused(before[last.0 := last.1], q)
    ensures RoomFreeFrom(before, room, last.1.endsAt) ==> RoomFreeFrom(before[last.0 := last.1], room, last.1.endsAt)
    ensures forall q :: Load(rows + [last], q) == Load(rows, q) + if q == room then 1 else 0
  {
    forall q ensures Load(rows + [last], q) == Load(rows, q) + if q == room then 1 else 0 {
      LoadAppend(rows, last, q);
    }
  }

  lemma FreeLater(sessions: map<Id, Session>, room: Id, t: Time, u: Time)
    requires RoomFreeFrom(sessions, room, t) && t <= u
    ensures RoomFreeFrom(sessions, room, u)
  {
  }

  /** The session is at this place and time, under this title. */
  ghost predicate Slot(s: Session, event: Id, room: Id, title: string, start: Time, end: Time) {
    s == Session(event, room, s.speakerId, title, start, end, 1, false, None, SEED_TIME)
  }

  /** Where the session after `rows` starts: half an hour after the last one. */
  ghost function NextStart(rows: seq<(Id, Session)>, from: Time): Time {
    if rows == [] then from else rows[|rows| - 1].1.endsAt + 1_800_000_000_000
  }

  /** Half an hour, an hour or an hour and a half. */
  predicate Lasts(start: Time, end: Time) {
    end - start == 1_800_000_000_000 || end - start == 3_600_000_000_000 || end - start == 5_400_000_000_000
  }

  function SlotTitle(prefix: string, i: nat): string {
    prefix + " Session " + Decimal(i + 1)
  }

  /** Numbered sessions of 30, 60 or 90 minutes in one room, half an hour apart, from
      `from` on. */
  ghost predicate BackToBack(rows: seq<(Id, Session)>, event: Id, room: Id, from: Time, title: string) {
    forall i | 0 <= i < |rows| ::
      && Slot(rows[i].1, event, room, SlotTitle(title, i), NextStart(rows[..i], from), rows[i].1.endsAt)
      && Lasts(NextStart(rows[..i], from), rows[i].1.endsAt)
  }

  lemma NoneYet(rows: seq<(Id, Session)>, event: Id, room: Id, from: Time, title: string)
    ensures BackToBack(rows[|rows|..], event, room, from, title) && NextStart(rows[|rows|..], from) == from
  {
  }

  lemma OneMoreSlot(
    prior: seq<(Id, Session)>, rows: seq<(Id, Session)>, rows': seq<(Id, Session)>, event: Id, room: Id, from: Time, end: Time,
    title: string)
    requires prior <= rows <= rows' && |rows'| == |rows| + 1 && BackToBack(rows[|prior|..], event, room, from, title)
    requires var start := NextStart(rows[|prior|..], from);
      Slot(rows'[|rows|].1, event, room, SlotTitle(title, |rows| - |prior|), start, end) && Lasts(start, end)
    ensures BackToBack(rows'[|prior|..], event, room, from, title)
    ensures NextStart(rows'[|prior|..], from) == end + 1_800_000_000_000
  {
    hide Slot, SlotTitle;
    var before, after := rows[|prior|..], rows'[|prior|..];
    assert after == before + [rows'[|rows|]];
    SlotTimes(rows'[|rows|].1, event, room, SlotTitle(title, |before|), NextStart(before, from), end);
    forall i | 0 <= i < |after|
      ensures Slot(after[i].1, event, room, SlotTitle(title, i), NextStart(after[..i], from), after[i].1.endsAt)
      ensures Lasts(NextStart(after[..i], from), after[i].1.endsAt)
    {
      if i < |before| {
        assert after[..i] == before[..i];
      } else {
        assert after[..i] == before;
      }
    }
  }

  lemma SlotTimes(s: Session, event: Id, room: Id, title: string, start: Time, end: Time)
    requires Slot(s, event, room, title, start, end)
    ensures s.startsAt == start && s.endsAt == end
  {
  }

  lemma IsSlot(event: Id, room: Id, speaker: Id, title: string, start: Time, end: Time)
    ensures Slot(Session(event, room, speaker, title, start, end, 1, false, None, SEED_TIME), event, room, title, start, end)
  {
  }

  /** How many of `total` sessions go to room `k` of `n`: an even split, the first
      rooms taking one more; none if none are asked for. */
  function Share(total: int, n: nat, k: nat): nat
    requires n > 0
  {
    Pos(total) / n + if k < Pos(total) % n then 1 else 0
  }

  function SharesBelow(total: int, n: nat, k: nat): nat
    requires n > 0
  {
    if k == 0 then 0 else SharesBelow(total, n, k - 1) + Share(total, n, k - 1)
  }

  lemma SharesStep(total: int, n: nat)
    requires n > 0
    ensures SharesBelow(total, n, 0) == 0
    ensures forall k: nat :: SharesBelow(total, n, k + 1) == SharesBelow(total, n, k) + Share(total, n, k)
  {
  }

  /** Room loads differ by at most one. */
  lemma SharesAreEven(total: int, n: nat, j: nat, k: nat)
    requires n > 0
    ensures -1 <= Share(total, n, j) - Share(total, n, k) <= 1
  {
  }

  lemma {:induction false} SharesBelowIs(total: int, n: nat, k: nat)
    requires n > 0
    ensures SharesBelow(total, n, k) ==
            k * (Pos(total) / n) + if k < Pos(total) % n then k else Pos(total) % n
  {
    if k > 0 {
      SharesBelowIs(total, n, k - 1);
      assert k * (Pos(total) / n) == (k - 1) * (Pos(total) / n) + Pos(total) / n;
    }
  }

  /** The split gives out exactly the requested sessions. */
  lemma SharesFit(total: int, n: nat, k: nat)
    requires 0 < n && k <= n
    ensures SharesBelow(total, n, k) <= Pos(total) && SharesBelow(total, n, n) == Pos(total)
  {
    SharesBelowIs(total, n, k);
    SharesBelowIs(total, n, n);
    hide SharesBelow;
    MulMonotone(k, n, Pos(total) / n);
  }

  lemma ShareIs(total: int, n: nat, k: nat, base: int, rem: int, count: int)
    requires n > 0 && k < n
    requires base == (if total >= 0 then total / n else -((-total) / n)) && rem == total - base * n
    requires count == if k < rem then base + 1 else base
    ensures Pos(count) == Share(total, n, k)
  {
    if total >= 0 {
      assert total == total / n * n + total % n;
    } else {
      assert -total == (-total) / n * n + (-total) % n;
      assert base * n == -((-total) / n * n);
      assert rem <= 0 && base <= 0;
    }
  }

  /** The rooms from position `k` on host nothing yet. */
  ghost predicate RoomsReady(rooms: map<Id, Room>, sessions: map<Id, Session>, roomIds: seq<Id>, k: nat, event: Id) {
    forall j | k <= j < |roomIds| :: RoomReady(rooms, sessions, roomIds[j], event)
  }

  /** The first `k` rooms have their share, the others nothing. */
  ghost predicate RoomsLoaded(rows: seq<(Id, Session)>, roomIds: seq<Id>, total: int, k: nat)
    requires roomIds != []
  {
    forall j | 0 <= j < |roomIds| :: Load(rows, roomIds[j]) == if j < k then Share(total, |roomIds|, j) else 0
  }

  lemma ReadyRoom(rooms: map<Id, Room>, sessions: map<Id, Session>, roomIds: seq<Id>, k: nat, event: Id, t: Time)
    requires k < |roomIds| && RoomsReady(rooms, sessions, roomIds, k, event)
    ensures roomIds[k] in rooms && rooms[roomIds[k]].eventId == event && RoomFreeFrom(sessions, roomIds[k], t)
  {
    assert RoomReady(rooms, sessions, roomIds[k], event);
  }

  lemma RoomDone(
    rooms: map<Id, Room>, before: map<Id, Session>, after: map<Id, Session>, rows: seq<(Id, Session)>,
    rows': seq<(Id, Session)>, roomIds: seq<Id>, total: int, k: nat, event: Id)
    requires Distinct(roomIds) && k < |roomIds| && RoomsReady(rooms, before, roomIds, k, event)
    requires RoomsLoaded(rows, roomIds, total, k)
    requires forall q | q != roomIds[k] && RoomUnused(before, q) :: RoomUnused(after, q)
    requires forall q :: Load(rows', q) == Load(rows, q) + if q == roomIds[k] then Share(total, |roomIds|, k) else 0
    ensures RoomsReady(rooms, after, roomIds, k + 1, event) && RoomsLoaded(rows', roomIds, total, k + 1)
  {
    hide RoomUnused, Load, Share;
    forall j | k < j < |roomIds| ensures RoomReady(rooms, after, roomIds[j], event) {
      assert RoomReady(rooms, before, roomIds[j], event);
    }
  }

  /** The sessions of room `j` follow those of the rooms before it, back to back. */
  ghost predicate Block(
    slots: seq<(Id, Session)>, event: Id, roomIds: seq<Id>, total: int, from: Time, title: string, j: nat)
    requires j < |roomIds|
  {
    var lo, hi := SharesBelow(total, |roomIds|, j), SharesBelow(total, |roomIds|, j + 1);
    lo <= hi <= |slots| && BackToBack(slots[lo..hi], event, roomIds[j], from, title)
  }

  /** The sessions of the first `k` rooms, room after room. */
  ghost predicate Blocks(
    slots: seq<(Id, Session)>, event: Id, roomIds: seq<Id>, total: int, from: Time, title: string, k: nat)
    requires k <= |roomIds|
  {
    forall j: nat | j < k :: Block(slots, event, roomIds, total, from, title, j)
  }

  lemma BlockAdded(
    prior: seq<(Id, Session)>, rows: seq<(Id, Session)>, rows': seq<(Id, Session)>, event: Id, roomIds: seq<Id>, total: int,
    from: Time, title: string, k: nat)
    requires prior <= rows <= rows' && roomIds != [] && k < |roomIds|
    requires |rows| == |prior| + SharesBelow(total, |roomIds|, k)
    requires |rows'| == |prior| + SharesBelow(total, |roomIds|, k + 1)
    requires Blocks(rows[|prior|..], event, roomIds, total, from, title, k)
    requires BackToBack(rows'[|rows|..], event, roomIds[k], from, title)
    ensures Blocks(rows'[|prior|..], event, roomIds, total, from, title, k + 1)
  {
    hide Block, SharesBelow, BackToBack;
    forall j: nat | j < k + 1 ensures Block(rows'[|prior|..], event, roomIds, total, from, title, j) {
      if j < k {
        BlockStays(rows[|prior|..], rows'[|prior|..], event, roomIds, total, from, title, j, k);
      } else {
        LastBlock(prior, rows, rows', event, roomIds, total, from, title, k);
      }
    }
  }

  lemma BlockStays(
    slots: seq<(Id, Session)>, slots': seq<(Id, Session)>, event: Id, roomIds: seq<Id>, total: int, from: Time, title: string,
    j: nat, k: nat)
    requires slots <= slots' && j < k <= |roomIds| && Block(slots, event, roomIds, total, from, title, j)
    ensures Block(slots', event, roomIds, total, from, title, j)
  {
    hide BackToBack, SharesBelow;
    var lo, hi := SharesBelow(total, |roomIds|, j), SharesBelow(total, |roomIds|, j + 1);
    assert slots'[lo..hi] == slots[lo..hi];
  }

  lemma LastBlock(
    prior: seq<(Id, Session)>, rows: seq<(Id, Session)>, rows': seq<(Id, Session)>, event: Id, roomIds: seq<Id>, total: int,
    from: Time, title: string, k: nat)
    requires prior <= rows <= rows' && k < |roomIds|
    requires |rows| == |prior| + SharesBelow(total, |roomIds|, k)
    requires |rows'| == |prior| + SharesBelow(total, |roomIds|, k + 1)
    requires BackToBack(rows'[|rows|..], event, roomIds[k], from, title)
    ensures Block(rows'[|prior|..], event, roomIds, total, from, title, k)
  {
    hide BackToBack, SharesBelow;
    assert rows'[|prior|..][SharesBelow(total, |roomIds|, k)..SharesBelow(total, |roomIds|, k + 1)] == rows'[|rows|..];
  }

  // ---------------------------------------------------------------------
  // Addresses and counts
  // ---------------------------------------------------------------------

  /** Of the event's invitations the first `known` go to accounts, at their own
      addresses; the others, numbered from 1, to made-up ones. */
  ghost predicate Sent(rows: seq<(Id, Invitation)>, event: Id, pool: nat, known: nat, eventSeq: nat) {
    forall i | 0 <= i < |rows| :: SentRow(rows[i].1, i, event, pool, known, eventSeq)
  }

  ghost predicate SentRow(row: Invitation, i: nat, event: Id, pool: nat, known: nat, eventSeq: nat) {
    if i < known then
      && row.userId.Some? && row.userId.value < pool
      && row == Invitation(event, row.userId, Account(row.userId.value).email, row.role, SEED_TIME)
    else row == Invitation(event, None, ExternalEmail(eventSeq, i - known + 1), row.role, SEED_TIME)
  }

  lemma NothingSent(rows: seq<(Id, Invitation)>, event: Id, pool: nat, known: nat, eventSeq: nat)
    ensures Sent(rows[|rows|..], event, pool, known, eventSeq)
  {
  }

  lemma OneMoreSent(
    prior: seq<(Id, Invitation)>, rows: seq<(Id, Invitation)>, rows': seq<(Id, Invitation)>, event: Id, pool: nat, known: nat,
    eventSeq: nat)
    requires prior <= rows <= rows' && |rows'| == |rows| + 1 && Sent(rows[|prior|..], event, pool, known, eventSeq)
    requires SentRow(rows'[|rows|].1, |rows| - |prior|, event, pool, known, eventSeq)
    ensures Sent(rows'[|prior|..], event, pool, known, eventSeq)
  {
    hide Account, ExternalEmail;
    assert rows'[|prior|..] == rows[|prior|..] + [rows'[|rows|]];
  }

  lemma NobodyAddressed(
    events: map<Id, Event>, rows: seq<(Id, Invitation)>, event: Id, perm: seq<nat>, eventSeq: nat, share: nat)
    requires event in events && Counted(events, rows, Some(event), 0, share)
    ensures Addressed(AsMap(rows), event, perm, 0, eventSeq, 1)
  {
    hide Account, ExternalEmail;
    NoneCounted(rows, event);
    forall k | k in AsMap(rows) ensures AsMap(rows)[k].eventId != event {
      TableRowsAreListed(rows, k);
    }
  }

  lemma AccountUnused(invitations: map<Id, Invitation>, event: Id, perm: seq<nat>, i: nat, eventSeq: nat)
    requires i < |perm| && Addressed(invitations, event, perm, i, eventSeq, 1)
    requires forall j, k | 0 <= j < k < |perm| :: perm[j] != perm[k]
    ensures !Invited(invitations, event, Account(perm[i]).email)
  {
    hide Account, ExternalEmail;
    forall j: nat | j < i ensures Account(perm[j]).email != Account(perm[i]).email {
      AccountEmailsDiffer(perm[j], perm[i]);
    }
  }

  lemma ExternalUnused(invitations: map<Id, Invitation>, event: Id, perm: seq<nat>, i: nat, eventSeq: nat, n: nat)
    requires i <= |perm| && Addressed(invitations, event, perm, i, eventSeq, n)
    ensures !Invited(invitations, event, ExternalEmail(eventSeq, n))
  {
    hide Account, ExternalEmail;
    forall j: nat | j < i ensures Account(perm[j]).email != ExternalEmail(eventSeq, n) {
      AccountIsInternal(perm[j], eventSeq, n);
    }
    forall m: nat | 1 <= m < n ensures ExternalEmail(eventSeq, m) != ExternalEmail(eventSeq, n) {
      ExternalEmailsDiffer(eventSeq, m, n);
    }
  }

  lemma CountGrows(
    rows: seq<(Id, Invitation)>, last: (Id, Invitation), events: map<Id, Event>, event: Id, own: nat, share: nat)
    requires Counted(events, rows, Some(event), own, share) && event in events && last.1.eventId == event
    ensures Counted(events, rows + [last], Some(event), own + 1, share)
  {
    hide InvitationCount;
    forall e | e in events
      ensures InvitationCount(rows + [last], e) == if e == event then own + 1 else share
    {
      InvitationCountAppend(rows, last, e);
    }
  }

  lemma AccountAddressed(
    before: map<Id, Invitation>, rows: seq<(Id, Invitation)>, last: (Id, Invitation), events: map<Id, Event>, event: Id,
    perm: seq<nat>, i: nat, eventSeq: nat, share: nat)
    requires i < |perm| && Addressed(before, event, perm, i, eventSeq, 1) && event in events
    requires last.1.eventId == event && last.1.email == Account(perm[i]).email && last.0 !in before
    requires Counted(events, rows, Some(event), i, share)
    ensures Addressed(before[last.0 := last.1], event, perm, i + 1, eventSeq, 1)
    ensures Counted(events, rows + [last], Some(event), i + 1, share)
  {
    hide Account, ExternalEmail, Counted;
    CountGrows(rows, last, events, event, i, share);
    var after := before[last.0 := last.1];
    forall k | k in after && after[k].eventId == event
      ensures exists j: nat :: j < i + 1 && after[k].email == Account(perm[j]).email
    {
      if k != last.0 {
        var j: nat :| j < i && before[k].email == Account(perm[j]).email;
        assert j < i + 1;
      }
    }
  }

  lemma ExternalAddressed(
    before: map<Id, Invitation>, rows: seq<(Id, Invitation)>, last: (Id, Invitation), events: map<Id, Event>, event: Id,
    perm: seq<nat>, i: nat, eventSeq: nat, n: nat, share: nat)
    requires i <= |perm| && n >= 1 && Addressed(before, event, perm, i, eventSeq, n) && event in events
    requires last.1.eventId == event && last.1.email == ExternalEmail(eventSeq, n) && last.0 !in before
    requires Counted(events, rows, Some(event), i + n - 1, share)
    ensures Addressed(before[last.0 := last.1], event, perm, i, eventSeq, n + 1)
    ensures Counted(events, rows + [last], Some(event), i + n, share)
  {
    hide Account, ExternalEmail, Counted;
    CountGrows(rows, last, events, event, i + n - 1, share);
  }

  lemma AllCounted(events: map<Id, Event>, rows: seq<(Id, Invitation)>, event: Id, own: nat, share: nat)
    requires Counted(events, rows, Some(event), own, share) && own == share
    ensures Counted(events, rows, None, 0, share)
  {
  }

  // ---------------------------------------------------------------------
  // Events
  // ---------------------------------------------------------------------

  lemma AscendAt(midnight: (nat, int) -> Time, z: nat, a: int, b: int)
    requires Ascend(midnight) && a < b
    ensures midnight(z, a) < midnight(z, b)
  {
  }

  lemma PosGrows(x: int, y: int)
    requires x <= y
    ensures Pos(x) <= Pos(y) && (x >= 0 ==> Pos(x) == x)
  {
  }

  /** A new event has no members, rooms or invitations. */
  lemma NothingYet(d: DB, event: Id, row: Event, rows: seq<(Id, Invitation)>, share: nat)
    requires Loaded(d, None) && Fresh(d, event) && Counted(d.events, rows, None, 0, share)
    ensures Roster(d.members, event, {}) && RoomsNamed(d.rooms, event, 0)
    ensures Counted(d.events[event := row], rows, Some(event), 0, share)
  {
    hide UsersOk, EventsOk, UniqueMembers, UniqueRooms, InvitationsOk, SessionRefsOk, NoDoubleBooking, SeriesOk, HasAdmin,
      InvitationCount;
    NoneCounted(rows, event);
  }

  lemma TwoRooms(
    rooms: map<Id, Room>, sessions: map<Id, Session>, roomIds: seq<Id>, event: Id, s: Time, t: Time)
    requires |roomIds| == 2 && Distinct(roomIds) && RoomsReady(rooms, sessions, roomIds, 0, event)
    ensures roomIds[0] in rooms && rooms[roomIds[0]].eventId == event && RoomFreeFrom(sessions, roomIds[0], s)
    ensures roomIds[1] in rooms && rooms[roomIds[1]].eventId == event && RoomUnused(sessions, roomIds[1])
    ensures roomIds[0] != roomIds[1]
  {
    assert RoomReady(rooms, sessions, roomIds[0], event) && RoomReady(rooms, sessions, roomIds[1], event);
  }

  lemma UnusedIsFree(sessions: map<Id, Session>, room: Id, t: Time)
    requires RoomUnused(sessions, room)
    ensures RoomFreeFrom(sessions, room, t)
  {
  }

  // ---------------------------------------------------------------------
  // The order of the events
  // ---------------------------------------------------------------------

  /** The events in order: the bulk events, the two fixtures, the large and the demo event. */
  function Ordinaries(n: nat): (kinds: seq<EventKind>)
    ensures |kinds| == n && forall i | 0 <= i < n :: kinds[i] == Ordinary
  {
    if n == 0 then [] else Ordinaries(n - 1) + [Ordinary]
  }

  const SPECIALS := [Spring, Fall, Large, Demo]

  lemma UsersExist(cfg: Config)
    ensures UserTotal(cfg) > 0
  {
  }

  lemma NothingIsComplete(cfg: Config)
    ensures forall a :: Complete(cfg, a, Ordinaries(0), NO_ROWS)
  {
  }

  lemma OneMoreOrdinary(n: nat)
    ensures Ordinaries(n + 1) == Ordinaries(n) + [Ordinary]
  {
  }

  lemma SpecialsLast(kinds: seq<EventKind>)
    ensures kinds + [Spring] + [Fall] + [Large] + [Demo] == kinds + SPECIALS
  {
  }

  lemma PermutesIsSame(a: seq<Id>, b: seq<Id>)
    requires Permutes(a, b)
    ensures forall x :: x in a <==> x in b
  {
    SameElements(a, b);
  }

  lemma TotalIs(cfg: Config)
    ensures UserTotal(cfg) == if cfg.userCount < 3 then 3 else cfg.userCount
  {
  }

  lemma ContainsAll(ids: seq<Id>, pool: seq<Id>, n: nat)
    requires |ids| == n && (forall i: nat | i < n :: ids[i] == i) && forall x :: x in ids <==> x in pool
    ensures forall u: Id :: u in pool <==> u < n
  {
    forall u: Id ensures u in pool <==> u < n {
      if u < n {
        assert ids[u] in ids;
      }
    }
  }

  lemma SessionBudget(cfg: Config, i: nat)
    requires Runnable(cfg) && i <= Pos(cfg.bulkEventCount)
    ensures i < Pos(cfg.bulkEventCount) ==> i * Pos(cfg.maxSessions) + Pos(cfg.maxSessions) <= UserTotal(cfg)
    ensures i * Pos(cfg.maxSessions) + 6 + Pos(cfg.largeSessions) + Pos(cfg.maxSessions) <= MostSessions(cfg)
    ensures MostSessions(cfg) <= UserTotal(cfg)
  {
    MulMonotone(i + 1, Pos(cfg.bulkEventCount) + 1, Pos(cfg.maxSessions));
    assert (i + 1) * Pos(cfg.maxSessions) == i * Pos(cfg.maxSessions) + Pos(cfg.maxSessions);
  }

  // ---------------------------------------------------------------------
  // One event's own rows
  // ---------------------------------------------------------------------

  lemma NoSlots(rows: seq<(Id, Session)>, event: Id)
    ensures AllOf(rows[|rows|..], event)
  {
  }

  lemma SlotsAreOf(
    prior: seq<(Id, Session)>, rows: seq<(Id, Session)>, rows': seq<(Id, Session)>, event: Id, room: Id, from: Time,
    title: string)
    requires prior <= rows <= rows' && AllOf(rows[|prior|..], event) && BackToBack(rows'[|rows|..], event, room, from, title)
    ensures AllOf(rows'[|prior|..], event)
  {
    forall i | |prior| <= i < |rows'| ensures rows'[i].1.eventId == event {
      if i < |rows| {
        assert rows[|prior|..][i - |prior|] == rows'[i];
      } else {
        assert rows'[|rows|..][i - |rows|] == rows'[i];
      }
    }
  }

  lemma {:induction false} LoadOfSlice(prior: seq<(Id, Session)>, rows: seq<(Id, Session)>, room: Id)
    requires prior <= rows
    ensures Load(rows, room) == Load(prior, room) + Load(rows[|prior|..], room)
    decreases |rows|
  {
    if |rows| > |prior| {
      var init, slice := rows[..|rows| - 1], rows[|prior|..];
      LoadOfSlice(prior, init, room);
      assert slice[..|slice| - 1] == init[|prior|..] && slice[|slice| - 1] == rows[|rows| - 1];
    } else {
      assert rows == prior;
    }
  }

  lemma SlicesLoaded(
    prior: seq<(Id, Session)>, rows: seq<(Id, Session)>, event: Id, startsAt: Time, name: string, roomIds: seq<Id>, total: int)
    requires prior <= rows && roomIds != [] && Distinct(roomIds) && |rows| == |prior| + Pos(total)
    requires RoomsLoaded(prior, roomIds, total, 0) && RoomsLoaded(rows, roomIds, total, |roomIds|)
    requires AllOf(rows[|prior|..], event)
    requires Blocks(rows[|prior|..], event, roomIds, total, startsAt + 32_400_000_000_000, name, |roomIds|)
    ensures SlotsFor(event, startsAt, name, rows[|prior|..], roomIds, total)
  {
    hide Load, Share, AllOf, Blocks;
    forall j | 0 <= j < |roomIds| ensures Load(rows[|prior|..], roomIds[j]) == Share(total, |roomIds|, j) {
      LoadOfSlice(prior, rows, roomIds[j]);
    }
  }

  lemma IsProgramme(
    event: Id, startsAt: Time, name: string, slots: seq<(Id, Session)>, roomIds: seq<Id>, total: int, minRooms: int,
    maxRooms: int, minSessions: int, maxSessions: int)
    requires SlotsFor(event, startsAt, name, slots, roomIds, total)
    requires minRooms <= |roomIds| <= maxRooms && minSessions <= total <= maxSessions
    ensures Programme(event, startsAt, name, roomIds, slots, minRooms, maxRooms, minSessions, maxSessions)
  {
    hide SlotsFor;
  }

  /** A filler-and-fixture programme, from its two parts. */
  lemma IsFixture(
    prior: seq<(Id, Session)>, first: seq<(Id, Session)>, rows: seq<(Id, Session)>, event: Id, startsAt: Time, name: string,
    roomIds: seq<Id>, fixture: Range, title: string)
    requires prior <= first <= rows && |first| == |prior| + 1 && |rows| == |first| + 2
    requires |roomIds| == 2 && roomIds[0] != roomIds[1]
    requires Slot(first[|prior|].1, event, roomIds[0], title, fixture.start, fixture.end)
    requires BackToBack(rows[|first|..], event, roomIds[1], startsAt + 32_400_000_000_000, name + " Filler")
    ensures FixtureSlots(event, startsAt, name, roomIds, rows[|prior|..], fixture, title)
  {
    hide SlotTitle;
    var fillers := rows[|first|..];
    assert rows[|prior|..] == [first[|prior|], fillers[0], fillers[1]];
    assert rows[|prior|..][1..] == fillers;
  }

  lemma IsNextEvent(
    cfg: Config, a: Almanac, kind: EventKind, x: Rows, y: Rows, ids: seq<Id>, admins: nat, contributors: nat, roomIds: seq<Id>)
    requires Continues(x, y)
    requires var e := y.events[|x.events|];
      && Scheduled(a, kind, |y.events|, e.1)
      && Enrolled(x.members, y.members, e.0, ids, DemoRoles(kind), admins, contributors, UserTotal(cfg))
      && Furnished(y.rooms[|x.rooms|..], e.0, roomIds)
      && SlotsOfKind(cfg, a, kind, e.0, e.1, roomIds, y.sessions[|x.sessions|..])
      && |y.invitations| == |x.invitations| + Pos(cfg.invitationsPerEvent)
      && Sent(y.invitations[|x.invitations|..], e.0, UserTotal(cfg), RealCount(cfg), |y.events|)
    ensures NextEvent(cfg, a, kind, x, y)
  {
    hide Enrolled, SlotsOfKind, Sent, Scheduled, Furnished, DemoRoles;
    var e := y.events[|x.events|];
    assert Enrolled(x.members, y.members, e.0, ids, DemoRoles(kind), admins, contributors, UserTotal(cfg));
    assert Furnished(y.rooms[|x.rooms|..], e.0, roomIds);
  }

  lemma OneMoreEvent(cfg: Config, a: Almanac, kinds: seq<EventKind>, kind: EventKind, x: Rows, y: Rows)
    requires Complete(cfg, a, kinds, x) && Continues(x, y) && NextEvent(cfg, a, kind, x, y)
    ensures Complete(cfg, a, kinds + [kind], y)
  {
    hide NextEvent, Continues;
    assert (kinds + [kind])[..|kinds|] == kinds;
  }

  // ---------------------------------------------------------------------
  // Recognising what was just made
  // ---------------------------------------------------------------------

  lemma NineHours(t: Time)
    ensures t + 9 * HOUR == t + 32_400_000_000_000
  {
  }

  lemma DaysPass(a: Almanac, zone: nat, from: int, to: int)
    requires AlmanacOk(a) && from < to
    ensures a.midnight(zone, from) < a.midnight(zone, to)
    ensures a.spring.start < a.spring.end && a.fall.start < a.fall.end
  {
    AscendAt(a.midnight, zone, from, to);
  }

  lemma BulkIsScheduled(a: Almanac, i: nat, zone: nat, row: Event)
    requires zone < 5
    requires row ==
      Event("Seed Bulk Event " + Padded(i + 1, 3), a.midnight(zone, i * 3), a.midnight(zone, i * 3 + 14), 1, false, SEED_TIME)
    ensures Scheduled(a, Ordinary, i + 1, row)
  {
    hide Padded;
    assert BulkDays(a, zone, i + 1, row);
  }

  lemma DemoIsScheduled(a: Almanac, number: nat, row: Event)
    requires row == Event("Seed Demo Event", a.midnight(COLOMBO, 243), a.midnight(COLOMBO, 257), 1, false, SEED_TIME)
    ensures Scheduled(a, Demo, number, row)
  {
  }

  lemma LargeIsScheduled(a: Almanac, number: nat, row: Event)
    requires row ==
      Event("Seed Large-Scale Fixture Event", a.midnight(COLOMBO, 151), a.midnight(COLOMBO, 241), 1, false, SEED_TIME)
    ensures Scheduled(a, Large, number, row)
  {
  }

  lemma FixturesAreScheduled(a: Almanac, made: nat)
    ensures Scheduled(
      a, Spring, made + 1,
      Event("Seed DST Spring-Forward Fixture", a.midnight(NEW_YORK, 59), a.midnight(NEW_YORK, 74), 1, false, SEED_TIME))
    ensures Scheduled(
      a, Fall, made + 2,
      Event("Seed DST Fall-Back Fixture", a.midnight(NEW_YORK, 297), a.midnight(NEW_YORK, 336), 1, false, SEED_TIME))
    ensures FixtureOf(a, Spring) == a.spring && FixtureTitle(Spring) == "Crosses 2026-03-08 Spring-Forward Gap"
    ensures FixtureOf(a, Fall) == a.fall && FixtureTitle(Fall) == "Crosses 2026-11-01 Fall-Back Overlap"
  {
  }

  function FixtureOf(a: Almanac, kind: EventKind): Range {
    if kind == Spring then a.spring else a.fall
  }

  function FixtureTitle(kind: EventKind): string {
    if kind == Spring then "Crosses 2026-03-08 Spring-Forward Gap" else "Crosses 2026-11-01 Fall-Back Overlap"
  }

  lemma OrdinarySlots(
    cfg: Config, a: Almanac, kind: EventKind, event: Id, row: Event, roomIds: seq<Id>, slots: seq<(Id, Session)>)
    requires kind == Ordinary || kind == Demo
    requires Programme(
      event, row.startsAt, row.name, roomIds, slots, cfg.minRooms, cfg.maxRooms, cfg.minSessions, cfg.maxSessions)
    ensures SlotsOfKind(cfg, a, kind, event, row, roomIds, slots)
  {
    hide Programme;
  }

  lemma LargeSlots(cfg: Config, a: Almanac, event: Id, row: Event, roomIds: seq<Id>, slots: seq<(Id, Session)>)
    requires Programme(
      event, row.startsAt, row.name, roomIds, slots, cfg.largeRooms, cfg.largeRooms, cfg.largeSessions, cfg.largeSessions)
    ensures SlotsOfKind(cfg, a, Large, event, row, roomIds, slots)
  {
    hide Programme;
  }

  lemma FixtureIsOfKind(
    cfg: Config, a: Almanac, kind: EventKind, event: Id, row: Event, roomIds: seq<Id>, slots: seq<(Id, Session)>)
    requires kind == Spring || kind == Fall
    requires FixtureSlots(event, row.startsAt, row.name, roomIds, slots, FixtureOf(a, kind), FixtureTitle(kind))
    ensures SlotsOfKind(cfg, a, kind, event, row, roomIds, slots)
  {
    hide FixtureSlots;
  }

  lemma NoBlocks(rows: seq<(Id, Session)>, event: Id, roomIds: seq<Id>, total: int, from: Time, title: string)
    requires roomIds != []
    ensures Blocks(rows[|rows|..], event, roomIds, total, from, title, 0)
  {
  }

  lemma AccountSent(
    row: Invitation, i: nat, event: Id, pool: nat, known: nat, eventSeq: nat, user: Id, role: Role)
    requires i < known && user < pool && row == Invitation(event, Some(user), Account(user).email, role, SEED_TIME)
    ensures SentRow(row, i, event, pool, known, eventSeq)
  {
    hide Account, ExternalEmail;
  }

  lemma ExternalSent(
    row: Invitation, n: nat, event: Id, pool: nat, known: nat, eventSeq: nat, role: Role)
    requires n >= 1 && row == Invitation(event, None, ExternalEmail(eventSeq, n), role, SEED_TIME)
    ensures SentRow(row, known + n - 1, event, pool, known, eventSeq)
  {
    hide Account, ExternalEmail;
  }
}

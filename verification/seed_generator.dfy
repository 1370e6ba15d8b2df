/** The seed generator: rows appended event by event from one random stream, with
    one speaker calendar for the whole dataset. */
module SeedGenerator {
  import opened Domain
  import opened Tables
  import opened RoomTx
  import opened Arithmetic
  import opened Random
  import opened Sampling
  import opened SeedNames
  import opened SeedPlan
  import opened SeedRows
  import opened SeedSchedule
  import opened Text

  method GenerateUsers(userCount: int) returns (users: seq<(Id, User)>)
    ensures Accounts(users) && |users| == if userCount < 3 then 3 else userCount
  {
    users := [];
    for i := 0 to 3
      invariant |users| == i && Accounts(users)
    {
      users := users + [(i, DemoUser(i))];
    }
    var n := 1;
    while |users| < userCount
      invariant |users| == n + 2 && Accounts(users)
      invariant 3 <= |users| && (userCount < 3 ==> |users| == 3) && (userCount >= 3 ==> |users| <= userCount)
    {
      users := users + [(|users|, SeedUser(n))];
      n := n + 1;
    }
  }

  class Generator {
    const cfg: Config
    const r: Rand
    const users: seq<(Id, User)>
    const externalPool: seq<Id>
    const sched: SpeakerSchedule
    ghost var booked: map<Id, seq<Range>>
    var eventSeq: nat
    var nextId: nat
    var events: seq<(Id, Event)>
    var members: seq<(Id, Member)>
    var rooms: seq<(Id, Room)>
    var sessions: seq<(Id, Session)>
    var invitations: seq<(Id, Invitation)>

    ghost function View(): DB
      reads this
    {
      DB(AsMap(users), AsMap(events), AsMap(members), AsMap(rooms), AsMap(sessions), AsMap(invitations),
         map[], map[], [], [], Below(nextId))
    }

    /** What has been generated for the events so far. */
    ghost function Made(): Rows
      reads this
    {
      Rows(events, members, rooms, sessions, invitations)
    }

    /** The rows so far satisfy the store's constraints, and the calendar - which
        `booked` is, between calls - knows every booking. */
    ghost predicate Valid(pending: Option<Id>)
      reads this
    {
      && Runnable(cfg) && |users| == UserTotal(cfg) && Accounts(users)
      && (forall u: Id :: u in externalPool <==> u < |users|) && Fair(r.stream, |users|)
      && Loaded(View(), pending)
      && OnCalendar(AsMap(sessions), booked) && |booked| <= |sessions| && Keyed(sessions)
    }

    constructor (cfg: Config, r: Rand, users: seq<(Id, User)>, externalPool: seq<Id>)
      requires Runnable(cfg) && |users| == UserTotal(cfg) && Accounts(users)
      requires (forall u: Id :: u in externalPool <==> u < |users|) && Fair(r.stream, |users|)
      ensures Valid(None) && fresh(sched) && sched.busy == booked && this.cfg == cfg && this.r == r && this.users == users
      ensures events == [] && members == [] && rooms == [] && sessions == [] && invitations == [] && eventSeq == 0
    {
      this.cfg, this.r, this.users, this.externalPool := cfg, r, users, externalPool;
      sched := new SpeakerSchedule();
      booked := map[];
      eventSeq, nextId := 0, |users|;
      events, members, rooms, sessions, invitations := [], [], [], [], [];
      new;
      hide Loaded, OnCalendar, Accounts, Fair, Below;
      NothingGenerated(users);
    }

    // -------------------------------------------------------------------
    // Appending one row
    // -------------------------------------------------------------------

    method AppendMember(event: Id, user: Id, role: Role, ghost pending: Option<Id>)
      requires Valid(pending) && event in AsMap(events) && user < |users| && !IsMember(AsMap(members), event, user)
      modifies this`members, this`nextId
      ensures Valid(if role == Admin && pending == Some(event) then None else pending)
      ensures members == old(members) + [(old(nextId), Member(event, user, role, 1, SEED_TIME))]
      ensures AsMap(members) == old(AsMap(members))[old(nextId) := Member(event, user, role, 1, SEED_TIME)]
      ensures old(nextId) !in old(AsMap(members))
    {
      hide Loaded, OnCalendar, Accounts, Fair, AsMap, Keyed, Runnable;
      ghost var before := View();
      FreshIsNext(before, nextId, pending);
      AccountsTable(users);
      var row := Member(event, user, role, 1, SEED_TIME);
      AppendIsPut(members, nextId, row);
      SeedRows.PutMember(before, pending, nextId, row);
      members := members + [(nextId, row)];
      nextId := nextId + 1;
    }

    method AppendRoom(event: Id, name: string, ghost pending: Option<Id>) returns (id: Id)
      requires Valid(pending) && event in AsMap(events) && !NameTaken(AsMap(rooms), nextId, event, name)
      modifies this`rooms, this`nextId
      ensures Valid(pending) && id == old(nextId)
      ensures rooms == old(rooms) + [(id, Room(event, name, None, 1, SEED_TIME))]
      ensures AsMap(rooms) == old(AsMap(rooms))[id := Room(event, name, None, 1, SEED_TIME)]
      ensures id !in old(AsMap(rooms)) && RoomUnused(AsMap(sessions), id)
    {
      hide Loaded, OnCalendar, Accounts, Fair, AsMap, Keyed, Runnable, NameTaken, RoomUnused;
      ghost var before := View();
      FreshIsNext(before, nextId, pending);
      NewRoomIsUnused(before, nextId, pending);
      var row := Room(event, name, None, 1, SEED_TIME);
      AppendIsPut(rooms, nextId, row);
      SeedRows.PutRoom(before, pending, nextId, row);
      id := nextId;
      rooms := rooms + [(nextId, row)];
      nextId := nextId + 1;
    }

    method AppendInvitation(event: Id, user: Option<Id>, email: string, role: Role)
      requires Valid(None) && event in AsMap(events) && (user.Some? ==> user.value < |users|)
      requires !Invited(AsMap(invitations), event, email)
      modifies this`invitations, this`nextId
      ensures Valid(None)
      ensures invitations == old(invitations) + [(old(nextId), Invitation(event, user, email, role, SEED_TIME))]
      ensures AsMap(invitations) == old(AsMap(invitations))[old(nextId) := Invitation(event, user, email, role, SEED_TIME)]
      ensures old(nextId) !in old(AsMap(invitations))
    {
      hide Loaded, OnCalendar, Accounts, Fair, AsMap, Keyed, Runnable, Invited;
      ghost var before := View();
      FreshIsNext(before, nextId, None);
      AccountsTable(users);
      var row := Invitation(event, user, email, role, SEED_TIME);
      AppendIsPut(invitations, nextId, row);
      SeedRows.PutInvitation(before, None, nextId, row);
      invitations := invitations + [(nextId, row)];
      nextId := nextId + 1;
    }

    /** Book the speaker and append the session. */
    method AppendSession(event: Id, room: Id, speaker: Id, title: string, start: Time, end: Time)
      requires Valid(None) && sched.busy == booked && room in AsMap(rooms) && AsMap(rooms)[room].eventId == event && speaker < |users|
      requires start < end && RoomFreeFrom(AsMap(sessions), room, start)
      requires !Collides(Calendar(sched.busy, speaker), start, end)
      modifies this`sessions, this`nextId, this`booked, sched
      ensures Valid(None) && sched.busy == booked
      ensures sessions == old(sessions) + [(old(nextId), Session(event, room, speaker, title, start, end, 1, false, None, SEED_TIME))]
      ensures AsMap(sessions) ==
        old(AsMap(sessions))[old(nextId) := Session(event, room, speaker, title, start, end, 1, false, None, SEED_TIME)]
      ensures old(nextId) !in old(AsMap(sessions))
    {
      hide Loaded, Accounts, Fair, AsMap, Keyed, Runnable, Collides, RoomFreeFrom, OnCalendar, Calendar, Below;
      ghost var before := View();
      AccountsTable(users);
      var row := Session(event, room, speaker, title, start, end, 1, false, None, SEED_TIME);
      AppendIsPut(sessions, nextId, row);
      Booking(before, sched.busy, nextId, row);
      AppendKeepsKeyed(sessions, nextId, row);
      sched.Reserve(speaker, start, end);
      booked := sched.busy;
      sessions := sessions + [(nextId, row)];
      nextId := nextId + 1;
    }

    // -------------------------------------------------------------------
    // Members
    // -------------------------------------------------------------------

    /** Up to `n` distinct accounts outside `exclude`, by rejection: a draw already
        seen or excluded is drawn again. The loop ends exactly on the streams that
        offer enough acceptable accounts, and then has taken what they offered. */
    method PickDistinctUsers(n: int, exclude: set<Id>) returns (picked: seq<Id>)
      requires Accounts(users) && |users| > 0 && exclude <= Below(|users|)
      requires Offers(r.stream, r.pos, |users|, exclude, Capped(n, |users| - |exclude|))
      modifies r
      ensures Distinct(picked) && forall u | u in picked :: u < |users| && u !in exclude
      ensures |picked| == Capped(n, |users| - |exclude|)
      ensures r.pos >= old(r.pos) && Elements(picked) == Accepted(r.stream, old(r.pos), r.pos - old(r.pos), |users|, exclude)
    {
      hide Accounts, Below, Distinct, Elements, Offers, Accepted, At, Picked;
      ghost var from := r.pos;
      NothingAccepted(r.stream, from, |users|, exclude);
      var want := n;
      var available := |users| - |exclude|;
      if want > available {
        want := available;
      }
      picked := [];
      NothingPicked();
      if want <= 0 {
        return;
      }
      var seen: set<Id> := {};
      ghost var enough := EnoughDraws(r.stream, from, |users|, exclude, want);
      while |picked| < want
        invariant Picked(picked, seen) && |picked| <= want && r.pos >= from
        invariant seen == Accepted(r.stream, from, r.pos - from, |users|, exclude)
        decreases from + enough - r.pos
      {
        StillDrawing(r.stream, from, r.pos - from, enough, |users|, exclude, want, picked, seen);
        var drawn := r.Intn(|users|);
        AccountAt(users, drawn);
        var id := users[drawn].0;
        if id !in seen && id !in exclude {
          DistinctGrows(picked, seen, id);
          seen := seen + {id};
          picked := picked + [id];
        }
      }
      AllAcceptable(r.stream, from, r.pos - from, |users|, exclude, picked, seen);
    }

    /** `memberIds` are the event's members so far, all of them accounts. */
    ghost predicate Chosen(event: Id, memberIds: seq<Id>)
      reads this
    {
      && Distinct(memberIds) && (forall u | u in memberIds :: u < |users|)
      && Roster(AsMap(members), event, Elements(memberIds))
    }

    /** Grant one role to up to `count` accounts that have none in the event yet. */
    method AddRole(event: Id, memberIds: seq<Id>, count: int, role: Role, ghost pending: Option<Id>) returns (all: seq<Id>)
      requires Valid(pending) && event in AsMap(events) && Chosen(event, memberIds)
      requires pending.None? || pending == Some(event)
      modifies this`members, this`nextId, r
      ensures memberIds <= all && Chosen(event, all)
      ensures |all| == |memberIds| + Capped(count, |users| - |memberIds|)
      ensures Valid(if role == Admin && |all| > |memberIds| then None else pending)
      ensures old(members) <= members && Granted(members, |old(members)|, event, all[|memberIds|..], role)
      ensures |members| - |all| == |old(members)| - |memberIds|
    {
      hide *;
      ValidParts(pending);
      ChosenParts(event, memberIds);
      WithinPool(memberIds, |users|);
      CappedFits(count, |users| - |memberIds|);
      WithinPoolSize(memberIds, |users|);
      FairOffers(r.stream, r.pos, |users|, Elements(memberIds), Capped(count, |users| - |memberIds|));
      var picked := PickDistinctUsers(count, Elements(memberIds));
      Grant(event, picked, role, Elements(memberIds), pending);
      Joined(memberIds, picked);
      ChosenIs(event, memberIds + picked);
      all := memberIds + picked;
      assert all[|memberIds|..] == picked;
    }

    method Grant(event: Id, picked: seq<Id>, role: Role, ghost exclude: set<Id>, ghost pending: Option<Id>)
      requires Valid(pending) && event in AsMap(events) && Roster(AsMap(members), event, exclude)
      requires pending.None? || pending == Some(event)
      requires Distinct(picked) && forall u | u in picked :: u < |users| && u !in exclude
      modifies this`members, this`nextId
      ensures Valid(if role == Admin && picked != [] then None else pending)
      ensures Roster(AsMap(members), event, exclude + Elements(picked))
      ensures old(members) <= members && |members| == |old(members)| + |picked|
      ensures Granted(members, |old(members)|, event, picked, role)
    {
      hide Valid, Roster, Accounts, Fair, AsMap, View, Distinct, Elements, Granted;
      NobodyGranted(members, event, picked, role);
      NothingPicked();
      assert picked[..0] == [] && exclude + Elements([]) == exclude;
      for i := 0 to |picked|
        invariant Valid(if role == Admin && i > 0 then None else pending)
        invariant Roster(AsMap(members), event, exclude + Elements(picked[..i]))
        invariant old(members) <= members && |members| == |old(members)| + i
        invariant Granted(members, |old(members)|, event, picked[..i], role)
      {
        ghost var before, id, rows := AsMap(members), nextId, members;
        assert picked[i] in picked;
        NotYetMember(before, event, exclude, picked, i);
        AppendMember(event, picked[i], role, if role == Admin && i > 0 then None else pending);
        RosterGrows(before, AsMap(members), id, event, picked[i], role, exclude + Elements(picked[..i]));
        OneMoreGranted(rows, |old(members)|, event, picked, i, role, id);
        ElementsGrow(picked, i);
        assert exclude + Elements(picked[..i + 1]) == exclude + Elements(picked[..i]) + {picked[i]};
      }
      assert picked[..|picked|] == picked;
    }

    /** One or two admins, two to five contributors and ten to forty attendees, as
        far as there are accounts; for the demo event, the three demo identities
        first, at their fixed roles. */
    method AddStandardMembers(event: Id, demo: bool)
      returns (memberIds: seq<Id>, ghost admins: nat, ghost contributors: nat)
      requires Valid(Some(event)) && event in AsMap(events) && Roster(AsMap(members), event, {})
      modifies this`members, this`nextId, r
      ensures Valid(None) && Chosen(event, memberIds)
      ensures |members| == |old(members)| + |memberIds| && |memberIds| >= (if demo then 3 else 1)
      ensures Enrolled(
        old(members), members, event, memberIds, if demo then DEMO_ROLES else [], admins, contributors, |users|)
    {
      hide Valid, Chosen, Roster, AsMap, View, Accounts, Fair, Granted, Enrolled;
      ghost var pending := Some(event);
      NobodyChosen(event);
      ValidParts(pending);
      memberIds := [];
      if demo {
        memberIds := AddDemoMembers(event);
        pending := None;
      }
      memberIds, admins, contributors :=
        AddRandomMembers(event, memberIds, old(members), if demo then DEMO_ROLES else [], pending);
    }

    method AddRandomMembers(
      event: Id, chosen: seq<Id>, ghost before: seq<(Id, Member)>, ghost demo: seq<Role>, ghost pending: Option<Id>)
      returns (memberIds: seq<Id>, ghost admins: nat, ghost contributors: nat)
      requires Valid(pending) && (pending.None? || (pending == Some(event) && chosen == []))
      requires event in AsMap(events) && Chosen(event, chosen)
      requires before <= members && |chosen| == |demo| && |members| == |before| + |demo|
      requires forall i | 0 <= i < |demo| :: members[|before| + i].1 == Member(event, chosen[i], demo[i], 1, SEED_TIME)
      modifies this`members, this`nextId, r
      ensures Valid(None) && Chosen(event, memberIds) && |memberIds| >= (if pending.None? then |chosen| else 1)
      ensures |members| == |before| + |memberIds|
      ensures Enrolled(before, members, event, memberIds, demo, admins, contributors, |users|)
    {
      hide Valid, Chosen, Roster, AsMap, View, Accounts, Fair, Granted, Enrolled, At;
      ValidParts(pending);
      ghost var m0 := members;
      var k := r.Intn(2);
      memberIds := AddRole(event, chosen, 1 + k, Admin, pending);
      ghost var ids1, m1 := memberIds, members;
      k := r.Intn(4);
      memberIds := AddRole(event, memberIds, 2 + k, Contributor, None);
      ghost var ids2, m2 := memberIds, members;
      k := r.Intn(31);
      memberIds := AddRole(event, memberIds, 10 + k, Attendee, None);
      admins, contributors := |ids1| - |demo|, |ids2| - |ids1|;
      AllEnrolled(before, m0, m1, m2, members, event, ids1, ids2, memberIds, demo, |users|);
    }

    method AddDemoMembers(event: Id) returns (memberIds: seq<Id>)
      requires Valid(Some(event)) && event in AsMap(events) && Chosen(event, [])
      modifies this`members, this`nextId
      ensures Valid(None) && Chosen(event, memberIds) && memberIds == [0, 1, 2]
      ensures old(members) <= members && |members| == |old(members)| + 3
      ensures forall i | 0 <= i < 3 ::
        members[|old(members)| + i].1 == Member(event, memberIds[i], DEMO_ROLES[i], 1, SEED_TIME)
    {
      hide Valid, Chosen, Roster, Accounts, Fair, AsMap, View, Distinct, Elements;
      ValidParts(Some(event));
      memberIds := [];
      for i := 0 to 3
        invariant Valid(if i > 0 then None else Some(event)) && memberIds == [0, 1, 2][..i]
        invariant Chosen(event, memberIds) && old(members) <= members && |members| == |old(members)| + i
        invariant forall j | 0 <= j < i ::
          members[|old(members)| + j].1 == Member(event, memberIds[j], DEMO_ROLES[j], 1, SEED_TIME)
      {
        AccountAt(users, i);
        var id := users[i].0;
        Singleton(id);
        ChosenParts(event, memberIds);
        Grant(event, [id], DEMO_ROLES[i], Elements(memberIds), if i > 0 then None else Some(event));
        Joined(memberIds, [id]);
        ChosenIs(event, memberIds + [id]);
        memberIds := memberIds + [id];
      }
    }

    lemma ChosenParts(event: Id, memberIds: seq<Id>)
      requires Chosen(event, memberIds)
      ensures Distinct(memberIds) && Roster(AsMap(members), event, Elements(memberIds))
      ensures forall u: Id :: u in memberIds ==> u < |users|
      ensures forall u: Id :: u in memberIds <==> u in Elements(memberIds)
    {
    }

    lemma ChosenIs(event: Id, memberIds: seq<Id>)
      requires Distinct(memberIds) && Roster(AsMap(members), event, Elements(memberIds))
      requires forall u: Id :: u in memberIds ==> u < |users|
      ensures Chosen(event, memberIds)
    {
    }

    lemma NobodyChosen(event: Id)
      requires Roster(AsMap(members), event, {})
      ensures Chosen(event, [])
    {
    }

    // -------------------------------------------------------------------
    // Rooms and sessions
    // -------------------------------------------------------------------

    method AddRooms(event: Id, count: nat) returns (ids: seq<Id>)
      requires Valid(None) && event in AsMap(events) && RoomsNamed(AsMap(rooms), event, 0)
      modifies this`rooms, this`nextId
      ensures Valid(None) && |ids| == count && Distinct(ids)
      ensures RoomsReady(AsMap(rooms), AsMap(sessions), ids, 0, event)
      ensures |rooms| == |old(rooms)| + count
      ensures old(rooms) <= rooms && Furnished(rooms[|old(rooms)|..], event, ids)
    {
      hide Valid, AsMap, RoomsNamed, RoomUnused, NameTaken, Distinct, RoomReady, Elements, RoomName;
      NothingPicked();
      ids := [];
      for k := 0 to count
        invariant Valid(None) && |ids| == k && Distinct(ids) && RoomsNamed(AsMap(rooms), event, k)
        invariant forall j | 0 <= j < k :: RoomReady(AsMap(rooms), AsMap(sessions), ids[j], event)
        invariant |rooms| == |old(rooms)| + k && old(rooms) <= rooms
        invariant Furnished(rooms[|old(rooms)|..], event, ids)
      {
        NameIsFree(AsMap(rooms), nextId, event, k);
        ghost var before := AsMap(rooms);
        var id := AppendRoom(event, RoomName(k), None);
        RoomAdded(before, AsMap(rooms), AsMap(sessions), ids, id, event, k);
        ids := ids + [id];
      }
    }

    /** Four times in ten, or for an event without members, the whole pool; otherwise
        the event's members in random order, and then the whole pool. */
    method PickCandidatesFor(memberIds: seq<Id>) returns (candidates: seq<Id>)
      requires forall u: Id :: u in externalPool <==> u < |users|
      requires forall u | u in memberIds :: u < |users|
      modifies r
      ensures forall u: Id :: u in candidates <==> u < |users|
      ensures memberIds == [] || At(r.stream, old(r.pos), 100) < 40 ==> candidates == externalPool
      ensures memberIds != [] && At(r.stream, old(r.pos), 100) >= 40 ==>
        && |memberIds| <= |candidates| && multiset(candidates[..|memberIds|]) == multiset(memberIds)
        && candidates[|memberIds|..] == externalPool
    {
      hide At;
      if memberIds == [] {
        return externalPool;
      }
      var x := r.Intn(100);
      if x < 40 {
        return externalPool;
      }
      var shuffled := r.Shuffle(memberIds);
      SameElements(memberIds, shuffled);
      candidates := shuffled + externalPool;
      assert candidates[..|memberIds|] == shuffled;
    }

    /** One session: a free speaker always turns up while fewer sessions than users exist. */
    method PlaceSession(event: Id, room: Id, memberIds: seq<Id>, title: string, start: Time, end: Time)
      requires Valid(None) && sched.busy == booked && room in AsMap(rooms) && AsMap(rooms)[room].eventId == event
      requires start < end && RoomFreeFrom(AsMap(sessions), room, start)
      requires |sessions| < |users| && forall u | u in memberIds :: u < |users|
      modifies this`sessions, this`nextId, this`booked, sched, r
      ensures Valid(None) && sched.busy == booked && |sessions| == |old(sessions)| + 1
      ensures old(sessions) <= sessions && Slot(sessions[|old(sessions)|].1, event, room, title, start, end)
      ensures RoomFreeFrom(AsMap(sessions), room, end)
      ensures forall q | q != room && RoomUnused(old(AsMap(sessions)), q) :: RoomUnused(AsMap(sessions), q)
      ensures forall q :: Load(sessions, q) == Load(old(sessions), q) + if q == room then 1 else 0
    {
      hide *;
      CalendarIsSmall();
      ValidParts(None);
      var speaker := FindSpeaker(memberIds, start, end);
      ghost var before, rows := AsMap(sessions), sessions;
      AppendSession(event, room, speaker, title, start, end);
      IsSlot(event, room, speaker, title, start, end);
      SessionAdded(before, rows, sessions[|rows|], room);
      FreeLater(before, room, start, end);
    }

    /** Somebody who is free then; a member of the event, six times in ten, as long as
        one of them is. */
    method FindSpeaker(memberIds: seq<Id>, start: Time, end: Time) returns (speaker: Id)
      requires forall u: Id :: u in externalPool <==> u < |users|
      requires |sched.busy| < |users| && forall u | u in memberIds :: u < |users|
      modifies r
      ensures speaker < |users| && !Collides(Calendar(sched.busy, speaker), start, end)
      ensures At(r.stream, old(r.pos), 100) >= 40 ==>
        (exists u :: u in memberIds && !Collides(Calendar(sched.busy, u), start, end)) ==> speaker in memberIds
    {
      hide Collides, Calendar, Below, At;
      BelowHolds(|users|);
      ghost var from := r.pos;
      var candidates := PickCandidatesFor(memberIds);
      SomeoneIsFree(Below(|users|), candidates, sched.busy, start, end);
      var found := PickSpeaker(candidates, sched, start, end);
      assert found.value in candidates;
      speaker := found.value;
      if At(r.stream, from, 100) >= 40 && exists u :: u in memberIds && !Collides(Calendar(sched.busy, u), start, end) {
        MemberComesFirst(memberIds, candidates, sched.busy, start, end, speaker);
      }
    }

    lemma CalendarIsSmall()
      requires Valid(None)
      ensures |booked| <= |sessions|
    {
    }

    /** Back to back in one room, half an hour apart. */
    method AddGenericSessions(event: Id, room: Id, memberIds: seq<Id>, from: Time, count: int, title: string)
      requires Valid(None) && sched.busy == booked && room in AsMap(rooms) && AsMap(rooms)[room].eventId == event
      requires RoomFreeFrom(AsMap(sessions), room, from)
      requires |sessions| + Pos(count) <= |users| && forall u | u in memberIds :: u < |users|
      modifies this`sessions, this`nextId, this`booked, sched, r
      ensures Valid(None) && sched.busy == booked && |sessions| == |old(sessions)| + Pos(count)
      ensures old(sessions) <= sessions && BackToBack(sessions[|old(sessions)|..], event, room, from, title)
      ensures forall q | q != room && RoomUnused(old(AsMap(sessions)), q) :: RoomUnused(AsMap(sessions), q)
      ensures forall q :: Load(sessions, q) == Load(old(sessions), q) + if q == room then Pos(count) else 0
    {
      hide Valid, AsMap, RoomFreeFrom, RoomUnused, Load, BackToBack, Slot, Decimal;
      var cursor := from;
      var j := 0;
      NoneYet(sessions, event, room, from, title);
      while j < count
        invariant 0 <= j && (j <= count || j == 0) && Valid(None) && sched.busy == booked && |sessions| == |old(sessions)| + j
        invariant old(sessions) <= sessions && BackToBack(sessions[|old(sessions)|..], event, room, from, title)
        invariant cursor == NextStart(sessions[|old(sessions)|..], from)
        invariant RoomFreeFrom(AsMap(sessions), room, cursor)
        invariant forall q | q != room && RoomUnused(old(AsMap(sessions)), q) :: RoomUnused(AsMap(sessions), q)
        invariant forall q :: Load(sessions, q) == Load(old(sessions), q) + if q == room then j else 0
      {
        var x := r.Intn(3);
        var start := cursor;
        var end := start + (30 + 30 * x) * MINUTE;
        cursor := end + 30 * MINUTE;
        ghost var rows := sessions;
        PlaceSession(event, room, memberIds, title + " Session " + Decimal(j + 1), start, end);
        OneMoreSlot(old(sessions), rows, sessions, event, room, from, end, title);
        FreeLater(AsMap(sessions), room, end, cursor);
        j := j + 1;
      }
    }

    /** Split the sessions over the rooms as evenly as they go; in each room they start
        nine hours after the event does. */
    method DistributeSessions(
      event: Id, startsAt: Time, roomIds: seq<Id>, memberIds: seq<Id>, total: int, title: string)
      requires Valid(None) && sched.busy == booked && roomIds != [] && Distinct(roomIds)
      requires RoomsReady(AsMap(rooms), AsMap(sessions), roomIds, 0, event)
      requires |sessions| + Pos(total) <= |users| && forall u | u in memberIds :: u < |users|
      modifies this`sessions, this`nextId, this`booked, sched, r
      ensures Valid(None) && sched.busy == booked && |sessions| == |old(sessions)| + Pos(total)
      ensures RoomsLoaded(sessions, roomIds, total, |roomIds|)
      ensures old(sessions) <= sessions
      ensures SlotsFor(event, startsAt, title, sessions[|old(sessions)|..], roomIds, total)
    {
      hide *;
      NothingInNewRooms(roomIds, event, total);
      NoSlots(sessions, event);
      var n := |roomIds|;
      var base := if total >= 0 then total / n else -((-total) / n);
      var rem := total - base * n;
      SharesStep(total, n);
      NineHours(startsAt);
      NoBlocks(sessions, event, roomIds, total, startsAt + 9 * HOUR, title);
      for k := 0 to n
        invariant Valid(None) && sched.busy == booked && |sessions| == |old(sessions)| + SharesBelow(total, n, k)
        invariant old(sessions) <= sessions && AllOf(sessions[|old(sessions)|..], event)
        invariant RoomsLoaded(sessions, roomIds, total, k) && RoomsReady(AsMap(rooms), AsMap(sessions), roomIds, k, event)
        invariant Blocks(sessions[|old(sessions)|..], event, roomIds, total, startsAt + 9 * HOUR, title, k)
      {
        var count := base;
        if k < rem {
          count := count + 1;
        }
        ShareIs(total, n, k, base, rem, count);
        SharesFit(total, n, k + 1);
        ReadyRoom(AsMap(rooms), AsMap(sessions), roomIds, k, event, startsAt + 9 * HOUR);
        ghost var before, rows := AsMap(sessions), sessions;
        AddGenericSessions(event, roomIds[k], memberIds, startsAt + 9 * HOUR, count, title);
        SlotsAreOf(old(sessions), rows, sessions, event, roomIds[k], startsAt + 9 * HOUR, title);
        BlockAdded(old(sessions), rows, sessions, event, roomIds, total, startsAt + 9 * HOUR, title, k);
        RoomDone(AsMap(rooms), before, AsMap(sessions), rows, sessions, roomIds, total, k, event);
      }
      SharesFit(total, n, n);
      SlicesLoaded(old(sessions), sessions, event, startsAt, title, roomIds, total);
    }

    // -------------------------------------------------------------------
    // Invitations
    // -------------------------------------------------------------------

    function PerEvent(): nat {
      Pos(cfg.invitationsPerEvent)
    }

    /** Of a hundred equally likely draws eighty make an attendee, fifteen a
        contributor and five an admin. */
    method PickRole() returns (role: Role)
      modifies r
      ensures role == Attendee <==> At(r.stream, old(r.pos), 100) < 80
      ensures role == Admin <==> At(r.stream, old(r.pos), 100) >= 95
    {
      hide At;
      var x := r.Intn(100);
      role := if x < 80 then Attendee else if x < 95 then Contributor else Admin;
    }

    /** Four fifths to distinct accounts, the rest to numbered made-up addresses. */
    method AddInvitations(event: Id)
      requires Valid(None) && event in AsMap(events)
      requires Counted(AsMap(events), invitations, Some(event), 0, PerEvent())
      modifies this`invitations, this`nextId, r
      ensures Valid(None) && Counted(AsMap(events), invitations, None, 0, PerEvent())
      ensures old(invitations) <= invitations && |invitations| == |old(invitations)| + PerEvent()
      ensures Sent(invitations[|old(invitations)|..], event, |users|, RealCount(cfg), eventSeq)
    {
      hide *;
      ValidParts(None);
      CountsFit();
      var realCount := RealCount(cfg);
      var externalCount := cfg.invitationsPerEvent - realCount;
      var perm := r.Perm(|users|);
      NobodyAddressed(AsMap(events), invitations, event, perm, eventSeq, PerEvent());
      NothingSent(invitations, event, |users|, realCount, eventSeq);
      for i := 0 to realCount
        invariant Valid(None) && Addressed(AsMap(invitations), event, perm, i, eventSeq, 1)
        invariant Counted(AsMap(events), invitations, Some(event), i, PerEvent())
        invariant old(invitations) <= invitations && |invitations| == |old(invitations)| + i
        invariant Sent(invitations[|old(invitations)|..], event, |users|, realCount, eventSeq)
      {
        AccountAt(users, perm[i]);
        var u := users[perm[i]];
        var role := PickRole();
        AccountUnused(AsMap(invitations), event, perm, i, eventSeq);
        ghost var before, rows := AsMap(invitations), invitations;
        AppendInvitation(event, Some(u.0), u.1.email, role);
        AccountAddressed(before, rows, invitations[|rows|], AsMap(events), event, perm, i, eventSeq, PerEvent());
        AccountSent(invitations[|rows|].1, i, event, |users|, realCount, eventSeq, u.0, role);
        OneMoreSent(old(invitations), rows, invitations, event, |users|, realCount, eventSeq);
      }
      var n := 1;
      while n <= externalCount
        invariant 1 <= n && realCount + n - 1 <= PerEvent()
        invariant Valid(None) && Addressed(AsMap(invitations), event, perm, realCount, eventSeq, n)
        invariant Counted(AsMap(events), invitations, Some(event), realCount + n - 1, PerEvent())
        invariant old(invitations) <= invitations && |invitations| == |old(invitations)| + realCount + n - 1
        invariant Sent(invitations[|old(invitations)|..], event, |users|, realCount, eventSeq)
      {
        var role := PickRole();
        ExternalUnused(AsMap(invitations), event, perm, realCount, eventSeq, n);
        ghost var before, rows := AsMap(invitations), invitations;
        AppendInvitation(event, None, ExternalEmail(eventSeq, n), role);
        ExternalAddressed(
          before, rows, invitations[|rows|], AsMap(events), event, perm, realCount, eventSeq, n, PerEvent());
        ExternalSent(invitations[|rows|].1, n, event, |users|, realCount, eventSeq, role);
        OneMoreSent(old(invitations), rows, invitations, event, |users|, realCount, eventSeq);
        n := n + 1;
      }
      AllCounted(AsMap(events), invitations, event, realCount + n - 1, PerEvent());
    }

    lemma CountsFit()
      requires Valid(None)
      ensures RealCount(cfg) <= |users| && RealCount(cfg) <= PerEvent()
      ensures cfg.invitationsPerEvent <= PerEvent()
      ensures PerEvent() == if cfg.invitationsPerEvent < 0 then 0 else cfg.invitationsPerEvent
      ensures cfg.invitationsPerEvent < 0 ==> cfg.invitationsPerEvent == -1 && RealCount(cfg) == 0
    {
    }

    // -------------------------------------------------------------------
    // Events
    // -------------------------------------------------------------------

    /** Between two events: every constraint holds, every event has its admin and
        exactly its share of invitations. */
    ghost predicate Ready()
      reads this, sched
    {
      Valid(None) && sched.busy == booked && Counted(AsMap(events), invitations, None, 0, PerEvent())
    }

    method NewEvent(name: string, startsAt: Time, endsAt: Time) returns (event: Id)
      requires Ready() && startsAt < endsAt
      modifies this`events, this`nextId, this`eventSeq
      ensures Valid(Some(event)) && event in AsMap(events)
      ensures events == old(events) + [(event, Event(name, startsAt, endsAt, 1, false, SEED_TIME))]
      ensures eventSeq == old(eventSeq) + 1
      ensures Roster(AsMap(members), event, {}) && RoomsNamed(AsMap(rooms), event, 0)
      ensures Counted(AsMap(events), invitations, Some(event), 0, PerEvent())
    {
      hide Loaded, OnCalendar, Accounts, Fair, AsMap, Keyed, Runnable, Roster, RoomsNamed, Counted, Below;
      ghost var before := View();
      FreshIsNext(before, nextId, None);
      var row := Event(name, startsAt, endsAt, 1, false, SEED_TIME);
      NothingYet(before, nextId, row, invitations, PerEvent());
      AppendIsPut(events, nextId, row);
      SeedRows.PutEvent(before, nextId, row);
      event := nextId;
      events := events + [(nextId, row)];
      nextId := nextId + 1;
      eventSeq := eventSeq + 1;
    }

    method AddBulkEvent(i: nat, almanac: Almanac)
      requires Ready() && AlmanacOk(almanac) && |sessions| + Pos(cfg.maxSessions) <= |users| && i == eventSeq == |events|
      modifies this, r, sched
      ensures Ready() && |events| == |old(events)| + 1 && |invitations| == |old(invitations)| + PerEvent()
      ensures eventSeq == old(eventSeq) + 1 && Added(old(Made()), almanac, Ordinary)
      ensures |old(sessions)| <= |sessions| <= |old(sessions)| + Pos(cfg.maxSessions)
    {
      hide *;
      RunnableParts();
      ghost var made := Made();
      MadeIs();
      var zone := r.Intn(5);
      DaysPass(almanac, zone, i * 3, i * 3 + 14);
      var name := "Seed Bulk Event " + Padded(i + 1, 3);
      var startsAt := almanac.midnight(zone, i * 3);
      var event := NewEvent(name, startsAt, almanac.midnight(zone, i * 3 + 14));
      BulkIsScheduled(almanac, i, zone, events[|made.events|].1);
      ghost var admins, contributors;
      var memberIds;
      memberIds, admins, contributors := AddStandardMembers(event, false);
      var roomIds := AddOrdinaryProgramme(event, startsAt, name, memberIds);
      OrdinarySlots(cfg, almanac, Ordinary, event, events[|made.events|].1, roomIds, sessions[|made.sessions|..]);
      MadeIs();
      IsAdded(made, almanac, Ordinary, memberIds, admins, contributors, roomIds);
    }

    method AddDemoEvent(almanac: Almanac)
      requires Ready() && AlmanacOk(almanac) && |sessions| + Pos(cfg.maxSessions) <= |users| && eventSeq == |events|
      modifies this, r, sched
      ensures Ready() && |events| == |old(events)| + 1 && |invitations| == |old(invitations)| + PerEvent()
      ensures eventSeq == old(eventSeq) + 1 && Added(old(Made()), almanac, Demo)
      ensures |old(sessions)| <= |sessions| <= |old(sessions)| + Pos(cfg.maxSessions)
    {
      hide *;
      RunnableParts();
      ghost var made := Made();
      MadeIs();
      DaysPass(almanac, COLOMBO, 243, 257);
      var startsAt := almanac.midnight(COLOMBO, 243);
      var event := NewEvent("Seed Demo Event", startsAt, almanac.midnight(COLOMBO, 257));
      DemoIsScheduled(almanac, |events|, events[|made.events|].1);
      ghost var admins, contributors;
      var memberIds;
      memberIds, admins, contributors := AddStandardMembers(event, true);
      var roomIds := AddOrdinaryProgramme(event, startsAt, "Seed Demo Event", memberIds);
      OrdinarySlots(cfg, almanac, Demo, event, events[|made.events|].1, roomIds, sessions[|made.sessions|..]);
      MadeIs();
      IsAdded(made, almanac, Demo, memberIds, admins, contributors, roomIds);
    }

    /** Rooms, sessions and invitations of a bulk or demo event, sized at random. */
    method AddOrdinaryProgramme(event: Id, startsAt: Time, name: string, memberIds: seq<Id>) returns (roomIds: seq<Id>)
      requires Valid(None) && sched.busy == booked && event in AsMap(events) && Chosen(event, memberIds)
      requires RoomsNamed(AsMap(rooms), event, 0) && Counted(AsMap(events), invitations, Some(event), 0, PerEvent())
      requires |sessions| + Pos(cfg.maxSessions) <= |users|
      modifies this`rooms, this`sessions, this`invitations, this`nextId, this`booked, r, sched
      ensures Ready() && |invitations| == |old(invitations)| + PerEvent()
      ensures |old(sessions)| <= |sessions| <= |old(sessions)| + Pos(cfg.maxSessions)
      ensures old(rooms) <= rooms && old(sessions) <= sessions && old(invitations) <= invitations
      ensures Furnished(rooms[|old(rooms)|..], event, roomIds)
      ensures Programme(
        event, startsAt, name, roomIds, sessions[|old(sessions)|..], cfg.minRooms, cfg.maxRooms, cfg.minSessions,
        cfg.maxSessions)
      ensures Sent(invitations[|old(invitations)|..], event, |users|, RealCount(cfg), eventSeq)
    {
      hide *;
      ValidRuns(None);
      ChosenParts(event, memberIds);
      var k := r.Intn(cfg.maxRooms - cfg.minRooms + 1);
      roomIds := AddRooms(event, cfg.minRooms + k);
      k := r.Intn(cfg.maxSessions - cfg.minSessions + 1);
      PosGrows(cfg.minSessions + k, cfg.maxSessions);
      DistributeSessions(event, startsAt, roomIds, memberIds, cfg.minSessions + k, name);
      IsProgramme(
        event, startsAt, name, sessions[|old(sessions)|..], roomIds, cfg.minSessions + k, cfg.minRooms, cfg.maxRooms,
        cfg.minSessions, cfg.maxSessions);
      AddInvitations(event);
      IsReady();
    }

    method AddLargeEvent(almanac: Almanac)
      requires Ready() && AlmanacOk(almanac) && |sessions| + Pos(cfg.largeSessions) <= |users| && eventSeq == |events|
      modifies this, r, sched
      ensures Ready() && |events| == |old(events)| + 1 && |invitations| == |old(invitations)| + PerEvent()
      ensures eventSeq == old(eventSeq) + 1 && Added(old(Made()), almanac, Large)
      ensures |sessions| == |old(sessions)| + Pos(cfg.largeSessions)
    {
      hide *;
      RunnableParts();
      ghost var made := Made();
      MadeIs();
      DaysPass(almanac, COLOMBO, 151, 241);
      var name := "Seed Large-Scale Fixture Event";
      var startsAt := almanac.midnight(COLOMBO, 151);
      var event := NewEvent(name, startsAt, almanac.midnight(COLOMBO, 241));
      LargeIsScheduled(almanac, |events|, events[|made.events|].1);
      ghost var admins, contributors;
      var memberIds;
      memberIds, admins, contributors := AddStandardMembers(event, false);
      ChosenParts(event, memberIds);
      var roomIds := AddRooms(event, cfg.largeRooms);
      DistributeSessions(event, startsAt, roomIds, memberIds, cfg.largeSessions, name);
      IsProgramme(
        event, startsAt, name, sessions[|made.sessions|..], roomIds, cfg.largeSessions, cfg.largeRooms, cfg.largeRooms,
        cfg.largeSessions, cfg.largeSessions);
      AddInvitations(event);
      IsReady();
      LargeSlots(cfg, almanac, event, events[|made.events|].1, roomIds, sessions[|made.sessions|..]);
      MadeIs();
      IsAdded(made, almanac, Large, memberIds, admins, contributors, roomIds);
    }

    /** Two rooms: one for the session that crosses a clock change, one for two fillers. */
    method AddDSTFixtureEvent(
      name: string, title: string, startsAt: Time, endsAt: Time, fixture: Range, ghost almanac: Almanac, ghost kind: EventKind)
      requires Ready() && startsAt < endsAt && fixture.start < fixture.end && |sessions| + 3 <= |users| && eventSeq == |events|
      requires kind == Spring || kind == Fall
      requires Scheduled(almanac, kind, eventSeq + 1, Event(name, startsAt, endsAt, 1, false, SEED_TIME))
      requires fixture == FixtureOf(almanac, kind) && title == FixtureTitle(kind)
      modifies this, r, sched
      ensures Ready() && |events| == |old(events)| + 1 && |invitations| == |old(invitations)| + PerEvent()
      ensures eventSeq == old(eventSeq) + 1 && Added(old(Made()), almanac, kind)
      ensures |sessions| == |old(sessions)| + 3
    {
      hide *;
      RunnableParts();
      ghost var made := Made();
      MadeIs();
      var event := NewEvent(name, startsAt, endsAt);
      ghost var admins, contributors;
      var memberIds;
      memberIds, admins, contributors := AddStandardMembers(event, false);
      ChosenParts(event, memberIds);
      var roomIds := AddRooms(event, 2);
      NineHours(startsAt);
      TwoRooms(AsMap(rooms), AsMap(sessions), roomIds, event, fixture.start, startsAt + 9 * HOUR);
      PlaceSession(event, roomIds[0], memberIds, title, fixture.start, fixture.end);
      ghost var first := sessions;
      UnusedIsFree(AsMap(sessions), roomIds[1], startsAt + 9 * HOUR);
      PosGrows(2, 2);
      AddGenericSessions(event, roomIds[1], memberIds, startsAt + 9 * HOUR, 2, name + " Filler");
      IsFixture(made.sessions, first, sessions, event, startsAt, name, roomIds, fixture, title);
      AddInvitations(event);
      IsReady();
      FixtureIsOfKind(cfg, almanac, kind, event, events[|made.events|].1, roomIds, sessions[|made.sessions|..]);
      MadeIs();
      IsAdded(made, almanac, kind, memberIds, admins, contributors, roomIds);
    }

    /** One complete event of this kind was added to what had been made. */
    ghost predicate Added(made: Rows, almanac: Almanac, kind: EventKind)
      reads this
    {
      Continues(made, Made()) && NextEvent(cfg, almanac, kind, made, Made())
    }

    lemma MadeIs()
      ensures Made() == Rows(events, members, rooms, sessions, invitations)
    {
    }

    lemma IsAdded(
      made: Rows, almanac: Almanac, kind: EventKind, memberIds: seq<Id>, admins: nat, contributors: nat, roomIds: seq<Id>)
      requires Ready() && made.events <= events && |events| == |made.events| + 1 == eventSeq
      requires made.rooms <= rooms && made.sessions <= sessions
      requires made.invitations <= invitations && |invitations| == |made.invitations| + PerEvent()
      requires var e := events[|made.events|];
        && Scheduled(almanac, kind, eventSeq, e.1)
        && Enrolled(
             made.members, members, e.0, memberIds, if kind == Demo then DEMO_ROLES else [], admins, contributors, |users|)
        && Furnished(rooms[|made.rooms|..], e.0, roomIds)
        && SlotsOfKind(cfg, almanac, kind, e.0, e.1, roomIds, sessions[|made.sessions|..])
        && Sent(invitations[|made.invitations|..], e.0, |users|, RealCount(cfg), eventSeq)
      ensures Added(made, almanac, kind)
    {
      hide Loaded, OnCalendar, Accounts, Fair, AsMap, Keyed, Runnable, Sent, SlotsOfKind, RealCount, Counted, NextEvent,
        Scheduled, Furnished;
      IsNextEvent(cfg, almanac, kind, made, Made(), memberIds, admins, contributors, roomIds);
    }

    lemma RunnableParts()
      requires Ready()
      ensures Valid(None) && sched.busy == booked && Counted(AsMap(events), invitations, None, 0, PerEvent())
      ensures 1 <= cfg.minRooms <= cfg.maxRooms && 1 <= cfg.largeRooms && cfg.minSessions <= cfg.maxSessions
    {
    }

    lemma ValidRuns(pending: Option<Id>)
      requires Valid(pending)
      ensures 1 <= cfg.minRooms <= cfg.maxRooms && 1 <= cfg.largeRooms && cfg.minSessions <= cfg.maxSessions
    {
    }

    lemma IsReady()
      requires Valid(None) && sched.busy == booked && Counted(AsMap(events), invitations, None, 0, PerEvent())
      ensures Ready()
    {
    }

    lemma NothingInNewRooms(roomIds: seq<Id>, event: Id, total: int)
      requires Valid(None) && roomIds != [] && RoomsReady(AsMap(rooms), AsMap(sessions), roomIds, 0, event)
      ensures RoomsLoaded(sessions, roomIds, total, 0)
    {
      forall k | 0 <= k < |roomIds| ensures Load(sessions, roomIds[k]) == 0 {
        assert RoomReady(AsMap(rooms), AsMap(sessions), roomIds[k], event);
        assert Keyed(sessions);
        NothingLoaded(sessions, roomIds[k]);
      }
    }

    lemma ValidParts(pending: Option<Id>)
      requires Valid(pending)
      ensures Accounts(users) && Fair(r.stream, |users|) && |users| >= 3
      ensures forall u: Id :: u in externalPool <==> u < |users|
    {
    }
  }

  /** What every generated dataset is: rows the store would accept one by one - no
      room or speaker double booked, every session's room in its own event, unique
      memberships, accounts and invitation addresses, an admin for every event - and
      for each event exactly its name and days, its roster, its rooms, its evenly split
      sessions at their times, and its invitations. */
  ghost predicate Promised(g: Generator, cfg: Config, almanac: Almanac)
    reads g
  {
    && g.cfg == cfg && Inv(g.View()) && |g.users| == UserTotal(cfg) && Accounts(g.users)
    && |g.events| == Pos(cfg.bulkEventCount) + 4
    && |g.invitations| == (Pos(cfg.bulkEventCount) + 4) * Pos(cfg.invitationsPerEvent)
    && (forall e | e in AsMap(g.events) :: InvitationCount(g.invitations, e) == Pos(cfg.invitationsPerEvent))
    && |g.sessions| <= MostSessions(cfg)
    && Keyed(g.sessions) && (forall s | s in AsMap(g.sessions) :: !AsMap(g.sessions)[s].deleted)
    && Complete(cfg, almanac, Ordinaries(Pos(cfg.bulkEventCount)) + SPECIALS, g.Made())
  }

  /** Every configuration the generator can run on, every fair stream and every
      almanac give such a dataset. */
  method GenerateDataset(cfg: Config, stream: nat -> nat, almanac: Almanac) returns (g: Generator)
    requires Runnable(cfg) && Fair(stream, UserTotal(cfg)) && AlmanacOk(almanac)
    ensures Promised(g, cfg, almanac) && g.r.stream == stream
  {
    hide *;
    g := NewGenerator(cfg, stream);
    var bulk := Pos(cfg.bulkEventCount);
    var share := g.PerEvent();
    ShareIsPerEvent(g);
    SessionBudget(cfg, 0);
    NothingIsComplete(cfg);
    for i := 0 to bulk
      invariant g.Ready() && fresh(g) && fresh(g.sched) && fresh(g.r) && g.cfg == cfg && |g.users| == UserTotal(cfg)
      invariant g.r.stream == stream && |g.events| == i == g.eventSeq && |g.invitations| == i * share
      invariant |g.sessions| <= i * Pos(cfg.maxSessions)
      invariant Complete(cfg, almanac, Ordinaries(i), g.Made())
    {
      SessionBudget(cfg, i);
      ghost var made := g.Made();
      g.AddBulkEvent(i, almanac);
      AddedCompletes(g, almanac, Ordinaries(i), made, Ordinary);
      OneMoreOrdinary(i);
      assert (i + 1) * share == i * share + share;
    }
    SessionBudget(cfg, bulk);
    AddSpecialEvents(g, almanac, Ordinaries(bulk));
    assert (bulk + 4) * share == bulk * share + 4 * share;
    ReadyIsPromised(g, cfg, almanac);
  }

  /** The same from any finite list of draws, without any assumption about them:
      either they were enough, or the generator says that it ran out of them. A run
      on whatever stream that comes to an end has read finitely many draws, and is
      this run on just those. */
  method GenerateFromDraws(cfg: Config, draws: seq<nat>, almanac: Almanac) returns (g: Generator, ranOut: bool)
    requires Runnable(cfg) && AlmanacOk(almanac)
    ensures Promised(g, cfg, almanac)
    ensures ranOut <==> g.r.pos > |draws|
    ensures forall k: nat | k < |draws| :: g.r.stream(k) == draws[k]
  {
    hide Promised, Runnable, Fair, AlmanacOk;
    UsersExist(cfg);
    ContinuedIsFair(draws, UserTotal(cfg));
    g := GenerateDataset(cfg, Continued(draws), almanac);
    ranOut := g.r.pos > |draws|;
  }

  lemma AddedCompletes(g: Generator, almanac: Almanac, kinds: seq<EventKind>, made: Rows, kind: EventKind)
    requires Complete(g.cfg, almanac, kinds, made) && g.Added(made, almanac, kind)
    ensures Complete(g.cfg, almanac, kinds + [kind], g.Made())
  {
    hide Complete, NextEvent, Continues;
    OneMoreEvent(g.cfg, almanac, kinds, kind, made, g.Made());
  }

  method NewGenerator(cfg: Config, stream: nat -> nat) returns (g: Generator)
    requires Runnable(cfg) && Fair(stream, UserTotal(cfg))
    ensures g.Ready() && fresh(g) && fresh(g.sched) && fresh(g.r) && g.cfg == cfg && |g.users| == UserTotal(cfg)
    ensures g.events == [] && g.members == [] && g.sessions == [] && g.invitations == [] && g.Made() == NO_ROWS
    ensures g.eventSeq == 0 && g.r.stream == stream
  {
    hide *;
    var r := new Rand(stream);
    var users := GenerateUsers(cfg.userCount);
    TotalIs(cfg);
    var ids: seq<Id> := seq(|users|, i requires 0 <= i < |users| => i as nat);
    var externalPool := r.Shuffle(ids);
    PermutesIsSame(ids, externalPool);
    ContainsAll(ids, externalPool, |users|);
    g := new Generator(cfg, r, users, externalPool);
    StartsReady(g);
    g.MadeIs();
    NothingMade();
  }

  method AddSpecialEvents(g: Generator, almanac: Almanac, ghost kinds: seq<EventKind>)
    requires g.Ready() && AlmanacOk(almanac)
    requires |g.sessions| + 6 + Pos(g.cfg.largeSessions) + Pos(g.cfg.maxSessions) <= |g.users|
    requires g.eventSeq == |g.events| && Complete(g.cfg, almanac, kinds, g.Made())
    modifies g, g.r, g.sched
    ensures g.Ready() && |g.events| == |old(g.events)| + 4
    ensures |g.invitations| == |old(g.invitations)| + 4 * g.PerEvent()
    ensures |g.sessions| <= |old(g.sessions)| + 6 + Pos(g.cfg.largeSessions) + Pos(g.cfg.maxSessions)
    ensures Complete(g.cfg, almanac, kinds + SPECIALS, g.Made())
  {
    hide *;
    FixturesAreScheduled(almanac, g.eventSeq);
    ghost var made := g.Made();
    DaysPass(almanac, NEW_YORK, 59, 74);
    g.AddDSTFixtureEvent(
      "Seed DST Spring-Forward Fixture", "Crosses 2026-03-08 Spring-Forward Gap",
      almanac.midnight(NEW_YORK, 59), almanac.midnight(NEW_YORK, 74), almanac.spring, almanac, Spring);
    AddedCompletes(g, almanac, kinds, made, Spring);
    made := g.Made();
    DaysPass(almanac, NEW_YORK, 297, 336);
    g.AddDSTFixtureEvent(
      "Seed DST Fall-Back Fixture", "Crosses 2026-11-01 Fall-Back Overlap",
      almanac.midnight(NEW_YORK, 297), almanac.midnight(NEW_YORK, 336), almanac.fall, almanac, Fall);
    AddedCompletes(g, almanac, kinds + [Spring], made, Fall);
    made := g.Made();
    g.AddLargeEvent(almanac);
    AddedCompletes(g, almanac, kinds + [Spring] + [Fall], made, Large);
    made := g.Made();
    g.AddDemoEvent(almanac);
    AddedCompletes(g, almanac, kinds + [Spring] + [Fall] + [Large], made, Demo);
    SpecialsLast(kinds);
  }

  lemma ShareIsPerEvent(g: Generator)
    ensures g.PerEvent() == Pos(g.cfg.invitationsPerEvent)
  {
  }

  lemma StartsReady(g: Generator)
    requires g.Valid(None) && g.sched.busy == g.booked && g.events == [] && g.invitations == []
    ensures g.Ready()
  {
  }

  lemma ReadyIsComplete(g: Generator)
    requires g.Ready()
    ensures Inv(g.View()) && Keyed(g.sessions) && forall s | s in AsMap(g.sessions) :: !AsMap(g.sessions)[s].deleted
    ensures forall e | e in AsMap(g.events) :: InvitationCount(g.invitations, e) == Pos(g.cfg.invitationsPerEvent)
  {
    hide Loaded, Accounts, Fair, AsMap, Keyed, Runnable, Below, Inv;
    LoadedIsInv(g.View());
  }

  lemma ReadyIsPromised(g: Generator, cfg: Config, almanac: Almanac)
    requires g.Ready() && g.cfg == cfg && |g.users| == UserTotal(cfg) && |g.events| == Pos(cfg.bulkEventCount) + 4
    requires |g.invitations| == (Pos(cfg.bulkEventCount) + 4) * Pos(cfg.invitationsPerEvent)
    requires |g.sessions| <= MostSessions(cfg)
    requires Complete(cfg, almanac, Ordinaries(Pos(cfg.bulkEventCount)) + SPECIALS, g.Made())
    ensures Promised(g, cfg, almanac)
  {
    hide Inv, AsMap, Keyed, InvitationCount, Complete, MostSessions, Ordinaries, UserTotal;
    ReadyIsComplete(g);
    g.ValidParts(None);
  }
}

/** Two short runs of bulk invites, from a valid store, that end in the surprising
    answers: a refusal after the work is done, and a replay across events. */
module BulkScenarios {
  import opened Domain
  import opened Tables
  import opened Roles
  import opened BulkProtocol

  /** One user, admin of two events. */
  const BASE := DB(
    map[0 := User("sub", "a@x", "A")],
    map[1 := Event("E", 0, 100, 1, false, 0), 2 := Event("F", 0, 100, 1, false, 0)],
    map[3 := Member(1, 0, Admin, 1, 0), 4 := Member(2, 0, Admin, 1, 0)],
    map[], map[], map[], map[], map[], [], [], {0, 1, 2, 3, 4})

  lemma BaseIsValid()
    ensures Inv(BASE)
  {
    assert IsAdminRow(BASE.members, 3, 1) && IsAdminRow(BASE.members, 4, 2);
  }

  function Asking(event: Id, hash: string, email: string): Call {
    Call(0, event, Some(Token("k", hash)), [Item(email, Attendee)], [], Looking)
  }

  /** A run one step longer. */
  lemma Extend(run: seq<State>, steps: seq<Step>, step: Step, next: State) returns (run': seq<State>, steps': seq<Step>)
    requires IsBulkRun(run, steps) && Can(run[|steps|], step) && next == Do(run[|steps|], step)
    ensures IsBulkRun(run', steps') && run'[0] == run[0]
    ensures |run'| == |steps'| + 1 == |steps| + 2 && run'[|steps'|] == next && steps' == steps + [step]
  {
    hide Can, Do;
    run', steps' := run + [next], steps + [step];
  }

  lemma OneState(s: State)
    ensures IsBulkRun([s], [])
  {
  }

  function With(s: State, c: CallId, call: Call): State {
    s.(calls := s.calls[c := call])
  }

  lemma Begins(s: State, c: CallId, call: Call) returns (next: State)
    requires c !in s.calls && call.done == [] && call.token.Some? && call.pc == Looking
    ensures Can(s, Start(c, call)) && next == Do(s, Start(c, call)) == With(s, c, call)
  {
    next := Do(s, Start(c, call));
  }

  lemma LooksUp(s: State, c: CallId, call: Call, pc: Pc) returns (next: State)
    requires c in s.calls && s.calls[c] == call && call.pc == Looking && call.token.Some?
    requires pc == Consult(s.db.keys, call.actor, call.token.value, Working)
    ensures Can(s, Look(c)) && next == Do(s, Look(c)) == With(s, c, call.(pc := pc))
  {
    next := Do(s, Look(c));
  }

  lemma Records(s: State, c: CallId, call: Call) returns (next: State)
    requires c in s.calls && s.calls[c] == call && call.pc == Working && |call.done| == |call.items|
    requires call.token.Some? && call.actor in s.db.users
    ensures Can(s, Record(c, false)) && next == Do(s, Record(c, false))
    ensures var key := (call.actor, call.token.value.key);
      if key in s.db.keys then next == With(s, c, call.(pc := Lost))
      else
        && next.db == s.db.(keys := s.db.keys[key := KeyRow(call.token.value.hash, call.done)])
        && next.calls == s.calls[c := call.(pc := Returned(call.done, false))]
  {
    next := Do(s, Record(c, false));
  }

  lemma ReadsBack(s: State, c: CallId, call: Call) returns (next: State)
    requires c in s.calls && s.calls[c] == call && call.pc == Lost && call.token.Some?
    ensures Can(s, Reread(c)) && next == Do(s, Reread(c))
    ensures next == With(s, c, call.(pc := Consult(s.db.keys, call.actor, call.token.value, Failed)))
  {
    next := Do(s, Reread(c));
  }

  ghost predicate StillBase(d: DB) {
    d.users == BASE.users && d.events == BASE.events && d.members == BASE.members
  }

  lemma AdminMayInvite(d: DB, event: Id)
    requires StillBase(d) && (event == 1 || event == 2)
    ensures CanGrant(d.members, event, 0, Attendee) && UserByEmail(d.users, "p") == None && UserByEmail(d.users, "q") == None
  {
    var m := if event == 1 then 3 else 4;
    assert m in d.members && d.members[m].eventId == event && d.members[m].userId == 0;
  }

  /** One item of one of the two calls, for an address not invited before. */
  lemma Processed(s: State, c: CallId, event: Id, hash: string, email: string, id: Id) returns (next: State)
    requires StillBase(s.db) && (event == 1 || event == 2) && (email == "p" || email == "q")
    requires c in s.calls && s.calls[c] == Asking(event, hash, email).(pc := Working)
    requires Fresh(s.db, id) && !Invited(s.db.invitations, event, email)
    ensures Can(s, Process(c, id, 0, false)) && next == Do(s, Process(c, id, 0, false))
    ensures next.winners == s.winners && StillBase(next.db) && next.db.keys == s.db.keys
    ensures next.db.invitations == s.db.invitations[id := Invitation(event, None, email, Attendee, 0)]
    ensures next.db.issued == s.db.issued + {id}
    ensures next.calls == s.calls[c := s.calls[c].(done := [Created(email, id)])]
  {
    hide CanGrant, UserByEmail, Invited;
    AdminMayInvite(s.db, event);
    next := Do(s, Process(c, id, 0, false));
    assert next.calls[c].done == [Created(email, id)];
  }

  /** Both calls look the key up before either records it: the second to record has
      invited its guest, and is refused all the same. */
  lemma LateRefusalIsReachable() returns (run: seq<State>, steps: seq<Step>)
    ensures IsBulkRun(run, steps) && Initial(run[0])
    ensures var s := run[|steps|];
      && 1 in s.calls && s.calls[1].pc == Rejected && s.calls[1].done == [Created("q", 6)] && 6 in s.db.invitations
      && s.calls[1].items != [] && !FoundTaken(run, steps, |steps|, 1)
  {
    hide Inv, Can, Do, IsBulkRun, FoundTaken, Invited;
    BaseIsValid();
    var p, q := Asking(1, "h", "p"), Asking(1, "g", "q");
    var s := State(BASE, map[], map[]);
    OneState(s);
    run, steps := [s], [];
    s := Begins(s, 0, p);
    run, steps := Extend(run, steps, Start(0, p), s);
    s := Begins(s, 1, q);
    run, steps := Extend(run, steps, Start(1, q), s);
    s := LooksUp(s, 0, p, Working);
    run, steps := Extend(run, steps, Look(0), s);
    s := LooksUp(s, 1, q, Working);
    run, steps := Extend(run, steps, Look(1), s);
    NobodyInvited(s.db.invitations, 1, "p");
    s := Processed(s, 0, 1, "h", "p", 5);
    run, steps := Extend(run, steps, Process(0, 5, 0, false), s);
    OnlyInvited(s.db.invitations, 5, 1, "p", 1, "q");
    s := Processed(s, 1, 1, "g", "q", 6);
    run, steps := Extend(run, steps, Process(1, 6, 0, false), s);
    s := Records(s, 0, s.calls[0]);
    run, steps := Extend(run, steps, Record(0, false), s);
    s := Records(s, 1, s.calls[1]);
    run, steps := Extend(run, steps, Record(1, false), s);
    s := ReadsBack(s, 1, s.calls[1]);
    run, steps := Extend(run, steps, Reread(1), s);
    RefusedUnprocessedExactlyWhenTakenAtLookup(run, steps, |steps|, 1);
  }

  lemma NobodyInvited(invitations: map<Id, Invitation>, event: Id, email: string)
    requires invitations == map[]
    ensures !Invited(invitations, event, email)
  {
  }

  lemma OnlyInvited(invitations: map<Id, Invitation>, id: Id, event: Id, email: string, other: Id, another: string)
    requires invitations == map[id := Invitation(event, None, email, Attendee, 0)]
    requires event != other || email != another
    ensures !Invited(invitations, other, another)
  {
  }

  /** The same key and body, first for one event and then for the other: the second
      call is answered with the invitation to the first event. */
  lemma CrossedReplayIsReachable() returns (run: seq<State>, steps: seq<Step>)
    ensures IsBulkRun(run, steps) && Initial(run[0])
    ensures var s := run[|steps|];
      && 1 in s.calls && s.calls[1].event == 2 && s.calls[1].pc == Returned([Created("p", 5)], true)
      && 5 in s.db.invitations && s.db.invitations[5].eventId == 1
      && !Invited(s.db.invitations, 2, "p")
  {
    hide Inv, Can, Do, IsBulkRun, Invited;
    BaseIsValid();
    var p, q := Asking(1, "h", "p"), Asking(2, "h", "p");
    var s := State(BASE, map[], map[]);
    OneState(s);
    run, steps := [s], [];
    s := Begins(s, 0, p);
    run, steps := Extend(run, steps, Start(0, p), s);
    s := LooksUp(s, 0, p, Working);
    run, steps := Extend(run, steps, Look(0), s);
    NobodyInvited(s.db.invitations, 1, "p");
    s := Processed(s, 0, 1, "h", "p", 5);
    run, steps := Extend(run, steps, Process(0, 5, 0, false), s);
    OnlyInvited(s.db.invitations, 5, 1, "p", 2, "p");
    s := Records(s, 0, s.calls[0]);
    run, steps := Extend(run, steps, Record(0, false), s);
    s := Begins(s, 1, q);
    run, steps := Extend(run, steps, Start(1, q), s);
    s := LooksUp(s, 1, q, Returned([Created("p", 5)], true));
    run, steps := Extend(run, steps, Look(1), s);
  }
}

/** Role changes and removals as they really run: lock the event row, write
    against the committed rows, then commit - or diagnose and roll back - with
    any number of such calls and every other transaction in between. */
module LockProtocol {
  import opened Domain
  import opened Tables
  import opened MemberTx
  import opened StoreMachine
  import EventTx
  import Effects
  import InvitationTx
  import SessionTx

  type CallId = nat

  /** `Wrote` has an uncommitted write of the row it found; `Missed` remembers
      the store its write matched nothing in. */
  datatype Pc =
    | Waiting
    | Locked
    | Wrote(before: Member)
    | Missed(at: DB)
    | Done(result: Result<Id>)
    | Aborted

  datatype Call = Call(actor: Id, event: Id, member: Id, version: int, change: MemberChange, pc: Pc) {
    predicate Holding() {
      pc.Locked? || pc.Wrote? || pc.Missed?
    }

    function AsTx(): Tx {
      PutRole(actor, event, member, version, change)
    }
  }

  datatype State = State(db: DB, calls: map<CallId, Call>, locks: map<Id, CallId>)

  datatype Step =
    | Start(c: CallId, call: Call)
    | Acquire(c: CallId)
    | Write(c: CallId)
    | Commit(c: CallId)
    | Classify(c: CallId)
    | Abort(c: CallId)
    | Other(tx: Tx)
    | Idle

  /** SELECT ... FOR UPDATE blocks while another transaction holds the event row;
      an event that does not exist is not a row and blocks nobody. */
  ghost predicate CanAcquire(s: State, c: CallId) {
    c in s.calls && s.calls[c].pc.Waiting? && (s.calls[c].event in s.db.events ==> s.calls[c].event !in s.locks)
  }

  /** Freshly generated identifiers are not the ones callers already named. */
  ghost predicate Unnamed(s: State, ids: set<Id>) {
    forall c | c in s.calls :: s.calls[c].event !in ids && s.calls[c].member !in ids
  }

  ghost predicate Can(s: State, step: Step) {
    match step
    case Start(c, call) => c !in s.calls && call.pc == Waiting
    case Acquire(c) => CanAcquire(s, c)
    case Write(c) => c in s.calls && s.calls[c].pc.Locked?
    case Commit(c) => c in s.calls && s.calls[c].pc.Wrote?
    case Classify(c) => c in s.calls && s.calls[c].pc.Missed?
    case Abort(c) => c in s.calls && !s.calls[c].pc.Done?
    case Other(tx) => !tx.PutRole? && Enabled(s.db, tx) && Unnamed(s, Draws(tx))
    case Idle => true
  }

  ghost function Goto(s: State, c: CallId, pc: Pc): State
    requires c in s.calls
  {
    s.(calls := s.calls[c := s.calls[c].(pc := pc)])
  }

  /** Committing or rolling back releases the event row. */
  ghost function Finish(s: State, c: CallId, pc: Pc): State
    requires c in s.calls
  {
    var e := s.calls[c].event;
    Goto(s, c, pc).(locks := if e in s.locks && s.locks[e] == c then s.locks - {e} else s.locks)
  }

  ghost function Do(s: State, step: Step): State
    requires Can(s, step)
  {
    match step
    case Start(c, call) => s.(calls := s.calls[c := call])
    case Acquire(c) =>
      var e := s.calls[c].event;
      Goto(s, c, Locked).(locks := if e in s.db.events then s.locks[e := c] else s.locks)
    case Write(c) =>
      var k := s.calls[c];
      if GuardHolds(s.db.members, k.event, k.member, k.version, k.change)
      then Goto(s, c, Wrote(s.db.members[k.member]))
      else Goto(s, c, Missed(s.db))
    case Commit(c) =>
      var k := s.calls[c];
      if k.actor in s.db.users
      then Finish(s, c, Done(Ok(k.member))).(db := CommitRole(s.db, k.actor, k.member, k.pc.before, k.change))
      else Finish(s, c, Done(Err(ErrInternal)))
    case Classify(c) =>
      var k := s.calls[c];
      Finish(s, c, Done(Err(Diagnose(s.db.members, k.event, k.member, k.version))))
    case Abort(c) => Finish(s, c, Aborted)
    case Other(tx) => s.(db := Apply(s.db, tx).0)
    case Idle => s
  }

  // ---------------------------------------------------------------------
  // The protocol invariant
  // ---------------------------------------------------------------------

  /** The row a call names, if it is a membership of the call's event. */
  function Target(members: map<Id, Member>, event: Id, member: Id): Option<Member> {
    if member in members && members[member].eventId == event then Some(members[member]) else None
  }

  ghost predicate LockOk(call: Call, c: CallId, db: DB, locks: map<Id, CallId>) {
    call.Holding() && call.event in db.events ==> call.event in locks && locks[call.event] == c
  }

  /** Under the lock, what the write saw stays true until the call finishes. */
  ghost predicate SightOk(call: Call, db: DB) {
    match call.pc
    case Wrote(before) =>
      && GuardHolds(db.members, call.event, call.member, call.version, call.change)
      && db.members[call.member] == before
    case Missed(at) =>
      && !GuardHolds(at.members, call.event, call.member, call.version, call.change)
      && Target(db.members, call.event, call.member) == Target(at.members, call.event, call.member)
    case _ => true
  }

  ghost predicate CallsOk(s: State) {
    forall c | c in s.calls :: LockOk(s.calls[c], c, s.db, s.locks) && SightOk(s.calls[c], s.db)
  }

  ghost predicate PInv(s: State) {
    Inv(s.db) && CallsOk(s)
  }

  /** Only additions of rows that `call` does not name, as far as its event goes. */
  ghost predicate Harmless(call: Call, a: map<Id, Member>, b: map<Id, Member>) {
    && (forall m | m in a && a[m].eventId == call.event :: m in b && b[m] == a[m])
    && (Target(b, call.event, call.member).Some? ==> Target(a, call.event, call.member).Some?)
  }

  lemma HarmlessKeepsSight(call: Call, a: DB, b: DB)
    requires SightOk(call, a) && Harmless(call, a.members, b.members)
    ensures SightOk(call, b)
  {
    if call.pc.Wrote? {
      if other :| other != call.member && IsAdminRow(a.members, other, call.event) {
        assert IsAdminRow(b.members, other, call.event);
      }
    }
  }

  lemma MostTxTouchNoMember(db: DB, tx: Tx)
    requires !tx.PutRole? && !tx.NewMember? && !tx.NewEvent? && !tx.PutEvent?
    ensures Apply(db, tx).0.members == db.members && Apply(db, tx).0.events == db.events
  {
    hide SlotTaken, RoomTx.NameTaken, RoomReferenced, Invited, HasEmail, KnownSubject, IsMember, Roles.CanGrant, UserByEmail,
      UserBySubject, SessionTx.NewSession, SessionTx.SessionAfter, RoomTx.RoomAfter;
  }

  /** Memberships and events of `db` are as they were in `db'`, and new ones bear drawn identifiers. */
  ghost predicate OnlyAdds(db: DB, db': DB, drawn: set<Id>) {
    && (forall m | m in db.members :: m in db'.members && db'.members[m] == db.members[m])
    && (forall m | m in db'.members && m !in db.members :: m in drawn)
    && (forall e | e in db'.events && e !in db.events :: e in drawn)
    && (forall e | e in db.events :: e in db'.events)
  }

  /** No transaction but a role change updates or removes a membership. */
  lemma OtherTxOnlyAddsMembers(db: DB, tx: Tx)
    requires !tx.PutRole? && Enabled(db, tx) && IssuedOk(db)
    ensures OnlyAdds(db, Apply(db, tx).0, Draws(tx))
  {
    hide Apply, Enabled, IssuedOk;
    match tx {
      case NewMember(_, _, _, _, _, _) => MemberOnlyAdds(db, tx);
      case NewEvent(_, _, _, _, _, _, _) => NewEventOnlyAdds(db, tx);
      case PutEvent(_, _, _, _) => PutEventOnlyAdds(db, tx);
      case _ => MostTxTouchNoMember(db, tx);
    }
  }

  lemma MemberOnlyAdds(db: DB, tx: Tx)
    requires tx.NewMember? && Enabled(db, tx) && IssuedOk(db)
    ensures OnlyAdds(db, Apply(db, tx).0, Draws(tx))
  {
    hide Apply, CreateMember, OnlyAdds;
    NewMemberIs(db, tx);
    CreateOnlyAdds(db, tx.actor, tx.event, tx.email, tx.role, tx.id, tx.now);
  }

  lemma NewMemberIs(db: DB, tx: Tx)
    requires tx.NewMember?
    ensures Apply(db, tx) == CreateMember(db, tx.actor, tx.event, tx.email, tx.role, tx.id, tx.now)
  {
    hide CreateMember;
  }

  lemma CreateOnlyAdds(db: DB, actor: Id, event: Id, email: string, role: Role, id: Id, now: Time)
    requires id !in db.issued && IssuedOk(db)
    ensures OnlyAdds(db, CreateMember(db, actor, event, email, role, id, now).0, {id})
  {
    hide IsMember, Roles.CanGrant, UserByEmail;
  }

  lemma NewEventOnlyAdds(db: DB, tx: Tx)
    requires tx.NewEvent? && Enabled(db, tx) && IssuedOk(db)
    ensures OnlyAdds(db, Apply(db, tx).0, Draws(tx))
  {
  }

  lemma PutEventOnlyAdds(db: DB, tx: Tx)
    requires tx.PutEvent?
    ensures OnlyAdds(db, Apply(db, tx).0, Draws(tx))
  {
    hide EventTx.EventAfter;
  }

  lemma OtherKeepsInv(s: State, tx: Tx)
    requires PInv(s) && Can(s, Other(tx))
    ensures PInv(Do(s, Other(tx)))
  {
    hide Apply, AccessOk, BookingOk, Enabled;
    var s' := Do(s, Other(tx));
    ApplyKeepsInv(s.db, tx);
    OtherTxOnlyAddsMembers(s.db, tx);
    forall c | c in s'.calls ensures LockOk(s'.calls[c], c, s'.db, s'.locks) && SightOk(s'.calls[c], s'.db) {
      assert LockOk(s.calls[c], c, s.db, s.locks) && SightOk(s.calls[c], s.db);
      HarmlessKeepsSight(s.calls[c], s.db, s'.db);
    }
  }

  /** Committing is exactly the atomic role change on the store of that moment. */
  lemma CommitIsAtomic(s: State, c: CallId)
    requires PInv(s) && Can(s, Commit(c))
    ensures var call := s.calls[c];
      Apply(s.db, call.AsTx()) == (Do(s, Commit(c)).db, Do(s, Commit(c)).calls[c].pc.result)
  {
    hide Inv;
    assert SightOk(s.calls[c], s.db);
  }

  lemma CommitKeepsInv(s: State, c: CallId)
    requires PInv(s) && Can(s, Commit(c))
    ensures PInv(Do(s, Commit(c)))
  {
    hide AccessOk, BookingOk, Apply;
    var s', call := Do(s, Commit(c)), s.calls[c];
    CommitIsAtomic(s, c);
    ApplyKeepsInv(s.db, call.AsTx());
    assert LockOk(call, c, s.db, s.locks) && SightOk(call, s.db);
    EventOfMember(s.db, call.member);
    forall d | d in s'.calls ensures LockOk(s'.calls[d], d, s'.db, s'.locks) && SightOk(s'.calls[d], s'.db) {
      if d != c {
        var other := s.calls[d];
        assert LockOk(other, d, s.db, s.locks) && SightOk(other, s.db);
        if other.Holding() && other.event in s.db.events {
          assert other.event != call.event;
        }
        if other.pc.Wrote? {
          EventOfMember(s.db, other.member);
        }
        if other.Holding() && other.event != call.event {
          HarmlessKeepsSight(other, s.db, s'.db);
        }
      }
    }
  }

  lemma EventOfMember(db: DB, m: Id)
    requires Inv(db) && m in db.members
    ensures db.members[m].eventId in db.events
  {
  }

  lemma OwnStepKeepsInv(s: State, step: Step)
    requires PInv(s) && Can(s, step) && !step.Other? && !step.Commit?
    ensures PInv(Do(s, step))
  {
    hide Inv, GuardHolds;
    var s' := Do(s, step);
    forall c | c in s'.calls ensures LockOk(s'.calls[c], c, s'.db, s'.locks) && SightOk(s'.calls[c], s'.db) {
      if c in s.calls {
        assert LockOk(s.calls[c], c, s.db, s.locks) && SightOk(s.calls[c], s.db);
      }
    }
  }

  lemma StepKeepsInv(s: State, step: Step)
    requires PInv(s) && Can(s, step)
    ensures PInv(Do(s, step))
  {
    hide PInv, Do, Can;
    match step
    case Other(tx) => OtherKeepsInv(s, tx);
    case Commit(c) => CommitKeepsInv(s, c);
    case _ => OwnStepKeepsInv(s, step);
  }

  // ---------------------------------------------------------------------
  // Runs of the protocol
  // ---------------------------------------------------------------------

  ghost predicate IsProtocolRun(run: seq<State>, steps: seq<Step>) {
    && |run| == |steps| + 1
    && (forall k | 0 <= k < |steps| :: Can(run[k], steps[k]) && run[k + 1] == Do(run[k], steps[k]))
  }

  ghost predicate Initial(s: State) {
    Inv(s.db) && s.calls == map[] && s.locks == map[]
  }

  lemma {:induction false} ProtocolRunKeepsInv(run: seq<State>, steps: seq<Step>, k: nat)
    requires IsProtocolRun(run, steps) && Initial(run[0]) && k < |run|
    ensures PInv(run[k])
  {
    hide Do, Can, Inv;
    if k > 0 {
      ProtocolRunKeepsInv(run, steps, k - 1);
      StepKeepsInv(run[k - 1], steps[k - 1]);
    }
  }

  /** However demotions, removals and additions interleave, and wherever calls
      stop, every event has an admin in every committed state. */
  lemma EveryEventKeepsAnAdmin(run: seq<State>, steps: seq<Step>, k: nat, event: Id)
    requires IsProtocolRun(run, steps) && Initial(run[0]) && k < |run| && event in run[k].db.events
    ensures HasAdmin(run[k].db.members, event)
  {
    ProtocolRunKeepsInv(run, steps, k);
  }

  /** Each step of the fine-grained protocol leaves the committed store alone or
      performs one atomic transaction on it. */
  lemma StepRefinesStore(s: State, step: Step)
    requires PInv(s) && Can(s, step)
    ensures Do(s, step).db == s.db || exists tx :: Enabled(s.db, tx) && Do(s, step).db == Apply(s.db, tx).0
  {
    hide Inv, Apply, CommitRole, GuardHolds;
    match step
    case Other(tx) => assert Enabled(s.db, tx);
    case Commit(c) =>
      CommitIsAtomic(s, c);
      assert Enabled(s.db, s.calls[c].AsTx());
    case _ =>
  }

  predicate SameRequest(a: Call, b: Call) {
    a.(pc := Waiting) == b.(pc := Waiting)
  }

  /** What an answer says about the store it was decided on, row by row: success, and
      exactly this row has exactly the new role, or is gone; or why not. */
  ghost predicate Means(before: DB, after: DB, call: Call, r: Result<Id>) {
    var here := call.member in before.members && before.members[call.member].eventId == call.event;
    match r
    case Ok(m) => m == call.member && here && Effects.RoleStored(before.members, after.members, call.member, call.change)
    case Err(ErrNotFound) => !here
    case Err(ErrVersionMismatch) => here && before.members[call.member].version != call.version
    case Err(ErrConflict) =>
      && here && before.members[call.member].version == call.version
      && before.members[call.member].role == Admin && call.change != Assign(Admin)
      && forall a | a in before.members && before.members[a].eventId == call.event && before.members[a].role == Admin ::
           a == call.member
    case Err(ErrInternal) => call.actor !in before.users
    case Err(_) => false
  }

  lemma AtomicChangeMeans(db: DB, call: Call)
    ensures var (db', r) := Apply(db, call.AsTx()); Means(db, db', call, r)
  {
    hide CommitRole, Effects.RoleStored;
    Effects.ChangeRoleStores(db, call.actor, call.event, call.member, call.version, call.change);
    if call.actor in db.users {
      Effects.ChangeRoleAnswers(db, call.actor, call.event, call.member, call.version, call.change);
    }
  }

  lemma AnswerMeans(db: DB, after: DB, call: Call, r: Result<Id>)
    requires Apply(db, call.AsTx()).1 == r && (r.Ok? ==> after == Apply(db, call.AsTx()).0)
    ensures Means(db, after, call, r)
  {
    hide Apply;
    AtomicChangeMeans(db, call);
  }

  /** The commit step itself gives this row, and no other, the role asked for. */
  lemma CommitStoresTheRole(s: State, c: CallId)
    requires PInv(s) && Can(s, Commit(c))
    ensures Means(s.db, Do(s, Commit(c)).db, s.calls[c], Do(s, Commit(c)).calls[c].pc.result)
  {
    hide PInv, Means, Apply, CommitRole;
    CommitIsAtomic(s, c);
    AtomicChangeMeans(s.db, s.calls[c]);
  }

  /** Step `j` is where call `c` takes effect: its outcome is that of the atomic
      role change on the store of that very moment, and means what it says. */
  ghost predicate TakesEffect(run: seq<State>, steps: seq<Step>, j: nat, c: CallId, call: Call, r: Result<Id>)
    requires IsProtocolRun(run, steps) && j < |steps|
  {
    && (steps[j] == Write(c) || steps[j] == Commit(c))
    && c in run[j].calls && SameRequest(run[j].calls[c], call)
    && Apply(run[j].db, call.AsTx()).1 == r
    && (r.Ok? ==> run[j + 1].db == Apply(run[j].db, call.AsTx()).0)
    && Means(run[j].db, run[j + 1].db, call, r)
  }

  ghost predicate MissedAt(run: seq<State>, steps: seq<Step>, j: nat, c: CallId, call: Call, at: DB)
    requires IsProtocolRun(run, steps) && j < |steps|
  {
    steps[j] == Write(c) && run[j].db == at && c in run[j].calls && SameRequest(run[j].calls[c], call)
  }

  /** The call a step acts for, if it is one of the calls' own steps. */
  function Actor(step: Step): Option<CallId> {
    match step
    case Start(c, _) => Some(c)
    case Acquire(c) => Some(c)
    case Write(c) => Some(c)
    case Commit(c) => Some(c)
    case Classify(c) => Some(c)
    case Abort(c) => Some(c)
    case Other(_) => None
    case Idle => None
  }

  lemma OthersLeaveCallAlone(s: State, step: Step, c: CallId)
    requires Can(s, step) && Actor(step) != Some(c)
    ensures c in Do(s, step).calls <==> c in s.calls
    ensures c in s.calls ==> Do(s, step).calls[c] == s.calls[c]
  {
    hide Apply, CommitRole, GuardHolds;
  }

  lemma {:induction false} MissedCameFromItsWrite(run: seq<State>, steps: seq<Step>, k: nat, c: CallId)
    requires IsProtocolRun(run, steps) && Initial(run[0]) && k < |run|
    requires c in run[k].calls && run[k].calls[c].pc.Missed?
    ensures exists j | 0 <= j < k :: MissedAt(run, steps, j, c, run[k].calls[c], run[k].calls[c].pc.at)
  {
    hide Apply, CommitRole, GuardHolds, Inv;
    if Actor(steps[k - 1]) != Some(c) {
      OthersLeaveCallAlone(run[k - 1], steps[k - 1], c);
      MissedCameFromItsWrite(run, steps, k - 1, c);
    } else {
      assert steps[k - 1] == Write(c);
      assert MissedAt(run, steps, k - 1, c, run[k].calls[c], run[k].calls[c].pc.at);
    }
  }

  lemma ClassifyMatchesWrite(s: State, c: CallId)
    requires PInv(s) && Can(s, Classify(c))
    ensures Apply(s.calls[c].pc.at, s.calls[c].AsTx()).1 == Do(s, Classify(c)).calls[c].pc.result
  {
    hide Inv, GuardHolds;
    assert SightOk(s.calls[c], s.db);
  }

  /** Every call that returned - a success, a missing row, a stale version or the
      last-admin refusal - returned what the whole role change would have
      returned, executed in one piece at some step of its own. */
  lemma {:induction false} RoleChangesAreLinearizable(run: seq<State>, steps: seq<Step>, k: nat, c: CallId)
    requires IsProtocolRun(run, steps) && Initial(run[0]) && k < |run|
    requires c in run[k].calls && run[k].calls[c].pc.Done?
    ensures exists j | 0 <= j < k :: TakesEffect(run, steps, j, c, run[k].calls[c], run[k].calls[c].pc.result)
  {
    hide Apply, CommitRole, GuardHolds, Inv, PInv, Means;
    var s, step, call := run[k - 1], steps[k - 1], run[k].calls[c];
    if Actor(step) != Some(c) {
      OthersLeaveCallAlone(s, step, c);
      RoleChangesAreLinearizable(run, steps, k - 1, c);
    } else {
      ProtocolRunKeepsInv(run, steps, k - 1);
      if step == Commit(c) {
        CommitIsAtomic(s, c);
        AnswerMeans(s.db, run[k].db, call, call.pc.result);
        assert TakesEffect(run, steps, k - 1, c, call, call.pc.result);
      } else {
        assert step == Classify(c);
        ClassifyMatchesWrite(s, c);
        MissedCameFromItsWrite(run, steps, k - 1, c);
        var j :| 0 <= j < k - 1 && MissedAt(run, steps, j, c, s.calls[c], s.calls[c].pc.at);
        AnswerMeans(run[j].db, run[j + 1].db, call, call.pc.result);
        assert TakesEffect(run, steps, j, c, call, call.pc.result);
      }
    }
  }

  // ---------------------------------------------------------------------
  // Nobody waits for nothing
  // ---------------------------------------------------------------------

  /** A locked event row is held by an unfinished call of that event. */
  ghost predicate LocksHeld(s: State) {
    forall e | e in s.locks ::
      s.locks[e] in s.calls && s.calls[s.locks[e]].Holding() && s.calls[s.locks[e]].event == e
  }

  lemma StepKeepsLocksHeld(s: State, step: Step)
    requires LocksHeld(s) && Can(s, step)
    ensures LocksHeld(Do(s, step))
  {
    hide Apply, CommitRole, GuardHolds, Diagnose, Enabled;
  }

  lemma {:induction false} LocksAreHeld(run: seq<State>, steps: seq<Step>, k: nat)
    requires IsProtocolRun(run, steps) && Initial(run[0]) && k < |run|
    ensures LocksHeld(run[k])
  {
    hide Do, Can, Inv;
    if k > 0 {
      LocksAreHeld(run, steps, k - 1);
      StepKeepsLocksHeld(run[k - 1], steps[k - 1]);
    }
  }

  /** An unfinished call can take its next step, unless it waits for another call that
      holds the event row; a holder's last step frees the row. */
  ghost predicate CanMove(s: State, c: CallId)
    requires c in s.calls
  {
    match s.calls[c].pc
    case Waiting =>
      || Can(s, Acquire(c))
      || exists d :: d in s.calls && d != c && s.calls[d].Holding() && s.calls[d].event == s.calls[c].event
    case Locked => Can(s, Write(c)) && (Do(s, Write(c)).calls[c].pc.Wrote? || Do(s, Write(c)).calls[c].pc.Missed?)
    case Wrote(_) => Can(s, Commit(c)) && s.calls[c].event !in Do(s, Commit(c)).locks
    case Missed(_) => Can(s, Classify(c)) && s.calls[c].event !in Do(s, Classify(c)).locks
    case _ => true
  }

  lemma WaiterCanMove(s: State, c: CallId)
    requires LocksHeld(s) && c in s.calls && s.calls[c].pc.Waiting?
    ensures CanMove(s, c)
  {
    var e := s.calls[c].event;
    if e in s.locks {
      assert s.calls[s.locks[e]].Holding() && s.locks[e] != c;
    }
  }

  lemma LastStepFrees(s: State, c: CallId)
    requires LocksExist(s) && c in s.calls && LockOk(s.calls[c], c, s.db, s.locks)
    requires s.calls[c].pc.Wrote? || s.calls[c].pc.Missed?
    ensures CanMove(s, c)
  {
    hide CommitRole, Diagnose, GuardHolds;
  }

  lemma HolderCanMove(s: State, c: CallId)
    requires c in s.calls && s.calls[c].pc.Locked?
    ensures CanMove(s, c)
  {
    hide GuardHolds;
  }

  /** In every run, at every moment: an unfinished call can move, or waits for one
      that can, and that in at most two more steps leaves the row free. */
  lemma NeverStuck(run: seq<State>, steps: seq<Step>, k: nat, c: CallId)
    requires IsProtocolRun(run, steps) && Initial(run[0]) && k < |run| && c in run[k].calls
    ensures CanMove(run[k], c)
  {
    hide Inv, Do, Can, CanMove, LocksHeld, LocksExist, SightOk, LockOk;
    LocksAreHeld(run, steps, k);
    LockedEventsExist(run, steps, k);
    ProtocolRunKeepsInv(run, steps, k);
    match run[k].calls[c].pc
    case Waiting => WaiterCanMove(run[k], c);
    case Locked => HolderCanMove(run[k], c);
    case Wrote(_) => LastStepFrees(run[k], c);
    case Missed(_) => LastStepFrees(run[k], c);
    case _ => FinishedCanMove(run[k], c);
  }

  lemma FinishedCanMove(s: State, c: CallId)
    requires c in s.calls && (s.calls[c].pc.Done? || s.calls[c].pc.Aborted?)
    ensures CanMove(s, c)
  {
  }

  ghost predicate LocksExist(s: State) {
    forall e | e in s.locks :: e in s.db.events
  }

  lemma StepKeepsLocksExist(s: State, step: Step)
    requires PInv(s) && LocksExist(s) && Can(s, step)
    ensures LocksExist(Do(s, step))
  {
    hide Apply, CommitRole, GuardHolds, Diagnose, Enabled, AccessOk, BookingOk;
    if step.Other? {
      OtherTxOnlyAddsMembers(s.db, step.tx);
    } else if step.Commit? {
      CommitKeepsEvents(s.db, s.calls[step.c]);
    }
  }

  lemma CommitKeepsEvents(db: DB, call: Call)
    requires call.pc.Wrote?
    ensures CommitRole(db, call.actor, call.member, call.pc.before, call.change).events == db.events
  {
    hide MemberAfter, Replace;
  }

  lemma {:induction false} LockedEventsExist(run: seq<State>, steps: seq<Step>, k: nat)
    requires IsProtocolRun(run, steps) && Initial(run[0]) && k < |run|
    ensures LocksExist(run[k])
  {
    hide Do, Can, Inv;
    if k > 0 {
      LockedEventsExist(run, steps, k - 1);
      ProtocolRunKeepsInv(run, steps, k - 1);
      StepKeepsLocksExist(run[k - 1], steps[k - 1]);
    }
  }

  // ---------------------------------------------------------------------
  // Why the lock is needed
  // ---------------------------------------------------------------------

  /** Without the lock: two demotions of an event's only two admins both pass the
      guard against the same committed rows, and committing both leaves none. */
  lemma UnlockedDemotionsOrphanTheEvent(db: DB, actor: Id, event: Id, m: Id, n: Id)
    requires m != n && IsAdminRow(db.members, m, event) && IsAdminRow(db.members, n, event)
    requires forall a | IsAdminRow(db.members, a, event) :: a == m || a == n
    ensures GuardHolds(db.members, event, m, db.members[m].version, Assign(Attendee))
    ensures GuardHolds(db.members, event, n, db.members[n].version, Assign(Attendee))
    ensures var first := CommitRole(db, actor, m, db.members[m], Assign(Attendee));
      !HasAdmin(CommitRole(first, actor, n, db.members[n], Assign(Attendee)).members, event)
  {
    var first := CommitRole(db, actor, m, db.members[m], Assign(Attendee));
    var second := CommitRole(first, actor, n, db.members[n], Assign(Attendee));
    if a :| IsAdminRow(second.members, a, event) {
      assert IsAdminRow(db.members, a, event);
    }
  }
}

/** Bulk invites as they really run: look the key up, one transaction per item,
    insert the key if it is still free, otherwise read the winner's row back.
    Any number of calls interleave with each other, with single invites and with
    every other transaction, and each may stop after any step. */
module BulkProtocol {
  import opened Domain
  import opened Tables
  import opened InvitationTx
  import opened StoreMachine
  import opened Evolution
  import Effects

  type CallId = nat

  datatype Item = Item(email: string, role: Role)

  datatype Token = Token(key: string, hash: string)

  datatype Pc =
    | Looking
    | Working
    | Lost
    | Returned(items: seq<ItemResult>, replayed: bool)
    | Rejected
    | Failed

  /** A call with a token is a bulk invite; one without is a single invite. `done`
      holds the outcomes this call computed itself. */
  datatype Call = Call(
    actor: Id, event: Id, token: Option<Token>, items: seq<Item>, done: seq<ItemResult>, pc: Pc)

  /** `winners` names, for each stored key, the call whose insert stored it. */
  datatype State = State(db: DB, calls: map<CallId, Call>, winners: map<(Id, string), CallId>)

  datatype Step =
    | Start(c: CallId, call: Call)
    | Look(c: CallId)
    | Process(c: CallId, id: Id, now: Time, replyLost: bool)
    | Record(c: CallId, replyLost: bool)
    | Reread(c: CallId)
    | Die(c: CallId)
    | Other(tx: Tx)
    | Idle

  ghost predicate Can(s: State, step: Step) {
    match step
    case Start(c, call) =>
      && c !in s.calls && call.done == []
      && (if call.token.Some? then call.pc == Looking else call.pc == Working && |call.items| == 1)
    case Look(c) => c in s.calls && s.calls[c].pc.Looking? && s.calls[c].token.Some?
    case Process(c, id, _, _) =>
      c in s.calls && s.calls[c].pc.Working? && |s.calls[c].done| < |s.calls[c].items| && Fresh(s.db, id)
    case Record(c, _) => c in s.calls && s.calls[c].pc.Working? && |s.calls[c].done| == |s.calls[c].items|
    case Reread(c) => c in s.calls && s.calls[c].pc.Lost? && s.calls[c].token.Some?
    case Die(c) => c in s.calls && (s.calls[c].pc.Looking? || s.calls[c].pc.Working? || s.calls[c].pc.Lost?)
    case Other(tx) => !tx.NewKey? && Enabled(s.db, tx)
    case Idle => true
  }

  function Goto(s: State, c: CallId, pc: Pc): State
    requires c in s.calls
  {
    s.(calls := s.calls[c := s.calls[c].(pc := pc)])
  }

  /** What reading the stored row means for a call: replay it, refuse a different
      request, or nothing there. */
  function Consult(keys: map<(Id, string), KeyRow>, actor: Id, token: Token, absent: Pc): Pc {
    if (actor, token.key) !in keys then absent
    else if keys[(actor, token.key)].hash != token.hash then Rejected
    else Returned(keys[(actor, token.key)].items, true)
  }

  function Outcome(email: string, r: Result<Id>): Option<ItemResult> {
    match r
    case Ok(id) => Some(Created(email, id))
    case Err(ErrConflict) => Some(Conflict(email))
    case Err(ErrForbidden) => Some(Forbidden(email))
    case Err(_) => None
  }

  ghost function DoProcess(s: State, c: CallId, id: Id, now: Time, replyLost: bool): State
    requires Can(s, Process(c, id, now, replyLost))
  {
    var call := s.calls[c];
    var item := call.items[|call.done|];
    var (db', r) := Invite(s.db, call.actor, call.event, item.email, item.role, id, now);
    var o := Outcome(item.email, r);
    if replyLost || o.None? then Goto(s, c, Failed).(db := db')
    else s.(db := db', calls := s.calls[c := call.(done := call.done + [o.value])])
  }

  ghost function DoRecord(s: State, c: CallId, replyLost: bool): State
    requires Can(s, Record(c, replyLost))
  {
    var call := s.calls[c];
    if call.token.None? then Goto(s, c, Returned(call.done, false))
    else
      var t := call.token.value;
      var (db', r) := RecordKey(s.db, call.actor, t.key, t.hash, call.done);
      if r.Err? then Goto(s, c, Failed)
      else if r.value then
        Goto(s, c, if replyLost then Failed else Returned(call.done, false))
          .(db := db', winners := s.winners[(call.actor, t.key) := c])
      else Goto(s, c, if replyLost then Failed else Lost)
  }

  ghost function Do(s: State, step: Step): State
    requires Can(s, step)
  {
    match step
    case Start(c, call) => s.(calls := s.calls[c := call])
    case Look(c) => Goto(s, c, Consult(s.db.keys, s.calls[c].actor, s.calls[c].token.value, Working))
    case Process(c, id, now, replyLost) => DoProcess(s, c, id, now, replyLost)
    case Record(c, replyLost) => DoRecord(s, c, replyLost)
    case Reread(c) => Goto(s, c, Consult(s.db.keys, s.calls[c].actor, s.calls[c].token.value, Failed))
    case Die(c) => Goto(s, c, Failed)
    case Other(tx) => s.(db := Apply(s.db, tx).0)
    case Idle => s
  }

  /** The transaction a step commits, if any. */
  ghost function TxOf(s: State, step: Step): Option<Tx>
    requires Can(s, step)
  {
    match step
    case Process(c, id, now, _) =>
      var call := s.calls[c];
      var item := call.items[|call.done|];
      Some(NewInvitation(call.actor, call.event, item.email, item.role, id, now))
    case Record(c, _) =>
      var call := s.calls[c];
      if call.token.None? then None
      else Some(NewKey(call.actor, call.token.value.key, call.token.value.hash, call.done))
    case Other(tx) => Some(tx)
    case _ => None
  }

  lemma StepRefinesStore(s: State, step: Step)
    requires Can(s, step)
    ensures var tx := TxOf(s, step);
      if tx.None? then Do(s, step).db == s.db
      else Enabled(s.db, tx.value) && Do(s, step).db == Apply(s.db, tx.value).0
  {
    hide Invite;
  }

  // ---------------------------------------------------------------------
  // Invariant
  // ---------------------------------------------------------------------

  /** A recorded outcome is true of the store, and stays true. */
  ghost predicate OutcomeOk(r: ItemResult, event: Id, item: Item, invitations: map<Id, Invitation>) {
    match r
    case Created(email, id) =>
      && email == item.email && id in invitations && invitations[id].eventId == event
      && invitations[id].email == item.email && invitations[id].role == item.role
    case Conflict(email) => email == item.email && Invited(invitations, event, email)
    case Forbidden(email) => email == item.email
  }

  /** Every outcome reported so far is true of the store. */
  ghost predicate OutcomesTrue(done: seq<ItemResult>, event: Id, items: seq<Item>, invitations: map<Id, Invitation>) {
    && |done| <= |items|
    && (forall i | 0 <= i < |done| :: OutcomeOk(done[i], event, items[i], invitations))
  }

  ghost predicate DoneOk(call: Call, invitations: map<Id, Invitation>) {
    OutcomesTrue(call.done, call.event, call.items, invitations)
  }

  /** The call that stored a key row computed that row itself, from the same request. */
  ghost predicate WinnerOk(k: (Id, string), row: KeyRow, call: Call) {
    && call.actor == k.0 && call.token == Some(Token(k.1, row.hash))
    && call.done == row.items && |call.done| == |call.items|
    && (call.pc == Returned(row.items, false) || call.pc == Failed)
  }

  ghost predicate PcOk(c: CallId, call: Call, keys: map<(Id, string), KeyRow>, winners: map<(Id, string), CallId>) {
    match call.pc
    case Looking => call.done == []
    case Lost => call.token.Some? && (call.actor, call.token.value.key) in keys
    case Returned(items, replayed) =>
      if call.token.None? then !replayed && items == call.done
      else
        var k := (call.actor, call.token.value.key);
        && k in keys && keys[k] == KeyRow(call.token.value.hash, items)
        && (!replayed ==> k in winners && winners[k] == c)
    case _ => true
  }

  ghost predicate CallsOk(s: State) {
    forall c | c in s.calls :: DoneOk(s.calls[c], s.db.invitations) && PcOk(c, s.calls[c], s.db.keys, s.winners)
  }

  ghost predicate KeysOk(s: State) {
    forall k | k in s.db.keys ::
      k in s.winners && s.winners[k] in s.calls && WinnerOk(k, s.db.keys[k], s.calls[s.winners[k]])
  }

  function CreatedId(calls: map<CallId, Call>, c: CallId, i: int): Option<Id> {
    if c in calls && 0 <= i < |calls[c].done| && calls[c].done[i].Created? then Some(calls[c].done[i].id) else None
  }

  ghost predicate CreatedOnce(calls: map<CallId, Call>) {
    forall c, i, d, j | CreatedId(calls, c, i).Some? && CreatedId(calls, c, i) == CreatedId(calls, d, j) :: c == d && i == j
  }

  ghost predicate BInv(s: State) {
    Inv(s.db) && CallsOk(s) && KeysOk(s) && CreatedOnce(s.calls)
  }

  lemma OutcomesPersist(
    done: seq<ItemResult>, event: Id, items: seq<Item>, a: map<Id, Invitation>, b: map<Id, Invitation>)
    requires OutcomesTrue(done, event, items, a) && Extends(a, b)
    ensures OutcomesTrue(done, event, items, b)
  {
    forall i | 0 <= i < |done| ensures OutcomeOk(done[i], event, items[i], b) {
      assert OutcomeOk(done[i], event, items[i], a);
      var r := done[i];
      if r.Conflict? {
        var x :| x in a && a[x].eventId == event && a[x].email == r.email;
        assert x in b && b[x] == a[x];
      }
    }
  }

  /** Nothing but a key insert touches the key table. */
  lemma OtherTxKeepsKeys(db: DB, tx: Tx)
    requires !tx.NewKey?
    ensures Apply(db, tx).0.keys == db.keys
  {
    hide SlotTaken, RoomTx.NameTaken, RoomReferenced, Invited, HasEmail, KnownSubject, IsMember, Roles.CanGrant, UserByEmail, MemberTx.GuardHolds, UserBySubject,
      EventTx.EventAfter, RoomTx.RoomAfter, SessionTx.SessionAfter, SessionTx.NewSession, MemberTx.Replace, MemberTx.MemberAfter;
  }

  lemma OtherKeepsInv(s: State, tx: Tx)
    requires BInv(s) && Can(s, Other(tx))
    ensures BInv(Do(s, Other(tx)))
  {
    hide Apply, AccessOk, BookingOk, Enabled, OutcomesTrue, PcOk, WinnerOk, CreatedOnce;
    var s' := Do(s, Other(tx));
    ApplyKeepsInv(s.db, tx);
    ApplyEvolves(s.db, tx);
    OtherTxKeepsKeys(s.db, tx);
    forall c | c in s'.calls ensures DoneOk(s'.calls[c], s'.db.invitations) && PcOk(c, s'.calls[c], s'.db.keys, s'.winners) {
      OutcomesPersist(s.calls[c].done, s.calls[c].event, s.calls[c].items, s.db.invitations, s'.db.invitations);
    }
  }

  /** What one item's transaction reports is true right after it. */
  lemma InviteOutcome(db: DB, actor: Id, event: Id, item: Item, id: Id, now: Time)
    requires Fresh(db, id) && IssuedOk(db)
    ensures var (db', r) := Invite(db, actor, event, item.email, item.role, id, now);
      var o := Outcome(item.email, r);
      && Extends(db.invitations, db'.invitations) && db'.keys == db.keys
      && (o.Some? ==> OutcomeOk(o.value, event, item, db'.invitations))
      && (o.Some? && o.value.Created? ==> o.value.id == id)
  {
    hide Roles.CanGrant, UserByEmail;
  }

  lemma CreatedIdIsStored(s: State, c: CallId, i: int)
    requires CallsOk(s) && CreatedId(s.calls, c, i).Some?
    ensures CreatedId(s.calls, c, i).value in s.db.invitations
  {
    assert OutcomeOk(s.calls[c].done[i], s.calls[c].event, s.calls[c].items[i], s.db.invitations);
  }

  lemma ProcessKeepsCreatedOnce(s: State, c: CallId, id: Id, now: Time)
    requires BInv(s) && Can(s, Process(c, id, now, false))
    ensures CreatedOnce(DoProcess(s, c, id, now, false).calls)
  {
    hide Inv, Invite, PcOk, WinnerOk, KeysOk;
    var s' := DoProcess(s, c, id, now, false);
    var call := s.calls[c];
    InviteOutcome(s.db, call.actor, call.event, call.items[|call.done|], id, now) by { assert Inv(s.db); IssuedIsPartOfInv(s.db); }
    forall d, i, e, j | CreatedId(s'.calls, d, i).Some? && CreatedId(s'.calls, d, i) == CreatedId(s'.calls, e, j)
      ensures d == e && i == j
    {
      var newD, newE := d == c && i == |call.done|, e == c && j == |call.done|;
      if !newD {
        assert CreatedId(s'.calls, d, i) == CreatedId(s.calls, d, i);
        CreatedIdIsStored(s, d, i);
      }
      if !newE {
        assert CreatedId(s'.calls, e, j) == CreatedId(s.calls, e, j);
        CreatedIdIsStored(s, e, j);
      }
      IssuedIsPartOfInv(s.db);
    }
  }

  lemma IssuedIsPartOfInv(db: DB)
    requires Inv(db)
    ensures IssuedOk(db)
  {
  }

  lemma ProcessKeepsInv(s: State, c: CallId, id: Id, now: Time, replyLost: bool)
    requires BInv(s) && Can(s, Process(c, id, now, replyLost))
    ensures BInv(DoProcess(s, c, id, now, replyLost))
  {
    hide AccessOk, BookingOk, Invite, CreatedOnce, OutcomeOk;
    var s', call := DoProcess(s, c, id, now, replyLost), s.calls[c];
    var item := call.items[|call.done|];
    InviteOutcome(s.db, call.actor, call.event, item, id, now);
    InviteKeepsInv(s.db, call.actor, call.event, item.email, item.role, id, now);
    forall d | d in s'.calls ensures DoneOk(s'.calls[d], s'.db.invitations) && PcOk(d, s'.calls[d], s'.db.keys, s'.winners) {
      assert DoneOk(s.calls[d], s.db.invitations) && PcOk(d, s.calls[d], s.db.keys, s.winners);
      OutcomesPersist(s.calls[d].done, s.calls[d].event, s.calls[d].items, s.db.invitations, s'.db.invitations);
    }
    if replyLost || s'.calls[c].pc == Failed {
      SameDoneKeepsCreatedOnce(s.calls, s'.calls);
    } else {
      ProcessKeepsCreatedOnce(s, c, id, now);
    }
  }

  lemma SameDoneKeepsCreatedOnce(a: map<CallId, Call>, b: map<CallId, Call>)
    requires CreatedOnce(a)
    requires forall c | c in b :: if c in a then b[c].done == a[c].done else b[c].done == []
    ensures CreatedOnce(b)
  {
    assert forall c, i :: CreatedId(b, c, i).Some? ==> CreatedId(b, c, i) == CreatedId(a, c, i);
  }

  lemma RecordKeepsCalls(s: State, c: CallId, replyLost: bool)
    requires CallsOk(s) && Can(s, Record(c, replyLost))
    ensures CallsOk(DoRecord(s, c, replyLost))
  {
    hide OutcomeOk;
    var s' := DoRecord(s, c, replyLost);
    forall d | d in s'.calls ensures DoneOk(s'.calls[d], s'.db.invitations) && PcOk(d, s'.calls[d], s'.db.keys, s'.winners) {
      assert DoneOk(s.calls[d], s.db.invitations) && PcOk(d, s.calls[d], s.db.keys, s.winners);
    }
  }

  lemma RecordKeepsKeys(s: State, c: CallId, replyLost: bool)
    requires KeysOk(s) && Can(s, Record(c, replyLost))
    ensures KeysOk(DoRecord(s, c, replyLost))
  {
    var s' := DoRecord(s, c, replyLost);
    forall k | k in s'.db.keys
      ensures k in s'.winners && s'.winners[k] in s'.calls && WinnerOk(k, s'.db.keys[k], s'.calls[s'.winners[k]])
    {
      if k in s.db.keys {
        assert WinnerOk(k, s.db.keys[k], s.calls[s.winners[k]]);
      }
    }
  }

  lemma RecordKeepsInv(s: State, c: CallId, replyLost: bool)
    requires BInv(s) && Can(s, Record(c, replyLost))
    ensures BInv(DoRecord(s, c, replyLost))
  {
    hide Inv, CreatedOnce, CallsOk, KeysOk;
    var s', call := DoRecord(s, c, replyLost), s.calls[c];
    SameDoneKeepsCreatedOnce(s.calls, s'.calls);
    if call.token.Some? {
      KeyKeepsInv(s.db, call.actor, call.token.value.key, call.token.value.hash, call.done);
    }
    RecordKeepsCalls(s, c, replyLost);
    RecordKeepsKeys(s, c, replyLost);
  }

  lemma QuietStepKeepsKeys(s: State, step: Step)
    requires KeysOk(s) && Can(s, step)
    requires step.Start? || step.Look? || step.Reread? || step.Die?
    ensures KeysOk(Do(s, step))
  {
    var s' := Do(s, step);
    forall k | k in s'.db.keys
      ensures k in s'.winners && s'.winners[k] in s'.calls && WinnerOk(k, s'.db.keys[k], s'.calls[s'.winners[k]])
    {
      assert WinnerOk(k, s.db.keys[k], s.calls[s.winners[k]]);
    }
  }

  lemma QuietStepKeepsInv(s: State, step: Step)
    requires BInv(s) && Can(s, step)
    requires step.Start? || step.Look? || step.Reread? || step.Die?
    ensures BInv(Do(s, step))
  {
    hide Inv, CreatedOnce, OutcomeOk, KeysOk, WinnerOk;
    var s' := Do(s, step);
    SameDoneKeepsCreatedOnce(s.calls, s'.calls);
    QuietStepKeepsKeys(s, step);
    forall d | d in s'.calls ensures DoneOk(s'.calls[d], s'.db.invitations) && PcOk(d, s'.calls[d], s'.db.keys, s'.winners) {
      if d in s.calls {
        assert DoneOk(s.calls[d], s.db.invitations) && PcOk(d, s.calls[d], s.db.keys, s.winners);
      }
    }
  }

  lemma StepKeepsInv(s: State, step: Step)
    requires BInv(s) && Can(s, step)
    ensures BInv(Do(s, step))
  {
    hide BInv, Can, DoProcess, DoRecord, Consult;
    match step
    case Process(c, id, now, replyLost) => ProcessKeepsInv(s, c, id, now, replyLost);
    case Record(c, replyLost) => RecordKeepsInv(s, c, replyLost);
    case Other(tx) => OtherKeepsInv(s, tx);
    case Idle => assert Do(s, step) == s;
    case _ => QuietStepKeepsInv(s, step);
  }

  // ---------------------------------------------------------------------
  // What callers can rely on
  // ---------------------------------------------------------------------

  ghost predicate IsBulkRun(run: seq<State>, steps: seq<Step>) {
    && |run| == |steps| + 1
    && (forall k | 0 <= k < |steps| :: Can(run[k], steps[k]) && run[k + 1] == Do(run[k], steps[k]))
  }

  /** Any valid store no bulk invite has used yet. */
  ghost predicate Initial(s: State) {
    Inv(s.db) && s.db.keys == map[] && s.calls == map[] && s.winners == map[]
  }

  lemma {:induction false} BulkRunKeepsInv(run: seq<State>, steps: seq<Step>, k: nat)
    requires IsBulkRun(run, steps) && Initial(run[0]) && k < |run|
    ensures BInv(run[k])
  {
    hide Do, Can, Inv;
    if k > 0 {
      BulkRunKeepsInv(run, steps, k - 1);
      StepKeepsInv(run[k - 1], steps[k - 1]);
    }
  }

  ghost predicate Answered(s: State, c: CallId) {
    c in s.calls && s.calls[c].pc.Returned? && s.calls[c].token.Some?
  }

  ghost predicate SameKey(s: State, c: CallId, d: CallId)
    requires Answered(s, c) && c in s.calls && d in s.calls && s.calls[d].token.Some?
  {
    s.calls[c].actor == s.calls[d].actor && s.calls[c].token.value.key == s.calls[d].token.value.key
  }

  /** All calls that returned a result for one (actor, key) sent the same request
      hash and returned the same items, and at most one of them is the original. */
  lemma SameKeySameAnswer(run: seq<State>, steps: seq<Step>, k: nat, c: CallId, d: CallId)
    requires IsBulkRun(run, steps) && Initial(run[0]) && k < |run|
    requires Answered(run[k], c) && Answered(run[k], d) && SameKey(run[k], c, d)
    ensures run[k].calls[c].pc.items == run[k].calls[d].pc.items
    ensures run[k].calls[c].token == run[k].calls[d].token
    ensures !run[k].calls[c].pc.replayed && !run[k].calls[d].pc.replayed ==> c == d
  {
    BulkRunKeepsInv(run, steps, k);
    var s := run[k];
    assert PcOk(c, s.calls[c], s.db.keys, s.winners) && PcOk(d, s.calls[d], s.db.keys, s.winners);
  }

  lemma StepKeepsStoredAnswers(s: State, step: Step)
    requires BInv(s) && Can(s, step)
    ensures Evolves(s.db, Do(s, step).db)
  {
    hide AccessOk, BookingOk, Apply, Evolves, Do, Can;
    StepRefinesStore(s, step);
    var tx := TxOf(s, step);
    if tx.Some? {
      ApplyEvolves(s.db, tx.value);
    } else {
      EvolvesReflexive(s.db);
    }
  }

  /** A stored key row never changes again, whatever happens later, and neither
      does an answer a call has returned. */
  lemma {:induction false} StoredAnswerNeverChanges(run: seq<State>, steps: seq<Step>, i: nat, j: nat, key: (Id, string))
    requires IsBulkRun(run, steps) && Initial(run[0]) && i <= j < |run| && key in run[i].db.keys
    ensures key in run[j].db.keys && run[j].db.keys[key] == run[i].db.keys[key]
    decreases j
  {
    hide Do, Can, Inv;
    if i < j {
      StoredAnswerNeverChanges(run, steps, i, j - 1, key);
      BulkRunKeepsInv(run, steps, j - 1);
      StepKeepsStoredAnswers(run[j - 1], steps[j - 1]);
    }
  }

  /** Each "created" names the stored invitation of that call's event, email and
      role; each "conflict" means the email is invited; and no invitation is
      reported "created" twice, by whatever calls, retries or crashes. */
  lemma OutcomesAreTrueAndUnique(run: seq<State>, steps: seq<Step>, k: nat, c: CallId, i: nat)
    requires IsBulkRun(run, steps) && Initial(run[0]) && k < |run|
    requires c in run[k].calls && i < |run[k].calls[c].done|
    ensures |run[k].calls[c].done| <= |run[k].calls[c].items|
    ensures OutcomeOk(run[k].calls[c].done[i], run[k].calls[c].event, run[k].calls[c].items[i], run[k].db.invitations)
    ensures forall d, j | d in run[k].calls && 0 <= j < |run[k].calls[d].done|
        && run[k].calls[c].done[i].Created? && run[k].calls[d].done[j].Created?
        && run[k].calls[c].done[i].id == run[k].calls[d].done[j].id :: c == d && i == j
  {
    BulkRunKeepsInv(run, steps, k);
    var s := run[k];
    assert DoneOk(s.calls[c], s.db.invitations);
    forall d, j | d in s.calls && 0 <= j < |s.calls[d].done|
      && s.calls[c].done[i].Created? && s.calls[d].done[j].Created?
      && s.calls[c].done[i].id == s.calls[d].done[j].id ensures c == d && i == j
    {
      assert CreatedId(s.calls, c, i) == CreatedId(s.calls, d, j);
    }
  }

  /** The answer an item deserves, read off the rows of the store it is processed in:
      refused without a row of the actor in the event, or without an admin row for
      more than an attendee; else a conflict for an address already invited there;
      else a new invitation, under an identifier never used before. */
  ghost predicate Decided(db: DB, actor: Id, event: Id, item: Item, r: ItemResult) {
    var member := exists m ::
      m in db.members && db.members[m].eventId == event && db.members[m].userId == actor;
    var admin := exists m ::
      m in db.members && db.members[m].eventId == event && db.members[m].userId == actor && db.members[m].role == Admin;
    var invited := exists i ::
      i in db.invitations && db.invitations[i].eventId == event && db.invitations[i].email == item.email;
    match r
    case Forbidden(email) => email == item.email && (!member || (item.role != Attendee && !admin))
    case Conflict(email) => email == item.email && member && (item.role == Attendee || admin) && invited
    case Created(email, id) =>
      email == item.email && member && (item.role == Attendee || admin) && !invited && id !in db.issued
  }

  lemma ProcessDecides(s: State, c: CallId, id: Id, now: Time)
    requires BInv(s) && Can(s, Process(c, id, now, false))
    ensures var call, call' := s.calls[c], DoProcess(s, c, id, now, false).calls[c];
      && call'.actor == call.actor && call'.event == call.event && call'.items == call.items
      && (call'.done == call.done || (
            && call'.done == call.done + [call'.done[|call.done|]]
            && Decided(s.db, call.actor, call.event, call.items[|call.done|], call'.done[|call.done|])))
  {
    hide Inv, Invite, CallsOk, KeysOk, CreatedOnce;
    var call := s.calls[c];
    var item := call.items[|call.done|];
    Effects.InviteAnswers(s.db, call.actor, call.event, item.email, item.role, id, now);
  }

  /** Step `j` processed item `i` of call `c` and decided its outcome `r`. */
  ghost predicate DecidedAt(run: seq<State>, steps: seq<Step>, j: nat, c: CallId, call: Call, i: nat, r: ItemResult)
    requires IsBulkRun(run, steps) && j < |steps| && i < |call.items|
  {
    && steps[j].Process? && steps[j].c == c && c in run[j].calls && |run[j].calls[c].done| == i
    && Decided(run[j].db, call.actor, call.event, call.items[i], r)
  }

  /** Any step but its own processing leaves what a call has asked for and computed. */
  lemma OtherStepsKeepDone(s: State, step: Step, c: CallId)
    requires Can(s, step) && c in Do(s, step).calls && !(step.Process? && step.c == c && !step.replyLost)
    ensures c !in s.calls ==> Do(s, step).calls[c].done == []
    ensures c in s.calls ==>
      var call, call' := s.calls[c], Do(s, step).calls[c];
      call'.actor == call.actor && call'.event == call.event && call'.items == call.items && call'.done == call.done
  {
    hide Invite, RecordKey, Apply, Enabled;
  }

  /** Every outcome of every call, in every interleaving, is the one its item deserved
      on the store of the very step that processed it. */
  lemma {:induction false} EveryOutcomeWasDecided(run: seq<State>, steps: seq<Step>, k: nat, c: CallId, i: nat)
    requires IsBulkRun(run, steps) && Initial(run[0]) && k < |run|
    requires c in run[k].calls && i < |run[k].calls[c].done| && i < |run[k].calls[c].items|
    ensures exists j | 0 <= j < k :: DecidedAt(run, steps, j, c, run[k].calls[c], i, run[k].calls[c].done[i])
  {
    hide Do, Can, Inv, Decided;
    assert k > 0;
    var s, step := run[k - 1], steps[k - 1];
    BulkRunKeepsInv(run, steps, k - 1);
    if step.Process? && step.c == c && !step.replyLost {
      ProcessStep(s, step);
      ProcessDecides(s, c, step.id, step.now);
      if i < |s.calls[c].done| {
        EveryOutcomeWasDecided(run, steps, k - 1, c, i);
        var j :| 0 <= j < k - 1 && DecidedAt(run, steps, j, c, s.calls[c], i, s.calls[c].done[i]);
        assert DecidedAt(run, steps, j, c, run[k].calls[c], i, run[k].calls[c].done[i]);
      } else {
        assert DecidedAt(run, steps, k - 1, c, run[k].calls[c], i, run[k].calls[c].done[i]);
      }
    } else {
      OtherStepsKeepDone(s, step, c);
      EveryOutcomeWasDecided(run, steps, k - 1, c, i);
      var j :| 0 <= j < k - 1 && DecidedAt(run, steps, j, c, s.calls[c], i, s.calls[c].done[i]);
      assert DecidedAt(run, steps, j, c, run[k].calls[c], i, run[k].calls[c].done[i]);
    }
  }

  lemma ProcessStep(s: State, step: Step)
    requires step.Process? && Can(s, step)
    ensures step.c in s.calls && Do(s, step) == DoProcess(s, step.c, step.id, step.now, step.replyLost)
  {
    hide DoProcess;
  }

  /** "Vanished after a lost race" cannot happen: whoever lost the insert finds a row. */
  lemma LostRaceAlwaysFindsTheWinner(run: seq<State>, steps: seq<Step>, k: nat, c: CallId)
    requires IsBulkRun(run, steps) && Initial(run[0]) && k < |run| && Can(run[k], Reread(c))
    ensures Do(run[k], Reread(c)).calls[c].pc != Failed
  {
    BulkRunKeepsInv(run, steps, k);
    assert PcOk(c, run[k].calls[c], run[k].db.keys, run[k].winners);
  }

  /** The answer of any call with a token was computed, item by item, by one call
      of the same actor, key and hash - the winner - for the winner's own event. */
  lemma AnswerBelongsToWinner(run: seq<State>, steps: seq<Step>, k: nat, c: CallId)
    requires IsBulkRun(run, steps) && Initial(run[0]) && k < |run| && Answered(run[k], c)
    ensures var s := run[k];
      var key := (s.calls[c].actor, s.calls[c].token.value.key);
      && key in s.winners && s.winners[key] in s.calls
      && var w := s.calls[s.winners[key]];
      && w.actor == s.calls[c].actor && w.token == s.calls[c].token
      && w.done == s.calls[c].pc.items && |w.done| == |w.items|
      && DoneOk(w, s.db.invitations)
      && (forall i | 0 <= i < |w.done| && w.done[i].Created? ::
            w.done[i].id in s.db.invitations && s.db.invitations[w.done[i].id].eventId == w.event)
  {
    BulkRunKeepsInv(run, steps, k);
    var s := run[k];
    assert PcOk(c, s.calls[c], s.db.keys, s.winners);
    var key := (s.calls[c].actor, s.calls[c].token.value.key);
    assert WinnerOk(key, s.db.keys[key], s.calls[s.winners[key]]);
    var w := s.calls[s.winners[key]];
    assert DoneOk(w, s.db.invitations);
    forall i | 0 <= i < |w.done| && w.done[i].Created?
      ensures w.done[i].id in s.db.invitations && s.db.invitations[w.done[i].id].eventId == w.event
    {
      assert OutcomeOk(w.done[i], w.event, w.items[i], s.db.invitations);
    }
  }

  /** The key is scoped to the actor, not the event: the same key and body sent
      for a second event is answered with the first event's outcomes. Nobody is
      invited, and every "created" in the answer is an invitation to the first event. */
  lemma ReplayCrossesEvents(s: State, c: CallId, w: CallId)
    requires BInv(s) && Can(s, Look(c)) && Answered(s, w) && !s.calls[w].pc.replayed
    requires s.calls[c].actor == s.calls[w].actor && s.calls[c].token == s.calls[w].token
    requires s.calls[c].event != s.calls[w].event
    ensures var s' := Do(s, Look(c));
      && s'.db == s.db && s'.calls[c].pc == Returned(s.calls[w].pc.items, true)
      && forall i | 0 <= i < |s'.calls[c].pc.items| && s'.calls[c].pc.items[i].Created? ::
           var id := s'.calls[c].pc.items[i].id;
           id in s'.db.invitations && s'.db.invitations[id].eventId == s.calls[w].event != s'.calls[c].event
  {
    assert PcOk(w, s.calls[w], s.db.keys, s.winners);
    var key := (s.calls[w].actor, s.calls[w].token.value.key);
    assert WinnerOk(key, s.db.keys[key], s.calls[s.winners[key]]);
    assert DoneOk(s.calls[w], s.db.invitations);
    forall i | 0 <= i < |s.calls[w].done| && s.calls[w].done[i].Created?
      ensures s.calls[w].done[i].id in s.db.invitations
      ensures s.db.invitations[s.calls[w].done[i].id].eventId == s.calls[w].event
    {
      assert OutcomeOk(s.calls[w].done[i], s.calls[w].event, s.calls[w].items[i], s.db.invitations);
    }
  }

  // ---------------------------------------------------------------------
  // Refused calls
  // ---------------------------------------------------------------------

  /** The call's key is stored under another request's hash. */
  ghost predicate KeyTaken(s: State, c: CallId) {
    && c in s.calls && s.calls[c].token.Some?
    && var k := (s.calls[c].actor, s.calls[c].token.value.key);
       k in s.db.keys && s.db.keys[k].hash != s.calls[c].token.value.hash
  }

  /** When call `c` looked its key up, before step `k`, it found it taken. */
  ghost predicate FoundTaken(run: seq<State>, steps: seq<Step>, k: nat, c: CallId)
    requires IsBulkRun(run, steps) && k < |run|
  {
    exists j | 0 <= j < k :: steps[j] == Look(c) && KeyTaken(run[j], c)
  }

  predicate ActsFor(step: Step, c: CallId) {
    match step
    case Start(d, _) => c == d
    case Look(d) => c == d
    case Process(d, _, _, _) => c == d
    case Record(d, _) => c == d
    case Reread(d) => c == d
    case Die(d) => c == d
    case Other(_) => false
    case Idle => false
  }

  lemma OthersLeaveCallAlone(s: State, step: Step, c: CallId)
    requires Can(s, step) && !ActsFor(step, c)
    ensures c in Do(s, step).calls <==> c in s.calls
    ensures c in s.calls ==> Do(s, step).calls[c] == s.calls[c]
  {
    hide Invite, RecordKey, Apply, Enabled;
  }

  /** Where a call can be, by how far it got: only a call that found its key taken
      at the lookup, or one that lost the insert after processing everything, is refused. */
  ghost predicate ShapeOk(call: Call, foundTaken: bool) {
    && (foundTaken ==> call.pc.Rejected? && call.done == [])
    && (call.pc.Looking? ==> call.done == [])
    && (call.pc.Lost? ==> |call.done| == |call.items|)
    && (call.pc.Rejected? && !foundTaken ==> |call.done| == |call.items|)
  }

  lemma OwnStepKeepsShape(s: State, step: Step, c: CallId)
    requires Can(s, step) && ActsFor(step, c)
    requires c in s.calls ==> ShapeOk(s.calls[c], false)
    ensures c in Do(s, step).calls && ShapeOk(Do(s, step).calls[c], step == Look(c) && KeyTaken(s, c))
  {
    hide Invite, RecordKey, Outcome;
  }

  lemma RefusedCallIsDone(s: State, step: Step, c: CallId)
    requires c in s.calls && s.calls[c].pc.Rejected? && ActsFor(step, c)
    ensures !Can(s, step)
  {
  }

  lemma {:induction false} CallsKeepShape(run: seq<State>, steps: seq<Step>, k: nat, c: CallId)
    requires IsBulkRun(run, steps) && Initial(run[0]) && k < |run|
    ensures c !in run[k].calls ==> !FoundTaken(run, steps, k, c)
    ensures c in run[k].calls ==> ShapeOk(run[k].calls[c], FoundTaken(run, steps, k, c))
  {
    hide Do, Can, ShapeOk, KeyTaken, ActsFor, Inv;
    if k > 0 {
      CallsKeepShape(run, steps, k - 1, c);
      var s, step := run[k - 1], steps[k - 1];
      FoundTakenStep(run, steps, k - 1, c);
      if ActsFor(step, c) {
        if FoundTaken(run, steps, k - 1, c) {
          TakenIsRejected(s.calls[c]);
          RefusedCallIsDone(s, step, c);
        } else {
          OwnStepKeepsShape(s, step, c);
        }
      } else {
        OthersLeaveCallAlone(s, step, c);
        LookActsForItself(step, c);
      }
    }
  }

  lemma TakenIsRejected(call: Call)
    requires ShapeOk(call, true)
    ensures call.pc.Rejected?
  {
  }

  lemma LookActsForItself(step: Step, c: CallId)
    requires !ActsFor(step, c)
    ensures step != Look(c)
  {
  }

  lemma FoundTakenStep(run: seq<State>, steps: seq<Step>, k: nat, c: CallId)
    requires IsBulkRun(run, steps) && k < |steps|
    ensures FoundTaken(run, steps, k + 1, c) <==>
            FoundTaken(run, steps, k, c) || (steps[k] == Look(c) && KeyTaken(run[k], c))
  {
    hide Do, Can, KeyTaken;
  }

  /** Exactly when a refused call has touched the store. One that found its key
      under another request's hash at its own lookup has processed nothing; every
      other refused call lost the race for the key and had by then processed all
      of its items, with outcomes that are true now and at every later moment. */
  lemma RefusedUnprocessedExactlyWhenTakenAtLookup(run: seq<State>, steps: seq<Step>, k: nat, c: CallId)
    requires IsBulkRun(run, steps) && Initial(run[0]) && k < |run|
    requires c in run[k].calls && run[k].calls[c].pc.Rejected?
    ensures var call := run[k].calls[c];
      && (call.items != [] ==> (call.done == [] <==> FoundTaken(run, steps, k, c)))
      && (!FoundTaken(run, steps, k, c) ==> |call.done| == |call.items|)
      && OutcomesTrue(call.done, call.event, call.items, run[k].db.invitations)
  {
    CallsKeepShape(run, steps, k, c);
    BulkRunKeepsInv(run, steps, k);
    hide IsBulkRun, FoundTaken, Inv;
    assert DoneOk(run[k].calls[c], run[k].db.invitations);
  }

  /** Two finished workers with one key and different requests: whoever records
      first is answered; the other is refused although all its items were
      processed, and those outcomes stay in the store. */
  lemma LateLoserIsRefusedAfterProcessing(s: State, c: CallId, d: CallId)
    requires BInv(s) && c != d && Can(s, Record(c, false)) && Can(s, Record(d, false))
    requires s.calls[c].token.Some? && s.calls[d].token.Some?
    requires s.calls[c].actor == s.calls[d].actor && s.calls[c].actor in s.db.users
    requires s.calls[c].token.value.key == s.calls[d].token.value.key
    requires s.calls[c].token.value.hash != s.calls[d].token.value.hash
    requires (s.calls[c].actor, s.calls[c].token.value.key) !in s.db.keys
    ensures var s1 := Do(s, Record(c, false));
      && s1.calls[c].pc == Returned(s.calls[c].done, false)
      && Can(s1, Record(d, false))
      && var s2 := Do(s1, Record(d, false));
      && Can(s2, Reread(d))
      && var s3 := Do(s2, Reread(d));
      && s3.calls[d].pc == Rejected
      && s3.calls[d].done == s.calls[d].done && |s3.calls[d].done| == |s3.calls[d].items|
      && DoneOk(s3.calls[d], s3.db.invitations)
  {
    hide Inv;
    assert DoneOk(s.calls[d], s.db.invitations);
  }
}

/** Versioned writes whose failure is classified by a second, separate read:
    events, rooms and sessions. Anything may commit between the two statements. */
module Diagnosis {
  import opened Domain
  import opened Tables
  import opened RoomTx
  import opened StoreMachine
  import opened Evolution

  type CallId = nat

  /** A call remembers the store when it began, when its write matched nothing
      and when its diagnostic read ran. */
  datatype Pc =
    | Ready(began: DB)
    | Missed(began: DB, wrote: DB)
    | Classified(began: DB, wrote: DB, looked: DB, error: Error)
    | Settled(result: Result<Id>)
    | Stopped

  datatype Call = Call(tx: Tx, pc: Pc)

  datatype State = State(db: DB, calls: map<CallId, Call>)

  datatype Step =
    | Start(c: CallId, tx: Tx)
    | Write(c: CallId)
    | Read(c: CallId)
    | Stop(c: CallId)
    | Other(tx: Tx)
    | Idle

  predicate Versioned(tx: Tx) {
    tx.PutEvent? || tx.PutRoom? || tx.PutSession?
  }

  /** The row the diagnostic read looks for: present, in scope, not soft-deleted. */
  predicate Live(db: DB, tx: Tx)
    requires Versioned(tx)
  {
    match tx
    case PutEvent(_, e, _, _) => e in db.events && !db.events[e].deleted
    case PutRoom(_, e, r, _, _) => r in db.rooms && db.rooms[r].eventId == e
    case PutSession(_, e, s, _, _) => s in db.sessions && db.sessions[s].eventId == e && !db.sessions[s].deleted
  }

  /** The identifier had been issued when the call began. */
  predicate Existed(db: DB, tx: Tx)
    requires Versioned(tx)
  {
    match tx
    case PutEvent(_, e, _, _) => e in db.events
    case PutRoom(_, _, r, _, _) => r in db.issued
    case PutSession(_, _, s, _, _) => s in db.sessions
  }

  function CurrentVersion(db: DB, tx: Tx): int
    requires Versioned(tx) && Live(db, tx)
  {
    match tx
    case PutEvent(_, e, _, _) => db.events[e].version
    case PutRoom(_, _, r, _, _) => db.rooms[r].version
    case PutSession(_, _, s, _, _) => db.sessions[s].version
  }

  function GivenVersion(tx: Tx): int
    requires Versioned(tx)
  {
    match tx
    case PutEvent(_, _, v, _) => v
    case PutRoom(_, _, _, v, _) => v
    case PutSession(_, _, _, v, _) => v
  }

  ghost predicate Can(s: State, step: Step) {
    match step
    case Start(c, tx) => c !in s.calls && Versioned(tx)
    case Write(c) => c in s.calls && s.calls[c].pc.Ready?
    case Read(c) => c in s.calls && Versioned(s.calls[c].tx) && s.calls[c].pc.Missed?
    case Stop(c) => c in s.calls
    case Other(tx) => Enabled(s.db, tx)
    case Idle => true
  }

  ghost function Do(s: State, step: Step): State
    requires Can(s, step)
  {
    match step
    case Start(c, tx) => s.(calls := s.calls[c := Call(tx, Ready(s.db))])
    case Write(c) =>
      var (db', r) := Apply(s.db, s.calls[c].tx);
      var pc' := if r == Err(ErrNoRow) then Missed(s.calls[c].pc.began, s.db) else Settled(r);
      State(db', s.calls[c := s.calls[c].(pc := pc')])
    case Read(c) =>
      var p := s.calls[c].pc;
      var e := if Live(s.db, s.calls[c].tx) then ErrVersionMismatch else ErrNotFound;
      s.(calls := s.calls[c := s.calls[c].(pc := Classified(p.began, p.wrote, s.db, e))])
    case Stop(c) => s.(calls := s.calls[c := s.calls[c].(pc := Stopped)])
    case Other(tx) => s.(db := Apply(s.db, tx).0)
    case Idle => s
  }

  /** A write matches no row exactly when the row is not live, or live at another version. */
  lemma MissedExactlyWhen(db: DB, tx: Tx)
    requires Versioned(tx)
    ensures Apply(db, tx).1 == Err(ErrNoRow) <==> !(Live(db, tx) && CurrentVersion(db, tx) == GivenVersion(tx))
  {
    hide SlotTaken, NameTaken, RoomReferenced;
  }

  /** A row that is live later and existed earlier was live all along, and its
      version never fell. */
  lemma NoResurrection(a: DB, b: DB, tx: Tx)
    requires Versioned(tx) && Evolves(a, b) && Existed(a, tx) && Live(b, tx)
    ensures Live(a, tx) && CurrentVersion(a, tx) <= CurrentVersion(b, tx)
  {
  }

  ghost predicate PcOk(call: Call, db: DB) {
    && Versioned(call.tx)
    && match call.pc
       case Ready(began) => IssuedOk(began) && Evolves(began, db)
       case Missed(began, wrote) =>
         IssuedOk(began) && Evolves(began, wrote) && IssuedOk(wrote) && Evolves(wrote, db) && Apply(wrote, call.tx).1 == Err(ErrNoRow)
       case Classified(began, wrote, looked, e) =>
         && Evolves(began, wrote) && Evolves(wrote, looked) && Apply(wrote, call.tx).1 == Err(ErrNoRow)
         && e == (if Live(looked, call.tx) then ErrVersionMismatch else ErrNotFound)
       case _ => true
  }

  ghost predicate DInv(s: State) {
    Inv(s.db) && forall c | c in s.calls :: PcOk(s.calls[c], s.db)
  }

  lemma PcPersists(call: Call, a: DB, b: DB)
    requires PcOk(call, a) && Evolves(a, b)
    ensures PcOk(call, b)
  {
    hide Evolves, IssuedOk, Apply;
    match call.pc
    case Ready(began) => EvolvesTransitive(began, a, b);
    case Missed(_, wrote) => EvolvesTransitive(wrote, a, b);
    case _ =>
  }

  lemma VersionedIsEnabled(db: DB, tx: Tx)
    requires Versioned(tx)
    ensures Enabled(db, tx)
  {
  }

  lemma TxKeepsInv(s: State, tx: Tx)
    requires DInv(s) && Enabled(s.db, tx)
    ensures Inv(Apply(s.db, tx).0) && Evolves(s.db, Apply(s.db, tx).0)
    ensures forall c | c in s.calls :: PcOk(s.calls[c], Apply(s.db, tx).0)
  {
    hide AccessOk, BookingOk, Evolves, Apply, Enabled, PcOk;
    ApplyKeepsInv(s.db, tx);
    ApplyEvolves(s.db, tx);
    forall c | c in s.calls ensures PcOk(s.calls[c], Apply(s.db, tx).0) {
      PcPersists(s.calls[c], s.db, Apply(s.db, tx).0);
    }
  }

  lemma StepKeepsInv(s: State, step: Step)
    requires DInv(s) && Can(s, step)
    ensures DInv(Do(s, step))
  {
    hide AccessOk, BookingOk, Evolves, Apply, Enabled, Live;
    var s' := Do(s, step);
    EvolvesReflexive(s.db);
    match step
    case Other(tx) => TxKeepsInv(s, tx);
    case Write(c) =>
      assert PcOk(s.calls[c], s.db);
      VersionedIsEnabled(s.db, s.calls[c].tx);
      TxKeepsInv(s, s.calls[c].tx);
    case _ =>
      forall c | c in s'.calls ensures PcOk(s'.calls[c], s'.db) {
        if c in s.calls {
          assert PcOk(s.calls[c], s.db);
        }
      }
  }

  ghost predicate IsDiagnosisRun(run: seq<State>, steps: seq<Step>) {
    && |run| == |steps| + 1
    && (forall k | 0 <= k < |steps| :: Can(run[k], steps[k]) && run[k + 1] == Do(run[k], steps[k]))
  }

  ghost predicate Initial(s: State) {
    Inv(s.db) && s.calls == map[]
  }

  lemma {:induction false} DiagnosisRunKeepsInv(run: seq<State>, steps: seq<Step>, k: nat)
    requires IsDiagnosisRun(run, steps) && Initial(run[0]) && k < |run|
    ensures DInv(run[k])
  {
    hide Do, Can, Inv, PcOk;
    if k > 0 {
      DiagnosisRunKeepsInv(run, steps, k - 1);
      StepKeepsInv(run[k - 1], steps[k - 1]);
    }
  }

  /** The two-statement diagnosis is sound, for a row that existed when the call
      began and under every interleaving. "Version mismatch": the row was live,
      at another version, when the write ran, and is live at the read. "Not
      found": the row was gone at the read. And a row already gone at the write
      is never reported as a mismatch. */
  lemma DiagnosisIsSound(run: seq<State>, steps: seq<Step>, k: nat, c: CallId)
    requires IsDiagnosisRun(run, steps) && Initial(run[0]) && k < |run|
    requires c in run[k].calls && run[k].calls[c].pc.Classified?
    requires Versioned(run[k].calls[c].tx) && Existed(run[k].calls[c].pc.began, run[k].calls[c].tx)
    ensures var tx, pc := run[k].calls[c].tx, run[k].calls[c].pc;
      && (pc.error == ErrVersionMismatch || pc.error == ErrNotFound)
      && (pc.error == ErrVersionMismatch ==>
            && Live(pc.wrote, tx) && CurrentVersion(pc.wrote, tx) != GivenVersion(tx)
            && Live(pc.looked, tx) && CurrentVersion(pc.wrote, tx) <= CurrentVersion(pc.looked, tx))
      && (pc.error == ErrNotFound ==> !Live(pc.looked, tx))
      && (!Live(pc.wrote, tx) ==> pc.error == ErrNotFound)
  {
    DiagnosisRunKeepsInv(run, steps, k);
    var call := run[k].calls[c];
    hide Inv, Apply, IsDiagnosisRun;
    assert PcOk(call, run[k].db);
    MissedExactlyWhen(call.pc.wrote, call.tx);
    if Live(call.pc.looked, call.tx) {
      StillExists(call.pc.began, call.pc.wrote, call.tx);
      NoResurrection(call.pc.wrote, call.pc.looked, call.tx);
    }
  }

  lemma StillExists(a: DB, b: DB, tx: Tx)
    requires Versioned(tx) && Evolves(a, b) && Existed(a, tx)
    ensures Existed(b, tx)
  {
  }

  lemma StepRefinesStore(s: State, step: Step)
    requires Can(s, step) && DInv(s)
    ensures Do(s, step).db == s.db || exists tx :: Enabled(s.db, tx) && Do(s, step).db == Apply(s.db, tx).0
  {
    hide Inv, Apply, Enabled, Live;
    match step
    case Other(tx) => assert Enabled(s.db, tx);
    case Write(c) =>
      assert PcOk(s.calls[c], s.db);
      VersionedIsEnabled(s.db, s.calls[c].tx);
    case _ =>
  }

  // ---------------------------------------------------------------------
  // One call on its own
  // ---------------------------------------------------------------------

  /** What one versioned call does: its transaction, and when that matched no row,
      a classification of the store as others have left it by then. */
  ghost predicate VersionedOutcome(before: DB, tx: Tx, after: DB, r: Result<Id>, alone: bool)
    requires Versioned(tx)
  {
    if Apply(before, tx).1 != Err(ErrNoRow) then (after, r) == Apply(before, tx)
    else
      && Inv(after) && Evolves(before, after) && (alone ==> after == before)
      && r == Err(if Live(after, tx) then ErrVersionMismatch else ErrNotFound)
  }

  /** With nothing running in between, the classification is exact: each error is
      reported in its own situation and in no other. */
  lemma UninterruptedDiagnosisIsExact(before: DB, tx: Tx, after: DB, r: Result<Id>)
    requires Versioned(tx) && VersionedOutcome(before, tx, after, r, true)
    ensures r == Err(ErrVersionMismatch) <==> Live(before, tx) && CurrentVersion(before, tx) != GivenVersion(tx)
    ensures r == Err(ErrNotFound) <==> !Live(before, tx)
    ensures r.Err? ==> after == before
  {
    hide SlotTaken, NameTaken, RoomReferenced, Evolves, Inv;
    MissedExactlyWhen(before, tx);
    FailureChangesNothing(before, tx);
  }
}

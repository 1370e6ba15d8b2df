/** Everything at once: role changes under their lock, bulk invites under their
    key, versioned writes with their late diagnosis, and every plain transaction,
    in any interleaving. Each protocol sees the others only as transactions. */
module System {
  import opened Domain
  import opened Tables
  import opened StoreMachine
  import History
  import MemberTx
  import L = LockProtocol
  import B = BulkProtocol
  import D = Diagnosis

  datatype State = State(
    db: DB,
    roleCalls: map<L.CallId, L.Call>, locks: map<Id, L.CallId>,
    bulkCalls: map<B.CallId, B.Call>, winners: map<(Id, string), B.CallId>,
    writeCalls: map<D.CallId, D.Call>)

  datatype Step = Role(role: L.Step) | Bulk(bulk: B.Step) | Versioned(write: D.Step) | Plain(tx: Tx)

  function Roles(s: State): L.State {
    L.State(s.db, s.roleCalls, s.locks)
  }

  function Bulks(s: State): B.State {
    B.State(s.db, s.bulkCalls, s.winners)
  }

  function Writes(s: State): D.State {
    D.State(s.db, s.writeCalls)
  }

  /** The transaction a step commits, if it commits one. */
  ghost function Committed(s: State, step: Step): Option<Tx> {
    match step
    case Role(r) =>
      if r.Commit? && L.Can(Roles(s), r) && s.roleCalls[r.c].actor in s.db.users then Some(s.roleCalls[r.c].AsTx()) else None
    case Bulk(b) => if B.Can(Bulks(s), b) then B.TxOf(Bulks(s), b) else None
    case Versioned(w) => if w.Write? && D.Can(Writes(s), w) then Some(s.writeCalls[w.c].tx) else None
    case Plain(tx) => Some(tx)
  }

  ghost predicate Can(s: State, step: Step) {
    && (match step
        case Role(r) => !r.Other? && !r.Idle? && L.Can(Roles(s), r)
        case Bulk(b) => !b.Other? && !b.Idle? && B.Can(Bulks(s), b)
        case Versioned(w) => !w.Other? && !w.Idle? && D.Can(Writes(s), w)
        case Plain(tx) => !tx.PutRole? && !tx.NewKey? && !D.Versioned(tx) && Enabled(s.db, tx))
    && (Committed(s, step).Some? ==> L.Unnamed(Roles(s), Draws(Committed(s, step).value)))
  }

  ghost function Do(s: State, step: Step): State
    requires Can(s, step)
  {
    match step
    case Role(r) => var l := L.Do(Roles(s), r); s.(db := l.db, roleCalls := l.calls, locks := l.locks)
    case Bulk(b) => var l := B.Do(Bulks(s), b); s.(db := l.db, bulkCalls := l.calls, winners := l.winners)
    case Versioned(w) => var l := D.Do(Writes(s), w); s.(db := l.db, writeCalls := l.calls)
    case Plain(tx) => s.(db := Apply(s.db, tx).0)
  }

  ghost predicate SInv(s: State) {
    L.PInv(Roles(s)) && B.BInv(Bulks(s)) && D.DInv(Writes(s)) && History.HistoriesOk(s.db)
  }

  /** How each protocol sees a step of the whole. */
  ghost function SeenByRoles(s: State, step: Step): L.Step {
    if step.Role? then step.role else if Committed(s, step).Some? then L.Other(Committed(s, step).value) else L.Idle
  }

  ghost function SeenByBulks(s: State, step: Step): B.Step {
    if step.Bulk? then step.bulk else if Committed(s, step).Some? then B.Other(Committed(s, step).value) else B.Idle
  }

  ghost function SeenByWrites(s: State, step: Step): D.Step {
    if step.Versioned? then step.write else if Committed(s, step).Some? then D.Other(Committed(s, step).value) else D.Idle
  }

  /** A step changes the committed store exactly by the transaction it commits. */
  lemma StepCommits(s: State, step: Step)
    requires SInv(s) && Can(s, step)
    ensures var tx := Committed(s, step);
      if tx.None? then Do(s, step).db == s.db
      else Enabled(s.db, tx.value) && Do(s, step).db == Apply(s.db, tx.value).0
  {
    hide Inv, Apply, B.Do, D.PcOk, L.SightOk, Enabled, B.Can, MemberTx.GuardHolds;
    match step
    case Role(r) =>
      if r.Commit? {
        L.CommitIsAtomic(Roles(s), r.c);
        RoleTxIsEnabled(s.db, s.roleCalls[r.c].AsTx());
      }
    case Bulk(b) => B.StepRefinesStore(Bulks(s), b);
    case Versioned(w) =>
      if w.Write? {
        assert D.PcOk(s.writeCalls[w.c], s.db);
        WriteTxIsEnabled(s, w.c);
      }
    case Plain(tx) =>
  }

  lemma RoleTxIsEnabled(db: DB, tx: Tx)
    requires tx.PutRole?
    ensures Enabled(db, tx)
  {
  }

  lemma WriteTxIsEnabled(s: State, c: D.CallId)
    requires c in s.writeCalls && D.PcOk(s.writeCalls[c], s.db)
    ensures Enabled(s.db, s.writeCalls[c].tx) && D.Versioned(s.writeCalls[c].tx)
  {
    D.VersionedIsEnabled(s.db, s.writeCalls[c].tx);
  }

  lemma RolesProject(s: State, step: Step)
    requires SInv(s) && Can(s, step)
    ensures L.Can(Roles(s), SeenByRoles(s, step)) && Roles(Do(s, step)) == L.Do(Roles(s), SeenByRoles(s, step))
  {
    hide SInv, Apply, B.Do, B.Can, D.Do, D.Can, L.CanAcquire, L.Finish, L.Goto, MemberTx.GuardHolds, MemberTx.CommitRole,
      Enabled, Committed, L.Unnamed;
    StepCommits(s, step);
    CommittedKinds(s, step);
  }

  lemma BulksProject(s: State, step: Step)
    requires SInv(s) && Can(s, step)
    ensures B.Can(Bulks(s), SeenByBulks(s, step)) && Bulks(Do(s, step)) == B.Do(Bulks(s), SeenByBulks(s, step))
  {
    hide SInv, Apply, L.Do, L.Can, D.Do, D.Can, B.DoProcess, B.DoRecord, B.Goto, B.Consult, Enabled, Committed, L.Unnamed;
    StepCommits(s, step);
    CommittedKinds(s, step);
  }

  lemma WritesProject(s: State, step: Step)
    requires SInv(s) && Can(s, step)
    ensures D.Can(Writes(s), SeenByWrites(s, step)) && Writes(Do(s, step)) == D.Do(Writes(s), SeenByWrites(s, step))
  {
    hide SInv, Apply, L.Do, L.Can, B.Do, B.Can, Enabled, Committed, L.Unnamed, D.Live;
    StepCommits(s, step);
  }

  /** To each protocol, a step of the whole is a step of its own. */
  lemma StepProjects(s: State, step: Step)
    requires SInv(s) && Can(s, step)
    ensures L.Can(Roles(s), SeenByRoles(s, step)) && Roles(Do(s, step)) == L.Do(Roles(s), SeenByRoles(s, step))
    ensures B.Can(Bulks(s), SeenByBulks(s, step)) && Bulks(Do(s, step)) == B.Do(Bulks(s), SeenByBulks(s, step))
    ensures D.Can(Writes(s), SeenByWrites(s, step)) && Writes(Do(s, step)) == D.Do(Writes(s), SeenByWrites(s, step))
  {
    hide SInv, Can, Do, L.Do, L.Can, B.Do, B.Can, D.Do, D.Can, SeenByRoles, SeenByBulks, SeenByWrites;
    RolesProject(s, step);
    BulksProject(s, step);
    WritesProject(s, step);
  }

  /** Only role calls change roles, and only bulk calls insert keys. */
  lemma CommittedKinds(s: State, step: Step)
    requires SInv(s) && Can(s, step)
    ensures Committed(s, step).Some? ==>
      && (Committed(s, step).value.PutRole? ==> step.Role?)
      && (Committed(s, step).value.NewKey? ==> step.Bulk?)
  {
    hide Inv, Apply, Enabled, L.PInv, B.BInv;
    if step.Versioned? && step.write.Write? {
      assert D.PcOk(s.writeCalls[step.write.c], s.db);
    }
  }

  lemma StepKeepsInv(s: State, step: Step)
    requires SInv(s) && Can(s, step)
    ensures SInv(Do(s, step))
  {
    hide Do, Can, L.PInv, B.BInv, D.DInv, L.Do, L.Can, B.Do, B.Can, D.Do, D.Can, Committed;
    StepProjects(s, step);
    L.StepKeepsInv(Roles(s), SeenByRoles(s, step));
    B.StepKeepsInv(Bulks(s), SeenByBulks(s, step));
    D.StepKeepsInv(Writes(s), SeenByWrites(s, step));
    StepCommits(s, step);
    if Committed(s, step).Some? {
      assert Inv(s.db) by { InvOfSystem(s); }
      History.ApplyKeepsHistories(s.db, Committed(s, step).value);
    }
  }

  lemma InvOfSystem(s: State)
    requires SInv(s)
    ensures Inv(s.db)
  {
  }

  // ---------------------------------------------------------------------
  // Runs of the whole
  // ---------------------------------------------------------------------

  ghost predicate IsSystemRun(run: seq<State>, steps: seq<Step>) {
    && |run| == |steps| + 1
    && (forall k | 0 <= k < |steps| :: Can(run[k], steps[k]) && run[k + 1] == Do(run[k], steps[k]))
  }

  const INITIAL := State(EMPTY, map[], map[], map[], map[], map[])

  lemma InitialIsFine()
    ensures SInv(INITIAL)
    ensures L.Initial(Roles(INITIAL)) && B.Initial(Bulks(INITIAL)) && D.Initial(Writes(INITIAL))
  {
    EmptyStoreIsValid();
  }

  lemma {:induction false} SystemRunKeepsInv(run: seq<State>, steps: seq<Step>, k: nat)
    requires IsSystemRun(run, steps) && run[0] == INITIAL && k < |run|
    ensures SInv(run[k])
  {
    hide Do, Can, SInv;
    InitialIsFine();
    if k > 0 {
      SystemRunKeepsInv(run, steps, k - 1);
      StepKeepsInv(run[k - 1], steps[k - 1]);
    }
  }

  ghost function RoleRun(run: seq<State>): seq<L.State> {
    seq(|run|, k requires 0 <= k < |run| => Roles(run[k]))
  }

  ghost function RoleSteps(run: seq<State>, steps: seq<Step>): seq<L.Step>
    requires |steps| <= |run|
  {
    seq(|steps|, k requires 0 <= k < |steps| => SeenByRoles(run[k], steps[k]))
  }

  ghost function BulkRun(run: seq<State>): seq<B.State> {
    seq(|run|, k requires 0 <= k < |run| => Bulks(run[k]))
  }

  ghost function BulkSteps(run: seq<State>, steps: seq<Step>): seq<B.Step>
    requires |steps| <= |run|
  {
    seq(|steps|, k requires 0 <= k < |steps| => SeenByBulks(run[k], steps[k]))
  }

  ghost function WriteRun(run: seq<State>): seq<D.State> {
    seq(|run|, k requires 0 <= k < |run| => Writes(run[k]))
  }

  ghost function WriteSteps(run: seq<State>, steps: seq<Step>): seq<D.Step>
    requires |steps| <= |run|
  {
    seq(|steps|, k requires 0 <= k < |steps| => SeenByWrites(run[k], steps[k]))
  }

  /** A run of the whole is, seen by each protocol, one of that protocol's own
      runs: every theorem proved about a protocol holds in the whole system. */
  lemma SystemRunProjects(run: seq<State>, steps: seq<Step>)
    requires IsSystemRun(run, steps) && run[0] == INITIAL
    ensures L.IsProtocolRun(RoleRun(run), RoleSteps(run, steps)) && L.Initial(RoleRun(run)[0])
    ensures B.IsBulkRun(BulkRun(run), BulkSteps(run, steps)) && B.Initial(BulkRun(run)[0])
    ensures D.IsDiagnosisRun(WriteRun(run), WriteSteps(run, steps)) && D.Initial(WriteRun(run)[0])
  {
    InitialIsFine();
    hide Do, Can, SInv, L.Do, L.Can, B.Do, B.Can, D.Do, D.Can, SeenByRoles, SeenByBulks, SeenByWrites, Roles, Bulks, Writes,
      L.Initial, B.Initial, D.Initial;
    forall k | 0 <= k < |steps|
      ensures L.Can(Roles(run[k]), SeenByRoles(run[k], steps[k]))
      ensures Roles(run[k + 1]) == L.Do(Roles(run[k]), SeenByRoles(run[k], steps[k]))
      ensures B.Can(Bulks(run[k]), SeenByBulks(run[k], steps[k]))
      ensures Bulks(run[k + 1]) == B.Do(Bulks(run[k]), SeenByBulks(run[k], steps[k]))
      ensures D.Can(Writes(run[k]), SeenByWrites(run[k], steps[k]))
      ensures Writes(run[k + 1]) == D.Do(Writes(run[k]), SeenByWrites(run[k], steps[k]))
    {
      SystemRunKeepsInv(run, steps, k);
      StepProjects(run[k], steps[k]);
    }
  }

  /** At any moment of any run: the store satisfies every constraint, its audit
      log is a complete history, and no event is without an admin. */
  lemma StoreGuarantees(run: seq<State>, steps: seq<Step>, k: nat)
    requires IsSystemRun(run, steps) && run[0] == INITIAL && k < |run|
    ensures Inv(run[k].db) && History.HistoriesOk(run[k].db)
    ensures forall e | e in run[k].db.events :: HasAdmin(run[k].db.members, e)
  {
    SystemRunKeepsInv(run, steps, k);
    InvOfSystem(run[k]);
    SystemRunProjects(run, steps);
    hide IsSystemRun, L.IsProtocolRun, B.IsBulkRun, D.IsDiagnosisRun, Inv, HasAdmin, History.HistoriesOk;
    forall e | e in run[k].db.events ensures HasAdmin(run[k].db.members, e) {
      L.EveryEventKeepsAnAdmin(RoleRun(run), RoleSteps(run, steps), k, e);
    }
  }

  /** At any moment of any run: all bulk calls answered under one actor and key
      sent the same request and hold the same answer, one of them at most the original. */
  lemma BulkGuarantees(run: seq<State>, steps: seq<Step>, k: nat, c: B.CallId, d: B.CallId)
    requires IsSystemRun(run, steps) && run[0] == INITIAL && k < |run|
    requires B.Answered(Bulks(run[k]), c) && B.Answered(Bulks(run[k]), d) && B.SameKey(Bulks(run[k]), c, d)
    ensures run[k].bulkCalls[c].pc.items == run[k].bulkCalls[d].pc.items
    ensures run[k].bulkCalls[c].token == run[k].bulkCalls[d].token
    ensures !run[k].bulkCalls[c].pc.replayed && !run[k].bulkCalls[d].pc.replayed ==> c == d
  {
    SystemRunProjects(run, steps);
    hide IsSystemRun, L.IsProtocolRun, B.IsBulkRun, D.IsDiagnosisRun, B.Initial, L.Initial, D.Initial;
    B.SameKeySameAnswer(BulkRun(run), BulkSteps(run, steps), k, c, d);
  }

  /** At any moment of any run: every outcome of a bulk call is the one its item
      deserved, by the rows of the store, at the step that processed it. */
  lemma OutcomeGuarantees(run: seq<State>, steps: seq<Step>, k: nat, c: B.CallId, i: nat)
    requires IsSystemRun(run, steps) && run[0] == INITIAL && k < |run|
    requires c in run[k].bulkCalls && i < |run[k].bulkCalls[c].done| && i < |run[k].bulkCalls[c].items|
    ensures var call := run[k].bulkCalls[c];
      exists j | 0 <= j < k ::
        && c in run[j].bulkCalls && |run[j].bulkCalls[c].done| == i
        && B.Decided(run[j].db, call.actor, call.event, call.items[i], call.done[i])
  {
    hide Can, Do, L.IsProtocolRun, B.IsBulkRun, D.IsDiagnosisRun, B.Initial, L.Initial, D.Initial, B.Decided;
    SystemRunProjects(run, steps);
    var call := run[k].bulkCalls[c];
    B.EveryOutcomeWasDecided(BulkRun(run), BulkSteps(run, steps), k, c, i);
    var j :| 0 <= j < k && B.DecidedAt(BulkRun(run), BulkSteps(run, steps), j, c, call, i, call.done[i]);
    assert BulkRun(run)[j] == Bulks(run[j]);
  }

  /** At step `j` role call `c` takes effect: the step is its own write or commit,
      its answer is that of the whole role change on the store of that moment, and
      a success leaves exactly the store that the whole role change leaves; and the
      answer is true of the rows it was decided on. */
  ghost predicate TakesEffectAt(run: seq<State>, steps: seq<Step>, j: nat, c: L.CallId, call: L.Call)
    requires IsSystemRun(run, steps) && j < |steps| && call.pc.Done?
  {
    && (steps[j] == Role(L.Write(c)) || steps[j] == Role(L.Commit(c)))
    && c in run[j].roleCalls && L.SameRequest(run[j].roleCalls[c], call)
    && Apply(run[j].db, call.AsTx()).1 == call.pc.result
    && (call.pc.result.Ok? ==> run[j + 1].db == Apply(run[j].db, call.AsTx()).0)
    && L.Means(run[j].db, run[j + 1].db, call, call.pc.result)
  }

  lemma SeenRoleStepIsOwn(s: State, step: Step, r: L.Step)
    requires SeenByRoles(s, step) == r && (r.Write? || r.Commit?)
    ensures step == Role(r)
  {
    hide Committed;
  }

  /** At any moment of any run: every role change that returned took effect in one
      piece, at some earlier step of its own. */
  lemma RoleGuarantees(run: seq<State>, steps: seq<Step>, k: nat, c: L.CallId)
    requires IsSystemRun(run, steps) && run[0] == INITIAL && k < |run|
    requires c in run[k].roleCalls && run[k].roleCalls[c].pc.Done?
    ensures exists j: nat | j < k :: TakesEffectAt(run, steps, j, c, run[k].roleCalls[c])
  {
    hide L.IsProtocolRun, B.IsBulkRun, D.IsDiagnosisRun, Apply, L.Initial, B.Initial, D.Initial, Can, Do, SeenByRoles,
      L.TakesEffect, L.SameRequest;
    SystemRunProjects(run, steps);
    var call := run[k].roleCalls[c];
    L.RoleChangesAreLinearizable(RoleRun(run), RoleSteps(run, steps), k, c);
    var j: nat :| j < k && L.TakesEffect(RoleRun(run), RoleSteps(run, steps), j, c, call, call.pc.result);
    EffectProjects(run, steps, j, c, call);
  }

  lemma EffectProjects(run: seq<State>, steps: seq<Step>, j: nat, c: L.CallId, call: L.Call)
    requires IsSystemRun(run, steps) && j < |steps| && call.pc.Done? && L.IsProtocolRun(RoleRun(run), RoleSteps(run, steps))
    requires L.TakesEffect(RoleRun(run), RoleSteps(run, steps), j, c, call, call.pc.result)
    ensures TakesEffectAt(run, steps, j, c, call)
  {
    hide L.IsProtocolRun, Apply, Can, Do, SeenByRoles, L.SameRequest, L.Means;
    assert RoleRun(run)[j] == Roles(run[j]) && RoleRun(run)[j + 1] == Roles(run[j + 1]);
    var r := RoleSteps(run, steps)[j];
    SeenRoleStepIsOwn(run[j], steps[j], r);
  }

  /** At any moment of any run: a versioned write's late diagnosis is sound. */
  lemma DiagnosisGuarantees(run: seq<State>, steps: seq<Step>, k: nat, c: D.CallId)
    requires IsSystemRun(run, steps) && run[0] == INITIAL && k < |run|
    requires c in run[k].writeCalls && run[k].writeCalls[c].pc.Classified? && D.Versioned(run[k].writeCalls[c].tx)
    requires D.Existed(run[k].writeCalls[c].pc.began, run[k].writeCalls[c].tx)
    ensures var tx, pc := run[k].writeCalls[c].tx, run[k].writeCalls[c].pc;
      && (pc.error == ErrVersionMismatch || pc.error == ErrNotFound)
      && (pc.error == ErrVersionMismatch ==>
            && D.Live(pc.wrote, tx) && D.CurrentVersion(pc.wrote, tx) != D.GivenVersion(tx)
            && D.Live(pc.looked, tx) && D.CurrentVersion(pc.wrote, tx) <= D.CurrentVersion(pc.looked, tx))
      && (pc.error == ErrNotFound ==> !D.Live(pc.looked, tx))
      && (!D.Live(pc.wrote, tx) ==> pc.error == ErrNotFound)
  {
    hide Can, Do, L.IsProtocolRun, B.IsBulkRun, D.IsDiagnosisRun, D.Live, D.CurrentVersion, L.Initial, B.Initial, D.Initial;
    SystemRunProjects(run, steps);
    D.DiagnosisIsSound(WriteRun(run), WriteSteps(run, steps), k, c);
  }
}

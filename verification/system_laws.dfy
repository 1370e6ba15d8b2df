/** A run of the whole concurrent system is, once the steps that commit nothing are
    left out, a run of the store: what holds over every run of the store holds over
    every run of the system. */
module SystemLaws {
  import opened Domain
  import opened Tables
  import opened StoreMachine
  import opened Evolution
  import opened Keyset
  import opened Listing
  import opened Provenance
  import opened System

  /** `at[i]` is where the store run `dbs` stands after `i` steps of the system run. */
  ghost predicate Follows(run: seq<State>, k: nat, dbs: seq<DB>, txs: seq<Tx>, at: seq<nat>)
    requires k < |run|
  {
    && IsRun(dbs, txs) && dbs[0] == EMPTY && |at| == k + 1 && at[k] == |dbs| - 1
    && (forall i | 0 <= i <= k :: at[i] < |dbs| && dbs[at[i]] == run[i].db)
    && (forall i, j | 0 <= i <= j <= k :: at[i] <= at[j])
  }

  lemma {:induction false} SystemRunIsStoreRun(run: seq<State>, steps: seq<Step>, k: nat)
    returns (dbs: seq<DB>, txs: seq<Tx>, at: seq<nat>)
    requires IsSystemRun(run, steps) && run[0] == INITIAL && k < |run|
    ensures Follows(run, k, dbs, txs, at)
  {
    hide System.Can, System.Do, SInv, Apply, Enabled, Committed;
    if k == 0 {
      dbs, txs, at := [EMPTY], [], [0];
    } else {
      dbs, txs, at := SystemRunIsStoreRun(run, steps, k - 1);
      SystemRunKeepsInv(run, steps, k - 1);
      StepCommits(run[k - 1], steps[k - 1]);
      dbs, txs, at := FollowStep(run, k, dbs, txs, at, Committed(run[k - 1], steps[k - 1]));
    }
  }

  lemma FollowStep(run: seq<State>, k: nat, dbs: seq<DB>, txs: seq<Tx>, at: seq<nat>, tx: Option<Tx>)
    returns (dbs': seq<DB>, txs': seq<Tx>, at': seq<nat>)
    requires 0 < k < |run| && Follows(run, k - 1, dbs, txs, at)
    requires if tx.None? then run[k].db == run[k - 1].db
             else Enabled(run[k - 1].db, tx.value) && run[k].db == Apply(run[k - 1].db, tx.value).0
    ensures Follows(run, k, dbs', txs', at')
  {
    hide Apply, Enabled;
    if tx.None? {
      dbs', txs', at' := dbs, txs, at + [|dbs| - 1];
    } else {
      dbs', txs', at' := dbs + [run[k].db], txs + [tx.value], at + [|dbs|];
    }
  }

  /** Between any two moments of the system the store only moves forward. */
  lemma StoreEvolves(run: seq<State>, steps: seq<Step>, i: nat, j: nat)
    requires IsSystemRun(run, steps) && run[0] == INITIAL && i <= j < |run|
    ensures Evolves(run[i].db, run[j].db)
  {
    hide IsSystemRun, IsRun, Evolves;
    EmptyStoreIsValid();
    var dbs, txs, at := SystemRunIsStoreRun(run, steps, j);
    RunEvolves(dbs, txs, at[i], at[j]);
  }

  /** Everyone who is, or ever was, a member of an event in the running system is
      linked to its creator by a finite chain of grants. */
  lemma EveryMemberIsLinkedInSystem(run: seq<State>, steps: seq<Step>, k: nat, event: Id, user: Id)
    returns (dbs: seq<DB>, txs: seq<Tx>, at: seq<nat>, t: nat, c: nat)
    requires IsSystemRun(run, steps) && run[0] == INITIAL && k < |run| && IsMember(run[k].db.members, event, user)
    ensures Follows(run, k, dbs, txs, at) && t < |txs| && Linked(dbs, txs, event, user, t)
    ensures c <= t && txs[c].NewEvent? && txs[c].event == event && Linked(dbs, txs, event, txs[c].actor, c)
  {
    hide IsSystemRun, IsRun, Linked, IsMember;
    dbs, txs, at := SystemRunIsStoreRun(run, steps, k);
    EveryMemberIsLinked(dbs, txs, at[k], event, user);
    t :| 0 <= t < at[k] && Linked(dbs, txs, event, user, t);
    LinkedIsAStep(dbs, txs, event, user, t);
    ChainStartsAtCreator(dbs, txs, event, user, t);
    c :| 0 <= c <= t && txs[c].NewEvent? && txs[c].event == event && Linked(dbs, txs, event, txs[c].actor, c);
  }

  /** In the running system too, every membership row of any moment, role included,
      was given by one transaction that asked for exactly that role. */
  lemma EveryRowWasGivenInSystem(run: seq<State>, steps: seq<Step>, k: nat, m: Id)
    returns (dbs: seq<DB>, txs: seq<Tx>, at: seq<nat>, t: nat)
    requires IsSystemRun(run, steps) && run[0] == INITIAL && k < |run| && m in run[k].db.members
    ensures Follows(run, k, dbs, txs, at) && t < at[k] && GivenAt(dbs, txs, t, at[k], m)
  {
    hide IsSystemRun, IsRun, GivenAt;
    dbs, txs, at := SystemRunIsStoreRun(run, steps, k);
    EveryRowWasGiven(dbs, txs, at[k], m);
    t :| 0 <= t < at[k] && GivenAt(dbs, txs, t, at[k], m);
  }

  lemma LinkedIsAStep(dbs: seq<DB>, txs: seq<Tx>, event: Id, user: Id, t: nat)
    requires IsRun(dbs, txs) && Linked(dbs, txs, event, user, t)
    ensures t < |txs|
  {
  }

  ghost function Stores(run: seq<State>): seq<DB> {
    seq(|run|, i requires 0 <= i < |run| => run[i].db)
  }

  /** Whatever role changes, bulk invites, versioned writes and plain transactions
      run between the fetches, a row that matches the filter at every fetch comes
      back exactly once. */
  lemma RowsListedExactlyOnceInSystem(
    run: seq<State>, steps: seq<Step>, times: seq<nat>, q: Query, limit: nat, id: Id)
    requires IsSystemRun(run, steps) && run[0] == INITIAL && Moments(Stores(run), times) && limit > 0 && times != []
    requires forall i | 0 <= i < |times| :: Matches(run[times[i]].db, q, id)
    requires Finishes(Snapshots(Stores(run), times, q), limit, None)
    ensures multiset(Flatten(Walk(Snapshots(Stores(run), times, q), limit, None)))
              [Key(CreatedAt(run[times[0]].db, q, id), id)] == 1
  {
    hide IsSystemRun, IsRun, Matches, CreatedAt, QueryKeys, Inv;
    EmptyStoreIsValid();
    var dbs, txs, at := SystemRunIsStoreRun(run, steps, |run| - 1);
    var there: seq<nat> := seq(|times|, i requires 0 <= i < |times| => at[times[i]]);
    assert Snapshots(Stores(run), times, q) == Snapshots(dbs, there, q);
    RowsListedExactlyOnce(dbs, txs, there, q, limit, id);
  }
}

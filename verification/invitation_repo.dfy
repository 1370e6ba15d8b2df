/** The invitation repository, statement by statement. */
module InvitationRepo {
  import opened Domain
  import opened Tables
  import opened Roles
  import opened Evolution
  import opened InvitationTx
  import opened StoreMachine
  import opened BulkProtocol
  import opened Batch
  import opened Keyset
  import opened Listing
  import opened Database
  import opened MemberRepo

  /** A stored answer is about the request that is asking. */
  ghost predicate Stored(keys: map<(Id, string), KeyRow>, actor: Id, token: Token, items: seq<ItemResult>) {
    (actor, token.key) in keys && keys[(actor, token.key)] == KeyRow(token.hash, items)
  }

  /** The key is taken by a different request. */
  ghost predicate Mismatched(keys: map<(Id, string), KeyRow>, actor: Id, token: Token) {
    (actor, token.key) in keys && keys[(actor, token.key)].hash != token.hash
  }

  class InvitationRepository {
    const pool: Pool

    constructor (pool: Pool)
      ensures this.pool == pool
    {
      this.pool := pool;
    }

    /** One guarded INSERT; the email is resolved to an account if it has one. */
    method Create(actor: Id, event: Id, item: Item, id: Id, now: Time) returns (r: Result<Id>)
      requires Inv(pool.View()) && Fresh(pool.View(), id)
      modifies pool
      ensures (pool.View(), r) == Invite(old(pool.View()), actor, event, item.email, item.role, id, now)
      ensures Inv(pool.View()) && Evolves(old(pool.View()), pool.View())
    {
      hide Inv, CanGrant, Invited, Evolves;
      InviteIsATransaction(pool.View(), actor, event, item, id, now);
      var snapshot := pool.Begin();
      if !CanGrant(pool.members, event, actor, item.role) {
        return Err(ErrForbidden);
      }
      if Invited(pool.invitations, event, item.email) {
        return Err(ErrConflict);
      }
      var account: Option<Id> := None;
      if HasEmail(pool.users, item.email) {
        var user :| user in pool.users && pool.users[user].email == item.email;
        EmailNamesOneUser(pool.View(), user, item.email);
        account := Some(user);
      }
      var row := Invitation(event, account, item.email, item.role, now);
      pool.invitations := pool.invitations[id := row];
      pool.issued := pool.issued + {id};
      var audited := pool.Audit(AuditRow(actor, KInvitation, id, Action.Create, None, Some(Full(InvitationRow(row)))));
      if !audited {
        pool.Rollback(snapshot);
        return Err(ErrInternal);
      }
      r := Ok(id);
    }

    /** Look the key up: nothing stored, the stored answer, or a reused key. */
    method LoadIdempotencyResult(actor: Id, token: Token) returns (r: Result<Option<Answer>>)
      ensures r.Err? <==> Mismatched(pool.keys, actor, token)
      ensures r.Err? ==> r.error == ErrConflict
      ensures r.Ok? ==> (r.value.Some? <==> (actor, token.key) in pool.keys)
      ensures r.Ok? && r.value.Some? ==> Stored(pool.keys, actor, token, r.value.value.items) && r.value.value.replayed
    {
      if (actor, token.key) !in pool.keys {
        return Ok(None);
      }
      var row := pool.keys[(actor, token.key)];
      if row.hash != token.hash {
        return Err(ErrConflict);
      }
      return Ok(Some(Answer(row.items, true)));
    }

    /** Look up, process each item in its own transaction, record, and on a lost
        race read the winner back. Others may run between any two of these. */
    method BulkCreate(
      actor: Id, event: Id, token: Token, items: seq<Item>, ids: seq<Id>, clock: nat -> Time) returns (r: Result<Answer>)
      requires Inv(pool.View()) && |ids| == |items| && FreshIds(pool.View(), ids)
      modifies pool
      ensures Inv(pool.View()) && Evolves(old(pool.View()), pool.View())
      ensures pool.alone ==> (pool.View(), r) == BulkCall(old(pool.View()), actor, event, token, items, ids, clock)
      ensures r.Ok? ==> Stored(pool.keys, actor, token, r.value.items)
      ensures r.Ok? && !r.value.replayed ==>
        |r.value.items| == |items| && OutcomesTrue(r.value.items, event, items, pool.invitations)
      ensures r == Err(ErrConflict) ==> Mismatched(pool.keys, actor, token)
    {
      hide Inv, Evolves, ProcessItems, FreshIds, OutcomesTrue, Invite, Progress, BulkCall;
      ghost var start := pool.View();
      EvolvesReflexive(start);
      var found := LoadIdempotencyResult(actor, token);
      KnownKey(start, actor, event, token, items, ids, clock);
      if found.Err? {
        return Err(found.error);
      }
      if found.value.Some? {
        return Ok(found.value.value);
      }

      NothingProcessed(start, actor, event, items, ids, clock, pool.alone);
      var each := InviteEach(actor, event, token, items, ids, clock, start);
      if each.Err? {
        return Err(each.error);
      }
      var results := each.value;
      ghost var processed := pool.View();
      Unpack(start, processed, actor, event, items, ids, clock, |items|, results, pool.alone);
      pool.Others(ids[|items|..]);
      Meanwhile(start, processed, pool.View(), actor, event, items, ids, clock, |items|, results, pool.alone);
      ghost var last := pool.View();
      Unpack(start, last, actor, event, items, ids, clock, |items|, results, pool.alone);
      RecordsKey(start, last, actor, event, token, items, ids, clock, results, pool.alone);
      var k := (actor, token.key);
      if k !in pool.keys {
        if actor !in pool.users {
          return Err(ErrInternal);
        }
        pool.keys := pool.keys[k := KeyRow(token.hash, results)];
        return Ok(Answer(results, false));
      }

      pool.Others([]);
      WinnerStays(start, last, pool.View(), k);
      var winner := LoadIdempotencyResult(actor, token);
      if winner.Err? {
        return Err(winner.error);
      }
      r := Ok(winner.value.value);
    }

    /** The item loop, filling the results by index. */
    method InviteEach(
      actor: Id, event: Id, ghost token: Token, items: seq<Item>, ids: seq<Id>, clock: nat -> Time, ghost start: DB)
      returns (r: Result<seq<ItemResult>>)
      requires Progress(start, pool.View(), actor, event, items, ids, clock, 0, [], pool.alone)
      requires |items| == |ids| && (actor, token.key) !in start.keys
      modifies pool
      ensures r.Ok? ==> Progress(start, pool.View(), actor, event, items, ids, clock, |items|, r.value, pool.alone)
      ensures r.Err? ==> r.error != ErrConflict && Inv(pool.View()) && Evolves(start, pool.View())
      ensures r.Err? && pool.alone ==>
        (pool.View(), Err(r.error)) == BulkCall(start, actor, event, token, items, ids, clock)
    {
      hide Inv, Evolves, ProcessItems, FreshIds, OutcomesTrue, Invite, Progress, BulkCall;
      var results := new ItemResult[|items|];
      assert results[..0] == [];
      for i := 0 to |items|
        invariant Progress(start, pool.View(), actor, event, items, ids, clock, i, results[..i], pool.alone)
      {
        ghost var before := pool.View();
        Unpack(start, before, actor, event, items, ids, clock, i, results[..i], pool.alone);
        pool.Others(ids[i..]);
        Meanwhile(start, before, pool.View(), actor, event, items, ids, clock, i, results[..i], pool.alone);
        ghost var mid := pool.View();
        FirstIsFresh(mid, ids, i);
        var created := Create(actor, event, items[i], ids[i], clock(i));
        ItemDone(start, mid, actor, event, token, items, ids, clock, i, results[..i], pool.alone);
        ghost var done := results[..i];
        match created {
          case Ok(id) =>
            results[i] := Created(items[i].email, id);
          case Err(ErrConflict) =>
            results[i] := Conflict(items[i].email);
          case Err(ErrForbidden) =>
            results[i] := Forbidden(items[i].email);
          case Err(e) =>
            return Err(e);
        }
        assert results[..i + 1] == done + [results[i]];
      }
      assert results[..] == results[..|items|];
      r := Ok(results[..]);
    }

    /** One page of an event's invitations. */
    method List(event: Id, limit: nat, after: Option<Key>) returns (page: Page<Invitation>)
      requires limit > 0
      ensures Shows(page, pool.invitations, InvitationKeys(pool.View(), event), limit, after)
    {
      hide Shows, Sort, Beyond, PageOf;
      var keys := set k | k in pool.invitations && pool.invitations[k].eventId == event ::
        Key(pool.invitations[k].createdAt, k);
      var fetched := Fetch(keys, after, limit + 1);
      var invitations := [];
      for n := 0 to |fetched|
        invariant |invitations| == n
        invariant forall i | 0 <= i < n ::
          fetched[i].id in pool.invitations && invitations[i] == (fetched[i].id, pool.invitations[fetched[i].id])
          && fetched[i].at == invitations[i].1.createdAt
      {
        assert fetched[n] in keys;
        invitations := invitations + [(fetched[n].id, pool.invitations[fetched[n].id])];
      }
      TrimmedIsPage(invitations, fetched, pool.invitations, keys, limit, after);
      page := Page(invitations, None);
      if |invitations| > limit {
        page := Page(invitations[..limit], Some(Key(invitations[limit - 1].1.createdAt, invitations[limit - 1].0)));
      }
    }
  }

  /** What a bulk call has established after `i` items, in a store where others
      are busy too: no constraint broken, its outcomes true, its remaining
      identifiers unused; and on its own, exactly the fold so far. */
  ghost predicate Progress(
    start: DB, db: DB, actor: Id, event: Id, items: seq<Item>, ids: seq<Id>, clock: nat -> Time,
    i: nat, done: seq<ItemResult>, alone: bool)
  {
    && |items| == |ids| && i <= |items| && |done| == i
    && Inv(start) && Inv(db) && Evolves(start, db) && FreshIds(db, ids[i..])
    && OutcomesTrue(done, event, items, db.invitations)
    && (alone ==> ProcessItems(start, actor, event, items, ids, clock, i) == (db, Ok(done)))
  }

  lemma NothingProcessed(
    db: DB, actor: Id, event: Id, items: seq<Item>, ids: seq<Id>, clock: nat -> Time, alone: bool)
    requires Inv(db) && |items| == |ids| && FreshIds(db, ids)
    ensures Progress(db, db, actor, event, items, ids, clock, 0, [], alone)
  {
    hide Inv, Evolves;
    assert ids[0..] == ids;
    EvolvesReflexive(db);
  }

  lemma Unpack(
    start: DB, db: DB, actor: Id, event: Id, items: seq<Item>, ids: seq<Id>, clock: nat -> Time,
    i: nat, done: seq<ItemResult>, alone: bool)
    requires Progress(start, db, actor, event, items, ids, clock, i, done, alone)
    ensures |done| == i <= |ids| && Inv(db) && Evolves(start, db) && FreshIds(db, ids[i..])
    ensures OutcomesTrue(done, event, items, db.invitations)
  {
  }

  /** It survives whatever others commit. */
  lemma Meanwhile(
    start: DB, before: DB, after: DB, actor: Id, event: Id, items: seq<Item>, ids: seq<Id>, clock: nat -> Time,
    i: nat, done: seq<ItemResult>, alone: bool)
    requires Progress(start, before, actor, event, items, ids, clock, i, done, alone)
    requires Inv(after) && Evolves(before, after) && FreshIds(after, ids[i..]) && (alone ==> after == before)
    ensures Progress(start, after, actor, event, items, ids, clock, i, done, alone)
  {
    hide ProcessItems, FreshIds, OutcomesTrue, AccessOk, BookingOk;
    EvolvesTransitive(start, before, after);
    OutcomesPersist(done, event, items, before.invitations, after.invitations);
  }

  /** A known key is replayed or refused before anything is processed. */
  lemma KnownKey(db: DB, actor: Id, event: Id, token: Token, items: seq<Item>, ids: seq<Id>, clock: nat -> Time)
    requires |items| <= |ids|
    ensures (actor, token.key) in db.keys ==>
      BulkCall(db, actor, event, token, items, ids, clock) ==
        (db, if db.keys[(actor, token.key)].hash == token.hash then Ok(Answer(db.keys[(actor, token.key)].items, true))
             else Err(ErrConflict))
  {
    hide ProcessItems;
  }

  lemma ProcessNext(
    db: DB, actor: Id, event: Id, items: seq<Item>, ids: seq<Id>, clock: nat -> Time, i: nat)
    requires i < |items| && i < |ids|
    ensures var (d, rs) := ProcessItems(db, actor, event, items, ids, clock, i);
      rs.Ok? ==>
        var (d', r) := Invite(d, actor, event, items[i].email, items[i].role, ids[i], clock(i));
        ProcessItems(db, actor, event, items, ids, clock, i + 1) ==
          if Outcome(items[i].email, r).None? then (d', Err(r.error))
          else (d', Ok(rs.value + [Outcome(items[i].email, r).value]))
  {
    hide Invite;
  }

  /** An abort ends the batch as it stands. */
  lemma {:induction false} AbortStays(
    db: DB, actor: Id, event: Id, items: seq<Item>, ids: seq<Id>, clock: nat -> Time, i: nat, n: nat)
    requires i <= n <= |items| && n <= |ids| && ProcessItems(db, actor, event, items, ids, clock, i).1.Err?
    ensures ProcessItems(db, actor, event, items, ids, clock, n) == ProcessItems(db, actor, event, items, ids, clock, i)
  {
    hide Invite;
    if i < n {
      AbortStays(db, actor, event, items, ids, clock, i, n - 1);
    }
  }

  lemma ItemDone(
    start: DB, mid: DB, actor: Id, event: Id, token: Token, items: seq<Item>, ids: seq<Id>, clock: nat -> Time,
    i: nat, done: seq<ItemResult>, alone: bool)
    requires i < |items| && Progress(start, mid, actor, event, items, ids, clock, i, done, alone)
    requires (actor, token.key) !in start.keys
    ensures var (after, r) := Invite(mid, actor, event, items[i].email, items[i].role, ids[i], clock(i));
      var o := Outcome(items[i].email, r);
      && Inv(after) && Evolves(start, after)
      && (o.Some? ==> Progress(start, after, actor, event, items, ids, clock, i + 1, done + [o.value], alone))
      && (o.None? && alone ==> (after, Err(r.error)) == BulkCall(start, actor, event, token, items, ids, clock))
  {
    hide AccessOk, BookingOk, IssuedOk, Evolves, OutcomesTrue, ProcessItems, FreshIds, Invite, Enabled;
    FirstIsFresh(mid, ids, i);
    InviteIsATransaction(mid, actor, event, items[i], ids[i], clock(i));
    var (after, r) := Invite(mid, actor, event, items[i].email, items[i].role, ids[i], clock(i));
    EvolvesTransitive(start, mid, after);
    ItemTrue(mid, actor, event, items, ids, clock(i), i, done);
    ProcessNext(start, actor, event, items, ids, clock, i);
    if Outcome(items[i].email, r).None? && alone {
      AbortStays(start, actor, event, items, ids, clock, i + 1, |items|);
    }
  }

  lemma InviteIsATransaction(db: DB, actor: Id, event: Id, item: Item, id: Id, now: Time)
    requires Inv(db) && Fresh(db, id)
    ensures var after := Invite(db, actor, event, item.email, item.role, id, now).0; Inv(after) && Evolves(db, after)
  {
    hide AccessOk, BookingOk, Evolves, IssuedOk, Enabled, Invite;
    var tx := NewInvitation(actor, event, item.email, item.role, id, now);
    IsEnabled(db, tx);
    ApplyKeepsInv(db, tx);
    ApplyEvolves(db, tx);
  }

  lemma IsEnabled(db: DB, tx: Tx)
    requires tx.NewInvitation? && Fresh(db, tx.id)
    ensures Enabled(db, tx)
  {
  }

  lemma ItemTrue(
    mid: DB, actor: Id, event: Id, items: seq<Item>, ids: seq<Id>, now: Time, i: nat, done: seq<ItemResult>)
    requires IssuedOk(mid) && i < |items| && i < |ids| && FreshIds(mid, ids[i..])
    requires |done| == i && OutcomesTrue(done, event, items, mid.invitations)
    ensures var (after, r) := Invite(mid, actor, event, items[i].email, items[i].role, ids[i], now);
      && FreshIds(after, ids[i + 1..])
      && (Outcome(items[i].email, r).Some? ==>
            OutcomesTrue(done + [Outcome(items[i].email, r).value], event, items, after.invitations))
  {
    hide CanGrant, Invited, FreshIds;
    FirstIsFresh(mid, ids, i);
    InviteOutcome(mid, actor, event, items[i], ids[i], now);
    var after := Invite(mid, actor, event, items[i].email, items[i].role, ids[i], now).0;
    RestIsFresh(mid, after, ids, i);
    hide Invite, OutcomeOk;
    OutcomesPersist(done, event, items, mid.invitations, after.invitations);
  }

  /** With every item processed, the key insert is a transaction of the store, and
      the whole call is then the specified one. */
  lemma RecordsKey(
    start: DB, db: DB, actor: Id, event: Id, token: Token, items: seq<Item>, ids: seq<Id>, clock: nat -> Time,
    done: seq<ItemResult>, alone: bool)
    requires Progress(start, db, actor, event, items, ids, clock, |items|, done, alone)
    requires (actor, token.key) !in start.keys
    ensures (actor, token.key) !in db.keys && actor in db.users ==>
      var db' := db.(keys := db.keys[(actor, token.key) := KeyRow(token.hash, done)]);
      && Inv(db') && Evolves(start, db')
      && (alone ==> BulkCall(start, actor, event, token, items, ids, clock) == (db', Ok(Answer(done, false))))
    ensures (actor, token.key) !in db.keys && actor !in db.users && alone ==>
      BulkCall(start, actor, event, token, items, ids, clock) == (db, Err(ErrInternal))
    ensures (actor, token.key) in db.keys ==> !alone
  {
    hide AccessOk, BookingOk, Evolves, ProcessItems, FreshIds, OutcomesTrue;
    if alone {
      KeysUntouched(start, actor, event, items, ids, clock, |items|);
    }
    if (actor, token.key) !in db.keys && actor in db.users {
      var tx := NewKey(actor, token.key, token.hash, done);
      ApplyEvolves(db, tx);
      EvolvesTransitive(start, db, Apply(db, tx).0);
    }
  }

  lemma {:induction false} KeysUntouched(
    db: DB, actor: Id, event: Id, items: seq<Item>, ids: seq<Id>, clock: nat -> Time, n: nat)
    requires n <= |items| && n <= |ids|
    ensures ProcessItems(db, actor, event, items, ids, clock, n).0.keys == db.keys
  {
    hide CanGrant, Invited, UserByEmail;
    if n > 0 {
      KeysUntouched(db, actor, event, items, ids, clock, n - 1);
    }
  }

  /** The row a race was lost to is still there to be read back. */
  lemma WinnerStays(start: DB, before: DB, after: DB, k: (Id, string))
    requires Inv(start) && Evolves(start, before) && Evolves(before, after) && k in before.keys
    ensures Evolves(start, after) && k in after.keys
  {
    EvolvesTransitive(start, before, after) by { IssuedIsPartOfInv(start); }
  }
}

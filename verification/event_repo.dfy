/** The event repository, statement by statement. */
module EventRepo {
  import opened Domain
  import opened Tables
  import opened Evolution
  import opened EventTx
  import opened Keyset
  import opened Listing
  import opened StoreMachine
  import opened Diagnosis
  import opened Database

  class EventRepository {
    const pool: Pool

    constructor (pool: Pool)
      ensures this.pool == pool
    {
      this.pool := pool;
    }

    /** The event, its creator's admin membership and two audit rows, in one
        transaction; an actor without an account fails it as a whole. */
    method Create(
      actor: Id, name: string, startsAt: Time, endsAt: Time, event: Id, member: Id, now: Time) returns (r: Result<Id>)
      modifies pool
      ensures (pool.View(), r) == CreateEvent(old(pool.View()), actor, event, member, name, startsAt, endsAt, now)
    {
      var snapshot := pool.Begin();
      if startsAt >= endsAt {
        return Err(ErrInternal);
      }
      var row := Event(name, startsAt, endsAt, 1, false, now);
      pool.events := pool.events[event := row];
      pool.members := pool.members[member := Member(event, actor, Admin, 1, now)];
      pool.issued := pool.issued + {event, member};
      var audited := pool.Audit(AuditRow(actor, KEvent, event, Action.Create, None, Some(Full(EventRow(row)))));
      if audited {
        audited := pool.Audit(
          AuditRow(actor, KMember, member, Action.Create, None, Some(Unversioned(event, actor, Admin, now))));
      }
      if !audited {
        pool.Rollback(snapshot);
        return Err(ErrInternal);
      }
      assert pool.View() == CreateEvent(old(pool.View()), actor, event, member, name, startsAt, endsAt, now).0;
      r := Ok(event);
    }

    method Update(
      actor: Id, event: Id, version: int, name: Option<string>, startsAt: Option<Time>, endsAt: Option<Time>)
      returns (r: Result<Id>)
      requires Inv(pool.View())
      modifies pool
      ensures VersionedOutcome(
        old(pool.View()), PutEvent(actor, event, version, EventPatch(name, startsAt, endsAt)), pool.View(), r, pool.alone)
    {
      r := VersionedWrite(actor, event, version, EventPatch(name, startsAt, endsAt));
    }

    method Delete(actor: Id, event: Id, version: int) returns (r: Result<Id>)
      requires Inv(pool.View())
      modifies pool
      ensures VersionedOutcome(old(pool.View()), PutEvent(actor, event, version, EventDelete), pool.View(), r, pool.alone)
    {
      r := VersionedWrite(actor, event, version, EventDelete);
    }

    /** The row the UPDATE leaves, column by column. */
    method Record(before: Event, c: EventChange) returns (after: Event)
      ensures after == EventAfter(before, c)
    {
      after := before.(version := before.version + 1);
      match c {
        case EventPatch(name, startsAt, endsAt) =>
          if name.Some? {
            after := after.(name := name.value);
          }
          if startsAt.Some? {
            after := after.(startsAt := startsAt.value);
          }
          if endsAt.Some? {
            after := after.(endsAt := endsAt.value);
          }
        case EventDelete =>
          after := after.(deleted := true);
      }
    }

    /** A gated UPDATE and its audit row; only if the UPDATE matched nothing, a
        second statement, after others may have run, says why. */
    method VersionedWrite(actor: Id, event: Id, version: int, c: EventChange) returns (r: Result<Id>)
      requires Inv(pool.View())
      modifies pool
      ensures VersionedOutcome(old(pool.View()), PutEvent(actor, event, version, c), pool.View(), r, pool.alone)
    {
      hide Inv, Evolves;
      var snapshot := pool.Begin();
      if !EventMatches(pool.events, event, version) {
        pool.Others([]);
        if event !in pool.events || pool.events[event].deleted {
          return Err(ErrNotFound);
        }
        return Err(ErrVersionMismatch);
      }
      var before := pool.events[event];
      var after := Record(before, c);
      if after.startsAt >= after.endsAt {
        return Err(ErrInternal);
      }
      pool.events := pool.events[event := after];
      var audited := pool.Audit(
        AuditRow(actor, KEvent, event, if c.EventDelete? then Action.Delete else Action.Update, Some(Full(EventRow(before))), Some(Full(EventRow(after)))));
      if !audited {
        pool.Rollback(snapshot);
        return Err(ErrInternal);
      }
      r := Ok(event);
    }

    /** One page of the live events `user` belongs to. */
    method List(user: Id, limit: nat, after: Option<Key>) returns (page: Page<Event>)
      requires limit > 0
      ensures Shows(page, pool.events, EventKeys(pool.View(), user), limit, after)
    {
      hide Shows, Sort, Beyond, PageOf;
      var keys := set e | e in pool.events && !pool.events[e].deleted && IsMember(pool.members, e, user) ::
        Key(pool.events[e].createdAt, e);
      var fetched := Fetch(keys, after, limit + 1);
      var events := [];
      for n := 0 to |fetched|
        invariant |events| == n
        invariant forall i | 0 <= i < n ::
          fetched[i].id in pool.events && events[i] == (fetched[i].id, pool.events[fetched[i].id])
          && fetched[i].at == events[i].1.createdAt
      {
        assert fetched[n] in keys;
        events := events + [(fetched[n].id, pool.events[fetched[n].id])];
      }
      TrimmedIsPage(events, fetched, pool.events, keys, limit, after);
      page := Page(events, None);
      if |events| > limit {
        page := Page(events[..limit], Some(Key(events[limit - 1].1.createdAt, events[limit - 1].0)));
      }
    }
  }
}

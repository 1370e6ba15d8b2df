/** The session repository, statement by statement. */
module SessionRepo {
  import opened Domain
  import opened Tables
  import opened Evolution
  import opened SessionTx
  import opened SeriesTx
  import opened StoreMachine
  import opened Diagnosis
  import opened Keyset
  import opened Listing
  import opened Database

  datatype SessionEntry = SessionEntry(session: Session, roomName: string, speakerName: string)

  /** Each listed session with its room's and its speaker's name. */
  ghost function Entries(db: DB): map<Id, SessionEntry>
    requires SessionRefsOk(db.sessions, db.rooms, db.users, db.series)
  {
    map s | s in db.sessions ::
      SessionEntry(db.sessions[s], db.rooms[db.sessions[s].roomId].name, db.users[db.sessions[s].speakerId].name)
  }

  class SessionRepository {
    const pool: Pool

    constructor (pool: Pool)
      ensures this.pool == pool
    {
      this.pool := pool;
    }

    /** INSERT ... SELECT from the room, under the two exclusion constraints. */
    method Create(actor: Id, event: Id, s: SessionInput, id: Id, now: Time) returns (r: Result<Id>)
      requires Inv(pool.View()) && Fresh(pool.View(), id)
      modifies pool
      ensures (pool.View(), r) == CreateSession(old(pool.View()), actor, event, s, id, now)
      ensures Inv(pool.View()) && Evolves(old(pool.View()), pool.View())
    {
      hide Inv, Evolves, SlotTaken;
      BookingIsATransaction(pool.View(), actor, event, s, id, now);
      var snapshot := pool.Begin();
      if s.roomId !in pool.rooms || pool.rooms[s.roomId].eventId != event {
        return Err(ErrInvalidRoom);
      }
      var row := Session(event, s.roomId, s.speakerId, s.title, s.startsAt, s.endsAt, 1, false, s.seriesId, now);
      if row.startsAt >= row.endsAt {
        return Err(ErrInternal);
      }
      if SlotTaken(pool.sessions, id, row) {
        return Err(ErrConflict);
      }
      if s.speakerId !in pool.users {
        return Err(ErrInvalidSpeaker);
      }
      if s.seriesId.Some? && s.seriesId.value !in pool.series {
        return Err(ErrInternal);
      }
      pool.sessions := pool.sessions[id := row];
      pool.issued := pool.issued + {id};
      var audited := pool.Audit(AuditRow(actor, KSession, id, Action.Create, None, Some(Full(SessionRow(row)))));
      if !audited {
        pool.Rollback(snapshot);
        return Err(ErrInternal);
      }
      r := Ok(id);
    }

    method Update(
      actor: Id, event: Id, session: Id, version: int, title: Option<string>, slot: Option<(Time, Time)>)
      returns (r: Result<Id>)
      requires Inv(pool.View())
      modifies pool
      ensures VersionedOutcome(
        old(pool.View()), PutSession(actor, event, session, version, SessionPatch(title, slot)), pool.View(), r, pool.alone)
    {
      r := VersionedWrite(actor, event, session, version, SessionPatch(title, slot));
    }

    method Delete(actor: Id, event: Id, session: Id, version: int) returns (r: Result<Id>)
      requires Inv(pool.View())
      modifies pool
      ensures VersionedOutcome(
        old(pool.View()), PutSession(actor, event, session, version, SessionDelete), pool.View(), r, pool.alone)
    {
      r := VersionedWrite(actor, event, session, version, SessionDelete);
    }

    /** The row the UPDATE leaves, column by column. */
    method Record(before: Session, c: SessionChange) returns (after: Session)
      ensures after == SessionAfter(before, c)
    {
      after := before.(version := before.version + 1);
      match c {
        case SessionPatch(title, slot) =>
          if title.Some? {
            after := after.(title := title.value);
          }
          if slot.Some? {
            after := after.(startsAt := slot.value.0, endsAt := slot.value.1);
          }
        case SessionDelete =>
          after := after.(deleted := true);
      }
    }

    /** A gated UPDATE, its audit row and, for an occurrence of a series, its
        exception row; if the UPDATE matched nothing, a later statement says why. */
    method VersionedWrite(actor: Id, event: Id, session: Id, version: int, c: SessionChange) returns (r: Result<Id>)
      requires Inv(pool.View())
      modifies pool
      ensures VersionedOutcome(
        old(pool.View()), PutSession(actor, event, session, version, c), pool.View(), r, pool.alone)
    {
      hide Inv, Evolves, SlotTaken, WriteSession;
      r := Write(actor, event, session, version, c);
      if r == Err(ErrNoRow) {
        pool.Others([]);
        if session !in pool.sessions || pool.sessions[session].eventId != event || pool.sessions[session].deleted {
          return Err(ErrNotFound);
        }
        return Err(ErrVersionMismatch);
      }
    }

    /** The transaction itself; "no row" is the driver's answer when nothing matched. */
    method Write(actor: Id, event: Id, session: Id, version: int, c: SessionChange) returns (r: Result<Id>)
      modifies pool
      ensures (pool.View(), r) == WriteSession(old(pool.View()), actor, event, session, version, c)
      ensures r == Err(ErrNoRow) ==> pool.View() == old(pool.View())
    {
      hide SlotTaken;
      var snapshot := pool.Begin();
      if !SessionMatches(pool.sessions, event, session, version) {
        return Err(ErrNoRow);
      }
      var before := pool.sessions[session];
      var after := Record(before, c);
      if after.startsAt >= after.endsAt || (!after.deleted && SlotTaken(pool.sessions, session, after)) {
        return Err(ErrInternal);
      }
      pool.sessions := pool.sessions[session := after];
      var audited := pool.Audit(
        AuditRow(
          actor, KSession, session, if c.SessionDelete? then Action.Delete else Action.Update,
          Some(Full(SessionRow(before))), Some(Full(SessionRow(after)))));
      if !audited {
        pool.Rollback(snapshot);
        return Err(ErrInternal);
      }
      if after.seriesId.Some? {
        var status := if c.SessionDelete? then Cancelled else Modified;
        pool.exceptions := pool.exceptions + [ExceptionRow(after.seriesId.value, session, status, before.startsAt)];
      }
      assert pool.exceptions == snapshot.exceptions + ExceptionsOf(session, before, c);
      r := Ok(session);
    }

    /** The series row first, on its own; then every occurrence through Create,
        with others free to run before each. */
    method CreateSeries(
      actor: Id, event: Id, s: SeriesInput, series: Id, ids: seq<Id>, clock: nat -> Time, now: Time)
      returns (r: Result<seq<Occurrence>>)
      requires Inv(pool.View()) && FreshIds(pool.View(), [series] + ids) && |ids| == s.occurrences
      modifies pool
      ensures Inv(pool.View()) && Evolves(old(pool.View()), pool.View())
      ensures pool.alone ==>
        (pool.View(), r) == SeriesTx.CreateSeries(old(pool.View()), actor, event, s, series, ids, clock, now)
      ensures r.Ok? ==> |r.value| == s.occurrences && ReportsTrue(r.value, event, s, series, ids, pool.sessions)
    {
      hide Inv, Evolves, Materialize, FreshIds, ReportsTrue, SeriesProgress, CreateSession, OccurrenceInput, InsertSeries,
        SeriesTx.CreateSeries, Offset, StartOf, Saturate;
      ghost var start := pool.View();
      SeriesFirst(start, actor, event, s, series, ids, clock, now, pool.alone);
      if !(0 < s.interval < 0x8000_0000 && 1 <= s.occurrences <= 52
           && event in pool.events && s.roomId in pool.rooms && s.speakerId in pool.users) {
        return Err(ErrInternal);
      }
      pool.series := pool.series[
        series := Series(event, s.roomId, s.speakerId, s.title, s.freq, s.interval, s.occurrences, now)];
      pool.issued := pool.issued + {series};

      r := BookOccurrences(actor, event, s, series, ids, clock, start, pool.View());
    }

    /** The occurrence loop, filling the results by index. */
    method BookOccurrences(
      actor: Id, event: Id, s: SeriesInput, series: Id, ids: seq<Id>, clock: nat -> Time, ghost start: DB, ghost d: DB)
      returns (r: Result<seq<Occurrence>>)
      requires |ids| == s.occurrences
      requires SeriesProgress(start, d, pool.View(), actor, event, s, series, ids, clock, 0, [], pool.alone)
      modifies pool
      ensures Inv(pool.View()) && Evolves(start, pool.View())
      ensures pool.alone ==>
        (pool.View(), r) == Materialize(d, actor, event, s, series, ids, clock, s.occurrences)
      ensures r.Ok? ==> |r.value| == s.occurrences && ReportsTrue(r.value, event, s, series, ids, pool.sessions)
    {
      hide Inv, Evolves, Materialize, FreshIds, ReportsTrue, SeriesProgress, CreateSession, OccurrenceInput, Offset, StartOf,
        Saturate;
      var duration := Saturate(s.firstEndsAt - s.firstStartsAt);
      var results := new Occurrence[s.occurrences];
      assert results[..0] == [];
      for i := 0 to s.occurrences
        invariant SeriesProgress(start, d, pool.View(), actor, event, s, series, ids, clock, i, results[..i], pool.alone)
      {
        ghost var before := pool.View();
        SeriesUnpack(start, d, before, actor, event, s, series, ids, clock, i, results[..i], pool.alone);
        pool.Others(ids[i..]);
        SeriesMeanwhile(start, d, before, pool.View(), actor, event, s, series, ids, clock, i, results[..i], pool.alone);
        ghost var mid := pool.View();
        FirstIsFresh(mid, ids, i);
        var starts := s.firstStartsAt + Offset(s.interval, s.freq, i);
        OccurrenceInputIs(s, series, i);
        var created := Create(
          actor, event, SessionInput(s.roomId, s.speakerId, s.title, starts, starts + duration, Some(series)), ids[i], clock(i));
        OccurrenceDone(start, d, mid, actor, event, s, series, ids, clock, i, results[..i], pool.alone);
        ghost var done := results[..i];
        match created {
          case Ok(id) =>
            results[i] := Booked(starts, id);
          case Err(ErrConflict) =>
            results[i] := Clashed(starts);
          case Err(e) =>
            return Err(e);
        }
        assert results[..i + 1] == done + [results[i]];
      }
      assert results[..] == results[..s.occurrences];
      SeriesUnpack(start, d, pool.View(), actor, event, s, series, ids, clock, s.occurrences, results[..], pool.alone);
      r := Ok(results[..]);
    }

    /** One page of an event's live sessions, with room and speaker names joined in. */
    method List(event: Id, limit: nat, after: Option<Key>) returns (page: Page<SessionEntry>)
      requires Inv(pool.View()) && limit > 0
      ensures Shows(page, Entries(pool.View()), SessionKeys(pool.View(), event), limit, after)
    {
      hide AccessOk, RoomsOk, NoDoubleBooking, SeriesOk, IssuedOk, SessionRefsOk, Entries, Shows, Sort, Beyond, PageOf;
      ghost var entries := Entries(pool.View());
      var keys := set s | s in pool.sessions && pool.sessions[s].eventId == event && !pool.sessions[s].deleted ::
        Key(pool.sessions[s].createdAt, s);
      assert keys == SessionKeys(pool.View(), event);
      var fetched := Fetch(keys, after, limit + 1);
      var sessions := Scan(fetched);
      TrimmedIsPage(sessions, fetched, entries, keys, limit, after);
      page := Page(sessions, None);
      if |sessions| > limit {
        page := Page(sessions[..limit], Some(Key(sessions[limit - 1].1.session.createdAt, sessions[limit - 1].0)));
      }
    }

    /** Read the fetched rows one by one. */
    method Scan(fetched: seq<Key>) returns (sessions: seq<(Id, SessionEntry)>)
      requires Inv(pool.View())
      requires forall i | 0 <= i < |fetched| ::
        fetched[i].id in pool.sessions && fetched[i].at == pool.sessions[fetched[i].id].createdAt
      ensures |sessions| == |fetched|
      ensures forall i | 0 <= i < |fetched| ::
        && fetched[i].id in Entries(pool.View()) && sessions[i] == (fetched[i].id, Entries(pool.View())[fetched[i].id])
        && sessions[i].1.session.createdAt == fetched[i].at
    {
      hide AccessOk, RoomsOk, NoDoubleBooking, SeriesOk, IssuedOk, SessionRefsOk, Entries;
      ghost var entries := Entries(pool.View());
      EntriesHas(pool.View());
      sessions := [];
      for n := 0 to |fetched|
        invariant |sessions| == n
        invariant forall i | 0 <= i < n ::
          fetched[i].id in entries && sessions[i] == (fetched[i].id, entries[fetched[i].id])
          && sessions[i].1.session.createdAt == fetched[i].at
      {
        var s := pool.sessions[fetched[n].id];
        sessions := sessions + [(fetched[n].id, SessionEntry(s, pool.rooms[s.roomId].name, pool.users[s.speakerId].name))];
      }
    }
  }

  lemma EntriesHas(db: DB)
    requires SessionRefsOk(db.sessions, db.rooms, db.users, db.series)
    ensures forall s | s in db.sessions ::
      && db.sessions[s].roomId in db.rooms && db.sessions[s].speakerId in db.users && s in Entries(db)
      && Entries(db)[s] ==
           SessionEntry(db.sessions[s], db.rooms[db.sessions[s].roomId].name, db.users[db.sessions[s].speakerId].name)
  {
  }

  lemma BookingIsATransaction(db: DB, actor: Id, event: Id, s: SessionInput, id: Id, now: Time)
    requires Inv(db) && Fresh(db, id)
    ensures var after := CreateSession(db, actor, event, s, id, now).0; Inv(after) && Evolves(db, after)
  {
    hide AccessOk, BookingOk, Evolves, IssuedOk, CreateSession;
    var tx := NewBooking(actor, event, s, id, now);
    assert Enabled(db, tx);
    hide Enabled;
    ApplyKeepsInv(db, tx);
    ApplyEvolves(db, tx);
  }

  // ---------------------------------------------------------------------
  // A series while others are busy
  // ---------------------------------------------------------------------

  /** What is reported about occurrence `i` is true of the store, and stays true:
      a booked one is a session of the series, at the occurrence's own time for as
      long as nobody has edited it. */
  ghost predicate ReportTrue(
    o: Occurrence, event: Id, s: SeriesInput, series: Id, ids: seq<Id>, i: nat, sessions: map<Id, Session>)
  {
    && o.startsAt == StartOf(s, i) && i < |ids|
    && (o.Booked? ==>
          && o.id == ids[i] && o.id in sessions && sessions[o.id].eventId == event
          && sessions[o.id].roomId == s.roomId && sessions[o.id].speakerId == s.speakerId
          && sessions[o.id].seriesId == Some(series) && sessions[o.id].version >= 1
          && (sessions[o.id].version == 1 ==>
                && sessions[o.id].startsAt == StartOf(s, i) && sessions[o.id].endsAt == StartOf(s, i) + Duration(s)
                && !sessions[o.id].deleted && sessions[o.id].title == s.title))
  }

  ghost predicate ReportsTrue(
    results: seq<Occurrence>, event: Id, s: SeriesInput, series: Id, ids: seq<Id>, sessions: map<Id, Session>)
  {
    forall i: nat | i < |results| :: ReportTrue(results[i], event, s, series, ids, i, sessions)
  }

  ghost predicate SeriesProgress(
    start: DB, d: DB, db: DB, actor: Id, event: Id, s: SeriesInput, series: Id, ids: seq<Id>, clock: nat -> Time,
    i: nat, results: seq<Occurrence>, alone: bool)
  {
    && |ids| == s.occurrences && i <= s.occurrences && |results| == i
    && Inv(start) && Inv(db) && Evolves(start, db) && FreshIds(db, ids[i..])
    && ReportsTrue(results, event, s, series, ids, db.sessions)
    && (alone ==> Materialize(d, actor, event, s, series, ids, clock, i) == (db, Ok(results)))
  }

  /** The series row's own checks and foreign keys. */
  predicate SeriesAccepted(db: DB, event: Id, s: SeriesInput) {
    && 0 < s.interval < 0x8000_0000 && 1 <= s.occurrences <= 52
    && event in db.events && s.roomId in db.rooms && s.speakerId in db.users
  }

  lemma SeriesFirst(
    db: DB, actor: Id, event: Id, s: SeriesInput, series: Id, ids: seq<Id>, clock: nat -> Time, now: Time, alone: bool)
    requires Inv(db) && FreshIds(db, [series] + ids) && |ids| == s.occurrences
    ensures Evolves(db, db)
    ensures var (d, r) := InsertSeries(db, SeriesRow(event, s, now), series);
      && (r.Ok? ==> SeriesProgress(db, d, d, actor, event, s, series, ids, clock, 0, [], alone))
      && Evolves(db, d) && Inv(d)
      && r.Ok? == SeriesAccepted(db, event, s)
      && (r.Ok? ==> d == db.(series := db.series[series := SeriesRow(event, s, now)], issued := db.issued + {series}))
      && SeriesTx.CreateSeries(db, actor, event, s, series, ids, clock, now) ==
           if r.Ok? then Materialize(d, actor, event, s, series, ids, clock, s.occurrences) else (db, Err(ErrInternal))
  {
    hide AccessOk, BookingOk, Evolves, IssuedOk, FreshIds, CreateSession;
    EvolvesReflexive(db);
    IdsAfterSeries(db, series, ids);
    var tx := NewSeries(SeriesRow(event, s, now), series);
    assert Enabled(db, tx);
    ApplyKeepsInv(db, tx);
    ApplyEvolves(db, tx);
    OnlySeriesIssued(db, SeriesRow(event, s, now), series);
    assert ids[0..] == ids;
  }

  lemma OnlySeriesIssued(db: DB, row: Series, series: Id)
    ensures InsertSeries(db, row, series).0.issued <= db.issued + {series}
  {
  }

  lemma SeriesUnpack(
    start: DB, d: DB, db: DB, actor: Id, event: Id, s: SeriesInput, series: Id, ids: seq<Id>, clock: nat -> Time,
    i: nat, results: seq<Occurrence>, alone: bool)
    requires SeriesProgress(start, d, db, actor, event, s, series, ids, clock, i, results, alone)
    ensures i <= |ids| && Inv(db) && Evolves(start, db) && FreshIds(db, ids[i..])
    ensures ReportsTrue(results, event, s, series, ids, db.sessions)
    ensures alone ==> Materialize(d, actor, event, s, series, ids, clock, i) == (db, Ok(results))
  {
  }

  lemma ReportsPersist(
    results: seq<Occurrence>, event: Id, s: SeriesInput, series: Id, ids: seq<Id>, a: DB, b: DB)
    requires ReportsTrue(results, event, s, series, ids, a.sessions) && Evolves(a, b)
    ensures ReportsTrue(results, event, s, series, ids, b.sessions)
  {
    forall i: nat | i < |results| ensures ReportTrue(results[i], event, s, series, ids, i, b.sessions) {
      assert ReportTrue(results[i], event, s, series, ids, i, a.sessions);
    }
  }

  lemma SeriesMeanwhile(
    start: DB, d: DB, before: DB, after: DB, actor: Id, event: Id, s: SeriesInput, series: Id, ids: seq<Id>,
    clock: nat -> Time, i: nat, results: seq<Occurrence>, alone: bool)
    requires SeriesProgress(start, d, before, actor, event, s, series, ids, clock, i, results, alone)
    requires Inv(after) && Evolves(before, after) && FreshIds(after, ids[i..]) && (alone ==> after == before)
    ensures SeriesProgress(start, d, after, actor, event, s, series, ids, clock, i, results, alone)
  {
    hide Materialize, FreshIds, ReportsTrue, AccessOk, BookingOk, IssuedOk, Evolves;
    EvolvesTransitive(start, before, after);
    ReportsPersist(results, event, s, series, ids, before, after);
  }

  lemma OccurrenceInputIs(s: SeriesInput, series: Id, i: nat)
    ensures var starts := s.firstStartsAt + Offset(s.interval, s.freq, i);
      && starts == StartOf(s, i)
      && SessionInput(s.roomId, s.speakerId, s.title, starts, starts + Saturate(s.firstEndsAt - s.firstStartsAt), Some(series))
         == OccurrenceInput(s, series, i)
  {
  }

  lemma MaterializeNext(
    db: DB, actor: Id, event: Id, s: SeriesInput, series: Id, ids: seq<Id>, clock: nat -> Time, i: nat)
    requires i < |ids|
    ensures var (d, rs) := Materialize(db, actor, event, s, series, ids, clock, i);
      rs.Ok? ==>
        var (d', r) := CreateSession(d, actor, event, OccurrenceInput(s, series, i), ids[i], clock(i));
        var o := OccurrenceOf(StartOf(s, i), r);
        Materialize(db, actor, event, s, series, ids, clock, i + 1) ==
          if o.None? then (d', Err(r.error)) else (d', Ok(rs.value + [o.value]))
  {
    hide CreateSession, OccurrenceInput, StartOf;
  }

  lemma OccurrenceDone(
    start: DB, d: DB, mid: DB, actor: Id, event: Id, s: SeriesInput, series: Id, ids: seq<Id>, clock: nat -> Time,
    i: nat, results: seq<Occurrence>, alone: bool)
    requires i < s.occurrences && SeriesProgress(start, d, mid, actor, event, s, series, ids, clock, i, results, alone)
    ensures var (after, r) := CreateSession(mid, actor, event, OccurrenceInput(s, series, i), ids[i], clock(i));
      var o := OccurrenceOf(StartOf(s, i), r);
      && Inv(after) && Evolves(start, after)
      && (o.Some? ==> SeriesProgress(start, d, after, actor, event, s, series, ids, clock, i + 1, results + [o.value], alone))
      && (o.None? && alone ==>
            Materialize(d, actor, event, s, series, ids, clock, s.occurrences) == (after, Err(r.error)))
  {
    hide AccessOk, BookingOk, IssuedOk, Evolves, ReportsTrue, Materialize, FreshIds, CreateSession, OccurrenceInput, StartOf;
    FirstIsFresh(mid, ids, i);
    BookingIsATransaction(mid, actor, event, OccurrenceInput(s, series, i), ids[i], clock(i));
    var (after, r) := CreateSession(mid, actor, event, OccurrenceInput(s, series, i), ids[i], clock(i));
    EvolvesTransitive(start, mid, after);
    ReportsPersist(results, event, s, series, ids, mid, after);
    OccurrenceReported(mid, actor, event, s, series, ids, clock(i), i, results);
    MaterializeNext(d, actor, event, s, series, ids, clock, i);
    if OccurrenceOf(StartOf(s, i), r).None? && alone {
      AbortStays(d, actor, event, s, series, ids, clock, i + 1, s.occurrences);
    }
  }

  lemma OccurrenceReported(
    mid: DB, actor: Id, event: Id, s: SeriesInput, series: Id, ids: seq<Id>, now: Time, i: nat, results: seq<Occurrence>)
    requires i < |ids| && FreshIds(mid, ids[i..]) && |results| == i
    ensures var (after, r) := CreateSession(mid, actor, event, OccurrenceInput(s, series, i), ids[i], now);
      var o := OccurrenceOf(StartOf(s, i), r);
      && FreshIds(after, ids[i + 1..])
      && (o.Some? && ReportsTrue(results, event, s, series, ids, after.sessions) ==>
            ReportsTrue(results + [o.value], event, s, series, ids, after.sessions))
  {
    hide SlotTaken, FreshIds, StartOf;
    var (after, r) := CreateSession(mid, actor, event, OccurrenceInput(s, series, i), ids[i], now);
    RestIsFresh(mid, after, ids, i);
  }
}

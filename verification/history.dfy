/** The audit log as a complete, lossless history of every audited row, and the
    series exception log as a projection of it. */
module History {
  import opened Domain
  import opened Tables
  import opened EventTx
  import opened MemberTx
  import opened InvitationTx
  import opened RoomTx
  import opened SessionTx
  import opened StoreMachine

  /** The row an audited entity has now, if any. */
  function Current(db: DB, k: Kind, id: Id): Option<Row> {
    match k
    case KEvent => if id in db.events then Some(EventRow(db.events[id])) else None
    case KMember => if id in db.members then Some(MemberRow(db.members[id])) else None
    case KRoom => if id in db.rooms then Some(RoomRow(db.rooms[id])) else None
    case KSession => if id in db.sessions then Some(SessionRow(db.sessions[id])) else None
    case KInvitation => if id in db.invitations then Some(InvitationRow(db.invitations[id])) else None
  }

  function VersionOf(r: Row): int {
    match r
    case EventRow(e) => e.version
    case MemberRow(m) => m.version
    case RoomRow(q) => q.version
    case SessionRow(s) => s.version
    case InvitationRow(_) => 1
  }

  predicate SoftDeleted(r: Row) {
    (r.EventRow? && r.event.deleted) || (r.SessionRow? && r.session.deleted)
  }

  /** A logged payload shows exactly this row; a payload without a version
      column stands for version 1. */
  predicate Shows(p: Option<Payload>, r: Option<Row>) {
    match p
    case None => r.None?
    case Some(Full(row)) => r == Some(row)
    case Some(Unversioned(e, u, role, c)) => r == Some(MemberRow(Member(e, u, role, 1, c)))
  }

  /** The audit rows about one entity, oldest first. */
  function Of(audit: seq<AuditRow>, k: Kind, id: Id): (h: seq<AuditRow>)
    ensures forall i | 0 <= i < |h| :: h[i] in audit && h[i].kind == k && h[i].id == id
  {
    if audit == [] then []
    else
      var last := audit[|audit| - 1];
      var rest := Of(audit[..|audit| - 1], k, id);
      if last.kind == k && last.id == id then rest + [last] else rest
  }

  /** Columns no write ever changes. */
  predicate SameIdentity(x: Row, y: Row) {
    match (x, y)
    case (EventRow(a), EventRow(b)) => a.createdAt == b.createdAt
    case (MemberRow(a), MemberRow(b)) => a.eventId == b.eventId && a.userId == b.userId && a.createdAt == b.createdAt
    case (RoomRow(a), RoomRow(b)) => a.eventId == b.eventId && a.createdAt == b.createdAt
    case (SessionRow(a), SessionRow(b)) =>
      && a.eventId == b.eventId && a.roomId == b.roomId && a.speakerId == b.speakerId
      && a.seriesId == b.seriesId && a.createdAt == b.createdAt
    case _ => false
  }

  /** One entry links the row it found to the row it left. */
  predicate LinkOk(a: AuditRow, before: Row) {
    && a.action != Create
    && a.before == Some(Full(before))
    && !SoftDeleted(before)
    && (a.after.Some? ==>
          && a.after.value.Full? && SameIdentity(before, a.after.value.row)
          && VersionOf(a.after.value.row) == VersionOf(before) + 1
          && (SoftDeleted(a.after.value.row) <==> a.action == Delete))
    && (a.after.None? ==> a.action == Delete)
  }

  /** The row shown by the i-th entry of a history. */
  function Shown(a: AuditRow): (r: Option<Row>)
    ensures Shows(a.after, r)
    ensures forall s | Shows(a.after, s) :: s == r
  {
    match a.after
    case None => None
    case Some(Full(row)) => Some(row)
    case Some(Unversioned(e, u, role, c)) => Some(MemberRow(Member(e, u, role, 1, c)))
  }

  predicate LinkedAt(h: seq<AuditRow>, i: int)
    requires 0 < i < |h|
  {
    Shown(h[i - 1]).Some? && LinkOk(h[i], Shown(h[i - 1]).value)
  }

  /** A history starts with a create, every entry finds exactly the row the
      previous one left, and the last entry left the current row. */
  predicate HistoryOk(h: seq<AuditRow>, now: Option<Row>) {
    if h == [] then now == None
    else
      && h[0].action == Create && h[0].before == None && Shown(h[0]).Some?
      && VersionOf(Shown(h[0]).value) == 1 && !SoftDeleted(Shown(h[0]).value)
      && (forall i | 0 < i < |h| :: LinkedAt(h, i))
      && now == Shown(h[|h| - 1])
  }

  /** The exception rows that the audit log calls for: one per update or delete
      of a session that belongs to a series. */
  function ExceptionsFrom(audit: seq<AuditRow>): seq<ExceptionRow> {
    if audit == [] then []
    else
      var a := audit[|audit| - 1];
      ExceptionsFrom(audit[..|audit| - 1]) +
      if a.kind == KSession && a.before.Some? && a.before.value.Full? && a.before.value.row.SessionRow?
         && a.before.value.row.session.seriesId.Some?
      then
        var s := a.before.value.row.session;
        [ExceptionRow(s.seriesId.value, a.id, if a.action == Delete then Cancelled else Modified, s.startsAt)]
      else []
  }

  ghost predicate HistoriesOk(db: DB) {
    && (forall k: Kind, id: Id :: HistoryOk(Of(db.audit, k, id), Current(db, k, id)))
    && (forall i | 0 <= i < |db.audit| :: db.audit[i].id in db.issued)
    && db.exceptions == ExceptionsFrom(db.audit)
  }

  // ---------------------------------------------------------------------
  // One audited write
  // ---------------------------------------------------------------------

  ghost predicate SameElsewhere(db: DB, db': DB, k: Kind, id: Id) {
    forall k', id' | k' != k || id' != id :: Current(db', k', id') == Current(db, k', id')
  }

  /** `db'` differs from `db` in one audited row, and its log has the one entry
      that says so. */
  ghost predicate AuditedWrite(db: DB, db': DB, a: AuditRow) {
    && db'.audit == db.audit + [a]
    && db.issued <= db'.issued && a.id in db'.issued
    && SameElsewhere(db, db', a.kind, a.id)
    && Current(db', a.kind, a.id) == Shown(a)
    && match Current(db, a.kind, a.id)
       case Some(before) => LinkOk(a, before)
       case None =>
         && a.id !in db.issued && a.action == Create && a.before == None
         && Shown(a).Some? && VersionOf(Shown(a).value) == 1 && !SoftDeleted(Shown(a).value)
  }

  lemma OfSnoc(audit: seq<AuditRow>, a: AuditRow, k: Kind, id: Id)
    ensures Of(audit + [a], k, id) ==
            if a.kind == k && a.id == id then Of(audit, k, id) + [a] else Of(audit, k, id)
  {
    assert (audit + [a])[..|audit|] == audit;
  }

  lemma ExceptionsFromSnoc(audit: seq<AuditRow>, a: AuditRow)
    ensures ExceptionsFrom(audit + [a]) == ExceptionsFrom(audit) + ExceptionsFrom([a])
  {
    assert (audit + [a])[..|audit|] == audit;
    assert [a][..0] == [];
  }

  lemma UnusedIdHasNoHistory(audit: seq<AuditRow>, issued: set<Id>, k: Kind, id: Id)
    requires forall i | 0 <= i < |audit| :: audit[i].id in issued
    requires id !in issued
    ensures Of(audit, k, id) == []
  {
  }

  lemma AuditedWriteKeepsHistory(db: DB, db': DB, a: AuditRow, k: Kind, id: Id)
    requires HistoriesOk(db) && AuditedWrite(db, db', a)
    ensures HistoryOk(Of(db'.audit, k, id), Current(db', k, id))
  {
    hide SameIdentity, SoftDeleted, VersionOf, Of;
    OfSnoc(db.audit, a, k, id);
    var h := Of(db.audit, k, id);
    assert HistoryOk(h, Current(db, k, id));
    if k == a.kind && id == a.id {
      if Current(db, k, id).None? {
        UnusedIdHasNoHistory(db.audit, db.issued, k, id);
      }
      var h' := h + [a];
      forall i | 0 < i < |h'| ensures LinkedAt(h', i) {
        if i < |h| {
          assert LinkedAt(h, i);
        }
      }
    }
  }

  lemma AuditedWriteKeepsHistories(db: DB, db': DB, a: AuditRow)
    requires HistoriesOk(db) && AuditedWrite(db, db', a)
    requires db'.exceptions == db.exceptions + ExceptionsFrom([a])
    ensures HistoriesOk(db')
  {
    forall k: Kind, id: Id ensures HistoryOk(Of(db'.audit, k, id), Current(db', k, id)) {
      AuditedWriteKeepsHistory(db, db', a, k, id);
    }
    ExceptionsFromSnoc(db.audit, a);
  }

  lemma SameRowsKeepHistories(db: DB, db': DB)
    requires HistoriesOk(db)
    requires SameAudited(db, db')
    ensures HistoriesOk(db')
  {
    assert forall k, id :: Current(db', k, id) == Current(db, k, id);
  }

  // ---------------------------------------------------------------------
  // Every transaction is zero, one or (for a new event) two audited writes
  // ---------------------------------------------------------------------

  lemma CreateEventKeepsHistories(
    db: DB, actor: Id, event: Id, member: Id, name: string, startsAt: Time, endsAt: Time, now: Time)
    requires HistoriesOk(db) && IssuedOk(db) && Fresh(db, event) && Fresh(db, member) && event != member
    ensures HistoriesOk(CreateEvent(db, actor, event, member, name, startsAt, endsAt, now).0)
  {
    hide HistoriesOk;
    var db' := CreateEvent(db, actor, event, member, name, startsAt, endsAt, now).0;
    if db' != db {
      var a0, a1 := db'.audit[|db.audit|], db'.audit[|db.audit| + 1];
      var mid := db.(events := db'.events, audit := db.audit + [a0], issued := db.issued + {event});
      AuditedWriteKeepsHistories(db, mid, a0);
      assert db'.audit == mid.audit + [a1];
      AuditedWriteKeepsHistories(mid, db', a1);
    }
  }

  lemma EventWriteKeepsHistories(db: DB, tx: Tx)
    requires HistoriesOk(db) && Inv(db) && Enabled(db, tx) && (tx.PutEvent?)
    ensures HistoriesOk(Apply(db, tx).0)
  {
    hide HistoriesOk, AccessOk, BookingOk, Of;
    var db' := Apply(db, tx).0;
    if db' != db {
      AuditedWriteKeepsHistories(db, db', db'.audit[|db.audit|]);
    }
  }

  lemma MemberWriteKeepsHistories(db: DB, tx: Tx)
    requires HistoriesOk(db) && Inv(db) && Enabled(db, tx) && (tx.NewMember? || tx.PutRole?)
    ensures HistoriesOk(Apply(db, tx).0)
  {
    hide HistoriesOk, AccessOk, BookingOk, Roles.CanGrant, Diagnose, IsMember, UserByEmail;
    var db' := Apply(db, tx).0;
    if db' != db {
      AuditedWriteKeepsHistories(db, db', db'.audit[|db.audit|]);
    }
  }

  lemma InvitationWriteKeepsHistories(db: DB, tx: Tx)
    requires HistoriesOk(db) && Inv(db) && Enabled(db, tx) && (tx.NewInvitation?)
    ensures HistoriesOk(Apply(db, tx).0)
  {
    hide HistoriesOk, AccessOk, BookingOk, Roles.CanGrant, Invited, UserByEmail;
    var db' := Apply(db, tx).0;
    if db' != db {
      AuditedWriteKeepsHistories(db, db', db'.audit[|db.audit|]);
    }
  }

  lemma RoomWriteKeepsHistories(db: DB, tx: Tx)
    requires HistoriesOk(db) && Inv(db) && Enabled(db, tx) && (tx.NewRoom? || tx.PutRoom?)
    ensures HistoriesOk(Apply(db, tx).0)
  {
    hide HistoriesOk, AccessOk, BookingOk, NameTaken, RoomReferenced;
    var db' := Apply(db, tx).0;
    if db' != db {
      AuditedWriteKeepsHistories(db, db', db'.audit[|db.audit|]);
    }
  }

  lemma SessionWriteKeepsHistories(db: DB, tx: Tx)
    requires HistoriesOk(db) && Inv(db) && Enabled(db, tx) && (tx.NewBooking? || tx.PutSession?)
    ensures HistoriesOk(Apply(db, tx).0)
  {
    hide HistoriesOk, AccessOk, BookingOk, SlotTaken;
    var db' := Apply(db, tx).0;
    if db' != db {
      AuditedWriteKeepsHistories(db, db', db'.audit[|db.audit|]);
    }
  }

  ghost predicate SameAudited(db: DB, db': DB) {
    && db'.events == db.events && db'.members == db.members && db'.rooms == db.rooms
    && db'.sessions == db.sessions && db'.invitations == db.invitations
    && db'.audit == db.audit && db'.exceptions == db.exceptions && db.issued <= db'.issued
  }

  lemma SignInTouchesNoAuditedTable(db: DB, id: Id, user: User)
    ensures SameAudited(db, SignIn(db, id, user).0)
  {
    hide KnownSubject, UserBySubject, HasEmail;
    var d := SignIn(db, id, user).0;
    if d != db {
      assert d == db.(users := d.users, issued := db.issued + {id});
    }
  }

  lemma KeyTouchesNoAuditedTable(db: DB, actor: Id, key: string, hash: string, items: seq<ItemResult>)
    ensures SameAudited(db, Keyed(RecordKey(db, actor, key, hash, items)).0)
  {
  }

  lemma SeriesTouchesNoAuditedTable(db: DB, s: Series, id: Id)
    ensures SameAudited(db, InsertSeries(db, s, id).0)
  {
  }

  lemma UnauditedWriteKeepsHistories(db: DB, tx: Tx)
    requires HistoriesOk(db) && (tx.AddUser? || tx.NewKey? || tx.NewSeries?)
    ensures HistoriesOk(Apply(db, tx).0)
  {
    hide HistoriesOk, SameAudited, SignIn, RecordKey, Keyed, InsertSeries;
    match tx {
      case AddUser(id, user) => SignInTouchesNoAuditedTable(db, id, user);
      case NewKey(a, k, hash, items) => KeyTouchesNoAuditedTable(db, a, k, hash, items);
      case NewSeries(s, id) => SeriesTouchesNoAuditedTable(db, s, id);
    }
    SameRowsKeepHistories(db, Apply(db, tx).0);
  }

  /** Every transaction, successful or not, extends every history correctly. */
  lemma ApplyKeepsHistories(db: DB, tx: Tx)
    requires HistoriesOk(db) && Inv(db) && Enabled(db, tx)
    ensures HistoriesOk(Apply(db, tx).0)
  {
    hide HistoriesOk, AccessOk, BookingOk;
    match tx
    case NewEvent(a, e, m, n, s, t, now) => CreateEventKeepsHistories(db, a, e, m, n, s, t, now);
    case _ =>
      hide Apply, Inv, Enabled;
      if tx.PutEvent? {
        EventWriteKeepsHistories(db, tx);
      } else if tx.NewMember? || tx.PutRole? {
        MemberWriteKeepsHistories(db, tx);
      } else if tx.NewInvitation? {
        InvitationWriteKeepsHistories(db, tx);
      } else if tx.NewRoom? || tx.PutRoom? {
        RoomWriteKeepsHistories(db, tx);
      } else if tx.NewBooking? || tx.PutSession? {
        SessionWriteKeepsHistories(db, tx);
      } else {
        UnauditedWriteKeepsHistories(db, tx);
      }
  }

  lemma {:induction false} RunKeepsHistories(run: seq<DB>, txs: seq<Tx>, k: nat)
    requires IsRun(run, txs) && run[0] == EMPTY && k < |run|
    ensures HistoriesOk(run[k])
  {
    hide Inv, Apply, Enabled;
    EmptyStoreIsValid();
    if k > 0 {
      RunKeepsHistories(run, txs, k - 1);
      RunKeepsInv(run, txs, k - 1);
      ApplyKeepsHistories(run[k - 1], txs[k - 1]);
    }
  }

  // ---------------------------------------------------------------------
  // What a correct history says
  // ---------------------------------------------------------------------

  /** The i-th entry left version i+1, so no version was ever written over twice. */
  lemma {:induction false} VersionsCountEntries(h: seq<AuditRow>, now: Option<Row>, i: nat)
    requires HistoryOk(h, now) && i < |h| && Shown(h[i]).Some?
    ensures VersionOf(Shown(h[i]).value) == i + 1
    ensures i > 0 ==> Shown(h[i - 1]).Some? && VersionOf(Shown(h[i - 1]).value) == i
  {
    if i > 0 {
      assert LinkedAt(h, i);
      VersionsCountEntries(h, now, i - 1);
    }
  }

  /** The stored version of a row is one more than the number of update and
      delete entries its history holds; its identity is that of the first entry. */
  lemma VersionIsHistoryLength(db: DB, k: Kind, id: Id)
    requires HistoriesOk(db) && Current(db, k, id).Some?
    ensures |Of(db.audit, k, id)| == VersionOf(Current(db, k, id).value)
  {
    var h := Of(db.audit, k, id);
    assert HistoryOk(h, Current(db, k, id));
    VersionsCountEntries(h, Current(db, k, id), |h| - 1);
  }

  /** Two different entries of one history never replaced the same version: at
      most one write per version succeeds. */
  lemma OneWritePerVersion(db: DB, k: Kind, id: Id, i: nat, j: nat)
    requires HistoriesOk(db) && 0 < i < j < |Of(db.audit, k, id)|
    ensures var h := Of(db.audit, k, id);
      && h[i].before.Some? && h[i].before.value.Full? && h[j].before.Some? && h[j].before.value.Full?
      && VersionOf(h[i].before.value.row) < VersionOf(h[j].before.value.row)
  {
    var h := Of(db.audit, k, id);
    assert HistoryOk(h, Current(db, k, id));
    assert LinkedAt(h, i) && LinkedAt(h, j);
    VersionsCountEntries(h, Current(db, k, id), i - 1);
    VersionsCountEntries(h, Current(db, k, id), j - 1);
  }

  /** A delete entry, soft or hard, is the last word on its row. */
  lemma DeleteIsLast(db: DB, k: Kind, id: Id, i: nat)
    requires HistoriesOk(db) && i < |Of(db.audit, k, id)| && Of(db.audit, k, id)[i].action == Delete
    ensures i == |Of(db.audit, k, id)| - 1
    ensures Current(db, k, id).Some? ==> SoftDeleted(Current(db, k, id).value)
  {
    var h := Of(db.audit, k, id);
    assert HistoryOk(h, Current(db, k, id));
    assert i > 0 && LinkedAt(h, i);
    if i < |h| - 1 {
      OnlyLastDeletes(h, Current(db, k, id), i);
    }
  }

  lemma OnlyLastDeletes(h: seq<AuditRow>, now: Option<Row>, i: nat)
    requires HistoryOk(h, now) && 0 < i < |h| - 1
    ensures h[i].action != Delete
  {
    assert LinkedAt(h, i) && LinkedAt(h, i + 1);
  }

  /** Every stored invitation has exactly one audit row, its create. */
  lemma InvitationAuditedOnce(db: DB, id: Id)
    requires HistoriesOk(db) && id in db.invitations
    ensures |Of(db.audit, KInvitation, id)| == 1
    ensures Of(db.audit, KInvitation, id)[0].action == Create
    ensures Of(db.audit, KInvitation, id)[0].after == Some(Full(InvitationRow(db.invitations[id])))
  {
    VersionIsHistoryLength(db, KInvitation, id);
  }

  /** The exception rows recorded for one session. */
  function ExceptionsOfSession(ex: seq<ExceptionRow>, id: Id): seq<ExceptionRow> {
    if ex == [] then []
    else ExceptionsOfSession(ex[..|ex| - 1], id) + if ex[|ex| - 1].sessionId == id then [ex[|ex| - 1]] else []
  }

  lemma {:induction false} ExceptionsFollowHistory(audit: seq<AuditRow>, id: Id)
    ensures ExceptionsOfSession(ExceptionsFrom(audit), id) == ExceptionsFrom(Of(audit, KSession, id))
  {
    if audit != [] {
      var rest, a := audit[..|audit| - 1], audit[|audit| - 1];
      ExceptionsFollowHistory(rest, id);
      assert audit == rest + [a];
      ExceptionsFromSnoc(rest, a);
      ExceptionsFromSnoc(Of(rest, KSession, id), a);
      var more := ExceptionsFrom([a]);
      assert [a][..0] == [];
      if more != [] {
        var before := ExceptionsFrom(rest);
        assert (before + more)[..|before + more| - 1] == before;
      } else {
        assert ExceptionsFrom(rest) + more == ExceptionsFrom(rest);
      }
    }
  }

  ghost predicate ExceptionAt(e: ExceptionRow, id: Id, a: AuditRow, before: Session) {
    && before.seriesId == Some(e.seriesId) && e.sessionId == id
    && e.status == (if a.action == Delete then Cancelled else Modified)
    && e.originalStartsAt == before.startsAt
  }

  lemma {:induction false} ExceptionsOfHistory(h: seq<AuditRow>, now: Option<Row>, id: Id, series: Option<Id>)
    requires HistoryOk(h, now) && h != [] && (forall i | 0 <= i < |h| :: h[i].id == id && h[i].kind == KSession)
    requires Shown(h[0]).value.SessionRow? && Shown(h[0]).value.session.seriesId == series
    ensures now.Some? ==> now.value.SessionRow? && now.value.session.seriesId == series
    ensures series.None? ==> ExceptionsFrom(h) == []
    ensures series.Some? ==> |ExceptionsFrom(h)| == |h| - 1
    ensures series.Some? ==> forall j | 0 <= j < |h| - 1 ::
      && Shown(h[j]).Some? && Shown(h[j]).value.SessionRow?
      && ExceptionAt(ExceptionsFrom(h)[j], id, h[j + 1], Shown(h[j]).value.session)
  {
    var rest, a := h[..|h| - 1], h[|h| - 1];
    if rest != [] {
      assert forall i | 0 < i < |rest| :: LinkedAt(h, i) ==> LinkedAt(rest, i);
      ExceptionsOfHistory(rest, Shown(rest[|rest| - 1]), id, series);
      assert LinkedAt(h, |h| - 1);
    } else {
      assert ExceptionsFrom(rest) == [];
    }
  }

  lemma HistoryOfRow(db: DB, k: Kind, id: Id)
    requires HistoriesOk(db) && Current(db, k, id).Some?
    ensures Of(db.audit, k, id) != [] && HistoryOk(Of(db.audit, k, id), Current(db, k, id))
    ensures db.exceptions == ExceptionsFrom(db.audit)
  {
    hide Of;
  }

  /** A session of a series has exactly one exception row per update or delete
      ever made to it, in order: each names the start it deviated from, and
      only the last can say "cancelled", exactly when the session is deleted. */
  lemma SeriesExceptionsAreComplete(db: DB, id: Id)
    requires HistoriesOk(db) && id in db.sessions
    ensures var s, ex, h := db.sessions[id], ExceptionsOfSession(db.exceptions, id), Of(db.audit, KSession, id);
      && (s.seriesId.None? ==> ex == [])
      && (s.seriesId.Some? ==>
            && |ex| == s.version - 1 == |h| - 1
            && (forall j | 0 <= j < |ex| ::
                  && Shown(h[j]).Some? && Shown(h[j]).value.SessionRow?
                  && ExceptionAt(ex[j], id, h[j + 1], Shown(h[j]).value.session))
            && (forall j | 0 <= j < |ex| :: ex[j].status == Cancelled <==> j == |ex| - 1 && s.deleted))
  {
    hide Of, ExceptionsOfSession, ExceptionsFrom, HistoriesOk, HistoryOk;
    var h := Of(db.audit, KSession, id);
    var now := Current(db, KSession, id);
    HistoryOfRow(db, KSession, id);
    ExceptionsFollowHistory(db.audit, id);
    FirstEntryIsSession(h, now);
    var ex := ExceptionsFrom(h);
    var series := Shown(h[0]).value.session.seriesId;
    ExceptionsOfHistory(h, now, id, series);
    VersionIsHistoryLength(db, KSession, id);
    if series.Some? {
      forall j | 0 <= j < |ex| ensures ex[j].status == Cancelled <==> j == |ex| - 1 && db.sessions[id].deleted {
        assert ExceptionAt(ex[j], id, h[j + 1], Shown(h[j]).value.session);
        DeletesExactlyAtEnd(h, now, j + 1);
      }
    }
  }

  lemma DeletesExactlyAtEnd(h: seq<AuditRow>, now: Option<Row>, i: nat)
    requires HistoryOk(h, now) && 0 < i < |h| && now.Some?
    ensures h[i].action == Delete <==> i == |h| - 1 && SoftDeleted(now.value)
  {
    assert LinkedAt(h, i);
    if i < |h| - 1 {
      OnlyLastDeletes(h, now, i);
    }
  }

  lemma {:induction false} FirstEntryIsSession(h: seq<AuditRow>, now: Option<Row>)
    requires HistoryOk(h, now) && now.Some? && now.value.SessionRow? && h != []
    ensures Shown(h[0]).Some? && Shown(h[0]).value.SessionRow?
  {
    if |h| > 1 {
      var rest := h[..|h| - 1];
      assert LinkedAt(h, |h| - 1);
      assert forall i | 0 < i < |rest| :: LinkedAt(h, i) ==> LinkedAt(rest, i);
      FirstEntryIsSession(rest, Shown(rest[|rest| - 1]));
    }
  }
}

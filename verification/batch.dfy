/** One bulk invite that nothing interrupts: its item loop as a fold over single
    invites, and what that fold amounts to. */
module Batch {
  import opened Domain
  import opened Tables
  import opened Roles
  import opened InvitationTx
  import opened BulkProtocol

  datatype Answer = Answer(items: seq<ItemResult>, replayed: bool)

  /** The first `n` items, each its own transaction at its own time; an outcome
      other than created, conflict or forbidden aborts the loop. */
  ghost function ProcessItems(
    db: DB, actor: Id, event: Id, items: seq<Item>, ids: seq<Id>, clock: nat -> Time, n: nat): (DB, Result<seq<ItemResult>>)
    requires n <= |items| && n <= |ids|
  {
    if n == 0 then (db, Ok([]))
    else
      var (d, rs) := ProcessItems(db, actor, event, items, ids, clock, n - 1);
      if rs.Err? then (d, rs)
      else
        var item := items[n - 1];
        var (d', r) := Invite(d, actor, event, item.email, item.role, ids[n - 1], clock(n - 1));
        var o := Outcome(item.email, r);
        if o.None? then (d', Err(r.error)) else (d', Ok(rs.value + [o.value]))
  }

  /** The whole call: replay or refuse a known key, otherwise process and record. */
  ghost function BulkCall(
    db: DB, actor: Id, event: Id, token: Token, items: seq<Item>, ids: seq<Id>, clock: nat -> Time): (DB, Result<Answer>)
    requires |items| <= |ids|
  {
    var k := (actor, token.key);
    if k in db.keys then
      (db, if db.keys[k].hash == token.hash then Ok(Answer(db.keys[k].items, true)) else Err(ErrConflict))
    else
      var (d, rs) := ProcessItems(db, actor, event, items, ids, clock, |items|);
      if rs.Err? then (d, Err(rs.error))
      else
        var (d', r) := RecordKey(d, actor, token.key, token.hash, rs.value);
        (d', if r.Err? then Err(r.error) else Ok(Answer(rs.value, false)))
  }

  // ---------------------------------------------------------------------
  // Closed form
  // ---------------------------------------------------------------------

  ghost predicate Permitted(db: DB, actor: Id, event: Id, item: Item) {
    CanGrant(db.members, event, actor, item.role)
  }

  /** An earlier permitted item of the batch asks for the same email. */
  ghost predicate Repeats(db: DB, actor: Id, event: Id, items: seq<Item>, i: nat)
    requires i < |items|
  {
    exists j: nat :: j < i && items[j].email == items[i].email && Permitted(db, actor, event, items[j])
  }

  ghost predicate Creates(db: DB, actor: Id, event: Id, items: seq<Item>, i: nat)
    requires i < |items|
  {
    && Permitted(db, actor, event, items[i])
    && !Invited(db.invitations, event, items[i].email)
    && !Repeats(db, actor, event, items, i)
  }

  /** The result of item `i`, read off the store before the call. */
  ghost function ItemOutcome(db: DB, actor: Id, event: Id, items: seq<Item>, ids: seq<Id>, i: nat): ItemResult
    requires i < |items| && i < |ids|
  {
    if !Permitted(db, actor, event, items[i]) then Forbidden(items[i].email)
    else if Creates(db, actor, event, items, i) then Created(items[i].email, ids[i])
    else Conflict(items[i].email)
  }

  ghost function RowOf(db: DB, event: Id, item: Item, now: Time): Invitation {
    Invitation(event, UserByEmail(db.users, item.email), item.email, item.role, now)
  }

  ghost function AuditOf(actor: Id, id: Id, row: Invitation): AuditRow {
    AuditRow(actor, KInvitation, id, Action.Create, None, Some(Full(InvitationRow(row))))
  }

  /** One audit row per created item, in item order. */
  ghost function AuditTrail(
    db: DB, actor: Id, event: Id, items: seq<Item>, ids: seq<Id>, clock: nat -> Time, n: nat): seq<AuditRow>
    requires n <= |items| && n <= |ids|
  {
    if n == 0 then []
    else
      AuditTrail(db, actor, event, items, ids, clock, n - 1)
      + if Creates(db, actor, event, items, n - 1)
        then [AuditOf(actor, ids[n - 1], RowOf(db, event, items[n - 1], clock(n - 1)))] else []
  }

  /** The invitations after `n` items: what was there and one row per created item. */
  ghost predicate TableAfter(
    db: DB, after: map<Id, Invitation>, actor: Id, event: Id, items: seq<Item>, ids: seq<Id>, clock: nat -> Time, n: nat)
    requires n <= |items| && n <= |ids|
  {
    && (forall k | k in db.invitations :: k in after && after[k] == db.invitations[k])
    && (forall i: nat | i < n && Creates(db, actor, event, items, i) ::
          ids[i] in after && after[ids[i]] == RowOf(db, event, items[i], clock(i)))
    && (forall k | k in after && k !in db.invitations ::
          exists i: nat :: i < n && k == ids[i] && Creates(db, actor, event, items, i))
    && (forall i: nat | i < n && Permitted(db, actor, event, items[i]) :: Invited(after, event, items[i].email))
  }

  lemma InvitedIff(
    db: DB, after: map<Id, Invitation>, actor: Id, event: Id, items: seq<Item>, ids: seq<Id>, clock: nat -> Time, n: nat)
    requires n < |items| && n < |ids| && TableAfter(db, after, actor, event, items, ids, clock, n)
    ensures Invited(after, event, items[n].email) <==>
            Invited(db.invitations, event, items[n].email) || Repeats(db, actor, event, items, n)
  {
    hide Permitted;
    var email := items[n].email;
    if Invited(after, event, email) {
      var k :| k in after && after[k].eventId == event && after[k].email == email;
      if k !in db.invitations {
        var i: nat :| i < n && k == ids[i] && Creates(db, actor, event, items, i);
        assert items[i].email == email;
      }
    }
    if Invited(db.invitations, event, email) {
      var k :| k in db.invitations && db.invitations[k].eventId == event && db.invitations[k].email == email;
      assert k in after;
    }
  }

  lemma TableGrows(
    db: DB, after: map<Id, Invitation>, actor: Id, event: Id, items: seq<Item>, ids: seq<Id>, clock: nat -> Time, n: nat)
    requires n < |items| && n < |ids| && FreshIds(db, ids) && IssuedOk(db)
    requires TableAfter(db, after, actor, event, items, ids, clock, n) && Creates(db, actor, event, items, n)
    ensures TableAfter(db, after[ids[n] := RowOf(db, event, items[n], clock(n))], actor, event, items, ids, clock, n + 1)
  {
    hide Permitted, Creates, RowOf, Invited;
    assert ids[n] !in db.invitations;
    var row := RowOf(db, event, items[n], clock(n));
    var after' := after[ids[n] := row];
    OneMoreItem(db, after, actor, event, items, ids, n);
    assert ids[n] !in after;
    forall i: nat | i < n + 1 && Permitted(db, actor, event, items[i]) ensures Invited(after', event, items[i].email) {
      RowIsInvited(db, after', event, items[n], clock(n), ids[n]);
      if i < n {
        InvitedStays(after, ids[n], row, event, items[i].email);
      }
    }
  }

  lemma TableStays(
    db: DB, after: map<Id, Invitation>, actor: Id, event: Id, items: seq<Item>, ids: seq<Id>, clock: nat -> Time, n: nat)
    requires n < |items| && n < |ids|
    requires TableAfter(db, after, actor, event, items, ids, clock, n) && !Creates(db, actor, event, items, n)
    requires Permitted(db, actor, event, items[n]) ==> Invited(after, event, items[n].email)
    ensures TableAfter(db, after, actor, event, items, ids, clock, n + 1)
  {
    hide Permitted, Creates, RowOf, Invited;
    OneMoreItem(db, after, actor, event, items, ids, n);
  }

  lemma OneMoreItem(
    db: DB, after: map<Id, Invitation>, actor: Id, event: Id, items: seq<Item>, ids: seq<Id>, n: nat)
    requires n < |items| && n < |ids|
    requires forall k | k in after && k !in db.invitations ::
      exists i: nat :: i < n && k == ids[i] && Creates(db, actor, event, items, i)
    ensures forall k | k in after && k !in db.invitations ::
      exists i: nat :: i < n + 1 && k == ids[i] && Creates(db, actor, event, items, i)
  {
    hide Creates;
    forall k | k in after && k !in db.invitations
      ensures exists i: nat :: i < n + 1 && k == ids[i] && Creates(db, actor, event, items, i)
    {
      var i: nat :| i < n && k == ids[i] && Creates(db, actor, event, items, i);
      assert i < n + 1;
    }
  }

  lemma RowIsInvited(db: DB, after: map<Id, Invitation>, event: Id, item: Item, now: Time, id: Id)
    requires id in after && after[id] == RowOf(db, event, item, now)
    ensures Invited(after, event, item.email)
  {
  }

  lemma InvitedStays(invitations: map<Id, Invitation>, id: Id, row: Invitation, event: Id, email: string)
    requires id !in invitations && Invited(invitations, event, email)
    ensures Invited(invitations[id := row], event, email)
  {
    var k :| k in invitations && invitations[k].eventId == event && invitations[k].email == email;
    assert k in invitations[id := row];
  }

  /** Everything but invitations, audit log and identifiers is as it was. */
  ghost predicate OnlyInvites(db: DB, d: DB) {
    d == db.(invitations := d.invitations, audit := d.audit, issued := d.issued)
  }

  /** The batch closed form. Item i is forbidden if the grant rule refuses it,
      otherwise a conflict if its email is already invited or an earlier permitted
      item has it, otherwise created; the table grows by exactly the created rows
      and the log by exactly one row for each. */
  lemma {:induction false} BatchClosedForm(
    db: DB, actor: Id, event: Id, items: seq<Item>, ids: seq<Id>, clock: nat -> Time, n: nat)
    requires Inv(db) && n <= |items| && n <= |ids| && FreshIds(db, ids)
    ensures var (d, rs) := ProcessItems(db, actor, event, items, ids, clock, n);
      && rs.Ok? && |rs.value| == n
      && (forall i: nat | i < n :: rs.value[i] == ItemOutcome(db, actor, event, items, ids, i))
      && OnlyInvites(db, d)
      && TableAfter(db, d.invitations, actor, event, items, ids, clock, n)
      && d.audit == db.audit + AuditTrail(db, actor, event, items, ids, clock, n)
  {
    hide Inv, ItemOutcome, TableAfter, Invite, Creates, FreshIds, RowOf;
    if n == 0 {
      NothingInvitedYet(db, actor, event, items, ids, clock);
    } else {
      BatchClosedForm(db, actor, event, items, ids, clock, n - 1);
      var d := ProcessItems(db, actor, event, items, ids, clock, n - 1).0;
      NextItem(db, d, actor, event, items, ids, clock, n - 1);
    }
  }

  lemma NothingInvitedYet(db: DB, actor: Id, event: Id, items: seq<Item>, ids: seq<Id>, clock: nat -> Time)
    ensures TableAfter(db, db.invitations, actor, event, items, ids, clock, 0)
  {
  }

  lemma GrantorHasAccount(db: DB, actor: Id, event: Id, item: Item)
    requires Inv(db) && Permitted(db, actor, event, item)
    ensures actor in db.users
  {
    hide BookingOk, UsersOk, EventsOk, AdminsOk, InvitationsOk, IssuedOk, UniqueMembers;
  }

  lemma NextItem(
    db: DB, d: DB, actor: Id, event: Id, items: seq<Item>, ids: seq<Id>, clock: nat -> Time, n: nat)
    requires Inv(db) && n < |items| && n < |ids| && FreshIds(db, ids) && OnlyInvites(db, d)
    requires TableAfter(db, d.invitations, actor, event, items, ids, clock, n)
    requires d.audit == db.audit + AuditTrail(db, actor, event, items, ids, clock, n)
    ensures var (d', r) := Invite(d, actor, event, items[n].email, items[n].role, ids[n], clock(n));
      && OnlyInvites(db, d')
      && Outcome(items[n].email, r) == Some(ItemOutcome(db, actor, event, items, ids, n))
      && TableAfter(db, d'.invitations, actor, event, items, ids, clock, n + 1)
      && d'.audit == db.audit + AuditTrail(db, actor, event, items, ids, clock, n + 1)
  {
    hide TableAfter, FreshIds, Repeats, Invited, CanGrant, AccessOk, BookingOk, IssuedOk;
    InvitedIff(db, d.invitations, actor, event, items, ids, clock, n);
    if Creates(db, actor, event, items, n) {
      TableGrows(db, d.invitations, actor, event, items, ids, clock, n);
    } else {
      TableStays(db, d.invitations, actor, event, items, ids, clock, n);
    }
    if Permitted(db, actor, event, items[n]) {
      GrantorHasAccount(db, actor, event, items[n]);
    }
  }

  /** The same, item by item and read off the rows before the call: forbidden exactly
      when the actor has no row in the event, or asks for more than an attendee
      without an admin row; created exactly when permitted, not invited before and the
      first permitted item with that address; a conflict otherwise. */
  lemma BatchByRows(
    db: DB, actor: Id, event: Id, items: seq<Item>, ids: seq<Id>, clock: nat -> Time, n: nat, i: nat)
    requires Inv(db) && i < n <= |items| && n <= |ids| && FreshIds(db, ids)
    ensures var rs := ProcessItems(db, actor, event, items, ids, clock, n).1;
      var member := exists m ::
        m in db.members && db.members[m].eventId == event && db.members[m].userId == actor;
      var admin := exists m ::
        m in db.members && db.members[m].eventId == event && db.members[m].userId == actor && db.members[m].role == Admin;
      var invited := exists v ::
        v in db.invitations && db.invitations[v].eventId == event && db.invitations[v].email == items[i].email;
      var repeated := exists j: nat ::
        j < i && items[j].email == items[i].email && member && (items[j].role == Attendee || admin);
      && rs.Ok? && |rs.value| == n
      && rs.value[i] ==
           if !member || (items[i].role != Attendee && !admin) then Forbidden(items[i].email)
           else if invited || repeated then Conflict(items[i].email)
           else Created(items[i].email, ids[i])
  {
    hide ItemOutcome, Inv, FreshIds, ProcessItems, TableAfter;
    BatchClosedForm(db, actor, event, items, ids, clock, n);
    ItemByRows(db, actor, event, items, ids, i);
  }

  lemma ItemByRows(db: DB, actor: Id, event: Id, items: seq<Item>, ids: seq<Id>, i: nat)
    requires i < |items| && i < |ids|
    ensures var member := exists m ::
        m in db.members && db.members[m].eventId == event && db.members[m].userId == actor;
      var admin := exists m ::
        m in db.members && db.members[m].eventId == event && db.members[m].userId == actor && db.members[m].role == Admin;
      var invited := exists v ::
        v in db.invitations && db.invitations[v].eventId == event && db.invitations[v].email == items[i].email;
      var repeated := exists j: nat ::
        j < i && items[j].email == items[i].email && member && (items[j].role == Attendee || admin);
      ItemOutcome(db, actor, event, items, ids, i) ==
        if !member || (items[i].role != Attendee && !admin) then Forbidden(items[i].email)
        else if invited || repeated then Conflict(items[i].email)
        else Created(items[i].email, ids[i])
  {
  }

  // ---------------------------------------------------------------------
  // Counting
  // ---------------------------------------------------------------------

  /** The distinct emails that permitted items ask for and that were not invited before. */
  ghost function NewEmails(db: DB, actor: Id, event: Id, items: seq<Item>, n: nat): set<string>
    requires n <= |items|
  {
    set i: nat | i < n && Permitted(db, actor, event, items[i]) && !Invited(db.invitations, event, items[i].email) ::
      items[i].email
  }

  function CreatedCount(rs: seq<ItemResult>): nat {
    if rs == [] then 0 else CreatedCount(rs[..|rs| - 1]) + if rs[|rs| - 1].Created? then 1 else 0
  }

  /** As many items are created as there are distinct new emails among the
      permitted ones, and that is how many audit rows are written. */
  lemma {:induction false} CreatedIsDistinctNewEmails(
    db: DB, actor: Id, event: Id, items: seq<Item>, ids: seq<Id>, clock: nat -> Time, n: nat)
    requires Inv(db) && n <= |items| && n <= |ids| && FreshIds(db, ids)
    ensures var (d, rs) := ProcessItems(db, actor, event, items, ids, clock, n);
      && rs.Ok? && CreatedCount(rs.value) == |NewEmails(db, actor, event, items, n)|
      && |d.audit| == |db.audit| + |NewEmails(db, actor, event, items, n)|
  {
    BatchClosedForm(db, actor, event, items, ids, clock, n);
    var rs := ProcessItems(db, actor, event, items, ids, clock, n).1.value;
    CountIs(db, actor, event, items, ids, clock, n, rs);
  }

  lemma {:induction false} CountIs(
    db: DB, actor: Id, event: Id, items: seq<Item>, ids: seq<Id>, clock: nat -> Time, n: nat, rs: seq<ItemResult>)
    requires n <= |items| && n <= |ids| && |rs| == n
    requires forall i: nat | i < n :: rs[i] == ItemOutcome(db, actor, event, items, ids, i)
    ensures CreatedCount(rs) == |NewEmails(db, actor, event, items, n)|
    ensures |AuditTrail(db, actor, event, items, ids, clock, n)| == |NewEmails(db, actor, event, items, n)|
  {
    hide Permitted, RowOf, AuditOf;
    if n > 0 {
      CountIs(db, actor, event, items, ids, clock, n - 1, rs[..n - 1]);
      NewEmailIffCreates(db, actor, event, items, n - 1);
    }
  }

  lemma NewEmailIffCreates(db: DB, actor: Id, event: Id, items: seq<Item>, n: nat)
    requires n < |items|
    ensures Creates(db, actor, event, items, n) ==>
      && items[n].email !in NewEmails(db, actor, event, items, n)
      && NewEmails(db, actor, event, items, n + 1) == NewEmails(db, actor, event, items, n) + {items[n].email}
    ensures !Creates(db, actor, event, items, n) ==>
      NewEmails(db, actor, event, items, n + 1) == NewEmails(db, actor, event, items, n)
  {
    hide Permitted, Invited;
    if !Creates(db, actor, event, items, n) && Repeats(db, actor, event, items, n) {
      var j: nat :| j < n && items[j].email == items[n].email && Permitted(db, actor, event, items[j]);
    }
  }
}

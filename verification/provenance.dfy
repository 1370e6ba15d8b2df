/** Where memberships come from: a chain of grants back to the event's creator. */
module Provenance {
  import opened Domain
  import opened Tables
  import opened Roles
  import opened MemberTx
  import opened StoreMachine
  import opened Evolution
  import Effects

  ghost predicate IsAdmin(members: map<Id, Member>, event: Id, user: Id) {
    exists m :: m in members && members[m].eventId == event && members[m].userId == user && members[m].role == Admin
  }

  /** Step `t` of the run made `user` a member of `event`: either by creating the
      event, or by a grant from someone who was a member at that very moment (an
      admin, if the role is above attendee) and is linked by an earlier step. */
  ghost predicate Linked(run: seq<DB>, txs: seq<Tx>, event: Id, user: Id, t: nat)
    requires IsRun(run, txs)
    decreases t
  {
    && t < |txs|
    && Apply(run[t], txs[t]).1.Ok?
    && match txs[t]
       case NewEvent(actor, e, _, _, _, _, _) => e == event && actor == user
       case NewMember(actor, e, email, role, _, _) =>
         && e == event && UserByEmail(run[t].users, email) == Some(user)
         && IsMember(run[t].members, event, actor)
         && (role != Attendee ==> IsAdmin(run[t].members, event, actor))
         && exists t' | 0 <= t' < t :: Linked(run, txs, event, actor, t')
       case _ => false
  }

  /** Only creating an event or adding a member ever inserts a membership. */
  lemma WhoInsertsMembers(db: DB, tx: Tx, m: Id)
    requires m in Apply(db, tx).0.members && m !in db.members
    ensures Apply(db, tx).1.Ok?
    ensures tx.NewEvent? || tx.NewMember?
    ensures tx.NewEvent? ==> Apply(db, tx).0.members[m].eventId == tx.event && Apply(db, tx).0.members[m].userId == tx.actor
    ensures tx.NewMember? ==>
      && Apply(db, tx).0.members[m].eventId == tx.event
      && UserByEmail(db.users, tx.email) == Some(Apply(db, tx).0.members[m].userId)
      && CanGrant(db.members, tx.event, tx.actor, tx.role)
  {
    hide SlotTaken, RoomTx.NameTaken, RoomReferenced, Invited, HasEmail, IsMember, CanGrant, UserByEmail, Diagnose;
  }

  /** Everyone who is, or at any earlier point of the run was, a member of an
      event is linked to its creator by a finite chain of grants. */
  lemma {:induction false} EveryMemberIsLinked(run: seq<DB>, txs: seq<Tx>, k: nat, event: Id, user: Id)
    requires IsRun(run, txs) && run[0] == EMPTY && k < |run|
    requires IsMember(run[k].members, event, user)
    ensures exists t | 0 <= t < k :: Linked(run, txs, event, user, t)
  {
    hide Apply, Inv, Enabled, CanGrant;
    var m :| m in run[k].members && run[k].members[m].eventId == event && run[k].members[m].userId == user;
    assert k > 0;
    EmptyStoreIsValid();
    var db, tx := run[k - 1], txs[k - 1];
    if m in db.members {
      RunEvolves(run, txs, k - 1, k);
      assert MemberGrew(db.members[m], run[k].members[m]);
      EveryMemberIsLinked(run, txs, k - 1, event, user);
    } else {
      WhoInsertsMembers(db, tx, m);
      if tx.NewMember? {
        GranterWasMember(db, event, tx.actor, tx.role);
        EveryMemberIsLinked(run, txs, k - 1, event, tx.actor);
      }
      assert Linked(run, txs, event, user, k - 1);
    }
  }

  lemma GranterWasMember(db: DB, event: Id, actor: Id, role: Role)
    requires CanGrant(db.members, event, actor, role)
    ensures IsMember(db.members, event, actor)
    ensures role != Attendee ==> IsAdmin(db.members, event, actor)
  {
  }

  /** Following the links back always ends at the step that created the event. */
  lemma {:induction false} ChainStartsAtCreator(run: seq<DB>, txs: seq<Tx>, event: Id, user: Id, t: nat)
    requires IsRun(run, txs) && Linked(run, txs, event, user, t)
    ensures exists c | 0 <= c <= t :: txs[c].NewEvent? && txs[c].event == event && Linked(run, txs, event, txs[c].actor, c)
    decreases t
  {
    if txs[t].NewMember? {
      var t' :| 0 <= t' < t && Linked(run, txs, event, txs[t].actor, t');
      ChainStartsAtCreator(run, txs, event, txs[t].actor, t');
    }
  }

  // ---------------------------------------------------------------------
  // Where every membership row comes from, role included
  // ---------------------------------------------------------------------

  /** The transaction wrote exactly this row under `m`: the creator's admin row, a
      new member's row at the role asked for by somebody entitled to ask, or the old
      row at a newly assigned role. */
  ghost predicate Gave(db: DB, tx: Tx, m: Id, row: Member) {
    match tx
    case NewEvent(actor, e, member, _, _, _, now) => m == member && row == Member(e, actor, Admin, 1, now)
    case NewMember(actor, e, email, role, id, now) =>
      && m == id && row == Member(e, row.userId, role, 1, now)
      && row.userId in db.users && db.users[row.userId].email == email
      && (exists g :: g in db.members && db.members[g].eventId == e && db.members[g].userId == actor)
      && (role != Attendee ==> exists g ::
            g in db.members && db.members[g].eventId == e && db.members[g].userId == actor && db.members[g].role == Admin)
    case PutRole(_, e, member, version, Assign(role)) =>
      && m == member && m in db.members && db.members[m].eventId == e && db.members[m].version == version
      && row == Member(e, db.members[m].userId, role, version + 1, db.members[m].createdAt)
    case _ => false
  }

  lemma MostTxWriteNoMember(db: DB, tx: Tx)
    requires !tx.PutRole? && !tx.NewMember? && !tx.NewEvent?
    ensures Apply(db, tx).0.members == db.members
  {
    hide SlotTaken, RoomTx.NameTaken, RoomReferenced, Invited, HasEmail, KnownSubject, IsMember, CanGrant, UserByEmail,
      UserBySubject, SessionTx.NewSession, SessionTx.SessionAfter, RoomTx.RoomAfter, EventTx.EventAfter;
  }

  lemma NewMemberGave(db: DB, tx: Tx)
    requires tx.NewMember? && Inv(db) && Apply(db, tx).1.Ok?
    ensures tx.id in Apply(db, tx).0.members && Gave(db, tx, tx.id, Apply(db, tx).0.members[tx.id])
    ensures Apply(db, tx).0.members == db.members[tx.id := Apply(db, tx).0.members[tx.id]]
  {
    hide Inv, CreateMember;
    Effects.AddMemberStores(db, tx.actor, tx.event, tx.email, tx.role, tx.id, tx.now);
    Effects.AddMemberAnswers(db, tx.actor, tx.event, tx.email, tx.role, tx.id, tx.now);
  }

  lemma RoleChangeGave(db: DB, tx: Tx)
    requires tx.PutRole? && Apply(db, tx).1.Ok?
    ensures Effects.RoleStored(db.members, Apply(db, tx).0.members, tx.member, tx.memberChange)
    ensures tx.memberChange.Assign? ==> Gave(db, tx, tx.member, Apply(db, tx).0.members[tx.member])
  {
    hide CommitRole, Diagnose, IsAdminRow;
    Effects.ChangeRoleStores(db, tx.actor, tx.event, tx.member, tx.version, tx.memberChange);
  }

  lemma NewEventGave(db: DB, tx: Tx)
    requires tx.NewEvent? && Apply(db, tx).1.Ok?
    ensures tx.member in Apply(db, tx).0.members && Gave(db, tx, tx.member, Apply(db, tx).0.members[tx.member])
    ensures Apply(db, tx).0.members == db.members[tx.member := Apply(db, tx).0.members[tx.member]]
  {
  }

  /** A row that is new, or not what it was, is one that the transaction gave. */
  lemma ChangedRowWasGiven(db: DB, tx: Tx, m: Id)
    requires Inv(db) && m in Apply(db, tx).0.members
    requires m !in db.members || db.members[m] != Apply(db, tx).0.members[m]
    ensures Apply(db, tx).1.Ok? && Gave(db, tx, m, Apply(db, tx).0.members[m])
  {
    hide Apply, Inv, Gave;
    FailureChangesNothing(db, tx);
    match tx {
      case NewEvent(_, _, _, _, _, _, _) => NewEventGave(db, tx);
      case NewMember(_, _, _, _, _, _) => NewMemberGave(db, tx);
      case PutRole(_, _, _, _, _) => RoleChangeGave(db, tx);
      case _ => MostTxWriteNoMember(db, tx);
    }
  }

  /** Step `t` gave membership `m` the row it has at moment `k`, and it has had it since. */
  ghost predicate GivenAt(run: seq<DB>, txs: seq<Tx>, t: nat, k: nat, m: Id)
    requires IsRun(run, txs) && t < k < |run| && m in run[k].members
  {
    && Apply(run[t], txs[t]).1.Ok? && Gave(run[t], txs[t], m, run[k].members[m])
    && forall j | t < j <= k :: m in run[j].members && run[j].members[m] == run[k].members[m]
  }

  /** Every membership row of any moment of a run, its role included, was given by one
      earlier transaction that asked for exactly that role. */
  lemma {:induction false} EveryRowWasGiven(run: seq<DB>, txs: seq<Tx>, k: nat, m: Id)
    requires IsRun(run, txs) && run[0] == EMPTY && k < |run| && m in run[k].members
    ensures exists t | 0 <= t < k :: GivenAt(run, txs, t, k, m)
  {
    hide Apply, Inv, Enabled, Gave;
    EmptyStoreIsValid();
    assert k > 0;
    RunKeepsInv(run, txs, k - 1);
    var row := run[k].members[m];
    if m in run[k - 1].members && run[k - 1].members[m] == row {
      EveryRowWasGiven(run, txs, k - 1, m);
      var t :| 0 <= t < k - 1 && GivenAt(run, txs, t, k - 1, m);
      assert GivenAt(run, txs, t, k, m);
    } else {
      ChangedRowWasGiven(run[k - 1], txs[k - 1], m);
      assert GivenAt(run, txs, k - 1, k, m);
    }
  }

  /** In particular nobody is an admin by accident: an admin row comes from creating
      the event, from a grant that asked for an admin, made by somebody who was one at
      that moment, or from a role change that assigned Admin. */
  lemma EveryAdminWasMade(run: seq<DB>, txs: seq<Tx>, k: nat, m: Id)
    requires IsRun(run, txs) && run[0] == EMPTY && k < |run| && m in run[k].members && run[k].members[m].role == Admin
    ensures var row := run[k].members[m];
      exists t | 0 <= t < k ::
        && Apply(run[t], txs[t]).1.Ok?
        && (|| (txs[t].NewEvent? && txs[t].event == row.eventId && txs[t].member == m && txs[t].actor == row.userId)
            || (txs[t].NewMember? && txs[t].event == row.eventId && txs[t].id == m && txs[t].role == Admin
                && exists g ::
                  && g in run[t].members && run[t].members[g].eventId == row.eventId
                  && run[t].members[g].userId == txs[t].actor && run[t].members[g].role == Admin)
            || (txs[t].PutRole? && txs[t].event == row.eventId && txs[t].member == m
                && txs[t].memberChange == Assign(Admin)))
  {
    hide Apply, Inv, Enabled;
    EveryRowWasGiven(run, txs, k, m);
    var t :| 0 <= t < k && GivenAt(run, txs, t, k, m);
    assert Gave(run[t], txs[t], m, run[k].members[m]);
  }
}

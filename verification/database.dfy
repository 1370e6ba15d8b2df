/** The connection pool the repositories share: the tables as mutable fields,
    snapshots for transactions, and the moments at which other connections run. */
module Database {
  import opened Domain
  import opened Tables
  import opened Evolution

  class Pool {
    var users: map<Id, User>
    var events: map<Id, Event>
    var members: map<Id, Member>
    var rooms: map<Id, Room>
    var sessions: map<Id, Session>
    var invitations: map<Id, Invitation>
    var keys: map<(Id, string), KeyRow>
    var series: map<Id, Series>
    var exceptions: seq<ExceptionRow>
    var audit: seq<AuditRow>
    var issued: set<Id>

    /** No other connection is open. */
    ghost const alone: bool

    constructor (ghost alone: bool)
      ensures View() == EMPTY && this.alone == alone
    {
      users, events, members, rooms, sessions := map[], map[], map[], map[], map[];
      invitations, keys, series, exceptions, audit, issued := map[], map[], map[], [], [], {};
      this.alone := alone;
    }

    function View(): DB
      reads this
    {
      DB(users, events, members, rooms, sessions, invitations, keys, series, exceptions, audit, issued)
    }

    /** Open a transaction: remember what a rollback has to restore. */
    method Begin() returns (snapshot: DB)
      ensures snapshot == View()
    {
      snapshot := View();
    }

    method Rollback(snapshot: DB)
      modifies this
      ensures View() == snapshot
    {
      users, events, members := snapshot.users, snapshot.events, snapshot.members;
      rooms, sessions, invitations := snapshot.rooms, snapshot.sessions, snapshot.invitations;
      keys, series, exceptions := snapshot.keys, snapshot.series, snapshot.exceptions;
      audit, issued := snapshot.audit, snapshot.issued;
    }

    /** Append an audit row; its actor is a foreign key. */
    method Audit(row: AuditRow) returns (ok: bool)
      modifies this`audit
      ensures ok == (row.actor in users)
      ensures audit == if ok then old(audit) + [row] else old(audit)
    {
      ok := row.actor in users;
      if ok {
        audit := audit + [row];
      }
    }

    /** A moment between two statements of one call at which other connections
        may commit anything the store allows, short of drawing the identifiers
        this call will draw. Callers may rely on this contract only; a pool used
        alone is left as it was. */
    method Others(ghost mine: seq<Id>)
      requires Inv(View()) && FreshIds(View(), mine)
      modifies this
      ensures FreshIds(View(), mine)
      ensures Inv(View()) && Evolves(old(View()), View())
      ensures alone ==> View() == old(View())
    {
      EvolvesReflexive(View());
    }
  }
}

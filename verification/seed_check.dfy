/** The overlap check run on a generated dataset. */
module SeedCheck {
  import opened Domain
  import opened Tables
  import opened OverlapChecker
  import opened SeedPlan
  import opened SeedRows
  import opened SeedGenerator

  predicate NoTwoClash(sessions: seq<Session>) {
    forall i, j | 0 <= i < j < |sessions| :: !Clash(sessions[i], sessions[j])
  }

  lemma ApartInTable(sessions: map<Id, Session>, s: Id, t: Id)
    requires NoDoubleBooking(sessions) && s in sessions && t in sessions && s != t
    requires !sessions[s].deleted && !sessions[t].deleted
    ensures !Clash(sessions[s], sessions[t])
  {
  }

  /** Rows of a table without double bookings pass the check in every order. */
  lemma StoredSessionsAreClear(rows: seq<(Id, Session)>, sessions: seq<Session>)
    requires Keyed(rows) && |sessions| == |rows| && forall i | 0 <= i < |rows| :: sessions[i] == rows[i].1
    requires NoDoubleBooking(AsMap(rows)) && forall s | s in AsMap(rows) :: !AsMap(rows)[s].deleted
    requires forall s | s in AsMap(rows) :: AsMap(rows)[s].startsAt < AsMap(rows)[s].endsAt
    ensures NonEmpty(sessions) && NoTwoClash(sessions)
  {
    hide AsMap, Clash, NoDoubleBooking;
    forall i, j | 0 <= i < j < |sessions| ensures !Clash(sessions[i], sessions[j]) {
      ApartInTable(AsMap(rows), rows[i].0, rows[j].0);
    }
    forall i | 0 <= i < |sessions| ensures sessions[i].startsAt < sessions[i].endsAt {
      assert rows[i].0 in AsMap(rows);
    }
  }

  /** The check accepts every generated dataset. */
  method CheckGenerated(g: Generator, cfg: Config, almanac: Almanac) returns (ok: bool)
    requires Promised(g, cfg, almanac)
    ensures ok
  {
    hide Inv, AsMap, Keyed, InvitationCount, Complete, MostSessions, Ordinaries, UserTotal;
    ok := CheckDataset(g);
  }

  /** The check accepts every dataset that satisfies the store's constraints. */
  method CheckDataset(g: Generator) returns (ok: bool)
    requires Inv(g.View()) && Keyed(g.sessions) && forall s | s in AsMap(g.sessions) :: !AsMap(g.sessions)[s].deleted
    ensures ok
  {
    hide AccessOk, IssuedOk, RoomsOk, SeriesOk, AsMap, Keyed, Clash;
    var sessions := [];
    for i := 0 to |g.sessions|
      invariant |sessions| == i && forall j | 0 <= j < i :: sessions[j] == g.sessions[j].1
    {
      sessions := sessions + [g.sessions[i].1];
    }
    StoredSessionsAreClear(g.sessions, sessions);
    ok := NoSpeakerOrRoomOverlap(sessions);
  }
}

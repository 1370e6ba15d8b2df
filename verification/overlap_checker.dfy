/** The seed's double-booking check: group the sessions by key, sort each group by
    start, and compare neighbours only. */
module OverlapChecker {
  import opened Domain
  import opened Tables

  datatype Dimension = ByRoom | BySpeaker

  function KeyOf(s: Session, dim: Dimension): Id {
    if dim == ByRoom then s.roomId else s.speakerId
  }

  predicate Meet(s: Session, t: Session) {
    Overlaps(s.startsAt, s.endsAt, t.startsAt, t.endsAt)
  }

  predicate NonEmpty(sessions: seq<Session>) {
    forall i | 0 <= i < |sessions| :: sessions[i].startsAt < sessions[i].endsAt
  }

  /** No two sessions meet. */
  predicate Free(sessions: seq<Session>) {
    forall i, j | 0 <= i < j < |sessions| :: !Meet(sessions[i], sessions[j])
  }

  /** No two sessions with the same key meet. */
  predicate FreeByKey(sessions: seq<Session>, dim: Dimension) {
    forall i, j | 0 <= i < j < |sessions| && KeyOf(sessions[i], dim) == KeyOf(sessions[j], dim) :: !Meet(sessions[i], sessions[j])
  }

  predicate Sorted(sessions: seq<Session>) {
    forall i, j | 0 <= i < j < |sessions| :: sessions[i].startsAt <= sessions[j].startsAt
  }

  predicate NeighboursClear(sessions: seq<Session>) {
    forall i | 0 < i < |sessions| :: sessions[i - 1].endsAt <= sessions[i].startsAt
  }

  /** In a sorted group of non-empty intervals, clear neighbours mean that no pair
      at all meets, and the other way round. */
  lemma NeighboursSuffice(sessions: seq<Session>)
    requires Sorted(sessions) && NonEmpty(sessions)
    ensures NeighboursClear(sessions) <==> Free(sessions)
  {
    if NeighboursClear(sessions) {
      forall i, j | 0 <= i < j < |sessions| ensures !Meet(sessions[i], sessions[j]) {
        EndsBefore(sessions, i, j);
      }
    }
    if Free(sessions) {
      forall i | 0 < i < |sessions| ensures sessions[i - 1].endsAt <= sessions[i].startsAt {
        assert !Meet(sessions[i - 1], sessions[i]);
      }
    }
  }

  lemma {:induction false} EndsBefore(sessions: seq<Session>, i: nat, j: nat)
    requires NeighboursClear(sessions) && NonEmpty(sessions) && i < j < |sessions|
    ensures sessions[i].endsAt <= sessions[j].startsAt
  {
    if i + 1 < j {
      EndsBefore(sessions, i, j - 1);
    }
  }

  // ---------------------------------------------------------------------
  // Sorting a group
  // ---------------------------------------------------------------------

  predicate MeetsNone(sessions: seq<Session>, s: Session) {
    forall i | 0 <= i < |sessions| :: !Meet(sessions[i], s)
  }

  lemma InsertFree(a: seq<Session>, s: Session, b: seq<Session>)
    ensures Free(a + [s] + b) <==> Free(a + b) && MeetsNone(a + b, s)
  {
    var whole, rest := a + [s] + b, a + b;
    forall i | 0 <= i < |rest| ensures rest[i] == whole[if i < |a| then i else i + 1] {
    }
    if Free(whole) {
      forall i, j | 0 <= i < j < |rest| ensures !Meet(rest[i], rest[j]) {
        assert !Meet(whole[if i < |a| then i else i + 1], whole[if j < |a| then j else j + 1]);
      }
      forall i | 0 <= i < |rest| ensures !Meet(rest[i], s) {
        assert whole[|a|] == s;
        assert i >= |a| ==> !Meet(whole[|a|], whole[i + 1]);
        assert i < |a| ==> !Meet(whole[i], whole[|a|]);
      }
    }
    if Free(rest) && MeetsNone(rest, s) {
      forall i, j | 0 <= i < j < |whole| ensures !Meet(whole[i], whole[j]) {
        if i == |a| {
          assert whole[j] == rest[j - 1];
        } else if j == |a| {
          assert whole[i] == rest[i];
        } else {
          assert whole[i] == rest[if i < |a| then i else i - 1] && whole[j] == rest[if j < |a| then j else j - 1];
        }
      }
    }
  }

  lemma SameElementsMeetNone(a: seq<Session>, b: seq<Session>, s: Session)
    requires multiset(a) == multiset(b) && MeetsNone(a, s)
    ensures MeetsNone(b, s)
  {
    forall i | 0 <= i < |b| ensures !Meet(b[i], s) {
      assert b[i] in multiset(b);
      assert b[i] in a;
    }
  }

  lemma InsertSorted(a: seq<Session>, s: Session, b: seq<Session>)
    requires Sorted(a + b)
    requires a != [] ==> a[|a| - 1].startsAt <= s.startsAt
    requires b != [] ==> s.startsAt < b[0].startsAt
    ensures Sorted(a + [s] + b) && multiset(a + [s] + b) == multiset(a + b) + multiset{s}
  {
    var whole, rest := a + [s] + b, a + b;
    forall i, j | 0 <= i < j < |whole| ensures whole[i].startsAt <= whole[j].startsAt {
      if i < |a| <= j {
        assert whole[i] == rest[i] && rest[|a| - 1] == a[|a| - 1];
        if j > |a| {
          assert whole[j] == rest[j - 1];
        }
      } else if i == |a| {
        assert whole[j] == rest[j - 1] && rest[|a|] == b[0];
      } else {
        assert whole[i] == rest[if i < |a| then i else i - 1] && whole[j] == rest[if j < |a| then j else j - 1];
      }
    }
  }

  /** Put one session in its place. */
  method InsertByStart(group: seq<Session>, s: Session) returns (sorted: seq<Session>)
    requires Sorted(group)
    ensures Sorted(sorted) && multiset(sorted) == multiset(group) + multiset{s}
    ensures Free(sorted) <==> Free(group) && MeetsNone(group, s)
  {
    hide Free, MeetsNone, Sorted;
    var p := |group|;
    while p > 0 && s.startsAt < group[p - 1].startsAt
      invariant 0 <= p <= |group|
      invariant p < |group| ==> s.startsAt < group[p].startsAt
    {
      p := p - 1;
    }
    assert group == group[..p] + group[p..];
    InsertFree(group[..p], s, group[p..]);
    InsertSorted(group[..p], s, group[p..]);
    sorted := group[..p] + [s] + group[p..];
  }

  method SortByStart(group: seq<Session>) returns (sorted: seq<Session>)
    ensures Sorted(sorted) && multiset(sorted) == multiset(group)
    ensures Free(sorted) <==> Free(group)
  {
    assert Free([]) && Sorted([]);
    hide Free, MeetsNone, Sorted;
    sorted := [];
    assert group[..0] == [];
    for n := 0 to |group|
      invariant Sorted(sorted) && multiset(sorted) == multiset(group[..n])
      invariant Free(sorted) <==> Free(group[..n])
    {
      OneMore(group[..n], group[n], sorted);
      assert group[..n + 1] == group[..n] + [group[n]];
      sorted := InsertByStart(sorted, group[n]);
    }
    assert group[..|group|] == group;
  }

  lemma OneMore(seen: seq<Session>, s: Session, sorted: seq<Session>)
    requires multiset(sorted) == multiset(seen)
    ensures Free(seen + [s]) <==> Free(seen) && MeetsNone(sorted, s)
  {
    hide Free, MeetsNone;
    assert seen + [s] + [] == seen + [s] && seen + [] == seen;
    InsertFree(seen, s, []);
    if MeetsNone(sorted, s) {
      SameElementsMeetNone(sorted, seen, s);
    }
    if MeetsNone(seen, s) {
      SameElementsMeetNone(seen, sorted, s);
    }
  }

  // ---------------------------------------------------------------------
  // Grouping
  // ---------------------------------------------------------------------

  /** The sessions with key `k`, in their order. */
  function Group(sessions: seq<Session>, dim: Dimension, k: Id): seq<Session> {
    if sessions == [] then []
    else
      var last := sessions[|sessions| - 1];
      Group(sessions[..|sessions| - 1], dim, k) + if KeyOf(last, dim) == k then [last] else []
  }

  lemma {:induction false} GroupHoldsKey(sessions: seq<Session>, dim: Dimension, k: Id)
    ensures forall s :: s in Group(sessions, dim, k) <==> s in sessions && KeyOf(s, dim) == k
  {
    if sessions != [] {
      GroupHoldsKey(sessions[..|sessions| - 1], dim, k);
      assert sessions == sessions[..|sessions| - 1] + [sessions[|sessions| - 1]];
    }
  }

  /** Pairwise freedom per key is freedom of every group. */
  lemma {:induction false} FreeByGroups(sessions: seq<Session>, dim: Dimension)
    ensures FreeByKey(sessions, dim) <==> forall k :: Free(Group(sessions, dim, k))
  {
    if sessions != [] {
      hide Free, FreeByKey, MeetsNone;
      var init, last := sessions[..|sessions| - 1], sessions[|sessions| - 1];
      FreeByGroups(init, dim);
      forall k {
        GroupIsFree(sessions, dim, k);
      }
      LastIsFree(init, last, dim);
      assert sessions == init + [last];
      if FreeByKey(sessions, dim) {
        forall k ensures Free(Group(sessions, dim, k)) {
          assert Free(Group(init, dim, k));
        }
      } else if FreeByKey(init, dim) {
        assert !Free(Group(sessions, dim, KeyOf(last, dim)));
      } else {
        var k :| !Free(Group(init, dim, k));
        assert !Free(Group(sessions, dim, k));
      }
    }
  }

  lemma GroupIsFree(sessions: seq<Session>, dim: Dimension, k: Id)
    requires sessions != []
    ensures var init, last := sessions[..|sessions| - 1], sessions[|sessions| - 1];
      Free(Group(sessions, dim, k)) <==>
        Free(Group(init, dim, k)) && (k == KeyOf(last, dim) ==> MeetsNone(Group(init, dim, k), last))
  {
    hide Free, MeetsNone;
    var init, last := sessions[..|sessions| - 1], sessions[|sessions| - 1];
    OneMore(Group(init, dim, k), last, Group(init, dim, k));
    assert Group(init, dim, k) + [] == Group(init, dim, k);
  }

  lemma LastIsFree(init: seq<Session>, last: Session, dim: Dimension)
    ensures FreeByKey(init + [last], dim) <==> FreeByKey(init, dim) && MeetsNone(Group(init, dim, KeyOf(last, dim)), last)
  {
    var whole := init + [last];
    var g := Group(init, dim, KeyOf(last, dim));
    GroupHoldsKey(init, dim, KeyOf(last, dim));
    if FreeByKey(whole, dim) {
      forall i, j | 0 <= i < j < |init| && KeyOf(init[i], dim) == KeyOf(init[j], dim) ensures !Meet(init[i], init[j]) {
        assert whole[i] == init[i] && whole[j] == init[j];
      }
      forall i | 0 <= i < |g| ensures !Meet(g[i], last) {
        assert g[i] in g;
        var j :| 0 <= j < |init| && init[j] == g[i];
        assert whole[j] == init[j] && whole[|init|] == last;
      }
    }
    if FreeByKey(init, dim) && MeetsNone(g, last) {
      forall i, j | 0 <= i < j < |whole| && KeyOf(whole[i], dim) == KeyOf(whole[j], dim) ensures !Meet(whole[i], whole[j]) {
        if j == |init| {
          assert whole[i] in init && whole[i] in g;
        } else {
          assert whole[i] == init[i] && whole[j] == init[j];
        }
      }
    }
  }

  lemma GroupIsNonEmpty(sessions: seq<Session>, dim: Dimension, k: Id, sorted: seq<Session>)
    requires NonEmpty(sessions) && multiset(sorted) == multiset(Group(sessions, dim, k))
    ensures NonEmpty(sorted)
  {
    GroupHoldsKey(sessions, dim, k);
    forall i | 0 <= i < |sorted| ensures sorted[i].startsAt < sorted[i].endsAt {
      assert sorted[i] in multiset(sorted);
      assert sorted[i] in Group(sessions, dim, k);
    }
  }

  /** Compare neighbours; report the position of the first that starts too early. */
  method FirstOverlap(group: seq<Session>) returns (at: nat)
    ensures at <= |group|
    ensures at == |group| ==> NeighboursClear(group)
    ensures at < |group| ==> 0 < at && group[at].startsAt < group[at - 1].endsAt
  {
    at := 1;
    while at < |group|
      invariant 1 <= at
      invariant forall i | 0 < i < at && i < |group| :: group[i - 1].endsAt <= group[i].startsAt
    {
      var prev, cur := group[at - 1], group[at];
      if cur.startsAt < prev.endsAt {
        return;
      }
      at := at + 1;
    }
    at := |group|;
  }

  method GroupByKey(sessions: seq<Session>, dim: Dimension) returns (byKey: map<Id, seq<Session>>)
    ensures forall k :: Group(sessions, dim, k) == if k in byKey then byKey[k] else []
  {
    byKey := map[];
    for n := 0 to |sessions|
      invariant forall k :: Group(sessions[..n], dim, k) == if k in byKey then byKey[k] else []
    {
      var k := KeyOf(sessions[n], dim);
      GroupGrows(sessions, dim, n);
      byKey := byKey[k := (if k in byKey then byKey[k] else []) + [sessions[n]]];
    }
    assert sessions[..|sessions|] == sessions;
  }

  /** Two sessions of the input that share a key and meet, if the check finds any.
      For non-empty intervals it finds one exactly when one exists. */
  method NoOverlapByKey(sessions: seq<Session>, dim: Dimension) returns (found: Option<(Session, Session)>)
    ensures NonEmpty(sessions) ==> (found.None? <==> FreeByKey(sessions, dim))
    ensures found.Some? ==>
      var (prev, cur) := found.value;
      && prev in sessions && cur in sessions && KeyOf(prev, dim) == KeyOf(cur, dim)
      && prev.startsAt <= cur.startsAt < prev.endsAt
  {
    hide Free, FreeByKey, Sorted, NonEmpty, NeighboursClear, Group;
    var byKey := GroupByKey(sessions, dim);
    FreeByGroups(sessions, dim);
    EmptyIsFree();
    var todo := byKey.Keys;
    while todo != {}
      invariant todo <= byKey.Keys
      invariant NonEmpty(sessions) ==> forall k | k !in todo :: Free(Group(sessions, dim, k))
      decreases todo
    {
      var k :| k in todo;
      var group := SortByStart(byKey[k]);
      var at := FirstOverlap(group);
      if at < |group| {
        Found(sessions, dim, k, group, at);
        return Some((group[at - 1], group[at]));
      }
      if NonEmpty(sessions) {
        GroupIsNonEmpty(sessions, dim, k, group);
        NeighboursSuffice(group);
      }
      todo := todo - {k};
    }
    found := None;
  }

  lemma EmptyIsFree()
    ensures Free([])
  {
  }

  lemma GroupGrows(sessions: seq<Session>, dim: Dimension, n: nat)
    requires n < |sessions|
    ensures forall k ::
      Group(sessions[..n + 1], dim, k) == Group(sessions[..n], dim, k) + if KeyOf(sessions[n], dim) == k then [sessions[n]] else []
  {
    assert sessions[..n + 1][..n] == sessions[..n];
  }

  lemma Found(sessions: seq<Session>, dim: Dimension, k: Id, group: seq<Session>, i: nat)
    requires multiset(group) == multiset(Group(sessions, dim, k)) && Sorted(group)
    requires Free(group) <==> Free(Group(sessions, dim, k))
    requires 0 < i < |group| && group[i].startsAt < group[i - 1].endsAt
    ensures group[i - 1] in sessions && group[i] in sessions
    ensures KeyOf(group[i - 1], dim) == k && KeyOf(group[i], dim) == k
    ensures group[i - 1].startsAt <= group[i].startsAt
    ensures NonEmpty(sessions) ==> !FreeByKey(sessions, dim)
  {
    GroupHoldsKey(sessions, dim, k);
    assert group[i - 1] in multiset(group) && group[i] in multiset(group);
    if NonEmpty(sessions) {
      GroupIsNonEmpty(sessions, dim, k, group);
      assert Meet(group[i - 1], group[i]);
      FreeByGroups(sessions, dim);
    }
  }

  /** The two dimensions the store's exclusion constraints cover. */
  method NoSpeakerOrRoomOverlap(sessions: seq<Session>) returns (ok: bool)
    ensures NonEmpty(sessions) ==>
      (ok <==> forall i, j | 0 <= i < j < |sessions| :: !Clash(sessions[i], sessions[j]))
  {
    var byRoom := NoOverlapByKey(sessions, ByRoom);
    if byRoom.Some? {
      return false;
    }
    var bySpeaker := NoOverlapByKey(sessions, BySpeaker);
    ok := bySpeaker.None?;
  }
}

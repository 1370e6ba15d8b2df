/** Keyset pagination: pages cut from a table that may change between fetches. */
module Keyset {
  import opened Domain

  /** A row's position in a listing: (created_at, id). */
  datatype Key = Key(at: Time, id: Id)

  predicate Less(a: Key, b: Key) {
    a.at < b.at || (a.at == b.at && a.id < b.id)
  }

  predicate After(k: Key, cursor: Option<Key>) {
    cursor.Some? ==> Less(cursor.value, k)
  }

  predicate Ascending(s: seq<Key>) {
    forall i, j | 0 <= i < j < |s| :: Less(s[i], s[j])
  }

  predicate IsMin(k: Key, s: set<Key>) {
    k in s && forall x | x in s :: x == k || Less(k, x)
  }

  lemma {:induction false} MinExists(s: set<Key>)
    requires s != {}
    ensures exists k :: IsMin(k, s)
  {
    var k :| k in s;
    var rest := s - {k};
    if rest == {} {
      assert s == {k};
      assert IsMin(k, s);
    } else {
      MinExists(rest);
      var m :| IsMin(m, rest);
      var least := if Less(k, m) then k else m;
      forall x | x in s ensures x == least || Less(least, x) {
        assert x == k || x in rest;
      }
      assert IsMin(least, s);
    }
  }

  /** ORDER BY created_at, id. */
  ghost function Sort(s: set<Key>): (r: seq<Key>)
    ensures Ascending(r)
    ensures forall k :: k in r <==> k in s
  {
    if s == {} then []
    else
      MinExists(s);
      var m :| IsMin(m, s);
      [m] + Sort(s - {m})
  }

  lemma SortNothing()
    ensures Sort({}) == []
  {
  }

  lemma NonEmptyHasMember(s: seq<Key>)
    ensures s != [] ==> exists k :: k in s
  {
    if s != [] {
      assert s[0] in s;
    }
  }

  /** An ascending sequence is determined by its elements. */
  lemma {:induction false} AscendingIsUnique(a: seq<Key>, b: seq<Key>)
    requires Ascending(a) && Ascending(b) && forall k :: k in a <==> k in b
    ensures a == b
  {
    if a == [] {
      NonEmptyHasMember(b);
    } else {
      assert a[0] in b && b != [];
      assert b[0] in a;
      assert a[0] == b[0];
      forall k ensures k in a[1..] <==> k in b[1..] {
        if k in a[1..] { assert k in a && k != a[0]; assert k in b; }
        if k in b[1..] { assert k in b && k != b[0]; assert k in a; }
      }
      AscendingIsUnique(a[1..], b[1..]);
      assert a == [a[0]] + a[1..] && b == [b[0]] + b[1..];
    }
  }

  function Beyond(s: set<Key>, cursor: Option<Key>): set<Key> {
    set k | k in s && After(k, cursor)
  }

  /** The first rows beyond the cursor, and the next cursor if more remain. */
  ghost function PageOf(s: set<Key>, limit: nat, cursor: Option<Key>): (p: (seq<Key>, Option<Key>))
    requires limit > 0
  {
    var rows := Sort(Beyond(s, cursor));
    if |rows| > limit then (rows[..limit], Some(rows[limit - 1])) else (rows, None)
  }

  lemma SortHead(s: set<Key>, m: Key)
    requires IsMin(m, s)
    ensures Sort(s) == [m] + Sort(s - {m})
  {
    AscendingIsUnique(Sort(s), [m] + Sort(s - {m}));
  }

  /** ORDER BY created_at, id LIMIT n, beyond the cursor: the least remaining key
      is taken until the limit is reached or nothing remains. */
  method Fetch(s: set<Key>, cursor: Option<Key>, n: nat) returns (rows: seq<Key>)
    ensures var all := Sort(Beyond(s, cursor)); rows == if |all| <= n then all else all[..n]
    ensures forall i | 0 <= i < |rows| :: rows[i] in s
  {
    hide *;
    SortNothing();
    var rest := Beyond(s, cursor);
    ghost var all := Sort(rest);
    rows := [];
    assert rows + all == all;
    while rest != {} && |rows| < n
      invariant rows + Sort(rest) == all && |rows| <= n
      decreases rest
    {
      LeastExists(rest);
      var m :| m in rest && IsMin(m, rest);
      TakeLeast(rows, rest, m);
      rows, rest := rows + [m], rest - {m};
    }
    PrefixOf(rows, Sort(rest));
    PrefixIsPart(rows, all, s, cursor);
  }

  lemma TakeLeast(rows: seq<Key>, rest: set<Key>, m: Key)
    requires m in rest && IsMin(m, rest)
    ensures rows + Sort(rest) == (rows + [m]) + Sort(rest - {m})
  {
    SortHead(rest, m);
  }

  lemma PrefixIsPart(rows: seq<Key>, all: seq<Key>, s: set<Key>, cursor: Option<Key>)
    requires rows <= all == Sort(Beyond(s, cursor))
    ensures forall i | 0 <= i < |rows| :: rows[i] in s
  {
    forall i | 0 <= i < |rows| ensures rows[i] in s {
      assert all[i] in all;
    }
  }

  lemma LeastExists(s: set<Key>)
    requires s != {}
    ensures exists m :: m in s && IsMin(m, s)
  {
    MinExists(s);
    var m :| IsMin(m, s);
    assert m in s;
  }

  lemma PrefixOf(a: seq<Key>, b: seq<Key>)
    ensures a <= a + b && (a + b)[..|a|] == a
    ensures b == [] ==> a + b == a
  {
  }

  datatype Page<T> = Page(rows: seq<(Id, T)>, next: Option<Key>)

  /** The page holds exactly the rows of `table` under the keys of one keyset
      page of `s`, in order, with that page's cursor. */
  ghost predicate Shows<T>(page: Page<T>, table: map<Id, T>, s: set<Key>, limit: nat, cursor: Option<Key>)
    requires limit > 0
  {
    var (keys, next) := PageOf(s, limit, cursor);
    && page.next == next && |page.rows| == |keys|
    && forall n | 0 <= n < |keys| :: keys[n].id in table && page.rows[n] == (keys[n].id, table[keys[n].id])
  }

  /** Rows read in key order, one beyond the limit, then trimmed, are the page. */
  lemma TrimmedIsPage<T>(
    read: seq<(Id, T)>, fetched: seq<Key>, table: map<Id, T>, s: set<Key>, limit: nat, cursor: Option<Key>)
    requires limit > 0 && |read| == |fetched|
    requires var all := Sort(Beyond(s, cursor)); fetched == if |all| <= limit + 1 then all else all[..limit + 1]
    requires forall n | 0 <= n < |fetched| :: fetched[n].id in table && read[n] == (fetched[n].id, table[fetched[n].id])
    ensures Shows(
      if |read| > limit then Page(read[..limit], Some(fetched[limit - 1])) else Page(read, None), table, s, limit, cursor)
  {
    hide Sort, Ascending, Beyond;
  }

  /** All keys returned by following cursors, fetching from `snaps[0]` first,
      then `snaps[1]`, and so on, until a page carries no cursor. */
  ghost function Walk(snaps: seq<set<Key>>, limit: nat, cursor: Option<Key>): seq<seq<Key>>
    requires limit > 0
  {
    if snaps == [] then []
    else
      var (page, next) := PageOf(snaps[0], limit, cursor);
      [page] + if next.None? then [] else Walk(snaps[1..], limit, next)
  }

  /** The last fetch of the walk returned no cursor. */
  ghost predicate Finishes(snaps: seq<set<Key>>, limit: nat, cursor: Option<Key>)
    requires limit > 0
  {
    snaps != [] &&
    var next := PageOf(snaps[0], limit, cursor).1;
    next.None? || Finishes(snaps[1..], limit, next)
  }

  function Flatten(pages: seq<seq<Key>>): seq<Key> {
    if pages == [] then [] else pages[0] + Flatten(pages[1..])
  }

  lemma PageIsCut(s: set<Key>, limit: nat, cursor: Option<Key>)
    requires limit > 0
    ensures var (page, next) := PageOf(s, limit, cursor);
      && Ascending(page)
      && (forall k | k in page :: k in s && After(k, cursor))
      && (next.Some? ==> page != [] && next.value == page[|page| - 1])
      && (next.Some? ==> forall k | k in page :: k == next.value || Less(k, next.value))
      && (forall k | k in s && After(k, cursor) && k !in page :: next.Some? && Less(next.value, k))
  {
    var rows := Sort(Beyond(s, cursor));
    var (page, next) := PageOf(s, limit, cursor);
    forall k | k in page ensures k in s && After(k, cursor) {
      assert k in rows && k in Beyond(s, cursor);
    }
    forall i | 0 <= i < |page| ensures rows[i] in page {
      assert page[i] == rows[i];
    }
    forall k | k in s && After(k, cursor) && k !in page ensures next.Some? && Less(next.value, k) {
      assert k in rows;
      var i :| 0 <= i < |rows| && rows[i] == k;
      assert i >= |page|;
    }
  }

  /** A key beyond the cursor is on the page, or comes after all of a full one. */
  lemma PageCovers(s: set<Key>, limit: nat, cursor: Option<Key>, k: Key)
    requires limit > 0 && k in s && After(k, cursor)
    ensures var (page, next) := PageOf(s, limit, cursor);
      k in page || (next.Some? && |page| == limit && forall i | 0 <= i < |page| :: Less(page[i], k))
  {
    PageIsCut(s, limit, cursor);
    hide After, Sort, Beyond;
    var (page, next) := PageOf(s, limit, cursor);
    if k !in page {
      forall i | 0 <= i < |page| ensures Less(page[i], k) {
        assert page[i] in page;
      }
    }
  }

  lemma AscendingConcat(a: seq<Key>, b: seq<Key>)
    requires Ascending(a) && Ascending(b) && forall x, y | x in a && y in b :: Less(x, y)
    ensures Ascending(a + b)
  {
  }

  /** Whatever happens to the table between fetches, keys come back in strictly
      increasing order, so none comes back twice. */
  lemma {:induction false} WalkAscends(snaps: seq<set<Key>>, limit: nat, cursor: Option<Key>)
    requires limit > 0
    ensures Ascending(Flatten(Walk(snaps, limit, cursor)))
    ensures forall k | k in Flatten(Walk(snaps, limit, cursor)) :: After(k, cursor)
    decreases |snaps|
  {
    if snaps != [] {
      var (page, next) := PageOf(snaps[0], limit, cursor);
      PageIsCut(snaps[0], limit, cursor);
      assert Flatten([page]) == page + Flatten([]);
      if next.Some? {
        WalkAscends(snaps[1..], limit, next);
        var rest := Walk(snaps[1..], limit, next);
        assert ([page] + rest)[1..] == rest;
        assert next.value in page;
        assert forall p, k | p in page && k in Flatten(rest) :: Less(p, k);
        AscendingConcat(page, Flatten(rest));
      }
    }
  }

  /** A row that is there at every fetch is returned: nothing is skipped. */
  lemma {:induction false} WalkMissesNothing(snaps: seq<set<Key>>, limit: nat, cursor: Option<Key>, k: Key)
    requires limit > 0 && Finishes(snaps, limit, cursor)
    requires After(k, cursor) && forall i | 0 <= i < |snaps| :: k in snaps[i]
    ensures k in Flatten(Walk(snaps, limit, cursor))
    decreases |snaps|
  {
    var (page, next) := PageOf(snaps[0], limit, cursor);
    PageIsCut(snaps[0], limit, cursor);
    var rest := if next.None? then [] else Walk(snaps[1..], limit, next);
    assert ([page] + rest)[1..] == rest;
    if k !in page {
      WalkMissesNothing(snaps[1..], limit, next, k);
    }
  }

  /** Every returned key was in the table when its page was fetched. */
  lemma {:induction false} WalkInventsNothing(snaps: seq<set<Key>>, limit: nat, cursor: Option<Key>, i: nat)
    requires limit > 0 && i < |Walk(snaps, limit, cursor)|
    ensures i < |snaps| && forall k | k in Walk(snaps, limit, cursor)[i] :: k in snaps[i]
    decreases |snaps|
  {
    var next := PageOf(snaps[0], limit, cursor).1;
    PageIsCut(snaps[0], limit, cursor);
    if i > 0 {
      WalkInventsNothing(snaps[1..], limit, next, i - 1);
    }
  }

  /** Following cursors to the end returns every row present throughout exactly once. */
  lemma EachRowExactlyOnce(snaps: seq<set<Key>>, limit: nat, k: Key)
    requires limit > 0 && Finishes(snaps, limit, None)
    requires forall i | 0 <= i < |snaps| :: k in snaps[i]
    ensures multiset(Flatten(Walk(snaps, limit, None)))[k] == 1
  {
    var all := Flatten(Walk(snaps, limit, None));
    WalkAscends(snaps, limit, None);
    WalkMissesNothing(snaps, limit, None, k);
    OccursOnce(all, k);
  }

  lemma {:induction false} OccursOnce(s: seq<Key>, k: Key)
    requires Ascending(s) && k in s
    ensures multiset(s)[k] == 1
  {
    var rest := s[1..];
    assert s == [s[0]] + rest;
    if s[0] == k {
      assert k !in rest;
    } else {
      OccursOnce(rest, k);
    }
  }

  // ---------------------------------------------------------------------
  // A table that does not change
  // ---------------------------------------------------------------------

  /** ceil(n / limit), and 1 for an empty table. */
  function Fetches(n: nat, limit: nat): (f: nat)
    requires limit > 0
    ensures n == 0 ==> f == 1
    ensures n > 0 ==> f > 0 && (f - 1) * limit < n <= f * limit
    decreases n
  {
    if n <= limit then 1 else 1 + Fetches(n - limit, limit)
  }

  lemma SortedRemainder(s: set<Key>, limit: nat, cursor: Option<Key>)
    requires limit > 0 && PageOf(s, limit, cursor).1.Some?
    ensures Sort(Beyond(s, cursor))[limit..] == Sort(Beyond(s, PageOf(s, limit, cursor).1))
  {
    var rows := Sort(Beyond(s, cursor));
    var c := rows[limit - 1];
    var rest := rows[limit..];
    forall k ensures k in rest <==> k in Beyond(s, Some(c)) {
      if k in rest {
        var i :| 0 <= i < |rest| && rest[i] == k;
        assert rows[limit + i] == k;
        assert k in rows;
      }
      if k in Beyond(s, Some(c)) {
        assert c in rows;
        assert After(k, cursor);
        assert k in rows;
        var i :| 0 <= i < |rows| && rows[i] == k;
        assert i >= limit;
        assert rest[i - limit] == k;
      }
    }
    AscendingIsUnique(rest, Sort(Beyond(s, Some(c))));
  }

  /** With no change between fetches, the pages concatenate to the whole sorted
      result, in max(1, ceil(n / limit)) fetches. */
  lemma {:induction false} StaticWalk(s: set<Key>, limit: nat, cursor: Option<Key>, snaps: seq<set<Key>>)
    requires limit > 0 && (forall i | 0 <= i < |snaps| :: snaps[i] == s)
    requires |snaps| >= Fetches(|Sort(Beyond(s, cursor))|, limit)
    ensures Finishes(snaps, limit, cursor)
    ensures Flatten(Walk(snaps, limit, cursor)) == Sort(Beyond(s, cursor))
    ensures |Walk(snaps, limit, cursor)| == Fetches(|Sort(Beyond(s, cursor))|, limit)
    decreases |Sort(Beyond(s, cursor))|
  {
    hide Ascending, Beyond, Sort;
    var rows := Sort(Beyond(s, cursor));
    var (page, next) := PageOf(s, limit, cursor);
    if next.Some? {
      SortedRemainder(s, limit, cursor);
      StaticWalk(s, limit, next, snaps[1..]);
      var rest := Walk(snaps[1..], limit, next);
      assert ([page] + rest)[1..] == rest;
      assert rows == rows[..limit] + rows[limit..];
    } else {
      assert Flatten([page]) == page + Flatten([]);
    }
  }
}

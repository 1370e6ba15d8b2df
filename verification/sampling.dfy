/** Rejection sampling from a stream: what has been accepted after so many draws,
    and exactly when enough is. */
module Sampling {
  import opened Domain
  import opened Random

  /** The identifiers 0 to n. */
  ghost function Below(n: nat): set<Id> {
    if n == 0 then {} else Below(n - 1) + {n - 1}
  }

  lemma {:induction false} BelowHolds(n: nat)
    ensures |Below(n)| == n && forall i: Id :: i in Below(n) <==> i < n
  {
    if n > 0 {
      BelowHolds(n - 1);
    }
  }

  /** The distinct values below n outside `exclude` among `len` draws from position `p`. */
  ghost function Accepted(stream: nat -> nat, p: nat, len: nat, n: nat, exclude: set<Id>): set<Id>
    requires n > 0
  {
    if len == 0 then {}
    else
      var drawn := At(stream, p + len - 1, n);
      Accepted(stream, p, len - 1, n, exclude) + if drawn in exclude then {} else {drawn}
  }

  /** The stream has `want` acceptable values to offer: some number of draws suffices. */
  ghost predicate Offers(stream: nat -> nat, p: nat, n: nat, exclude: set<Id>, want: nat)
    requires n > 0
  {
    exists len: nat :: |Accepted(stream, p, len, n, exclude)| >= want
  }

  /** More draws never accept less. */
  lemma {:induction false} AcceptedGrows(stream: nat -> nat, p: nat, a: nat, b: nat, n: nat, exclude: set<Id>)
    requires n > 0 && a <= b
    ensures Accepted(stream, p, a, n, exclude) <= Accepted(stream, p, b, n, exclude)
    ensures |Accepted(stream, p, a, n, exclude)| <= |Accepted(stream, p, b, n, exclude)|
  {
    if a < b {
      AcceptedGrows(stream, p, a, b - 1, n, exclude);
      SmallerSubset(Accepted(stream, p, b - 1, n, exclude), Accepted(stream, p, b, n, exclude));
    }
  }

  lemma {:induction false} SmallerSubset(a: set<Id>, b: set<Id>)
    requires a <= b
    ensures |a| <= |b|
  {
    if a != {} {
      var x :| x in a;
      SmallerSubset(a - {x}, b - {x});
    }
  }

  lemma {:induction false} AcceptedIsAcceptable(stream: nat -> nat, p: nat, len: nat, n: nat, exclude: set<Id>)
    requires n > 0
    ensures Accepted(stream, p, len, n, exclude) !! exclude
    ensures forall u: Id | u in Accepted(stream, p, len, n, exclude) :: u < n
  {
    hide At;
    if len > 0 {
      AcceptedIsAcceptable(stream, p, len - 1, n, exclude);
      AtIsBelow(stream, p + len - 1, n);
    }
  }

  lemma DrawIsAccepted(stream: nat -> nat, p: nat, q: nat, n: nat, exclude: set<Id>)
    requires n > 0 && p <= q && At(stream, q, n) !in exclude
    ensures At(stream, q, n) in Accepted(stream, p, q - p + 1, n, exclude)
  {
  }

  lemma AtIsBelow(stream: nat -> nat, p: nat, n: nat)
    requires n > 0
    ensures At(stream, p, n) < n
  {
  }

  /** An acceptable candidate is left as long as fewer than all are taken. */
  lemma SomeoneIsLeft(n: nat, taken: set<Id>)
    requires taken <= Below(n) && |taken| < n
    ensures exists u: Id :: u < n && u !in taken
  {
    BelowHolds(n);
    assert taken != Below(n);
    var u: Id :| u in Below(n) && u !in taken;
  }

  lemma DisjointUnion(a: set<Id>, b: set<Id>)
    requires a !! b
    ensures |a + b| == |a| + |b|
  {
  }

  /** A fair stream offers everything there is. */
  lemma {:induction false} FairOffers(stream: nat -> nat, p: nat, n: nat, exclude: set<Id>, want: nat)
    requires Fair(stream, n) && exclude <= Below(n) && want <= n - |exclude|
    ensures Offers(stream, p, n, exclude, want)
  {
    hide Accepted, At;
    if want == 0 {
      assert |Accepted(stream, p, 0, n, exclude)| >= 0;
    } else {
      FairOffers(stream, p, n, exclude, want - 1);
      var len: nat :| |Accepted(stream, p, len, n, exclude)| >= want - 1;
      if |Accepted(stream, p, len, n, exclude)| < want {
        AcceptedIsAcceptable(stream, p, len, n, exclude);
        BelowHolds(n);
        var seen := Accepted(stream, p, len, n, exclude);
        DisjointUnion(exclude, seen);
        SomeoneIsLeft(n, exclude + seen);
        var u: Id :| u < n && u !in exclude + seen;
        assert ComesUp(stream, n, p + len, u);
        var q: nat :| p + len <= q && At(stream, q, n) == u;
        var more := q - p + 1;
        AcceptedGrows(stream, p, len, more, n, exclude);
        DrawIsAccepted(stream, p, q, n, exclude);
        assert seen + {u} <= Accepted(stream, p, more, n, exclude);
        SmallerSubset(seen + {u}, Accepted(stream, p, more, n, exclude));
        assert |seen + {u}| == |seen| + 1;
      }
    }
  }
}

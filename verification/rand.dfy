/** The random source: an arbitrary stream of numbers, read in order. Everything
    proved about its users holds for every stream. */
module Random {
  import opened Arithmetic
  import opened Domain

  /** The draw below n at position `p` of the stream. */
  function At(stream: nat -> nat, p: nat, n: nat): nat
    requires n > 0
  {
    stream(p) % n
  }

  /** From position `p` on, a draw below n will be `v` some time. */
  ghost predicate ComesUp(stream: nat -> nat, n: nat, p: nat, v: nat)
    requires n > 0
  {
    exists q: nat :: p <= q && At(stream, q, n) == v
  }

  /** Wherever one stands in the stream, every value below n still comes up. */
  ghost predicate Fair(stream: nat -> nat, n: nat) {
    n > 0 && forall p: nat, v: nat | v < n :: ComesUp(stream, n, p, v)
  }

  lemma Later(p: nat, n: nat, v: nat) returns (q: nat)
    requires v < n
    ensures q >= p && q % n == v
  {
    q := p * n + v;
    MulMonotone(1, n, p);
    Quotient(q, p, v, n);
  }

  /** These draws first, and then 0, 1, 2, ... without end. */
  function Continued(draws: seq<nat>): nat -> nat {
    (k: nat) => if k < |draws| then draws[k] else k
  }

  /** Any finite list of draws is the start of a fair stream. */
  lemma ContinuedIsFair(draws: seq<nat>, n: nat)
    requires n > 0
    ensures Fair(Continued(draws), n)
    ensures forall k: nat | k < |draws| :: Continued(draws)(k) == draws[k]
  {
    var fair := Continued(draws);
    forall p: nat, v: nat | v < n ensures ComesUp(fair, n, p, v) {
      var q := Later(p + |draws|, n, v);
      assert At(fair, q, n) == v;
    }
  }

  ghost predicate Permutes(a: seq<nat>, b: seq<nat>) {
    multiset(a) == multiset(b)
  }

  class Rand {
    const stream: nat -> nat
    var pos: nat

    constructor (stream: nat -> nat)
      ensures this.stream == stream && pos == 0
    {
      this.stream := stream;
      pos := 0;
    }

    method Intn(n: nat) returns (v: nat)
      requires n > 0
      modifies this
      ensures v < n && v == At(stream, old(pos), n) && pos == old(pos) + 1
    {
      v := At(stream, pos, n);
      pos := pos + 1;
    }

    /** Swap each position, from the last down, with one at or below it. */
    method Shuffle(s: seq<nat>) returns (r: seq<nat>)
      modifies this
      ensures Permutes(s, r) && |r| == |s|
    {
      r := s;
      var i := |r|;
      while i > 1
        invariant |r| == |s| && multiset(r) == multiset(s) && i <= |r|
      {
        i := i - 1;
        var j := Intn(i + 1);
        r := r[i := r[j]][j := r[i]];
      }
    }

    /** A permutation of 0..n. */
    method Perm(n: nat) returns (p: seq<nat>)
      modifies this
      ensures |p| == n && (forall i | 0 <= i < n :: p[i] < n)
      ensures forall i, j | 0 <= i < j < n :: p[i] != p[j]
    {
      var identity: seq<nat> := seq(n, i requires 0 <= i < n => i as nat);
      p := Shuffle(identity);
      PermutationIsDistinct(identity, p);
      forall i | 0 <= i < n ensures p[i] < n {
        assert p[i] in identity;
      }
    }
  }

  lemma SameElements(a: seq<nat>, b: seq<nat>)
    requires multiset(a) == multiset(b)
    ensures forall x :: x in a <==> x in b
  {
    forall x ensures x in a <==> x in b {
      assert x in a <==> x in multiset(a);
      assert x in b <==> x in multiset(b);
    }
  }

  lemma {:induction false} DistinctIffOnce(s: seq<nat>)
    ensures Distinct(s) <==> forall x :: multiset(s)[x] <= 1
  {
    if s != [] {
      var init, last := s[..|s| - 1], s[|s| - 1];
      DistinctIffOnce(init);
      assert s == init + [last];
      assert multiset(s) == multiset(init) + multiset{last};
      assert last in init <==> last in multiset(init);
      if Distinct(s) {
        assert Distinct(init);
        assert last !in init;
      }
      if forall x :: multiset(s)[x] <= 1 {
        forall x ensures multiset(init)[x] <= 1 {
          assert multiset(s)[x] <= 1;
        }
        assert multiset(s)[last] <= 1;
      }
    }
  }

  lemma PermutationIsDistinct(a: seq<nat>, b: seq<nat>)
    requires Permutes(a, b) && Distinct(a)
    ensures Distinct(b)
    ensures forall x :: x in a <==> x in b
  {
    DistinctIffOnce(a);
    DistinctIffOnce(b);
    SameElements(a, b);
  }
}

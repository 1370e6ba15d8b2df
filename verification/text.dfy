/** Numbers formatted into names and addresses: distinct numbers give distinct text. */
module Text {
  function Digit(d: nat): (c: char)
    requires d < 10
    ensures '0' <= c <= '9'
  {
    ('0' as int + d) as char
  }

  /** %d */
  function Decimal(n: nat): (s: string)
    ensures s != [] && forall i | 0 <= i < |s| :: '0' <= s[i] <= '9'
  {
    if n < 10 then [Digit(n)] else Decimal(n / 10) + [Digit(n % 10)]
  }

  function Zeros(n: nat): (s: string)
    ensures |s| == n && forall i | 0 <= i < n :: s[i] == '0'
  {
    seq(n, _ => '0')
  }

  /** %0<width>d */
  function Padded(n: nat, width: nat): string {
    var s := Decimal(n);
    if |s| < width then Zeros(width - |s|) + s else s
  }

  /** The number a string of digits denotes. */
  function Value(s: string): int {
    if s == [] then 0 else 10 * Value(s[..|s| - 1]) + (s[|s| - 1] as int - '0' as int)
  }

  lemma {:induction false} DecimalValue(n: nat)
    ensures Value(Decimal(n)) == n
  {
    if n < 10 {
      assert Decimal(n)[..0] == [];
    } else {
      DecimalValue(n / 10);
      assert Decimal(n)[..|Decimal(n)| - 1] == Decimal(n / 10);
    }
  }

  lemma {:induction false} LeadingZeros(z: nat, s: string)
    ensures Value(Zeros(z) + s) == Value(s)
    decreases |s|, z
  {
    if s != [] {
      assert (Zeros(z) + s)[..|Zeros(z) + s| - 1] == Zeros(z) + s[..|s| - 1];
      LeadingZeros(z, s[..|s| - 1]);
    } else if z > 0 {
      assert (Zeros(z) + s)[..z - 1] == Zeros(z - 1) + [];
      LeadingZeros(z - 1, []);
    }
  }

  lemma PaddedValue(n: nat, width: nat)
    ensures Value(Padded(n, width)) == n
  {
    DecimalValue(n);
    LeadingZeros(if |Decimal(n)| < width then width - |Decimal(n)| else 0, Decimal(n));
  }

  /** Text between a fixed prefix and a fixed suffix is recovered from the whole. */
  lemma Between(p: string, a: string, b: string, q: string)
    requires p + a + q == p + b + q
    ensures a == b
  {
    assert |a| == |b|;
    assert a == (p + a + q)[|p|..|p| + |a|];
    assert b == (p + b + q)[|p|..|p| + |b|];
  }

  lemma SeededNamesDiffer(p: string, q: string, m: nat, n: nat, width: nat)
    requires m != n
    ensures p + Padded(m, width) + q != p + Padded(n, width) + q
  {
    if p + Padded(m, width) + q == p + Padded(n, width) + q {
      Between(p, Padded(m, width), Padded(n, width), q);
      PaddedValue(m, width);
      PaddedValue(n, width);
    }
  }

  lemma NumberedNamesDiffer(p: string, q: string, m: nat, n: nat)
    requires m != n
    ensures p + Decimal(m) + q != p + Decimal(n) + q
  {
    if p + Decimal(m) + q == p + Decimal(n) + q {
      Between(p, Decimal(m), Decimal(n), q);
      DecimalValue(m);
      DecimalValue(n);
    }
  }
}

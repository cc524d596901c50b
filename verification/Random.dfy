/** The Lehmer generator (random.h). */
module Random {

  const M: int := 0x7FFF_FFFF
  const A: int := 16807

  // A * A_INVERSE == 1 + A_QUOTIENT * M
  const A_INVERSE: int := 1407677000
  const A_QUOTIENT: int := 11017

  const TWO_31: int := 0x8000_0000

  /** The low 31 bits, with 0 replaced by 1. */
  function GoodSeed(s: nat): (r: int)
    ensures 1 <= r <= M
  {
    if s % TWO_31 != 0 then s % TWO_31 else 1
  }

  class Generator {
    var seed: int

    constructor (s: nat)
      ensures seed == GoodSeed(s)
    {
      seed := GoodSeed(s);
    }

    /** Shift, mask and at most one subtraction compute the remainder by M. */
    method Next() returns (r: int)
      requires 1 <= seed <= M
      modifies this
      ensures r == seed == if old(seed) == M then M else old(seed) * A % M
      ensures 1 <= seed <= M
    {
      var product := seed * A;
      NextIsRemainder(seed);
      seed := product / TWO_31 + product % TWO_31;
      if seed > M {
        seed := seed - M;
      }
      r := seed;
    }
  }

  /** Multiplying by A never hits a multiple of M. */
  lemma NotMultiple(s: int, t: int)
    requires 1 <= s < M
    ensures s * A != t * M
  {
    assert s == (s * A) * A_INVERSE - s * A_QUOTIENT * M;
    assert s != (t * A_INVERSE - s * A_QUOTIENT) * M;
  }

  lemma RemainderIs(x: int, q: int, r: int)
    requires 0 <= r < M && x == q * M + r
    ensures x % M == r
  {
  }

  lemma NextIsRemainder(s: int)
    requires 1 <= s <= M
    ensures var product := s * A;
            var sum := product / TWO_31 + product % TWO_31;
            (if sum > M then sum - M else sum) == if s == M then M else product % M
  {
    var product := s * A;
    var q, r := product / TWO_31, product % TWO_31;
    assert product == q * M + (q + r) && 0 <= q <= A && 0 <= r <= M;
    if s < M {
      NotMultiple(s, q + 1);
      if q + r < M {
        RemainderIs(product, q, q + r);
      } else {
        RemainderIs(product, q + 1, q + r - M);
      }
    }
  }

  // ---- many steps ----------------------------------------------------------

  function PowA(k: nat): nat {
    if k == 0 then 1 else PowA(k - 1) * A
  }

  /** The seed after k calls of Next. */
  function After(s: int, k: nat): (r: int)
    requires 1 <= s < M
    ensures 1 <= r < M
  {
    if k == 0 then s
    else
      NotMultiple(After(s, k - 1), After(s, k - 1) * A / M);
      After(s, k - 1) * A % M
  }

  lemma {:induction false} AfterIsPower(s: int, k: nat)
    requires 1 <= s < M
    ensures After(s, k) == s * PowA(k) % M
  {
    if k > 0 {
      AfterIsPower(s, k - 1);
      TimesA(s * PowA(k - 1));
      assert s * PowA(k) == s * PowA(k - 1) * A;
    }
  }

  lemma TimesA(x: int)
    ensures (x % M) * A % M == x * A % M
  {
    var q := x / M;
    assert x * A == (x % M) * A + q * A * M;
    SameRemainder((x % M) * A, q * A);
  }

  /** k calls of Next on a new generator: the k-th power of A times the seed, modulo M;
      the one seed that does not move is M. */
  method Draw(s: nat, k: nat) returns (g: Generator)
    ensures 1 <= g.seed <= M
    ensures GoodSeed(s) < M ==> g.seed == GoodSeed(s) * PowA(k) % M && g.seed < M
    ensures GoodSeed(s) == M ==> g.seed == M
  {
    g := new Generator(s);
    var start := g.seed;
    for i := 0 to k
      invariant 1 <= g.seed <= M
      invariant if start == M then g.seed == M else g.seed == After(start, i)
    {
      var r := g.Next();
    }
    if start < M {
      AfterIsPower(start, k);
    }
  }

  lemma SameRemainder(x: int, q: int)
    ensures (x + q * M) % M == x % M
  {
  }

  /** No two seeds meet: the step is undone by multiplying with the inverse. */
  lemma StepIsInvertible(s: int)
    requires 1 <= s < M
    ensures After(s, 1) * A_INVERSE % M == s
  {
    var x := s * A;
    assert After(s, 1) == x % M by { assert After(s, 0) == s; }
    var q := x / M;
    calc {
      (x % M) * A_INVERSE;
      (x - q * M) * A_INVERSE;
      s * (A * A_INVERSE) - q * A_INVERSE * M;
      s + s * A_QUOTIENT * M - q * A_INVERSE * M;
      s + (s * A_QUOTIENT - q * A_INVERSE) * M;
    }
    SameRemainder(s, s * A_QUOTIENT - q * A_INVERSE);
  }
}

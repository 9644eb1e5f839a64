/** Quotients, remainders and powers of two. */
module Arith {

  /** A quotient and remainder that fit are the quotient and the remainder. */
  lemma DivModIs(x: int, c: nat, q: int, r: int)
    requires c > 0 && 0 <= r < c && x == q * c + r
    ensures x / c == q && x % c == r
  {
    var d, m := x / c, x % c;
    assert x == d * c + m;
    var k := d - q;
    assert k * c == r - m && (-k) * c == m - r;
    if k >= 1 {
      MulAtLeast(k, c);
    } else if k <= -1 {
      MulAtLeast(-k, c);
    }
  }

  lemma MulAtLeast(k: int, c: nat)
    requires k >= 1
    ensures k * c >= c
  {
  }

  lemma OneMore(k: nat, n: nat)
    requires n > 0
    ensures k * n == k + k * (n - 1) && k * (n - 1) >= 0
  {
  }

  lemma Monotone(k: nat, m: nat, n: nat)
    requires m <= n
    ensures k * m <= k * n && (k > 0 && m < n ==> k * m < k * n)
  {
  }

  lemma MulNotPositive(k: int, c: nat)
    requires k <= 0
    ensures k * c <= 0
  {
  }

  lemma MulMinus(a: int, b: int, c: int)
    ensures (a - b) * c == a * c - b * c
  {
  }

  /** Adding a multiple changes nothing modulo c. */
  lemma ModShift(x: int, k: int, c: nat)
    requires c > 0
    ensures (x + k * c) % c == x % c
  {
    var d, m := x / c, x % c;
    assert x == d * c + m;
    assert x + k * c == (d + k) * c + m;
    DivModIs(x + k * c, c, d + k, m);
  }

  /** Reducing modulo a multiple of c first changes nothing modulo c. */
  lemma ModMod(x: int, k: nat, c: nat)
    requires c > 0 && k > 0
    ensures k * c > 0 && (x % (k * c)) % c == x % c
  {
    var n := k * c;
    assert n > 0 by { MulAtLeast(k, c); }
    var d := x / n;
    assert x == d * n + x % n;
    assert d * n == (d * k) * c by { MulAssoc(d, k, c); }
    ModShift(x % n, d * k, c);
  }

  lemma MulAssoc(a: int, b: int, c: int)
    ensures a * (b * c) == (a * b) * c
  {
  }

  function Pow2(k: nat): (r: nat)
    ensures r > 0
  {
    if k == 0 then 1 else 2 * Pow2(k - 1)
  }

  lemma {:induction false} Pow2Add(a: nat, b: nat)
    ensures Pow2(a + b) == Pow2(a) * Pow2(b)
  {
    if a == 0 {
      assert Pow2(a) * Pow2(b) == Pow2(b);
    } else {
      Pow2Add(a - 1, b);
      MulAssoc(2, Pow2(a - 1), Pow2(b));
    }
  }

  lemma Pow2Square(n: nat, v: nat)
    requires Pow2(n) == v
    ensures Pow2(2 * n) == v * v
  {
    Pow2Add(n, n);
  }

  lemma Pow2Values()
    ensures Pow2(4) == 0x10 && Pow2(8) == 0x100 && Pow2(16) == 0x1_0000 && Pow2(32) == 0x1_0000_0000
    ensures Pow2(64) == 0x1_0000_0000_0000_0000
  {
    assert Pow2(2) == 4;
    hide Pow2;
    Pow2Square(2, 4);
    Pow2Square(4, 0x10);
    Pow2Square(8, 0x100);
    Pow2Square(16, 0x1_0000);
    Pow2Square(32, 0x1_0000_0000);
  }

  /** n & (n - 1) == 0, for an n that is not 0. */
  predicate PowerOfTwo(n: nat) {
    n == 1 || (n > 0 && n % 2 == 0 && PowerOfTwo(n / 2))
  }

  /** Powers of two divide the larger ones. */
  lemma {:induction false} PowerDivides(n: nat, k: nat) returns (q: nat)
    requires PowerOfTwo(n) && n <= Pow2(k)
    ensures q > 0 && q * n == Pow2(k)
  {
    if n == 1 {
      q := Pow2(k);
    } else {
      assert k > 0;
      q := PowerDivides(n / 2, k - 1);
      MulAssoc(2, q, n / 2);
      assert n == 2 * (n / 2);
    }
  }
}

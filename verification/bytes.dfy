/** Bytes and 32-bit words, and fixed-width little-endian numbers as they lie in memory on the target. */
module Bytes {
  import opened Arith

  type Byte = x: int | 0 <= x < 256
  type U32 = x: int | 0 <= x < 0x1_0000_0000

  type S32 = x: int | -0x8000_0000 <= x < 0x8000_0000

  /** The conversion to int: the value a 32-bit two's complement register keeps of x. */
  function Wrap32(x: int): (r: S32)
    ensures -0x8000_0000 <= x < 0x8000_0000 ==> r == x
    ensures (x - r) % 0x1_0000_0000 == 0
  {
    (x + 0x8000_0000) % 0x1_0000_0000 - 0x8000_0000
  }

  function Pow256(n: nat): (r: nat)
    ensures r > 0
  {
    if n == 0 then 1 else 256 * Pow256(n - 1)
  }

  /** The low n bytes of x, least significant first. */
  function ToLE(x: nat, n: nat): (r: seq<Byte>)
    ensures |r| == n
  {
    if n == 0 then [] else [x % 256] + ToLE(x / 256, n - 1)
  }

  function FromLE(b: seq<Byte>): (r: nat)
    ensures r < Pow256(|b|)
  {
    if b == [] then 0 else b[0] + 256 * FromLE(b[1..])
  }

  lemma {:induction false} FromToLE(x: nat, n: nat)
    requires x < Pow256(n)
    ensures FromLE(ToLE(x, n)) == x
  {
    if n > 0 {
      FromToLE(x / 256, n - 1);
      assert ToLE(x, n)[1..] == ToLE(x / 256, n - 1);
    }
  }

  lemma {:induction false} ToFromLE(b: seq<Byte>)
    ensures ToLE(FromLE(b), |b|) == b
  {
    if b != [] {
      ToFromLE(b[1..]);
      assert FromLE(b) / 256 == FromLE(b[1..]) && FromLE(b) % 256 == b[0];
    }
  }

  /** Byte k of a little-endian number has the weight 256^k. */
  lemma {:induction false} ByteOfLE(x: nat, n: nat, k: nat)
    requires k < n
    ensures ToLE(x, n)[k] == x / Pow256(k) % 256
    decreases k
  {
    if k > 0 {
      ByteOfLE(x / 256, n - 1, k - 1);
      DivTwice(x, Pow256(k - 1));
    }
  }

  lemma DivTwice(x: nat, p: nat)
    requires p > 0
    ensures (x / 256) / p == x / (256 * p)
  {
    var a, b := x / 256, x % 256;
    var q, r := a / p, a % p;
    assert x == 256 * (q * p + r) + b;
    assert x == q * (256 * p) + (256 * r + b) && 256 * r + b < 256 * p;
    DivModIs(x, 256 * p, q, 256 * r + b);
  }

  /** Four bytes as a number, the least significant first. */
  lemma FourBytes(b: seq<Byte>)
    requires |b| == 4
    ensures FromLE(b) == (b[0] as int) + 0x100 * (b[1] as int) + 0x1_0000 * (b[2] as int) + 0x100_0000 * (b[3] as int)
  {
    var c := b[1..];
    var d := c[1..];
    var e := d[1..];
    assert e[1..] == [] && FromLE([]) == 0;
    assert FromLE(e) == b[3] && FromLE(d) == b[2] + 256 * FromLE(e) && FromLE(c) == b[1] + 256 * FromLE(d);
  }

  /** The four bytes of a number, the least significant first. */
  lemma BytesOfFour(x: nat)
    ensures ToLE(x, 4) == [x % 256, x / 0x100 % 256, x / 0x1_0000 % 256, x / 0x100_0000 % 256]
  {
    Widths();
    assert Pow256(3) == 256 * Pow256(2);
    ByteOfLE(x, 4, 0);
    ByteOfLE(x, 4, 1);
    ByteOfLE(x, 4, 2);
    ByteOfLE(x, 4, 3);
    hide ToLE, Pow256;
  }

  lemma Widths()
    ensures Pow256(1) == 0x100 && Pow256(2) == 0x1_0000 && Pow256(4) == 0x1_0000_0000
    ensures Pow256(8) == 0x1_0000_0000_0000_0000
  {
    assert Pow256(3) == 0x100_0000 && Pow256(5) == 0x100_0000_0000 && Pow256(6) == 0x1_0000_0000_0000;
    assert Pow256(7) == 0x100_0000_0000_0000;
  }
}

/** The checksums of common/hash.cpp with deferred reduction. Every sum is a U32, so that it verifies means
    that no addition wraps. */
module Hash {
  import opened Arith
  import opened Bytes

  const MOD_ADLER: nat := 65521
  const MOD_FLETCHER: nat := 65535

  // ---------------------------------------------------------------- bounds

  function Triangle(n: nat): nat {
    if n == 0 then 0 else Triangle(n - 1) + n
  }

  lemma {:induction false} TriangleIs(n: nat)
    ensures 2 * Triangle(n) == n * (n + 1)
  {
    if n > 0 { TriangleIs(n - 1); }
  }

  lemma {:induction false} TriangleGrows(n: nat, top: nat)
    requires n <= top
    ensures Triangle(n) <= Triangle(top)
    decreases top - n
  {
    if n < top { TriangleGrows(n, top - 1); }
  }

  lemma AdlerTop(n: nat)
    requires n <= 5550
    ensures Triangle(n) <= 15404025
  {
    TriangleIs(5550);
    TriangleGrows(n, 5550);
  }

  lemma FletcherTop(n: nat)
    requires n <= 360
    ensures Triangle(n) <= 64980
  {
    TriangleIs(360);
    TriangleGrows(n, 360);
  }

  // ---------------------------------------------------------------- partial reduction

  /** (x & 0xffff) + (x >> 16) * k. */
  function Fold(x: nat, k: nat): nat {
    x % 0x1_0000 + (x / 0x1_0000) * k
  }

  lemma AdlerFolds(a: nat, b: nat, n: nat)
    requires n <= 5550 && a <= 0x1013A + 255 * n && b <= 0xFFF87 + 0x1013A * n + 255 * Triangle(n)
    ensures Fold(a, 15) <= 0x1013A && a == Fold(a, 15) + (a / 0x1_0000) * MOD_ADLER
    ensures Fold(b, 15) <= 0xFFF87 && b == Fold(b, 15) + (b / 0x1_0000) * MOD_ADLER
  {
    AdlerTop(n);
    FoldBelow(a, 22, 15);
    FoldBelow(b, 65529, 15);
  }

  lemma FoldBelow(x: nat, h: nat, k: nat)
    requires x < h * 0x1_0000 + 0x1_0000 && k > 0
    ensures Fold(x, k) <= (if x >= h * 0x1_0000 then x - h * 0x1_0000 + h * k else 0xFFFF + (h - 1) * k)
  {
    var high := x / 0x1_0000;
    if high < h { assert (h - 1 - high) * k >= 0; }
  }

  lemma FletcherFolds(a: nat, b: nat, n: nat)
    requires n <= 360 && 1 <= a <= 65895 + 65535 * n && 1 <= b <= 131070 + 65895 * n + 65535 * Triangle(n)
    ensures 1 <= Fold(a, 1) <= 65895 && a == Fold(a, 1) + (a / 0x1_0000) * MOD_FLETCHER
    ensures 1 <= Fold(b, 1) <= 131070 && b == Fold(b, 1) + (b / 0x1_0000) * MOD_FLETCHER
  {
    FletcherTop(n);
  }

  // ---------------------------------------------------------------- the definitions

  function Sum(data: seq<nat>): nat {
    if data == [] then 0 else Sum(data[..|data| - 1]) + data[|data| - 1]
  }

  /** Section 2.2 of RFC 1950: s1 is 1 plus the sum of all bytes, s2 the sum of all values of s1. */
  function AdlerS1(data: seq<Byte>): nat {
    if data == [] then 1 else AdlerS1(data[..|data| - 1]) + data[|data| - 1]
  }

  function AdlerS2(data: seq<Byte>): nat {
    if data == [] then 0 else AdlerS2(data[..|data| - 1]) + AdlerS1(data)
  }

  function Adler32(data: seq<Byte>): nat {
    (AdlerS2(data) % MOD_ADLER) * 0x1_0000 + AdlerS1(data) % MOD_ADLER
  }

  /** The words a Fletcher sum reads: with an odd length, the last one has the byte after the data. */
  function Words(buffer: seq<Byte>, n: nat): (r: seq<nat>)
    requires 2 * n <= |buffer|
    ensures |r| == n
    ensures forall i :: 0 <= i < n ==> r[i] == (buffer[2 * i] as int) + 256 * (buffer[2 * i + 1] as int)
  {
    seq(n, i requires 0 <= i < n => (buffer[2 * i] as int) + 256 * (buffer[2 * i + 1] as int))
  }

  /** Two bytes more are a word more, the first byte the less significant. */
  lemma WordsMore(buffer: seq<Byte>, n: nat)
    requires 2 * n + 2 <= |buffer|
    ensures Words(buffer, n + 1)
         == Words(buffer, n) + [(buffer[2 * n] as int) + 0x100 * (buffer[2 * n + 1] as int)]
  {
  }

  /** The sum of all partial sums. */
  function SumOfSums(words: seq<nat>): nat {
    if words == [] then 0 else SumOfSums(words[..|words| - 1]) + Sum(words)
  }

  /** The representative in 1..65535. */
  function Rep(x: nat): (r: nat)
    ensures 1 <= r <= 65535
  {
    (x + MOD_FLETCHER - 1) % MOD_FLETCHER + 1
  }

  /** Both sums modulo 65535, where 0 stands as 65535. */
  function Fletcher32(words: seq<nat>): nat {
    Rep(SumOfSums(words)) * 0x1_0000 + Rep(Sum(words))
  }

  /** What a byte more does: it is added to the low half, and that to the high half, both modulo 65521. */
  lemma AdlerMore(data: seq<Byte>, c: Byte)
    ensures Adler32([]) == 1
    ensures var low, high := Adler32(data) % 0x1_0000, Adler32(data) / 0x1_0000;
            var low', high' := Adler32(data + [c]) % 0x1_0000, Adler32(data + [c]) / 0x1_0000;
            low' == (low + c) % 65521 && high' == (high + low') % 65521
  {
    assert (data + [c])[..|data|] == data;
    assert AdlerS1(data + [c]) == AdlerS1(data) + c && AdlerS2(data + [c]) == AdlerS2(data) + AdlerS1(data + [c]);
    hide AdlerS1, AdlerS2;
    Halves(AdlerS2(data) % MOD_ADLER, AdlerS1(data) % MOD_ADLER);
    Halves(AdlerS2(data + [c]) % MOD_ADLER, AdlerS1(data + [c]) % MOD_ADLER);
    ModSum(AdlerS1(data), c, MOD_ADLER);
    ModSum(AdlerS2(data), AdlerS1(data + [c]), MOD_ADLER);
    ModSum(AdlerS1(data + [c]), AdlerS2(data) % MOD_ADLER, MOD_ADLER);
  }

  lemma Halves(high: nat, low: nat)
    requires low < 0x1_0000
    ensures (high * 0x1_0000 + low) % 0x1_0000 == low && (high * 0x1_0000 + low) / 0x1_0000 == high
  {
  }

  lemma ModSum(a: nat, b: nat, n: nat)
    requires n > 0
    ensures (a % n + b) % n == (a + b) % n
  {
    assert a == (a / n) * n + a % n;
    ModShift(a % n + b, a / n, n);
  }

  /** What a word more does: both halves are 1 to 65535, and modulo 65535 the word is added to the low half, and
      that to the high half. */
  lemma FletcherMore(words: seq<nat>, w: nat)
    ensures Fletcher32([]) == 0xFFFF_FFFF
    ensures var low, high := Fletcher32(words) % 0x1_0000, Fletcher32(words) / 0x1_0000;
            var low', high' := Fletcher32(words + [w]) % 0x1_0000, Fletcher32(words + [w]) / 0x1_0000;
            1 <= low' <= 65535 && 1 <= high' <= 65535
            && low' % 65535 == (low + w) % 65535 && high' % 65535 == (high + low') % 65535
  {
    var more := words + [w];
    assert more[..|words|] == words;
    assert Sum(more) == Sum(words) + w && SumOfSums(more) == SumOfSums(words) + Sum(more);
    assert Sum([]) == 0 && SumOfSums([]) == 0;
    hide Sum, SumOfSums;
    RepIs(Sum(words));
    RepIs(Sum(more));
    RepIs(SumOfSums(words));
    RepIs(SumOfSums(more));
    hide Rep;
    Halves(Rep(SumOfSums(words)), Rep(Sum(words)));
    Halves(Rep(SumOfSums(more)), Rep(Sum(more)));
    ModSum(Rep(Sum(words)), w, MOD_FLETCHER);
    ModSum(Sum(words), w, MOD_FLETCHER);
    ModSum(Rep(SumOfSums(words)), Rep(Sum(more)), MOD_FLETCHER);
    ModSum(Rep(Sum(more)), SumOfSums(words) % MOD_FLETCHER, MOD_FLETCHER);
    ModSum(Sum(more), SumOfSums(words) % MOD_FLETCHER, MOD_FLETCHER);
    ModSum(SumOfSums(words), Sum(more), MOD_FLETCHER);
  }

  lemma RepIs(x: nat)
    ensures Rep(x) % MOD_FLETCHER == x % MOD_FLETCHER
  {
  }

  // ---------------------------------------------------------------- the loops

  /** One inner loop of HashAdler32. p and q are what has been taken off the sums so far, in moduli. */
  method AdlerBlock(data: seq<Byte>, from: nat, n: nat, a0: U32, b0: U32, ghost p: nat, ghost q0: nat)
    returns (a: U32, b: U32, ghost q: nat)
    requires n <= 5550 && from + n <= |data| && a0 <= 0x1013A && b0 <= 0xFFF87
    requires AdlerS1(data[..from]) == a0 + p * MOD_ADLER && AdlerS2(data[..from]) == b0 + q0 * MOD_ADLER
    ensures AdlerS1(data[..from + n]) == a + p * MOD_ADLER && AdlerS2(data[..from + n]) == b + q * MOD_ADLER
    ensures a <= 0x1013A + 255 * n && b <= 0xFFF87 + 0x1013A * n + 255 * Triangle(n)
  {
    a, b, q := a0, b0, q0;
    for j := 0 to n
      invariant AdlerS1(data[..from + j]) == a + p * MOD_ADLER && AdlerS2(data[..from + j]) == b + q * MOD_ADLER
      invariant a <= 0x1013A + 255 * j && b <= 0xFFF87 + 0x1013A * j + 255 * Triangle(j)
    {
      AdlerTop(j + 1);
      assert data[..from + j + 1][..from + j] == data[..from + j];
      a := a + data[from + j];
      b := b + a;
      q := q + p;
    }
  }

  /** HashAdler32 is the checksum of the RFC, on every byte string. */
  method HashAdler32(data: seq<Byte>) returns (r: U32)
    ensures r == Adler32(data)
  {
    var a: U32, b: U32 := 1, 0;
    ghost var p: nat, q: nat := 0, 0;
    assert data[..0] == [];
    assert AdlerS1([]) == 1 && AdlerS2([]) == 0;
    hide Fold, AdlerS1, AdlerS2, Triangle;
    var len, at := |data|, 0;
    while len > 0
      invariant 0 <= len && at + len == |data|
      invariant a <= 0x1013A && b <= 0xFFF87
      invariant AdlerS1(data[..at]) == a + p * MOD_ADLER && AdlerS2(data[..at]) == b + q * MOD_ADLER
    {
      var tlen := if len > 5550 then 5550 else len;
      len := len - tlen;
      AdlerTop(tlen);
      a, b, q := AdlerBlock(data, at, tlen, a, b, p, q);
      at := at + tlen;
      AdlerFolds(a, b, tlen);
      p, q := p + a / 0x1_0000, q + b / 0x1_0000;
      a := Fold(a, 15);
      b := Fold(b, 15);
    }
    assert data[..at] == data;
    AdlerEnds(a, b, p, q);
    if a >= MOD_ADLER {
      a := a - MOD_ADLER;
    }
    b := Fold(b, 15);
    if b >= MOD_ADLER {
      b := b - MOD_ADLER;
    }
    return b * 0x1_0000 + a;
  }

  lemma AdlerEnds(a: nat, b: nat, p: nat, q: nat)
    requires a <= 0x1013A && b <= 0xFFF87
    ensures (a + p * MOD_ADLER) % MOD_ADLER == if a >= MOD_ADLER then a - MOD_ADLER else a
    ensures Fold(b, 15) < 2 * MOD_ADLER
    ensures (b + q * MOD_ADLER) % MOD_ADLER == if Fold(b, 15) >= MOD_ADLER then Fold(b, 15) - MOD_ADLER else Fold(b, 15)
  {
  }

  method FletcherBlock(words: seq<nat>, from: nat, n: nat, a0: U32, b0: U32, ghost p: int, ghost q0: int)
    returns (sum1: U32, sum2: U32, ghost q: int)
    requires n <= 360 && from + n <= |words| && forall i :: 0 <= i < |words| ==> words[i] < 0x1_0000
    requires 1 <= a0 <= 65895 && 1 <= b0 <= 131070
    requires Sum(words[..from]) == a0 + p * MOD_FLETCHER && SumOfSums(words[..from]) == b0 + q0 * MOD_FLETCHER
    ensures Sum(words[..from + n]) == sum1 + p * MOD_FLETCHER && SumOfSums(words[..from + n]) == sum2 + q * MOD_FLETCHER
    ensures 1 <= sum1 <= 65895 + 65535 * n && 1 <= sum2 <= 131070 + 65895 * n + 65535 * Triangle(n)
  {
    sum1, sum2, q := a0, b0, q0;
    for j := 0 to n
      invariant Sum(words[..from + j]) == sum1 + p * MOD_FLETCHER
        && SumOfSums(words[..from + j]) == sum2 + q * MOD_FLETCHER
      invariant 1 <= sum1 <= 65895 + 65535 * j && 1 <= sum2 <= 131070 + 65895 * j + 65535 * Triangle(j)
    {
      FletcherTop(j + 1);
      assert words[..from + j + 1][..from + j] == words[..from + j];
      sum1 := sum1 + words[from + j];
      sum2 := sum2 + sum1;
      q := q + p;
    }
  }

  /** A fold takes a multiple of the modulus off. */
  lemma FoldsOff(total: int, sum: nat, k: int)
    requires total == sum + k * MOD_FLETCHER && sum == Fold(sum, 1) + (sum / 0x1_0000) * MOD_FLETCHER
    ensures total == Fold(sum, 1) + (k + sum / 0x1_0000) * MOD_FLETCHER
  {
    hide Fold;
  }

  /** The loop over blocks of 360 words. p and q are what has been taken off the sums, in moduli. */
  method FletcherSums(words: seq<nat>) returns (sum1: U32, sum2: U32, ghost p: int, ghost q: int)
    requires forall i :: 0 <= i < |words| ==> words[i] < 0x1_0000
    ensures 1 <= sum1 <= 65895 && 1 <= sum2 <= 131070
    ensures Sum(words) == sum1 + p * MOD_FLETCHER && SumOfSums(words) == sum2 + q * MOD_FLETCHER
  {
    var len, at := |words|, 0;
    sum1, sum2, p, q := 0xFFFF, 0xFFFF, -1, -1;
    assert words[..0] == [];
    assert Sum([]) == 0 && SumOfSums([]) == 0;
    hide Fold, Sum, SumOfSums, Triangle;
    while len > 0
      invariant 0 <= len && at + len == |words|
      invariant 1 <= sum1 <= 65895 && 1 <= sum2 <= 131070
      invariant Sum(words[..at]) == sum1 + p * MOD_FLETCHER && SumOfSums(words[..at]) == sum2 + q * MOD_FLETCHER
    {
      var tlen := if len > 360 then 360 else len;
      len := len - tlen;
      FletcherTop(tlen);
      sum1, sum2, q := FletcherBlock(words, at, tlen, sum1, sum2, p, q);
      at := at + tlen;
      FletcherFolds(sum1, sum2, tlen);
      FoldsOff(Sum(words[..at]), sum1, p);
      FoldsOff(SumOfSums(words[..at]), sum2, q);
      p, q := p + sum1 / 0x1_0000, q + sum2 / 0x1_0000;
      sum1, sum2 := Fold(sum1, 1), Fold(sum2, 1);
    }
    assert words[..at] == words;
  }

  /** HashFletcher: both sums modulo 65535, where 0 stands as 65535. */
  method HashFletcher(buffer: seq<Byte>, length: nat) returns (r: U32)
    requires length + length % 2 <= |buffer|
    ensures r == Fletcher32(Words(buffer, (length + 1) / 2))
  {
    var words := Words(buffer, (length + 1) / 2);
    hide Fold, Sum, SumOfSums, Rep, Words;
    var sum1, sum2;
    ghost var p, q;
    sum1, sum2, p, q := FletcherSums(words);
    FletcherEnds(sum1, p);
    FletcherEnds(sum2, q);
    sum1 := Fold(sum1, 1);
    sum2 := Fold(sum2, 1);
    return sum2 * 0x1_0000 + sum1;
  }

  lemma FletcherEnds(x: nat, k: int)
    requires 1 <= x <= 131070 && x + k * MOD_FLETCHER >= 0
    ensures Fold(x, 1) == Rep(x + k * MOD_FLETCHER)
  {
  }
}

/** The block arithmetic and AES-CMAC of common/commoncrypto_aes.h. The block cipher under the key is any
    function that may fail. */
module Cmac {
  import opened Arith
  import opened Bytes
  import opened Wrappers

  type Block = s: seq<Byte> | |s| == 16 witness [0, 0, 0, 0, 0, 0, 0, 0, 0, 0, 0, 0, 0, 0, 0, 0]

  type Cipher = Block -> Option<Block>

  const ZERO: Block := [0, 0, 0, 0, 0, 0, 0, 0, 0, 0, 0, 0, 0, 0, 0, 0]
  const RB: Block := [0, 0, 0, 0, 0, 0, 0, 0, 0, 0, 0, 0, 0, 0, 0, 0x87]

  /** The big-endian number. */
  function FromBE(b: seq<Byte>): (r: nat)
    ensures r < Pow256(|b|)
  {
    if b == [] then 0 else FromBE(b[..|b| - 1]) * 256 + b[|b| - 1]
  }

  /** The low n bytes of x, most significant first. */
  function ToBE(x: nat, n: nat): (r: seq<Byte>)
    ensures |r| == n
  {
    if n == 0 then [] else ToBE(x / 256, n - 1) + [x % 256]
  }

  lemma {:induction false} ToFromBE(b: seq<Byte>)
    ensures ToBE(FromBE(b), |b|) == b
  {
    if b != [] { ToFromBE(b[..|b| - 1]); }
  }

  lemma {:induction false} FromBESplit(a: seq<Byte>, b: seq<Byte>)
    ensures FromBE(a + b) == FromBE(a) * Pow256(|b|) + FromBE(b)
  {
    if b == [] {
      assert a + b == a;
    } else {
      var init, last := b[..|b| - 1], b[|b| - 1];
      assert (a + b)[..|a + b| - 1] == a + init;
      FromBESplit(a, init);
      PlaceValue(FromBE(a), Pow256(|init|), FromBE(init), last);
    }
  }

  lemma PlaceValue(x: nat, p: nat, y: nat, last: nat)
    ensures (x * p + y) * 256 + last == x * (256 * p) + (y * 256 + last)
  {
    MulAssoc(x, p, 256);
  }

  // ---------------------------------------------------------------- counters

  /** One more, with the carries. */
  function Inc(s: seq<Byte>): (r: seq<Byte>)
    ensures |r| == |s|
  {
    if s == [] then []
    else if s[|s| - 1] == 255 then Inc(s[..|s| - 1]) + [0]
    else s[..|s| - 1] + [s[|s| - 1] + 1]
  }

  lemma {:induction false} IncIs(s: seq<Byte>)
    ensures FromBE(Inc(s)) == (FromBE(s) + 1) % Pow256(|s|)
  {
    if s != [] {
      var init, last := s[..|s| - 1], s[|s| - 1];
      if last == 255 {
        IncIs(init);
        assert Inc(s)[..|s| - 1] == Inc(init);
      } else {
        assert Inc(s)[..|s| - 1] == init;
      }
      IncDigit(FromBE(init), Pow256(|init|), last);
    }
  }

  lemma IncDigit(x: nat, n: nat, last: nat)
    requires x < n && last < 256
    ensures last == 255 ==> ((x + 1) % n) * 256 == (x * 256 + last + 1) % (256 * n)
    ensures last < 255 ==> x * 256 + last + 1 == (x * 256 + last + 1) % (256 * n)
  {
    if last == 255 && x + 1 == n {
      DivModIs(x + 1, n, 1, 0);
      DivModIs(x * 256 + 256, 256 * n, 1, 0);
    } else {
      if last == 255 { DivModIs(x + 1, n, 0, x + 1); }
      DivModIs(x * 256 + last + 1, 256 * n, 0, x * 256 + last + 1);
    }
  }

  lemma ModPlus(x: int, n: nat)
    requires n > 0
    ensures (x % n + 1) % n == (x + 1) % n
  {
    assert x == (x / n) * n + x % n;
    ModShift(x % n + 1, x / n, n);
  }

  function Zeros(n: nat): (r: seq<Byte>)
    ensures |r| == n
  {
    seq(n, _ => 0)
  }

  method IncrementOnce(ctr: array<Byte>)
    modifies ctr
    ensures ctr[..] == Inc(old(ctr[..]))
  {
    ghost var was := ctr[..];
    var i := ctr.Length;
    assert was[..i] == was && was + Zeros(0) == was;
    while i > 0
      invariant 0 <= i <= ctr.Length
      invariant ctr[..] == was[..i] + Zeros(ctr.Length - i)
      invariant Inc(was) == Inc(was[..i]) + Zeros(ctr.Length - i)
    {
      i := i - 1;
      assert was[..i + 1][..i] == was[..i];
      ctr[i] := if ctr[i] == 255 then 0 else ctr[i] + 1;
      if ctr[i] != 0 {
        return;
      }
      assert [0] + Zeros(ctr.Length - i - 1) == Zeros(ctr.Length - i);
    }
  }

  /** IncrementCtr adds to the counter modulo 2^128. */
  method IncrementCtr(ctr: array<Byte>, blocks: nat)
    requires ctr.Length == 16
    modifies ctr
    ensures FromBE(ctr[..]) == (FromBE(old(ctr[..])) + blocks) % Pow256(16)
  {
    hide FromBE, Pow256;
    FromBESmall(ctr[..]);
    var left: nat := blocks;
    while left > 0
      invariant left <= blocks
      invariant FromBE(ctr[..]) == (FromBE(old(ctr[..])) + (blocks - left)) % Pow256(16)
    {
      ghost var was := ctr[..];
      left := left - 1;
      IncrementOnce(ctr);
      IncIs(was);
      ModPlus(FromBE(old(ctr[..])) + (blocks - left - 1), Pow256(16));
    }
  }

  lemma FromBESmall(b: seq<Byte>)
    ensures FromBE(b) % Pow256(|b|) == FromBE(b)
  {
    DivModIs(FromBE(b), Pow256(|b|), 0, FromBE(b));
  }

  // ---------------------------------------------------------------- block arithmetic

  /** A block shifted left by one bit: twice its number modulo 2^128. */
  function Doubled(b: Block): Block {
    ToBE(2 * FromBE(b) % Pow256(16), 16)
  }

  method LeftShiftOne(in_: Block) returns (out: Block)
    ensures out == Doubled(in_)
  {
    hide FromBE, Pow256, ShiftByte;
    var o := new Byte[16];
    var carry: Byte := 0;
    var i := 16;
    assert o[i..] == [] && in_[i..] == [];
    FromBEOne(0);
    while i > 0
      invariant 0 <= i <= 16 && carry < 2
      invariant FromBE(o[i..]) + carry * Pow256(16 - i) == 2 * FromBE(in_[i..])
    {
      i := i - 1;
      var nextCarry: Byte := if in_[i] >= 0x80 then 1 else 0;
      ghost var low := o[i + 1..];
      o[i] := ShiftByte(in_[i], carry);
      ShiftDigit(in_[i], carry, low, in_[i + 1..]);
      assert o[i..] == [o[i]] + low && in_[i..] == [in_[i]] + in_[i + 1..];
      carry := nextCarry;
    }
    assert o[0..] == o[..] && in_[0..] == in_;
    DivModIs(2 * FromBE(in_), Pow256(16), carry, FromBE(o[..]));
    ToFromBE(o[..]);
    out := o[..];
  }

  /** (x << 1) | carry on 8 bits. */
  function ShiftByte(x: Byte, carry: Byte): Byte
    requires carry < 2
  {
    (x as int * 2 + carry as int) % 256
  }

  lemma ShiftDigit(x: Byte, carry: Byte, low: seq<Byte>, from: seq<Byte>)
    requires carry < 2 && |low| == |from| && FromBE(low) + carry * Pow256(|low|) == 2 * FromBE(from)
    ensures FromBE([ShiftByte(x, carry)] + low) + (if x >= 0x80 then 1 else 0) * Pow256(|low| + 1)
         == 2 * FromBE([x] + from)
  {
    hide *;
    var y, n := ShiftByte(x, carry), Pow256(|low|);
    FromBESplit([y], low);
    FromBESplit([x], from);
    FromBEOne(x);
    FromBEOne(y);
    ShiftByteIs(x, carry);
    Pow256Next(|low|);
    ShiftSum(x, y, if x >= 0x80 then 1 else 0, carry, n);
  }

  lemma ShiftByteIs(x: Byte, carry: Byte)
    requires carry < 2
    ensures ShiftByte(x, carry) + 256 * (if x >= 0x80 then 1 else 0) == 2 * x + carry
  {
  }

  lemma Pow256Next(n: nat)
    ensures Pow256(n + 1) == 256 * Pow256(n)
  {
  }

  lemma FromBEOne(x: Byte)
    ensures FromBE([]) == 0 && FromBE([x]) == x
  {
    assert [x][..0] == [];
  }

  lemma ShiftSum(x: nat, y: nat, high: nat, carry: nat, n: nat)
    requires y + 256 * high == 2 * x + carry
    ensures y * n + high * (256 * n) == 2 * (x * n) + carry * n
  {
    assert (y + 256 * high) * n == (2 * x + carry) * n;
  }

  /** Exclusive or, bit by bit. */
  function Xor(a: nat, b: nat): nat
    decreases a + b
  {
    if a == 0 && b == 0 then 0 else (a + b) % 2 + 2 * Xor(a / 2, b / 2)
  }

  lemma {:induction false} XorBelow(a: nat, b: nat, k: nat)
    requires a < Pow2(k) && b < Pow2(k)
    ensures Xor(a, b) < Pow2(k)
    decreases k
  {
    if !(a == 0 && b == 0) { XorBelow(a / 2, b / 2, k - 1); }
  }

  function XorByte(a: Byte, b: Byte): Byte {
    Pow2Values();
    XorBelow(a, b, 8);
    Xor(a, b)
  }

  function Xored(a: Block, b: Block): Block {
    seq(16, i requires 0 <= i < 16 => XorByte(a[i], b[i]))
  }

  /** Bit k of a number. */
  function Bit(x: nat, k: nat): nat
    decreases k
  {
    if k == 0 then x % 2 else Bit(x / 2, k - 1)
  }

  /** Each bit of the result is set exactly when one of the two is. */
  lemma {:induction false} XorBits(a: nat, b: nat, k: nat)
    ensures Bit(Xor(a, b), k) == if Bit(a, k) != Bit(b, k) then 1 else 0
    decreases k
  {
    if a == 0 && b == 0 {
      if k > 0 { XorBits(0, 0, k - 1); }
    } else {
      var r := Xor(a, b);
      assert r % 2 == (a + b) % 2 && r / 2 == Xor(a / 2, b / 2);
      if k > 0 { XorBits(a / 2, b / 2, k - 1); }
    }
  }

  method XorBlock(a: Block, b: Block) returns (out: Block)
    ensures out == Xored(a, b)
  {
    var o := new Byte[16];
    for i := 0 to 16
      invariant forall k :: 0 <= k < i ==> o[k] == XorByte(a[k], b[k])
    {
      o[i] := XorByte(a[i], b[i]);
    }
    out := o[..];
  }

  // ---------------------------------------------------------------- the MAC

  /** Section 2.3 of RFC 4493: a subkey from the block before it. */
  function Subkey(b: Block): Block {
    if b[0] < 128 then Doubled(b) else Xored(Doubled(b), RB)
  }

  /** Padding of section 2.4: a 1 bit, then 0 bits to the end of the block. */
  function Padded(m: seq<Byte>): Block
    requires |m| < 16
  {
    m + [0x80] + Zeros(15 - |m|)
  }

  /** The last block, masked with the first subkey if it is complete and with the second if it is padded. */
  function Masked(m: seq<Byte>, l: Block): Block
    requires |m| <= 16
  {
    if |m| == 16 then Xored(m, Subkey(l)) else Xored(Padded(m), Subkey(Subkey(l)))
  }

  /** The chain of section 2.4 from x over the rest of the message. */
  function Chain(cipher: Cipher, x: Block, m: seq<Byte>, l: Block): Option<Block>
    decreases |m|
  {
    if |m| <= 16 then cipher(Xored(x, Masked(m, l)))
    else match cipher(Xored(x, m[..16]))
      case None => None
      case Some(y) => Chain(cipher, y, m[16..], l)
  }

  function Mac(cipher: Cipher, m: seq<Byte>): Option<Block> {
    match cipher(ZERO)
    case None => None
    case Some(l) => Chain(cipher, ZERO, m, l)
  }

  method NextSubkey(b: Block) returns (k: Block)
    ensures k == Subkey(b)
  {
    k := LeftShiftOne(b);
    if b[0] >= 0x80 {
      k := XorBlock(k, RB);
    }
  }

  /** AESCMAC, with its counting of blocks, is the MAC of the RFC for every length of message, and fails
      exactly when the cipher does. */
  method AesCmac(message: seq<Byte>, cipher: Cipher) returns (mac: Option<Block>)
    ensures mac == Mac(cipher, message)
  {
    hide Subkey, Xored, Doubled;
    var first := cipher(ZERO);
    if first.None? {
      return None;
    }
    var l := first.value;
    var k1 := NextSubkey(l);
    var k2 := NextSubkey(k1);
    var completeLastBlock := message != [] && |message| % 16 == 0;
    var blockCount := if message == [] then 1 else (|message| + 15) / 16;
    var x := ZERO;
    var i := 0;
    assert message[0..] == message;
    while i + 1 < blockCount
      invariant 0 <= i < blockCount
      invariant Chain(cipher, x, message[i * 16..], l) == Mac(cipher, message)
    {
      var block := message[i * 16..i * 16 + 16];
      assert message[i * 16..][..16] == block && message[i * 16..][16..] == message[(i + 1) * 16..];
      var y := XorBlock(x, block);
      var next := cipher(y);
      if next.None? {
        return None;
      }
      x := next.value;
      i := i + 1;
    }
    var lastOffset := (blockCount - 1) * 16;
    var remaining := |message| - lastOffset;
    var last: Block;
    if completeLastBlock {
      last := XorBlock(message[lastOffset..lastOffset + 16], k1);
      assert message[lastOffset..lastOffset + 16] == message[lastOffset..];
    } else {
      last := XorBlock(message[lastOffset..] + [0x80] + Zeros(15 - remaining), k2);
    }
    var y := XorBlock(x, last);
    mac := cipher(y);
  }

  // ---------------------------------------------------------------- the subkeys in bits

  /** The low n bits of a number, and the bits above them. */
  lemma {:induction false} BitSplit(high: nat, low: nat, n: nat, k: nat)
    requires low < Pow2(n)
    ensures Bit(high * Pow2(n) + low, k) == if k < n then Bit(low, k) else Bit(high, k - n)
    decreases n
  {
    if n > 0 {
      var x := high * Pow2(n) + low;
      MulAssoc(high, 2, Pow2(n - 1));
      MulAssoc(2, high, Pow2(n - 1));
      assert x == 2 * (high * Pow2(n - 1)) + low;
      assert x % 2 == low % 2 && x / 2 == high * Pow2(n - 1) + low / 2;
      if k > 0 { BitSplit(high, low / 2, n - 1, k - 1); }
    }
  }

  /** Bit k of a block is bit k % 8 of the byte with k / 8 bytes after it. */
  lemma {:induction false} BitOfByte(b: seq<Byte>, k: nat)
    requires k < 8 * |b|
    ensures Bit(FromBE(b), k) == Bit(b[|b| - 1 - k / 8], k % 8)
  {
    var init, last := b[..|b| - 1], b[|b| - 1];
    Pow2Values();
    BitSplit(FromBE(init), last, 8, k);
    if k >= 8 { BitOfByte(init, k - 8); }
  }

  lemma {:induction false} FromToBE(x: nat, n: nat)
    requires x < Pow256(n)
    ensures FromBE(ToBE(x, n)) == x
  {
    if n > 0 {
      FromToBE(x / 256, n - 1);
      assert ToBE(x, n)[..n - 1] == ToBE(x / 256, n - 1);
    }
  }

  lemma {:induction false} Pow256Is(n: nat)
    ensures Pow256(n) == Pow2(8 * n)
  {
    if n > 0 {
      Pow256Is(n - 1);
      Pow2Values();
      Pow2Add(8, 8 * (n - 1));
    }
  }

  /** Doubling moves each bit one up; the top one is lost. */
  lemma DoubledBits(b: Block, k: nat)
    requires k < 128
    ensures Bit(FromBE(Doubled(b)), k) == if k == 0 then 0 else Bit(FromBE(b), k - 1)
  {
    hide *;
    var x := 2 * FromBE(b);
    DoubledIs(b);
    FromToBE(x % Pow256(16), 16);
    Pow256Is(16);
    ModBits(x, 128, k);
    BitTwice(FromBE(b), k);
  }

  lemma DoubledIs(b: Block)
    ensures Doubled(b) == ToBE(2 * FromBE(b) % Pow256(16), 16)
  {
  }

  lemma ModBits(x: nat, n: nat, k: nat)
    requires k < n
    ensures Bit(x % Pow2(n), k) == Bit(x, k)
  {
    hide Pow2, Bit;
    assert x == (x / Pow2(n)) * Pow2(n) + x % Pow2(n);
    BitSplit(x / Pow2(n), x % Pow2(n), n, k);
  }

  lemma BitTwice(x: nat, k: nat)
    ensures Bit(2 * x, k) == if k == 0 then 0 else Bit(x, k - 1)
  {
  }

  lemma XoredBits(a: Block, b: Block, k: nat)
    requires k < 128
    ensures Bit(FromBE(Xored(a, b)), k) == if Bit(FromBE(a), k) != Bit(FromBE(b), k) then 1 else 0
  {
    var j := 15 - k / 8;
    assert Xored(a, b)[j] == Xor(a[j], b[j]);
    hide *;
    BitOfByte(a, k);
    BitOfByte(b, k);
    BitOfByte(Xored(a, b), k);
    XorBits(a[j], b[j], k % 8);
  }

  /** The constant of section 2.3 of RFC 4493: bits 0, 1, 2 and 7. */
  lemma RbBits(k: nat)
    requires k < 128
    ensures Bit(FromBE(RB), k) == if k == 0 || k == 1 || k == 2 || k == 7 then 1 else 0
  {
    BitOfByte(RB, k);
    BitsOf87(k % 8);
    BitsOf0(k % 8);
    hide FromBE, Bit;
  }

  lemma BitsOf87(k: nat)
    requires k < 8
    ensures Bit(0x87, k) == if k == 0 || k == 1 || k == 2 || k == 7 then 1 else 0
  {
    assert Bit(0x87, 0) == 1 && Bit(0x87, 1) == Bit(0x43, 0) && Bit(0x87, 2) == Bit(0x43, 1) == Bit(0x21, 0);
    assert Bit(0x87, 3) == Bit(0x43, 2) == Bit(0x21, 1) == Bit(0x10, 0);
    assert Bit(0x10, 1) == Bit(8, 0) && Bit(0x10, 2) == Bit(8, 1) == Bit(4, 0);
    assert Bit(0x10, 3) == Bit(8, 2) == Bit(4, 1) == Bit(2, 0) && Bit(0x10, 4) == Bit(8, 3) == Bit(4, 2) == Bit(2, 1);
    assert Bit(0x87, 4) == Bit(0x43, 3) == Bit(0x21, 2) == Bit(0x10, 1);
    assert Bit(0x87, 5) == Bit(0x43, 4) == Bit(0x21, 3) == Bit(0x10, 2);
    assert Bit(0x87, 6) == Bit(0x43, 5) == Bit(0x21, 4) == Bit(0x10, 3);
    assert Bit(0x87, 7) == Bit(0x43, 6) == Bit(0x21, 5) == Bit(0x10, 4);
  }

  lemma {:induction false} BitsOf0(k: nat)
    ensures Bit(0, k) == 0
  {
    if k > 0 { BitsOf0(k - 1); }
  }

  /** A subkey: each bit moves one up, and if the top bit was set, bits 0, 1, 2 and 7 flip. */
  lemma SubkeyBits(b: Block, k: nat)
    requires k < 128
    ensures var up, flips := if k == 0 then 0 else Bit(FromBE(b), k - 1), b[0] >= 0x80 && k in {0, 1, 2, 7};
      Bit(FromBE(Subkey(b)), k) == if flips then 1 - up else up
  {
    hide FromBE, Doubled, Xored;
    DoubledBits(b, k);
    RbBits(k);
    XoredBits(Doubled(b), RB, k);
    BitIs(FromBE(Doubled(b)), k);
    hide Bit;
  }

  lemma {:induction false} BitIs(x: nat, k: nat)
    ensures Bit(x, k) == 0 || Bit(x, k) == 1
    decreases k
  {
    if k > 0 { BitIs(x / 2, k - 1); }
  }

  // ---------------------------------------------------------------- the MAC in steps

  /** What the chain has made of the first n whole blocks. */
  function Chained(cipher: Cipher, m: seq<Byte>, n: nat): Option<Block>
    requires 16 * n <= |m|
  {
    var zero: Block := [0, 0, 0, 0, 0, 0, 0, 0, 0, 0, 0, 0, 0, 0, 0, 0];
    if n == 0 then Some(zero)
    else match Chained(cipher, m, n - 1)
      case None => None
      case Some(x) => cipher(Xored(x, m[16 * n - 16..16 * n]))
  }

  /** The last block of a message as it goes in, before it is masked: its last 16 bytes if they are a whole
      block, and otherwise what is left, a byte 0x80 and zeros. */
  predicate LastBlock(m: seq<Byte>, b: Block) {
    if |m| > 0 && |m| % 16 == 0 then b == m[|m| - 16..]
    else forall i :: 0 <= i < 16 ==>
      b[i] == if i < |m| % 16 then m[|m| - |m| % 16 + i] else if i == |m| % 16 then 0x80 else 0
  }

  lemma WholeLast(m: seq<Byte>, rest: Block)
    requires |m| >= 16 && |m| % 16 == 0 && rest == m[|m| - 16..]
    ensures LastBlock(m, rest)
  {
  }

  lemma PaddedLast(m: seq<Byte>, rest: seq<Byte>)
    requires |rest| == |m| % 16 && rest == m[|m| - |m| % 16..] && (|m| % 16 > 0 || m == [])
    ensures LastBlock(m, Padded(rest))
  {
    var at := |m| - |rest|;
    forall i | 0 <= i < |rest| ensures m[at + i] == rest[i] {}
  }

  /** What is left after the whole blocks before the last one. */
  lemma RestIs(m: seq<Byte>, n: nat)
    requires n == if m == [] then 0 else (|m| - 1) / 16
    ensures n == 0 || 16 * n < |m|
    ensures 16 * n <= |m| <= 16 * n + 16
    ensures if |m| > 0 && |m| % 16 == 0 then |m| == 16 * n + 16 else |m| - 16 * n == |m| % 16
  {
  }

  lemma OneLastBlock(m: seq<Byte>, b: Block, c: Block)
    requires LastBlock(m, b) && LastBlock(m, c)
    ensures b == c
  {
  }

  lemma {:induction false} ChainGoesOn(cipher: Cipher, m: seq<Byte>, n: nat, l: Block)
    requires cipher(ZERO) == Some(l) && (n == 0 || 16 * n < |m|)
    ensures match Chained(cipher, m, n)
            case None => Mac(cipher, m) == None
            case Some(x) => Mac(cipher, m) == Chain(cipher, x, m[16 * n..], l)
  {
    if n > 0 {
      ChainGoesOn(cipher, m, n - 1, l);
      var rest := m[16 * (n - 1)..];
      assert rest[..16] == m[16 * n - 16..16 * n] && rest[16..] == m[16 * n..];
    } else {
      assert m[0..] == m;
    }
  }

  /** The MAC of a message whose last block is b: the cipher of the chain's value before it, b, and the first
      subkey if b is whole, the second if it is padded; and none if the cipher fails on the way. */
  lemma MacIs(cipher: Cipher, m: seq<Byte>, b: Block)
    requires LastBlock(m, b)
    ensures match cipher([0, 0, 0, 0, 0, 0, 0, 0, 0, 0, 0, 0, 0, 0, 0, 0])
            case None => Mac(cipher, m) == None
            case Some(l) =>
              var key := if |m| > 0 && |m| % 16 == 0 then Subkey(l) else Subkey(Subkey(l));
              match Chained(cipher, m, if m == [] then 0 else (|m| - 1) / 16)
              case None => Mac(cipher, m) == None
              case Some(x) => Mac(cipher, m) == cipher(Xored(x, Xored(b, key)))
  {
    hide Xored, Subkey, Padded, Chain, Chained, LastBlock, Mac;
    MacFails(cipher, m);
    if l :| cipher(ZERO) == Some(l) {
      var n := if m == [] then 0 else (|m| - 1) / 16;
      RestIs(m, n);
      ChainGoesOn(cipher, m, n, l);
      LastIs(m, n, b);
      match Chained(cipher, m, n) {
        case None =>
        case Some(x) => ChainEnds(cipher, x, m[16 * n..], l);
      }
    }
  }

  lemma MacFails(cipher: Cipher, m: seq<Byte>)
    ensures cipher(ZERO) == None ==> Mac(cipher, m) == None
  {
  }

  lemma LastIs(m: seq<Byte>, n: nat, b: Block)
    requires LastBlock(m, b) && 16 * n <= |m| <= 16 * n + 16 && (n == 0 || 16 * n < |m|)
    requires if |m| > 0 && |m| % 16 == 0 then |m| == 16 * n + 16 else |m| - 16 * n == |m| % 16
    ensures b == if |m| > 0 && |m| % 16 == 0 then m[16 * n..] else Padded(m[16 * n..])
  {
    var rest := m[16 * n..];
    hide LastBlock, Padded;
    if |m| > 0 && |m| % 16 == 0 {
      WholeLast(m, rest);
      OneLastBlock(m, b, rest);
    } else {
      PaddedLast(m, rest);
      OneLastBlock(m, b, Padded(rest));
    }
  }

  lemma ChainEnds(cipher: Cipher, x: Block, rest: seq<Byte>, l: Block)
    requires |rest| <= 16
    ensures Chain(cipher, x, rest, l)
         == cipher(Xored(x, if |rest| == 16 then Xored(rest, Subkey(l)) else Xored(Padded(rest), Subkey(Subkey(l)))))
  {
    hide Xored, Subkey, Padded;
  }
}

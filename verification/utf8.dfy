/** The UTF-8 routines of common/utf8.cpp, on text without 5- and 6-byte sequences. A C pointer into a buffer
    is a sequence and an index here. */
module Utf8 {
  import opened Bytes

  type CodePoint = x: int | 0 <= x < 0x11_0000

  // ---------------------------------------------------------------- one character

  /** What u8_toutf8 writes for a character; nothing for what is not a code point. */
  function EncodeChar(ch: U32): (r: seq<Byte>)
    ensures |r| <= 4 && (ch < 0x11_0000 ==> |r| >= 1)
  {
    if ch < 0x80 then [ch]
    else if ch < 0x800 then [ch / 64 + 0xC0, ch % 64 + 0x80]
    else if ch < 0x1_0000 then [ch / 4096 + 0xE0, ch / 64 % 64 + 0x80, ch % 64 + 0x80]
    else if ch < 0x11_0000 then [ch / 0x4_0000 + 0xF0, ch / 4096 % 64 + 0x80, ch / 64 % 64 + 0x80, ch % 64 + 0x80]
    else []
  }

  predicate IsUtf(c: Byte) {
    !(0x80 <= c < 0xC0)
  }

  function TrailingBytes(c: Byte): nat {
    if c < 0xC0 then 0
    else if c < 0xE0 then 1
    else if c < 0xF0 then 2
    else if c < 0xF8 then 3
    else if c < 0xFC then 4 else 5
  }

  function OffsetFrom(nb: nat): U32 {
    match nb
    case 0 => 0
    case 1 => 0x3080
    case 2 => 0xE_2080
    case 3 => 0x3C8_2080
    case 4 => 0xFA08_2080
    case _ => 0x8208_2080
  }

  /** The low bits of a byte. */
  function Low(b: Byte, modulus: nat): nat
    requires modulus > 0
  {
    b % modulus
  }

  /** The bits after the leading ones: section 3 of RFC 3629. */
  function PayloadOf(bytes: seq<Byte>): nat
    requires 1 <= |bytes| <= 4
  {
    if |bytes| == 1 then bytes[0]
    else if |bytes| == 2 then Low(bytes[0], 32) * 64 + Low(bytes[1], 64)
    else if |bytes| == 3 then (Low(bytes[0], 16) * 64 + Low(bytes[1], 64)) * 64 + Low(bytes[2], 64)
    else ((Low(bytes[0], 8) * 64 + Low(bytes[1], 64)) * 64 + Low(bytes[2], 64)) * 64 + Low(bytes[3], 64)
  }

  /** The largest code point of n bytes. */
  function MaxOf(n: nat): nat {
    match n
    case 0 => 0
    case 1 => 0x7F
    case 2 => 0x7FF
    case 3 => 0xFFFF
    case _ => 0x10_FFFF
  }

  /** The digits of a code point to the base 64. */
  lemma Digits(ch: nat)
    ensures ch == ch / 64 * 64 + ch % 64
    ensures ch == (ch / 4096 * 64 + ch / 64 % 64) * 64 + ch % 64
    ensures ch == ((ch / 0x4_0000 * 64 + ch / 4096 % 64) * 64 + ch / 64 % 64) * 64 + ch % 64
  {
    var q := ch / 64;
    var r := q / 64;
    assert r == ch / 4096 && r / 64 == ch / 0x4_0000;
  }

  /** The table of section 3 of RFC 3629: as few bytes as do, the first marked with their number, the others
      with 10, and the code point in the remaining bits. */
  lemma FollowsLayout(ch: CodePoint)
    ensures var e := EncodeChar(ch);
            && 1 <= |e| <= 4 && MaxOf(|e|) >= ch && (|e| > 1 ==> MaxOf(|e| - 1) < ch)
            && TrailingBytes(e[0]) == |e| - 1 && IsUtf(e[0])
            && (forall k :: 1 <= k < |e| ==> 0x80 <= e[k] < 0xC0)
            && PayloadOf(e) == ch
            && (ch != 0 ==> 0 !in e)
  {
    Digits(ch);
    LeadBytes(ch);
    if ch >= 0x80 {
      LowOf(ch % 64);
      LowOf(ch / 64 % 64);
      LowOf(ch / 4096 % 64);
      LowLead(ch);
      hide Low;
    }
  }

  /** The same in numbers, byte by byte; what is no code point has no bytes. */
  lemma LayoutNumbers(ch: U32)
    ensures var e := EncodeChar(ch);
            if ch < 0x80 then e == [ch]
            else if ch < 0x800 then
              |e| == 2 && 0xC0 <= e[0] < 0xE0 && 0x80 <= e[1] < 0xC0 && ch == (e[0] - 0xC0) * 64 + (e[1] - 0x80) as int
            else if ch < 0x1_0000 then
              && |e| == 3 && 0xE0 <= e[0] < 0xF0 && 0x80 <= e[1] < 0xC0 && 0x80 <= e[2] < 0xC0
              && ch == ((e[0] - 0xE0) as int * 64 + (e[1] - 0x80) as int) * 64 + (e[2] - 0x80) as int
            else if ch < 0x11_0000 then
              && |e| == 4 && 0xF0 <= e[0] < 0xF8
              && 0x80 <= e[1] < 0xC0 && 0x80 <= e[2] < 0xC0 && 0x80 <= e[3] < 0xC0
              && ch == (((e[0] - 0xF0) as int * 64 + (e[1] - 0x80) as int) * 64 + (e[2] - 0x80) as int) * 64
                       + (e[3] - 0x80) as int
            else e == []
  {
    if ch < 0x11_0000 {
      Digits(ch);
      LeadBytes(ch);
    }
  }

  lemma LeadBytes(ch: CodePoint)
    ensures 0x80 <= ch < 0x800 ==> 2 <= ch / 64 < 32
    ensures 0x800 <= ch < 0x1_0000 ==> ch / 4096 < 16
    ensures ch / 0x4_0000 <= 4
  {
  }

  lemma LowOf(d: nat)
    requires d < 64
    ensures Low(d + 0x80, 64) == d
  {
  }

  lemma LowLead(ch: CodePoint)
    ensures 0x80 <= ch < 0x800 ==> Low(ch / 64 + 0xC0, 32) == ch / 64
    ensures 0x800 <= ch < 0x1_0000 ==> Low(ch / 4096 + 0xE0, 16) == ch / 4096
    ensures Low(ch / 0x4_0000 + 0xF0, 8) == ch / 0x4_0000
  {
    LeadBytes(ch);
  }

  /** What the switch of u8_toucs adds up to, less the offset. */
  function Gather(src: seq<Byte>, at: nat, nb: nat): U32
    requires nb <= 3 && at + nb < |src|
  {
    (Gathered(src[at..at + nb + 1]) - OffsetFrom(nb) as int) % 0x1_0000_0000
  }

  function Gathered(bytes: seq<Byte>): nat {
    if bytes == [] then 0 else Gathered(bytes[..|bytes| - 1]) * 64 + bytes[|bytes| - 1]
  }

  lemma GatheredIs(e: seq<Byte>)
    ensures |e| == 1 ==> Gathered(e) == e[0]
    ensures |e| == 2 ==> Gathered(e) == (e[0] as int) * 64 + e[1] as int
    ensures |e| == 3 ==> Gathered(e) == ((e[0] as int) * 64 + e[1] as int) * 64 + e[2] as int
    ensures |e| == 4 ==> Gathered(e) == (((e[0] as int) * 64 + e[1] as int) * 64 + e[2] as int) * 64 + e[3] as int
  {
    if 1 <= |e| <= 4 {
      assert |e| >= 2 ==> e[..|e| - 1][..|e| - 2] == e[..|e| - 2];
      assert |e| >= 3 ==> e[..|e| - 2][..|e| - 3] == e[..|e| - 3];
      assert |e| >= 4 ==> e[..|e| - 3][..|e| - 4] == e[..|e| - 4];
      assert Gathered(e[..0]) == 0;
      assert Gathered(e[..1]) == e[0];
    }
  }

  lemma GatherValue(ch: CodePoint)
    ensures |EncodeChar(ch)| >= 1 && Gathered(EncodeChar(ch)) - OffsetFrom(|EncodeChar(ch)| - 1) as int == ch
  {
    hide Gathered;
    Digits(ch);
    GatheredIs(EncodeChar(ch));
  }

  lemma GatherReads(src: seq<Byte>, at: nat, ch: CodePoint)
    requires at + |EncodeChar(ch)| <= |src| && src[at..at + |EncodeChar(ch)|] == EncodeChar(ch)
    ensures TrailingBytes(src[at]) == |EncodeChar(ch)| - 1
    ensures Gather(src, at, |EncodeChar(ch)| - 1) == ch
  {
    hide EncodeChar, Gathered, PayloadOf, MaxOf, TrailingBytes, OffsetFrom;
    assert src[at] == EncodeChar(ch)[0] by { FollowsLayout(ch); }
    FollowsLayout(ch);
    GatherValue(ch);
  }

  // ---------------------------------------------------------------- text

  function Encode(text: seq<U32>): seq<Byte> {
    if text == [] then [] else Encode(text[..|text| - 1]) + EncodeChar(text[|text| - 1])
  }

  lemma {:induction false} EncodeConcat(a: seq<U32>, b: seq<U32>)
    ensures Encode(a + b) == Encode(a) + Encode(b)
  {
    if b == [] {
      assert a + b == a;
    } else {
      assert (a + b)[..|a + b| - 1] == a + b[..|b| - 1];
      EncodeConcat(a, b[..|b| - 1]);
    }
  }

  /** Where character k of the text starts among its bytes. */
  function StartOf(text: seq<U32>, k: nat): nat
    requires k <= |text|
  {
    |Encode(text[..k])|
  }

  /** The bytes of character k. */
  lemma CharAt(text: seq<CodePoint>, k: nat)
    requires k < |text|
    ensures var e, at := EncodeChar(text[k]), StartOf(text, k);
            && StartOf(text, k + 1) == at + |e| <= |Encode(text)|
            && Encode(text)[at..at + |e|] == e
  {
    assert text[..k + 1][..k] == text[..k];
    assert text == text[..k + 1] + text[k + 1..];
    EncodeConcat(text[..k + 1], text[k + 1..]);
  }

  lemma {:induction false} StartsGrow(text: seq<CodePoint>, j: nat, k: nat)
    requires j <= k <= |text|
    ensures StartOf(text, j) + (k - j) <= StartOf(text, k)
    decreases k - j
  {
    if j < k {
      StartsGrow(text, j, k - 1);
      CharAt(text, k - 1);
    }
  }

  // ---------------------------------------------------------------- decoding

  /** src holds the text: by length, with a readable byte after it, or ended by NUL. */
  ghost predicate HoldsText(src: seq<Byte>, srcsz: int, text: seq<CodePoint>) {
    var n := |Encode(text)|;
    && n < |src| && src[..n] == Encode(text)
    && (srcsz == n || (srcsz == -1 && src[n] == 0 && 0 !in text))
  }

  lemma SrcAt(src: seq<Byte>, srcsz: int, text: seq<CodePoint>, k: nat)
    requires HoldsText(src, srcsz, text) && k <= |text|
    ensures StartOf(text, k) <= |Encode(text)| < |src|
    ensures k == |text| ==> StartOf(text, k) == |Encode(text)|
    ensures k < |text| ==>
              var e, at := EncodeChar(text[k]), StartOf(text, k);
              && StartOf(text, k + 1) == at + |e| <= |Encode(text)| && src[at..at + |e|] == e
              && TrailingBytes(src[at]) == |e| - 1 && Gather(src, at, |e| - 1) == text[k]
              && (srcsz == -1 ==> src[at] != 0)
  {
    hide EncodeChar, Encode, Gather, TrailingBytes;
    assert text[..|text|] == text;
    StartsGrow(text, k, |text|);
    if k < |text| {
      var e, at := EncodeChar(text[k]), StartOf(text, k);
      CharAt(text, k);
      SliceOfPrefix(src, |Encode(text)|, at, |e|);
      GatherReads(src, at, text[k]);
      if srcsz == -1 { FirstNotNul(src, at, text, k); }
    }
  }

  lemma SliceOfPrefix(src: seq<Byte>, n: nat, at: nat, size: nat)
    requires at + size <= n <= |src|
    ensures src[..n][at..at + size] == src[at..at + size]
  {
  }

  lemma FirstNotNul(src: seq<Byte>, at: nat, text: seq<CodePoint>, k: nat)
    requires k < |text| && 0 !in text && at + |EncodeChar(text[k])| <= |src|
    requires src[at..at + |EncodeChar(text[k])|] == EncodeChar(text[k])
    ensures at < |src| && src[at] != 0
  {
    hide EncodeChar, PayloadOf, MaxOf, TrailingBytes;
    FollowsLayout(text[k]);
    assert text[k] in text && src[at] == EncodeChar(text[k])[0];
  }

  /** u8_toucs gives the characters back, as many as there is room for, and always ends them with 0. */
  method ToUcs(dest: array<U32>, sz: nat, src: seq<Byte>, srcsz: int, ghost text: seq<CodePoint>) returns (i: nat)
    requires 1 <= sz <= dest.Length && HoldsText(src, srcsz, text)
    modifies dest
    ensures i == if |text| < sz - 1 then |text| else sz - 1
    ensures dest[..i] == text[..i] && dest[i] == 0
  {
    hide HoldsText, Encode, Gather, StartOf;
    i := 0;
    var at := 0;
    SrcAt(src, srcsz, text, 0);
    StartAtZero(text);
    while i < sz - 1
      invariant i <= |text| && i <= sz - 1 && at == StartOf(text, i)
      invariant dest[..i] == text[..i]
    {
      SrcAt(src, srcsz, text, i);
      SrcSize(src, srcsz, text);
      var nb := TrailingBytes(src[at]);
      if srcsz == -1 {
        if src[at] == 0 {
          break;
        }
      } else {
        if at + nb >= srcsz {
          break;
        }
      }
      var ch := Gather(src, at, nb);
      at := at + nb + 1;
      dest[i] := ch;
      i := i + 1;
    }
    dest[i] := 0;
  }

  lemma StartAtZero(text: seq<CodePoint>)
    ensures StartOf(text, 0) == 0
  {
  }

  lemma SrcSize(src: seq<Byte>, srcsz: int, text: seq<CodePoint>)
    requires HoldsText(src, srcsz, text)
    ensures srcsz == |Encode(text)| || srcsz == -1
    ensures srcsz == -1 ==> src[|Encode(text)|] == 0
  {
  }

  // ---------------------------------------------------------------- encoding

  /** How many characters fit before the first that does not. */
  function Fitting(chars: seq<U32>, room: nat): (r: nat)
    ensures r <= |chars|
  {
    if chars == [] || |EncodeChar(chars[0])| > room then 0 else 1 + Fitting(chars[1..], room - |EncodeChar(chars[0])|)
  }

  /** The most that the room holds, cut between characters. */
  lemma {:induction false} FittingIs(chars: seq<U32>, room: nat)
    ensures |Encode(chars[..Fitting(chars, room)])| <= room
    ensures Fitting(chars, room) < |chars| ==> |Encode(chars[..Fitting(chars, room) + 1])| > room
  {
    hide EncodeChar, Encode;
    EncodeNothing();
    if chars == [] {
    } else {
      FirstChar(chars[0]);
      if |EncodeChar(chars[0])| > room {
        assert chars[..1] == [chars[0]];
      } else {
        var n := Fitting(chars[1..], room - |EncodeChar(chars[0])|);
        FittingIs(chars[1..], room - |EncodeChar(chars[0])|);
        assert chars[..n + 1] == [chars[0]] + chars[1..][..n];
        EncodeConcat([chars[0]], chars[1..][..n]);
        if n < |chars[1..]| {
          assert chars[..n + 2] == [chars[0]] + chars[1..][..n + 1];
          EncodeConcat([chars[0]], chars[1..][..n + 1]);
        }
      }
    }
  }

  lemma FirstChar(ch: U32)
    ensures Encode([ch]) == EncodeChar(ch)
  {
    assert [ch][..0] == [];
    assert [] + EncodeChar(ch) == EncodeChar(ch);
  }

  /** The characters there are: srcsz of them, or up to a 0. */
  ghost predicate HasChars(src: seq<U32>, srcsz: int, chars: seq<U32>) {
    && |chars| <= |src| && src[..|chars|] == chars
    && (if srcsz < 0 then 0 !in chars && |chars| < |src| && src[|chars|] == 0 else srcsz == |chars|)
  }

  /** The branches of u8_toutf8 for one character. */
  method PutChar(dest: array<Byte>, start: nat, sz: nat, ch: U32) returns (ok: bool, at: nat)
    requires start <= sz <= dest.Length
    modifies dest
    ensures ok <==> start + |EncodeChar(ch)| <= sz
    ensures at == if ok then start + |EncodeChar(ch)| else start
    ensures dest[..start] == old(dest[..start])
    ensures ok ==> dest[start..at] == EncodeChar(ch)
    ensures forall k :: sz <= k < dest.Length ==> dest[k] == old(dest[k])
  {
    at := start;
    ghost var code := EncodeChar(ch);
    if ch < 0x80 {
      if at >= sz {
        return false, at;
      }
      dest[at] := ch;
      at := at + 1;
    } else if ch < 0x800 {
      if at >= sz - 1 {
        return false, at;
      }
      assert code == [ch / 64 + 0xC0, ch % 64 + 0x80];
      hide EncodeChar;
      dest[at] := ch / 64 + 0xC0;
      dest[at + 1] := ch % 64 + 0x80;
      at := at + 2;
    } else if ch < 0x1_0000 {
      if at >= sz - 2 {
        return false, at;
      }
      assert code == [ch / 4096 + 0xE0, ch / 64 % 64 + 0x80, ch % 64 + 0x80];
      hide EncodeChar;
      dest[at] := ch / 4096 + 0xE0;
      dest[at + 1] := ch / 64 % 64 + 0x80;
      dest[at + 2] := ch % 64 + 0x80;
      at := at + 3;
    } else if ch < 0x11_0000 {
      if at >= sz - 3 {
        return false, at;
      }
      assert code == [ch / 0x4_0000 + 0xF0, ch / 4096 % 64 + 0x80, ch / 64 % 64 + 0x80, ch % 64 + 0x80];
      hide EncodeChar;
      dest[at] := ch / 0x4_0000 + 0xF0;
      dest[at + 1] := ch / 4096 % 64 + 0x80;
      dest[at + 2] := ch / 64 % 64 + 0x80;
      dest[at + 3] := ch % 64 + 0x80;
      at := at + 4;
    }
    ok := true;
  }

  /** u8_toutf8 writes whole characters as far as they fit, and a NUL if there is room for it after all. */
  method ToUtf8(dest: array<Byte>, sz: nat, src: seq<U32>, srcsz: int, ghost chars: seq<U32>) returns (i: nat)
    requires sz <= dest.Length && HasChars(src, srcsz, chars)
    modifies dest
    ensures i == Fitting(chars, sz)
    ensures var n := |Encode(chars[..i])|; n <= sz && dest[..n] == Encode(chars[..i])
    ensures var n := |Encode(chars[..i])|; i == |chars| && n < sz ==> dest[n] == 0
    ensures forall k :: sz <= k < dest.Length ==> dest[k] == old(dest[k])
  {
    hide Encode, EncodeChar;
    EncodeNothing();
    i := 0;
    var at := 0;
    assert chars[..0] == [] && chars[0..] == chars;
    while if srcsz < 0 then src[i] != 0 else i < srcsz
      invariant i <= |chars| && at <= sz && at == |Encode(chars[..i])|
      invariant i + Fitting(chars[i..], sz - at) == Fitting(chars, sz)
      invariant dest[..at] == Encode(chars[..i])
      invariant forall k :: sz <= k < dest.Length ==> dest[k] == old(dest[k])
      decreases |chars| - i
    {
      assert src[i] == chars[i] by { assert src[..|chars|][i] == chars[i]; }
      assert chars[i..][0] == chars[i] && chars[i..][1..] == chars[i + 1..];
      EncodeMore(chars, i);
      var ok;
      ghost var done := at;
      ok, at := PutChar(dest, at, sz, src[i]);
      assert dest[..at] == dest[..done] + dest[done..at];
      if !ok {
        return;
      }
      i := i + 1;
    }
    assert chars[i..] == [];
    if at < sz {
      dest[at] := 0;
    }
  }

  lemma EncodeNothing()
    ensures Encode([]) == []
  {
  }

  lemma EncodeMore(chars: seq<U32>, i: nat)
    requires i < |chars|
    ensures Encode(chars[..i + 1]) == Encode(chars[..i]) + EncodeChar(chars[i])
  {
    assert chars[..i + 1][..i] == chars[..i];
  }

  /** Encoding and decoding, with room for all of it and the terminators, is the identity on code points,
      for text given by its length and for NUL-ended text without a NUL in it. */
  method RoundTrip(text: seq<CodePoint>, byLength: bool) returns (back: array<U32>, n: nat)
    requires byLength || 0 !in text
    ensures n == |text| && back.Length == n + 1 && back[..n] == text && back[n] == 0
  {
    var size := 4 * |text| + 1;
    AtMostFour(text);
    AllFits(text, size);
    var bytes := new Byte[size];
    var src: seq<U32> := text + [0];
    var count := ToUtf8(bytes, size, src, if byLength then |text| else -1, text);
    assert text[..count] == text;
    back := new U32[|text| + 1];
    n := ToUcs(back, |text| + 1, bytes[..], if byLength then |Encode(text)| else -1, text);
  }

  lemma {:induction false} AtMostFour(text: seq<U32>)
    ensures |Encode(text)| <= 4 * |text|
  {
    if text != [] { AtMostFour(text[..|text| - 1]); }
  }

  lemma AllFits(chars: seq<U32>, room: nat)
    requires |Encode(chars)| <= room
    ensures Fitting(chars, room) == |chars|
  {
    hide Encode, Fitting;
    var n := Fitting(chars, room);
    if n < |chars| {
      assert chars[..n + 1] + chars[n + 1..] == chars;
      EncodeConcat(chars[..n + 1], chars[n + 1..]);
    }
    FittingIs(chars, room);
  }

  // ---------------------------------------------------------------- offsets

  /** From the start of a character to the start of the next: up to four bytes on. */
  method NextStart(str: seq<Byte>, at: nat, ghost text: seq<CodePoint>, ghost k: nat) returns (next: nat)
    requires HoldsText(str, -1, text) && k < |text| && at == StartOf(text, k)
    ensures next == StartOf(text, k + 1)
  {
    StartMarks(str, text, k);
    hide HoldsText, StartOf, Encode, EncodeChar;
    next := at + 1;
    if !IsUtf(str[next]) {
      next := next + 1;
      if !IsUtf(str[next]) {
        next := next + 1;
        if !IsUtf(str[next]) {
          next := next + 1;
        }
      }
    }
  }

  /** Between the starts of two characters lie only continuation bytes, and the next start, or the NUL, is none. */
  lemma StartMarks(str: seq<Byte>, text: seq<CodePoint>, k: nat)
    requires HoldsText(str, -1, text) && k < |text|
    ensures var at, next := StartOf(text, k), StartOf(text, k + 1);
            && at < next <= at + 4 && next < |str| && IsUtf(str[next])
            && forall j :: at < j < next ==> !IsUtf(str[j])
  {
    hide EncodeChar, Encode, Gather, Gathered, PayloadOf, MaxOf, TrailingBytes;
    SrcAt(str, -1, text, k);
    SrcAt(str, -1, text, k + 1);
    FollowsLayout(text[k]);
    var e, at := EncodeChar(text[k]), StartOf(text, k);
    forall j | at < j < at + |e| ensures !IsUtf(str[j]) {
      assert str[j] == e[j - at];
    }
    if k + 1 < |text| {
      FollowsLayout(text[k + 1]);
      assert str[at + |e|] == EncodeChar(text[k + 1])[0];
    }
  }

  lemma NulEnds(str: seq<Byte>, text: seq<CodePoint>, k: nat)
    requires HoldsText(str, -1, text) && k <= |text|
    ensures StartOf(text, k) < |str| && (str[StartOf(text, k)] == 0 <==> k == |text|)
  {
    SrcAt(str, -1, text, k);
    SrcSize(str, -1, text);
  }

  /** u8_offset: where character number charnum starts, or where the text ends. */
  method Offset(str: seq<Byte>, charnum: int, ghost text: seq<CodePoint>) returns (offs: nat)
    requires HoldsText(str, -1, text)
    ensures offs == StartOf(text, if charnum < 0 then 0 else if charnum < |text| then charnum else |text|)
  {
    hide HoldsText, StartOf;
    StartAtZero(text);
    var left := charnum;
    ghost var k := 0;
    offs := 0;
    NulEnds(str, text, 0);
    while left > 0 && str[offs] != 0
      invariant k <= |text| && offs == StartOf(text, k) && offs < |str|
      invariant str[offs] == 0 <==> k == |text|
      invariant if charnum < 0 then k == 0 && left == charnum else left == charnum - k && left >= 0
      decreases left
    {
      offs := NextStart(str, offs, text, k);
      left := left - 1;
      k := k + 1;
      NulEnds(str, text, k);
    }
  }

  /** u8_charnum: how many characters start before the offset. */
  method CharNum(s: seq<Byte>, offset: int, ghost text: seq<CodePoint>) returns (charnum: nat)
    requires HoldsText(s, -1, text)
    ensures charnum <= |text|
    ensures forall k :: 0 <= k < |text| ==> (k < charnum <==> StartOf(text, k) < offset)
  {
    hide HoldsText, StartOf;
    StartAtZero(text);
    charnum := 0;
    var offs := 0;
    NulEnds(s, text, 0);
    while offs < offset && s[offs] != 0
      invariant charnum <= |text| && offs == StartOf(text, charnum) && offs < |s|
      invariant s[offs] == 0 <==> charnum == |text|
      invariant forall k :: 0 <= k < charnum ==> StartOf(text, k) < offset
      decreases |text| - charnum
    {
      offs := NextStart(s, offs, text, charnum);
      charnum := charnum + 1;
      NulEnds(s, text, charnum);
    }
    forall k | charnum <= k < |text| ensures StartOf(text, k) >= offset {
      StartsGrow(text, charnum, k);
    }
  }

  /** The two undo each other, for every character number up to the number of characters. */
  method CharNumOfOffset(s: seq<Byte>, k: nat, ghost text: seq<CodePoint>) returns (n: nat)
    requires HoldsText(s, -1, text) && k <= |text|
    ensures n == k
  {
    var offset := Offset(s, k, text);
    n := CharNum(s, offset, text);
    if n < k { StartsGrow(text, n, k); }
  }
}

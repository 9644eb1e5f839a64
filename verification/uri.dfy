/** Percent-encoding: UriEncode and UriDecode of common/string_util.cpp, and DecodeFileUrlPath of
    core_adapter.cpp, on bytes. Pointers into a string are indexes here. */
module Uri {
  import opened Bytes
  import opened Seqs

  /** SAFE: letters and digits. */
  predicate Safe(c: Byte) {
    0x30 <= c <= 0x39 || 0x41 <= c <= 0x5A || 0x61 <= c <= 0x7A
  }

  /** HEX2DEC: the value of a hexadecimal digit, or 16. */
  function Hex2Dec(c: Byte): (r: nat)
    ensures r <= 16
  {
    if 0x30 <= c <= 0x39 then c - 0x30
    else if 0x41 <= c <= 0x46 then c - 0x41 + 10
    else if 0x61 <= c <= 0x66 then c - 0x61 + 10
    else 16
  }

  /** DEC2HEX. */
  function Dec2Hex(d: nat): Byte
    requires d < 16
  {
    if d < 10 then 0x30 + d else 0x41 + (d - 10)
  }

  /** Two hexadecimal digits follow a percent sign: the escape of section 2.4.1 of RFC 2396. */
  predicate EscapeAt(s: seq<Byte>, i: nat) {
    i + 2 < |s| && s[i] == 0x25 && Hex2Dec(s[i + 1]) < 16 && Hex2Dec(s[i + 2]) < 16
  }

  /** What s stands for: each escape is the byte it names, and everything else, including a percent sign
      without two digits after it, is itself. */
  function Decoded(s: seq<Byte>): seq<Byte> {
    if s == [] then []
    else if EscapeAt(s, 0) then [16 * Hex2Dec(s[1]) + Hex2Dec(s[2])] + Decoded(s[3..])
    else [s[0]] + Decoded(s[1..])
  }

  function EncodedChar(c: Byte): seq<Byte> {
    if Safe(c) then [c] else [0x25, Dec2Hex(c / 16), Dec2Hex(c % 16)]
  }

  function Encoded(s: seq<Byte>): seq<Byte> {
    if s == [] then [] else EncodedChar(s[0]) + Encoded(s[1..])
  }

  lemma {:induction false} EncodedConcat(a: seq<Byte>, b: seq<Byte>)
    ensures Encoded(a + b) == Encoded(a) + Encoded(b)
  {
    if a == [] {
      assert a + b == b;
    } else {
      assert (a + b)[1..] == a[1..] + b;
      EncodedConcat(a[1..], b);
    }
  }

  /** Encoded text has only letters, digits and complete escapes with upper-case digits, at most three bytes a byte. */
  lemma {:induction false} EncodedForm(s: seq<Byte>)
    ensures |Encoded(s)| <= 3 * |s|
    ensures forall k :: 0 <= k < |Encoded(s)| ==> Safe(Encoded(s)[k]) || EscapeAt(Encoded(s), k)
    ensures forall k :: 0 <= k < |Encoded(s)| && EscapeAt(Encoded(s), k) ==>
              !(0x61 <= Encoded(s)[k + 1] <= 0x66) && !(0x61 <= Encoded(s)[k + 2] <= 0x66)
  {
    if s != [] {
      EncodedForm(s[1..]);
      var e, head, rest := Encoded(s), EncodedChar(s[0]), Encoded(s[1..]);
      forall k | 0 <= k < |e|
        ensures Safe(e[k]) || EscapeAt(e, k)
        ensures EscapeAt(e, k) ==> !(0x61 <= e[k + 1] <= 0x66) && !(0x61 <= e[k + 2] <= 0x66)
      {
        if k >= |head| {
          assert e[k] == rest[k - |head|];
          assert EscapeAt(e, k) <==> EscapeAt(rest, k - |head|);
        }
      }
    }
  }

  /** Decoding what was encoded gives every byte string back. */
  lemma {:induction false} DecodeEncode(s: seq<Byte>)
    ensures Decoded(Encoded(s)) == s
  {
    if s != [] {
      DecodeEncode(s[1..]);
      var head, rest := EncodedChar(s[0]), Encoded(s[1..]);
      assert (head + rest)[|head|..] == rest;
    }
  }

  lemma EncodeStep(src: seq<Byte>, i: nat)
    requires i < |src|
    ensures Encoded(src[..i + 1]) == Encoded(src[..i]) + EncodedChar(src[i])
  {
    assert src[..i + 1] == src[..i] + [src[i]];
    EncodedConcat(src[..i], [src[i]]);
    assert Encoded([src[i]]) == EncodedChar(src[i]);
  }

  method UriEncode(src: seq<Byte>) returns (result: seq<Byte>)
    ensures result == Encoded(src)
  {
    EncodedForm(src);
    var start := new Byte[|src| * 3];
    var end := 0;
    assert src[..0] == [] && src[..|src|] == src;
    assert Encoded([]) == [];
    hide Encoded;
    for i := 0 to |src|
      invariant end <= 3 * i && end == |Encoded(src[..i])|
      invariant forall k :: 0 <= k < end ==> start[k] == Encoded(src[..i])[k]
    {
      var c := src[i];
      EncodeStep(src, i);
      if Safe(c) {
        start[end] := c;
        end := end + 1;
      } else {
        start[end] := 0x25;
        start[end + 1] := Dec2Hex(c / 16);
        start[end + 2] := Dec2Hex(c % 16);
        end := end + 3;
      }
    }
    result := start[..end];
  }

  /** UriDecode, with its buffer as long as its input and its separate loop for the last two characters. */
  method UriDecode(src: seq<Byte>) returns (result: seq<Byte>)
    ensures result == Decoded(src)
  {
    var start := new Byte[|src|];
    var end := 0;
    var i := 0;
    var srcLastDec := |src| - 2;
    ghost var whole := Decoded(src);
    assert src[0..] == src;
    hide Decoded, Hex2Dec;
    while i < srcLastDec
      invariant end <= i <= |src| && end <= |whole|
      invariant whole[end..] == Decoded(src[i..])
      invariant forall k :: 0 <= k < end ==> start[k] == whole[k]
    {
      DecodeStep(src, i);
      if src[i] == 0x25 && Hex2Dec(src[i + 1]) != 16 && Hex2Dec(src[i + 2]) != 16 {
        start[end] := 16 * Hex2Dec(src[i + 1]) + Hex2Dec(src[i + 2]);
        HeadTail(whole, end, start[end], Decoded(src[i + 3..]));
        end, i := end + 1, i + 3;
      } else {
        start[end] := src[i];
        HeadTail(whole, end, start[end], Decoded(src[i + 1..]));
        end, i := end + 1, i + 1;
      }
    }
    while i < |src|
      invariant end <= i <= |src| && end <= |whole| && i >= srcLastDec
      invariant whole[end..] == Decoded(src[i..])
      invariant forall k :: 0 <= k < end ==> start[k] == whole[k]
    {
      DecodeStep(src, i);
      start[end] := src[i];
      HeadTail(whole, end, start[end], Decoded(src[i + 1..]));
      end, i := end + 1, i + 1;
    }
    result := start[..end];
    NothingDecoded(src[i..]);
    assert end == |whole|;
  }

  lemma NothingDecoded(s: seq<Byte>)
    requires s == []
    ensures Decoded(s) == []
  {
  }

  lemma DecodeStep(src: seq<Byte>, i: nat)
    requires i < |src|
    ensures EscapeAt(src, i) ==>
      Decoded(src[i..]) == [16 * Hex2Dec(src[i + 1]) + Hex2Dec(src[i + 2])] + Decoded(src[i + 3..])
    ensures !EscapeAt(src, i) ==> Decoded(src[i..]) == [src[i]] + Decoded(src[i + 1..])
  {
    var s := src[i..];
    assert EscapeAt(s, 0) <==> EscapeAt(src, i);
    assert s[1..] == src[i + 1..];
    if EscapeAt(src, i) { assert s[3..] == src[i + 3..]; }
  }

  /** tolower in the C locale. */
  function ToLower(c: Byte): Byte {
    if 0x41 <= c <= 0x5A then c + 0x20 else c
  }

  function DecodeHexNibble(c: Byte): int {
    if 0x30 <= c <= 0x39 then c - 0x30
    else
      var l := ToLower(c);
      if 0x61 <= l <= 0x66 then 10 + (l - 0x61) else -1
  }

  /** The two digit readers agree, also on what is no digit. */
  lemma NibblesAgree(c: Byte)
    ensures DecodeHexNibble(c) == if Hex2Dec(c) == 16 then -1 else Hex2Dec(c)
  {
  }

  /** DecodeFileUrlPath decodes as UriDecode does, on every input. */
  method DecodeFileUrlPath(path: seq<Byte>) returns (decoded: seq<Byte>)
    ensures decoded == Decoded(path)
  {
    decoded := [];
    var i := 0;
    ghost var whole := Decoded(path);
    assert path[0..] == path;
    hide Decoded, Hex2Dec, DecodeHexNibble;
    while i < |path|
      invariant i <= |path| && |decoded| <= |whole|
      invariant decoded == whole[..|decoded|] && whole[|decoded|..] == Decoded(path[i..])
    {
      DecodeStep(path, i);
      ghost var end := |decoded|;
      var escaped := false;
      if path[i] == 0x25 && i + 2 < |path| {
        var hi := DecodeHexNibble(path[i + 1]);
        var lo := DecodeHexNibble(path[i + 2]);
        NibblesAgree(path[i + 1]);
        NibblesAgree(path[i + 2]);
        if hi >= 0 && lo >= 0 {
          decoded := decoded + [16 * hi + lo];
          i := i + 3;
          escaped := true;
        }
      }
      if !escaped {
        decoded := decoded + [path[i]];
        i := i + 1;
      }
      HeadTail(whole, end, decoded[end], Decoded(path[i..]));
    }
    NothingDecoded(path[i..]);
  }

  /** UriDecode(UriEncode(s)) is s, for every byte string. */
  method RoundTrip(s: seq<Byte>) returns (back: seq<Byte>)
    ensures back == s
  {
    var encoded := UriEncode(s);
    back := UriDecode(encoded);
    DecodeEncode(s);
  }

  // ---------------------------------------------------------------- in bytes

  /** The digits, by value. */
  function Upper(d: nat): Byte
    requires d < 16
  {
    [0x30, 0x31, 0x32, 0x33, 0x34, 0x35, 0x36, 0x37, 0x38, 0x39, 0x41, 0x42, 0x43, 0x44, 0x45, 0x46][d]
  }

  function Lower(d: nat): Byte
    requires d < 16
  {
    [0x30, 0x31, 0x32, 0x33, 0x34, 0x35, 0x36, 0x37, 0x38, 0x39, 0x61, 0x62, 0x63, 0x64, 0x65, 0x66][d]
  }

  lemma DigitsAre(d: nat)
    requires d < 16
    ensures Upper(d) == (if d < 10 then 0x30 + d else 0x37 + d) && Lower(d) == (if d < 10 then 0x30 + d else 0x57 + d)
  {
  }

  predicate Digit(c: Byte) {
    exists d :: 0 <= d < 16 && (c == Upper(d) || c == Lower(d))
  }

  lemma DigitIs(c: Byte)
    ensures Digit(c) <==> Hex2Dec(c) < 16
    ensures forall d :: 0 <= d < 16 && (c == Upper(d) || c == Lower(d)) ==> Hex2Dec(c) == d
  {
    forall d: nat | d < 16
      ensures Upper(d) == (if d < 10 then 0x30 + d else 0x37 + d) && Lower(d) == (if d < 10 then 0x30 + d else 0x57 + d)
    {
      DigitsAre(d);
    }
    hide Upper, Lower;
    if Hex2Dec(c) < 16 { assert c == Upper(Hex2Dec(c)) || c == Lower(Hex2Dec(c)); }
  }

  /** The digits 0 to 9, A to F and a to f have the values 0 to 15; two of them after a percent sign are a byte. */
  lemma EscapeValue(s: seq<Byte>, h: nat, l: nat)
    requires |s| >= 3 && s[0] == 0x25 && h < 16 && l < 16
    requires (s[1] == Upper(h) || s[1] == Lower(h)) && (s[2] == Upper(l) || s[2] == Lower(l))
    ensures Decoded(s) == [16 * h + l] + Decoded(s[3..])
  {
    hide Upper, Lower, Hex2Dec;
    DigitIs(s[1]);
    DigitIs(s[2]);
  }

  /** Every other byte stands for itself, a percent sign without two digits after it too. */
  lemma NoEscape(s: seq<Byte>)
    requires s != []
    requires s[0] != 0x25 || |s| < 3 || !Digit(s[1]) || !Digit(s[2])
    ensures Decoded(s) == [s[0]] + Decoded(s[1..])
  {
    hide Upper, Lower, Hex2Dec, Digit;
    if |s| >= 3 {
      DigitIs(s[1]);
      DigitIs(s[2]);
    }
  }

  /** Digits and letters are encoded as themselves, and every other byte as a percent sign and two digits. */
  lemma EncodedBytes(s: seq<Byte>, c: Byte)
    ensures Encoded(s + [c]) == Encoded(s) +
      if 0x30 <= c <= 0x39 || 0x41 <= c <= 0x5A || 0x61 <= c <= 0x7A then [c]
      else [0x25, Upper(c / 16), Upper(c % 16)]
    ensures Encoded([]) == []
  {
    hide Upper;
    DigitsAre(c / 16);
    DigitsAre(c % 16);
    EncodedConcat(s, [c]);
    assert Encoded([c]) == EncodedChar(c);
  }
}

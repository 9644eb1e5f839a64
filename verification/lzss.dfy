/** The backward LZSS decoder of core/loader.cpp: the compressed stream is read from its end down, and the
    output is filled from its end down, in a buffer that starts with a copy of the whole input. */
module Lzss {
  import opened Bytes
  import opened Seqs
  import opened Wrappers

  /** Back copies size bytes, each from off + 1 places further on than it goes. */
  datatype Token = Lit(b: Byte) | Back(off: nat, size: nat) | Broken

  // ---------------------------------------------------------------- what a stream means

  function BackToken(low: Byte, high: Byte): Token {
    var v := low + 256 * high;
    Back(v % 4096 + 2, v / 4096 + 3)
  }

  /** The tokens above stop in the bytes below index. Each group of up to eight has its control byte above it. */
  function Parse(c: seq<Byte>, index: nat, stop: nat): seq<Token>
    requires index <= |c|
    decreases index, 0
  {
    if index <= stop then [] else ParseGroup(c, index - 1, stop, c[index - 1], 8)
  }

  function ParseGroup(c: seq<Byte>, index: nat, stop: nat, control: Byte, left: nat): seq<Token>
    requires index <= |c|
    decreases index, left + 1
  {
    if left == 0 || index <= stop then Parse(c, index, stop)
    else if control < 128 then [Lit(c[index - 1])] + ParseGroup(c, index - 1, stop, control * 2 % 256, left - 1)
    else if index < 2 then [Broken]
    else [BackToken(c[index - 2], c[index - 1])] + ParseGroup(c, index - 2, stop, control * 2 % 256, left - 1)
  }

  /** Puts size bytes before done, each equal to the one off + 1 places after it. */
  function CopyBack(done: seq<Byte>, off: nat, size: nat): Option<seq<Byte>>
    decreases size
  {
    if size == 0 then Some(done)
    else if off >= |done| then None
    else CopyBack([done[off]] + done, off, size - 1)
  }

  /** The output that the tokens put before done, in a buffer of room bytes. */
  function Expand(tokens: seq<Token>, done: seq<Byte>, room: nat): Option<seq<Byte>>
    decreases |tokens|
  {
    if tokens == [] || |done| >= room then Some(done)
    else match tokens[0]
      case Lit(b) => Expand(tokens[1..], [b] + done, room)
      case Back(off, size) =>
        if |done| + size > room then None
        else (match CopyBack(done, off, size)
              case None => None
              case Some(more) => Expand(tokens[1..], more, room))
      case Broken => None
  }

  lemma {:induction false} CopyBackRepeats(done: seq<Byte>, off: nat, size: nat)
    ensures CopyBack(done, off, size).Some? <==> size == 0 || off < |done|
    ensures CopyBack(done, off, size).Some? ==>
              var r := CopyBack(done, off, size).value;
              && |r| == size + |done| && r[size..] == done
              && forall i :: 0 <= i < size ==> r[i] == r[i + off + 1]
    decreases size
  {
    if size > 0 && off < |done| {
      var done' := [done[off]] + done;
      CopyBackRepeats(done', off, size - 1);
      var r := CopyBack(done, off, size).value;
      assert r[size - 1..] == done';
      assert r[size..] == done'[1..];
      assert r[size - 1] == done'[0] && r[size - 1 + off + 1] == done'[off + 1];
    }
  }

  /** What has been put out is never changed, and never overflows the room. */
  lemma {:induction false} ExpandKeeps(tokens: seq<Token>, done: seq<Byte>, room: nat)
    requires |done| <= room
    ensures Expand(tokens, done, room).Some? ==>
              var r := Expand(tokens, done, room).value;
              |done| <= |r| <= room && r[|r| - |done|..] == done
    decreases |tokens|
  {
    if tokens != [] && |done| < room {
      match tokens[0]
      case Lit(b) => ExpandKeeps(tokens[1..], [b] + done, room);
      case Back(off, size) =>
        if |done| + size <= room && CopyBack(done, off, size).Some? {
          CopyBackRepeats(done, off, size);
          ExpandKeeps(tokens[1..], CopyBack(done, off, size).value, room);
        }
      case Broken =>
    }
  }

  // ---------------------------------------------------------------- the decoder

  /** LZSSGetDecompressedSize. */
  function DecompressedSize(buffer: seq<Byte>): (r: nat)
    ensures |buffer| >= 4 ==> r >= |buffer|
  {
    if |buffer| < 4 then 0 else FromLE(buffer[|buffer| - 4..]) + |buffer|
  }

  function TopAndBottom(compressed: seq<Byte>): nat
    requires |compressed| >= 8
  {
    FromLE(compressed[|compressed| - 8..|compressed| - 4])
  }

  /** Where the stream starts (high) and stops (low); a difference below 0 is a huge size_t. */
  function StartIndex(compressed: seq<Byte>): int
    requires |compressed| >= 8
  {
    |compressed| - TopAndBottom(compressed) / 0x100_0000 % 256
  }

  function StopIndex(compressed: seq<Byte>): int
    requires |compressed| >= 8
  {
    |compressed| - TopAndBottom(compressed) % 0x100_0000
  }

  /** What decoding puts at the end of the buffer, or that it fails. */
  function Decoded(compressed: seq<Byte>, room: nat): Option<seq<Byte>> {
    if |compressed| < 8 || room == 0 || StartIndex(compressed) < 0 || StopIndex(compressed) < 0 then None
    else Expand(Parse(compressed, StartIndex(compressed), StopIndex(compressed)), [], room)
  }

  /** Below its end a buffer still has the input, then zeros. */
  predicate StillInput(buffer: seq<Byte>, compressed: seq<Byte>, end: nat) {
    end <= |buffer| && forall j :: 0 <= j < end ==> buffer[j] == if j < |compressed| then compressed[j] else 0
  }

  /** The innermost loop: one back-reference. */
  method CopySegment(a: array<Byte>, start: nat, off: nat, size: nat) returns (ok: bool)
    requires size <= start <= a.Length
    modifies a
    ensures ok <==> CopyBack(old(a[start..]), off, size).Some?
    ensures ok ==> a[start - size..] == CopyBack(old(a[start..]), off, size).value
    ensures forall j :: 0 <= j < start - size ==> a[j] == old(a[j])
  {
    var out := start;
    for j := 0 to size
      invariant out == start - j
      invariant CopyBack(a[out..], off, size - j) == CopyBack(old(a[start..]), off, size)
      invariant forall k :: 0 <= k < out ==> a[k] == old(a[k])
    {
      if out + off >= a.Length {
        return false;
      }
      ghost var done := a[out..];
      a[out - 1] := a[out + off];
      out := out - 1;
      assert a[out..] == [done[off]] + done;
    }
    return true;
  }

  /** The loop over the bits of one control byte. */
  method DecodeGroup(compressed: seq<Byte>, stopIndex: nat, control: Byte, a: array<Byte>, startIndex: nat, start: nat)
    returns (ok: bool, index: nat, out: nat)
    requires startIndex <= |compressed| && start <= a.Length
    modifies a
    ensures index <= startIndex && out <= start
    ensures forall j :: 0 <= j < out ==> a[j] == old(a[j])
    ensures ok ==> (Expand(Parse(compressed, index, stopIndex), a[out..], a.Length)
                    == Expand(ParseGroup(compressed, startIndex, stopIndex, control, 8), old(a[start..]), a.Length))
    ensures !ok ==> Expand(ParseGroup(compressed, startIndex, stopIndex, control, 8), old(a[start..]), a.Length) == None
  {
    hide Expand, ParseGroup, Parse, CopyBack;
    index, out := startIndex, start;
    var bits: Byte := control;
    for i := 0 to 8
      invariant index <= startIndex && out <= start
      invariant forall j :: 0 <= j < out ==> a[j] == old(a[j])
      invariant Expand(ParseGroup(compressed, index, stopIndex, bits, 8 - i), a[out..], a.Length)
             == Expand(ParseGroup(compressed, startIndex, stopIndex, control, 8), old(a[start..]), a.Length)
    {
      if index <= stopIndex || index == 0 || out == 0 {
        GroupEnds(compressed, index, stopIndex, bits, 8 - i, a[out..], a.Length);
        return true, index, out;
      }
      ghost var done := a[out..];
      if bits >= 0x80 {
        GroupBack(compressed, index, stopIndex, bits, 8 - i, done, a.Length);
        if index < 2 {
          return false, index, out;
        }
        index := index - 2;
        var low: int, high: int := compressed[index], compressed[index + 1];
        var segmentOffset := low + 256 * high;
        var segmentSize := segmentOffset / 4096 + 3;
        segmentOffset := segmentOffset % 4096 + 2;
        if out < segmentSize {
          return false, index, out;
        }
        ok := CopySegment(a, out, segmentOffset, segmentSize);
        out := out - segmentSize;
        if !ok {
          return false, index, out;
        }
      } else {
        GroupLit(compressed, index, stopIndex, bits, 8 - i, done, a.Length);
        a[out - 1] := compressed[index - 1];
        out, index := out - 1, index - 1;
        assert a[out..] == [compressed[index]] + done;
      }
      bits := bits * 2 % 256;
    }
    GroupEnds(compressed, index, stopIndex, bits, 0, a[out..], a.Length);
    ok := true;
  }

  lemma GroupEnds(c: seq<Byte>, index: nat, stop: nat, control: Byte, left: nat, done: seq<Byte>, room: nat)
    requires index <= |c| && (left == 0 || index <= stop || |done| >= room)
    ensures Expand(ParseGroup(c, index, stop, control, left), done, room) == Expand(Parse(c, index, stop), done, room)
  {
  }

  lemma GroupLit(c: seq<Byte>, index: nat, stop: nat, control: Byte, left: nat, done: seq<Byte>, room: nat)
    requires stop < index <= |c| && left > 0 && |done| < room && control < 128
    ensures Expand(ParseGroup(c, index, stop, control, left), done, room)
         == Expand(ParseGroup(c, index - 1, stop, control * 2 % 256, left - 1), [c[index - 1]] + done, room)
  {
    var rest := ParseGroup(c, index - 1, stop, control * 2 % 256, left - 1);
    assert ([Lit(c[index - 1])] + rest)[1..] == rest;
  }

  lemma GroupBack(c: seq<Byte>, index: nat, stop: nat, control: Byte, left: nat, done: seq<Byte>, room: nat)
    requires stop < index <= |c| && left > 0 && |done| < room && control >= 128
    ensures index < 2 ==> Expand(ParseGroup(c, index, stop, control, left), done, room) == None
    ensures index >= 2 ==>
              var t := BackToken(c[index - 2], c[index - 1]);
              var r := Expand(ParseGroup(c, index, stop, control, left), done, room);
              && (|done| + t.size > room ==> r == None)
              && (|done| + t.size <= room && CopyBack(done, t.off, t.size) == None ==> r == None)
              && (|done| + t.size <= room && CopyBack(done, t.off, t.size).Some? ==>
                    r == Expand(ParseGroup(c, index - 2, stop, control * 2 % 256, left - 1),
                                CopyBack(done, t.off, t.size).value, room))
  {
    if index >= 2 {
      var t, rest := BackToken(c[index - 2], c[index - 1]), ParseGroup(c, index - 2, stop, control * 2 % 256, left - 1);
      assert ([t] + rest)[1..] == rest;
    }
  }

  /** LZSSDecompress. It decodes exactly what the stream means, at the end of the buffer; below that the
      buffer keeps the input. */
  method Decompress(compressed: seq<Byte>, decompressed: array<Byte>) returns (ok: bool)
    requires |compressed| >= 8 && decompressed.Length > 0 ==> |compressed| <= decompressed.Length
    modifies decompressed
    ensures ok <==> Decoded(compressed, decompressed.Length).Some?
    ensures ok ==> var d := Decoded(compressed, decompressed.Length).value;
                   && |d| <= decompressed.Length && decompressed[decompressed.Length - |d|..] == d
                   && StillInput(decompressed[..], compressed, decompressed.Length - |d|)
  {
    hide Expand, ParseGroup;
    if |compressed| < 8 || decompressed.Length == 0 {
      return false;
    }
    var bufferTopAndBottom := TopAndBottom(compressed);
    var out := decompressed.Length;
    var index := |compressed| - bufferTopAndBottom / 0x100_0000 % 256;
    var stopIndex := |compressed| - bufferTopAndBottom % 0x100_0000;
    if index < 0 || stopIndex < 0 {
      return false;
    }
    forall j | 0 <= j < decompressed.Length {
      decompressed[j] := if j < |compressed| then compressed[j] else 0;
    }
    ghost var all := Decoded(compressed, decompressed.Length);
    assert decompressed[out..] == [];
    while index > stopIndex
      invariant 0 <= index <= |compressed| && 0 <= out <= decompressed.Length
      invariant StillInput(decompressed[..], compressed, out)
      invariant Expand(Parse(compressed, index, stopIndex), decompressed[out..], decompressed.Length) == all
      decreases index
    {
      var control := compressed[index - 1];
      ok, index, out := DecodeGroup(compressed, stopIndex, control, decompressed, index - 1, out);
      if !ok {
        return false;
      }
    }
    ExpandNothing(decompressed[out..], decompressed.Length);
    return true;
  }

  lemma ExpandNothing(done: seq<Byte>, room: nat)
    ensures Expand([], done, room) == Some(done)
  {
  }

  // ---------------------------------------------------------------- the same in bytes

  /** A control byte stands on top of its group, and its bits are used from the highest down. */
  lemma ControlOnTop(c: seq<Byte>, index: nat, stop: nat)
    requires index <= |c|
    ensures index <= stop ==> Parse(c, index, stop) == []
    ensures index > stop ==> Parse(c, index, stop) == ParseGroup(c, index - 1, stop, c[index - 1], 8)
  {
  }

  /** Under a clear bit, the next byte down goes out as it is. */
  lemma LiteralBytes(c: seq<Byte>, index: nat, stop: nat, control: Byte, left: nat, done: seq<Byte>, room: nat)
    requires stop < index <= |c| && left > 0 && |done| < room && control < 0x80
    ensures Expand(ParseGroup(c, index, stop, control, left), done, room)
         == Expand(ParseGroup(c, index - 1, stop, control * 2 % 256, left - 1), [c[index - 1]] + done, room)
  {
    GroupLit(c, index, stop, control, left, done, room);
  }

  /** Under a set bit, the next two bytes down, high above low, put out high / 16 + 3 bytes, each equal to the
      one (high % 16) * 256 + low + 3 places after it; decoding fails where the first of those is not there,
      or the room is too small. */
  lemma BackBytes(c: seq<Byte>, index: nat, stop: nat, control: Byte, left: nat, done: seq<Byte>, room: nat)
    requires stop < index <= |c| && 2 <= index && left > 0 && |done| < room && control >= 0x80
    ensures var low: int, high: int := c[index - 2], c[index - 1];
            var size, distance := high / 16 + 3, high % 16 * 256 + low + 3;
            var r := Expand(ParseGroup(c, index, stop, control, left), done, room);
            && (distance > |done| || |done| + size > room ==> r == None)
            && (distance <= |done| && |done| + size <= room ==>
                  exists more: seq<Byte> ::
                    |more| == size + |done| && more[size..] == done
                    && (forall i :: 0 <= i < size ==> more[i] == more[i + distance])
                    && r == Expand(ParseGroup(c, index - 2, stop, control * 2 % 256, left - 1), more, room))
  {
    var low: int, high: int := c[index - 2], c[index - 1];
    var t := BackToken(c[index - 2], c[index - 1]);
    TokenNumbers(low, high);
    hide Expand, ParseGroup, BackToken, CopyBack;
    GroupBack(c, index, stop, control, left, done, room);
    CopyBackRepeats(done, t.off, t.size);
    if t.off < |done| && |done| + t.size <= room {
      var more := CopyBack(done, t.off, t.size).value;
      assert forall i :: 0 <= i < t.size ==> more[i] == more[i + t.off + 1];
    }
  }

  lemma TokenNumbers(low: Byte, high: Byte)
    ensures BackToken(low, high) == Back((high as int) % 16 * 256 + low + 2, (high as int) / 16 + 3)
  {
  }

  /** A back-reference needs two bytes. */
  lemma BackAlone(c: seq<Byte>, stop: nat, control: Byte, left: nat, done: seq<Byte>, room: nat)
    requires stop == 0 && 1 <= |c| && left > 0 && |done| < room && control >= 0x80
    ensures Expand(ParseGroup(c, 1, stop, control, left), done, room) == None
  {
    GroupBack(c, 1, stop, control, left, done, room);
  }

  /** The footer: its last eight bytes in numbers. */
  lemma FooterBytes(c: seq<Byte>)
    requires |c| >= 8
    ensures var b := c[|c| - 8..];
            && StopIndex(c) == |c| - ((b[0] as int) + 0x100 * (b[1] as int) + 0x1_0000 * (b[2] as int))
            && StartIndex(c) == |c| - b[3]
            && DecompressedSize(c) == |c| + (b[4] as int) + 0x100 * (b[5] as int) + 0x1_0000 * (b[6] as int)
                                          + 0x100_0000 * (b[7] as int)
  {
    var b, low, high := c[|c| - 8..], c[|c| - 8..|c| - 4], c[|c| - 4..];
    FourBytes(low);
    FourBytes(high);
    assert low == b[..4] && high == b[4..];
    hide FromLE;
  }

  /** Four literals and a copy of them: the bytes 01 10 64 63 62 61 08 and the footer 0F 0 0 08 0 0 0 0. */
  lemma FourTwice(c: seq<Byte>)
    requires |c| == 15 && c[0] == 0x01 && c[1] == 0x10 && c[2] == 0x64 && c[3] == 0x63 && c[4] == 0x62 && c[5] == 0x61
    requires c[6] == 0x08 && c[7] == 0x0F && c[10] == 0x08
    requires forall i :: 8 <= i < 15 && i != 10 ==> c[i] == 0
    ensures Decoded(c, 15) == Some([0x64, 0x63, 0x62, 0x61, 0x64, 0x63, 0x62, 0x61]) && DecompressedSize(c) == 15
  {
    FooterBytes(c);
    assert c[7..] == c[|c| - 8..];
    hide Expand, ParseGroup, StartIndex, StopIndex, DecompressedSize;
    FourLiterals(c);
    FourCopied(c);
  }

  lemma FourLiterals(c: seq<Byte>)
    requires |c| == 15 && c[2] == 0x64 && c[3] == 0x63 && c[4] == 0x62 && c[5] == 0x61
    ensures Expand(ParseGroup(c, 6, 0, 0x08, 8), [], 15)
         == Expand(ParseGroup(c, 2, 0, 0x80, 4), [0x64, 0x63, 0x62, 0x61], 15)
  {
    hide Expand, ParseGroup;
    LiteralBytes(c, 6, 0, 0x08, 8, [], 15);
    assert [c[5]] + [] == [0x61];
    LiteralBytes(c, 5, 0, 0x10, 7, [0x61], 15);
    assert [c[4]] + [0x61] == [0x62, 0x61];
    LiteralBytes(c, 4, 0, 0x20, 6, [0x62, 0x61], 15);
    assert [c[3]] + [0x62, 0x61] == [0x63, 0x62, 0x61];
    LiteralBytes(c, 3, 0, 0x40, 5, [0x63, 0x62, 0x61], 15);
    assert [c[2]] + [0x63, 0x62, 0x61] == [0x64, 0x63, 0x62, 0x61];
  }

  lemma FourCopied(c: seq<Byte>)
    requires |c| == 15 && c[0] == 0x01 && c[1] == 0x10
    ensures Expand(ParseGroup(c, 2, 0, 0x80, 4), [0x64, 0x63, 0x62, 0x61], 15)
         == Some([0x64, 0x63, 0x62, 0x61, 0x64, 0x63, 0x62, 0x61])
  {
    hide Expand, ParseGroup;
    var done: seq<Byte> := [0x64, 0x63, 0x62, 0x61];
    BackBytes(c, 2, 0, 0x80, 4, done, 15);
    var more: seq<Byte> :| |more| == 8 && more[4..] == done && (forall i :: 0 <= i < 4 ==> more[i] == more[i + 4])
      && Expand(ParseGroup(c, 2, 0, 0x80, 4), done, 15) == Expand(ParseGroup(c, 0, 0, 0, 3), more, 15);
    assert forall i :: 0 <= i < 4 ==> more[i + 4] == more[4..][i];
    assert more[..4] == done && more == more[..4] + more[4..];
    assert done + done == [0x64, 0x63, 0x62, 0x61, 0x64, 0x63, 0x62, 0x61];
    GroupEnds(c, 0, 0, 0, 3, more, 15);
    ControlOnTop(c, 0, 0);
    ExpandNothing(more, 15);
  }

  // ---------------------------------------------------------------- writing a stream

  predicate Writable(t: Token) {
    t.Lit? || (t.Back? && 2 <= t.off < 4098 && 3 <= t.size < 19)
  }

  predicate AllWritable(ts: seq<Token>) {
    forall k :: 0 <= k < |ts| ==> Writable(ts[k])
  }

  function TokenBytes(t: Token): seq<Byte>
    requires Writable(t)
  {
    if t.Lit? then [t.b] else var v := (t.size - 3) * 4096 + (t.off - 2); [v % 256, v / 256]
  }

  /** The bytes of one group below its control byte: the first token on top. */
  function Body(group: seq<Token>): seq<Byte>
    requires AllWritable(group)
  {
    if group == [] then [] else Body(group[1..]) + TokenBytes(group[0])
  }

  function Bit(ts: seq<Token>, k: nat): nat {
    if k < |ts| && ts[k].Back? then 1 else 0
  }

  function Control(ts: seq<Token>): (r: Byte) {
    128 * Bit(ts, 0) + 64 * Bit(ts, 1) + 32 * Bit(ts, 2) + 16 * Bit(ts, 3)
    + 8 * Bit(ts, 4) + 4 * Bit(ts, 5) + 2 * Bit(ts, 6) + Bit(ts, 7)
  }

  function Write(ts: seq<Token>): seq<Byte>
    requires AllWritable(ts)
  {
    if ts == [] then []
    else var n := if |ts| < 8 then |ts| else 8;
      Write(ts[n..]) + Body(ts[..n]) + [Control(ts[..n])]
  }

  lemma ControlShifts(ts: seq<Token>)
    requires 0 < |ts| <= 8
    ensures Control(ts) * 2 % 256 == Control(ts[1..])
    ensures Control(ts) >= 128 <==> ts[0].Back?
  {
    forall k: nat ensures Bit(ts[1..], k) == Bit(ts, k + 1) {}
  }

  lemma TokenReads(c: seq<Byte>, index: nat, t: Token)
    requires Writable(t) && |TokenBytes(t)| <= index <= |c| && c[index - |TokenBytes(t)|..index] == TokenBytes(t)
    ensures t.Lit? ==> |TokenBytes(t)| == 1 && t == Lit(c[index - 1])
    ensures t.Back? ==> |TokenBytes(t)| == 2 && t == BackToken(c[index - 2], c[index - 1])
  {
    var bytes := TokenBytes(t);
    if t.Back? {
      var v := (t.size - 3) * 4096 + (t.off - 2);
      assert v / 4096 == t.size - 3 && v % 4096 == t.off - 2;
      assert c[index - 2] == bytes[0] && c[index - 1] == bytes[1];
    } else {
      assert c[index - 1] == bytes[0];
    }
  }

  lemma SplitTail(c: seq<Byte>, stop: nat, index: nat, below: seq<Byte>, top: seq<Byte>)
    requires stop <= index <= |c| && c[stop..index] == below + top
    ensures stop <= index - |top| && c[stop..index - |top|] == below && c[index - |top|..index] == top
  {
    assert c[stop..index][..|below|] == below && c[stop..index][|below|..] == top;
  }

  lemma {:induction false} GroupParses(c: seq<Byte>, stop: nat, index: nat, group: seq<Token>, rest: seq<Token>,
                                       left: nat)
    requires AllWritable(group) && AllWritable(rest) && |group| <= left <= 8 && (|group| < left ==> rest == [])
    requires stop <= index <= |c| && c[stop..index] == Write(rest) + Body(group)
    ensures ParseGroup(c, index, stop, Control(group), left) == group + rest
    decreases |rest|, |group| + 1
  {
    hide Control, TokenBytes, BackToken, Write, Parse;
    if group == [] {
      assert c[stop..index] == Write(rest);
      WriteParses(c, stop, index, rest);
      if left > 0 { WriteNothing(c, stop, index); }
    } else {
      var top, below := TokenBytes(group[0]), Write(rest) + Body(group[1..]);
      assert c[stop..index] == below + top;
      SplitTail(c, stop, index, below, top);
      ControlShifts(group);
      TokenReads(c, index, group[0]);
      GroupParses(c, stop, index - |top|, group[1..], rest, left - 1);
      assert [group[0]] + (group[1..] + rest) == group + rest;
    }
  }

  lemma WriteNothing(c: seq<Byte>, stop: nat, index: nat)
    requires stop <= index <= |c| && c[stop..index] == Write([])
    ensures index == stop
  {
  }

  /** Reading what was written gives the tokens back, wherever in a file they are. */
  lemma {:induction false} WriteParses(c: seq<Byte>, stop: nat, index: nat, ts: seq<Token>)
    requires AllWritable(ts) && stop <= index <= |c| && c[stop..index] == Write(ts)
    ensures Parse(c, index, stop) == ts
    decreases |ts|, 0
  {
    hide Control, Body, ParseGroup;
    if ts != [] {
      var n := if |ts| < 8 then |ts| else 8;
      SplitTail(c, stop, index, Write(ts[n..]) + Body(ts[..n]), [Control(ts[..n])]);
      GroupParses(c, stop, index - 1, ts[..n], ts[n..], 8);
      assert ts[..n] + ts[n..] == ts;
    }
  }

  /** A compressed file: bytes left as they are, the stream for the bytes after them, and the footer. */
  function File(plain: seq<Byte>, ts: seq<Token>, grows: nat): seq<Byte>
    requires AllWritable(ts)
  {
    plain + Write(ts) + ToLE(8 * 0x100_0000 + |Write(ts)| + 8, 4) + ToLE(grows, 4)
  }

  lemma FileIs(plain: seq<Byte>, ts: seq<Token>, grows: nat)
    requires AllWritable(ts) && |Write(ts)| + 8 < 0x100_0000 && grows < 0x1_0000_0000
    ensures var c := File(plain, ts, grows);
            && |c| == |plain| + |Write(ts)| + 8 && StartIndex(c) == |plain| + |Write(ts)| && StopIndex(c) == |plain|
            && DecompressedSize(c) == |c| + grows
            && c[|plain|..|plain| + |Write(ts)|] == Write(ts) && c[..|plain|] == plain
  {
    var c, w := File(plain, ts, grows), Write(ts);
    var footer := 8 * 0x100_0000 + |w| + 8;
    FileParts(plain, w, footer, grows);
    assert c == plain + w + ToLE(footer, 4) + ToLE(grows, 4);
    FooterIs(|w|, grows);
    hide Write, FromLE, ToLE, AllWritable, File;
    assert TopAndBottom(c) == footer;
  }

  lemma FileParts(plain: seq<Byte>, w: seq<Byte>, footer: nat, grows: nat)
    ensures var c := plain + w + ToLE(footer, 4) + ToLE(grows, 4);
            && |c| == |plain| + |w| + 8 && c[..|plain|] == plain && c[|plain|..|plain| + |w|] == w
            && c[|c| - 8..|c| - 4] == ToLE(footer, 4) && c[|c| - 4..] == ToLE(grows, 4)
  {
    hide ToLE;
    var c := plain + w + ToLE(footer, 4) + ToLE(grows, 4);
    assert c[0..0 + |c|] == c;
    Pieces(c, 0, plain, w, ToLE(footer, 4), ToLE(grows, 4));
  }

  lemma FooterIs(size: nat, grows: nat)
    requires size + 8 < 0x100_0000 && grows < 0x1_0000_0000
    ensures var footer := 8 * 0x100_0000 + size + 8;
            && FromLE(ToLE(footer, 4)) == footer && footer / 0x100_0000 % 256 == 8 && footer % 0x100_0000 == size + 8
    ensures FromLE(ToLE(grows, 4)) == grows
  {
    Widths();
    FromToLE(8 * 0x100_0000 + size + 8, 4);
    FromToLE(grows, 4);
    hide ToLE, FromLE;
  }

  /** Any text whose tail some tokens expand to comes back from its file: the footer gives its size, and
      decoding puts the tail where it was. */
  lemma FileDecodes(plain: seq<Byte>, ts: seq<Token>, tail: seq<Byte>)
    requires AllWritable(ts) && |Write(ts)| + 8 < 0x100_0000
    requires |Write(ts)| + 8 <= |tail| < |Write(ts)| + 8 + 0x1_0000_0000
    requires Expand(ts, [], |plain| + |tail|) == Some(tail)
    ensures var c := File(plain, ts, |tail| - |Write(ts)| - 8);
            DecompressedSize(c) == |plain + tail| && Decoded(c, DecompressedSize(c)) == Some(tail)
  {
    hide Write, Expand, File, Parse, StartIndex, StopIndex, DecompressedSize;
    var grows := |tail| - |Write(ts)| - 8;
    FileIs(plain, ts, grows);
    WriteParses(File(plain, ts, grows), |plain|, |plain| + |Write(ts)|, ts);
  }

  /** And the bytes below the tail are those left as they are: the decoder restores the whole text. */
  method Restore(plain: seq<Byte>, ts: seq<Token>, tail: seq<Byte>) returns (text: array<Byte>)
    requires AllWritable(ts) && |Write(ts)| + 8 < 0x100_0000
    requires |Write(ts)| + 8 <= |tail| < |Write(ts)| + 8 + 0x1_0000_0000
    requires Expand(ts, [], |plain| + |tail|) == Some(tail)
    ensures text[..] == plain + tail
  {
    var c := File(plain, ts, |tail| - |Write(ts)| - 8);
    FileDecodes(plain, ts, tail);
    FileIs(plain, ts, |tail| - |Write(ts)| - 8);
    hide Write, Expand, File, Parse, StartIndex, StopIndex, DecompressedSize, Decoded;
    text := new Byte[DecompressedSize(c)];
    var ok := Decompress(c, text);
    KeptHead(text[..], c, plain);
    assert text[|plain|..] == text[..][|plain|..];
  }

  lemma KeptHead(text: seq<Byte>, c: seq<Byte>, plain: seq<Byte>)
    requires StillInput(text, c, |plain|) && |plain| <= |c| && c[..|plain|] == plain
    ensures text == plain + text[|plain|..]
  {
    forall j | 0 <= j < |plain| ensures text[j] == plain[j] {
      assert c[..|plain|][j] == c[j];
    }
  }
}

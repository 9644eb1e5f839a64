/** common/chunk_file.h: one routine that loads, saves, measures and verifies an object, by the mode
    it is in. Objects are values here, passed in and handed back; the stream is updated in place. */
module PointerWrap {
  import opened Bytes
  import opened ObjectForms

  class PointerWrap {
    var buf: array<Byte>
    var pos: int  // *ptr
    var mode: Mode
    var error: Error
    var mismatch: bool  // whether MODE_VERIFY has reported a difference
    const less: (Value, Value) -> bool  // operator< on keys

    constructor (buf: array<Byte>, mode: Mode, less: (Value, Value) -> bool)
      ensures this.buf == buf && this.mode == mode && this.less == less
      ensures pos == 0 && error == NONE && !mismatch
    {
      this.buf, this.mode, this.less := buf, mode, less;
      pos, error, mismatch := 0, NONE, false;
    }

    ghost function Now(): Stream
      reads this`buf, this`pos, this`mismatch, buf
    {
      Stream(buf[..], pos, mismatch)
    }

    method SetError(e: Error)
      modifies this`error, this`mode
      ensures error == if old(error) == NONE || (old(error) == WARNING && e == FAILURE) then e else old(error)
      ensures mode == if error == FAILURE then MEASURE else old(mode)
    {
      if error == NONE || (error == WARNING && e == FAILURE) { error := e; }
      if error == FAILURE { mode := MEASURE; }
    }

    /** Moves size bytes of memory, from its start; e is what they are in the stream. A negative size is
        left to the modes that read and write no memory. */
    method DoVoid(data: seq<Byte>, size: S32, ghost e: seq<Byte>) returns (data': seq<Byte>)
      requires size <= |data| && |e| == Nat(size) && (mode != READ ==> e == data[..Nat(size)])
        && Room(mode, Now(), Move(e, size))
      modifies this`pos, this`mismatch, buf
      ensures data' == e + data[|e|..] && Moves(mode, Move(e, size), old(Now()), Now())
    {
      data' := data;
      assert data[..Nat(size)] + data[Nat(size)..] == data;
      match mode {
        case READ =>
          data' := buf[pos..pos + size] + data[size..];
          assert buf[pos..pos + size] == buf[..][pos..pos + size];
        case WRITE =>
          Copy(data[..size]);
        case MEASURE =>
        case VERIFY =>
          var same := Compare(data, size);
          assert buf[pos..pos + size] == buf[..][pos..pos + size];
          mismatch := mismatch || !same;
      }
      pos := pos + size;
    }

    /** The loop of MODE_VERIFY. */
    method Compare(data: seq<Byte>, size: nat) returns (same: bool)
      requires size <= |data| && 0 <= pos && pos + size <= buf.Length
      ensures same <==> buf[pos..pos + size] == data[..size]
    {
      same := true;
      for i := 0 to size
        invariant same <==> buf[pos..pos + i] == data[..i]
      {
        assert buf[pos..pos + i + 1] == buf[pos..pos + i] + [buf[pos + i]];
        assert data[..i + 1] == data[..i] + [data[i]];
        if buf[pos + i] != data[i] { same := false; }
      }
    }

    /** memcpy(*ptr, data, size). */
    method Copy(data: seq<Byte>)
      requires 0 <= pos && pos + |data| <= buf.Length
      modifies buf
      ensures buf[..] == old(buf[..pos]) + data + old(buf[pos + |data|..])
    {
      for i := 0 to |data|
        invariant forall j :: 0 <= j < i ==> buf[pos + j] == data[j]
        invariant forall j :: 0 <= j < buf.Length && !(pos <= j < pos + i) ==> buf[j] == old(buf[j])
      {
        buf[pos + i] := data[i];
      }
      ghost var r := old(buf[..pos]) + data + old(buf[pos + |data|..]);
      forall j | 0 <= j < buf.Length ensures buf[j] == r[j] {
        if pos <= j < pos + |data| { assert buf[pos + (j - pos)] == data[j - pos]; }
      }
    }

    /** Do on a u32, or on the bits of an int. */
    method DoU32(n: nat, ghost v: nat) returns (n': nat)
      requires n < U32_SIZE && v < U32_SIZE && (mode != READ ==> v == n) && Room(mode, Now(), Plain(ToLE(v, 4)))
      modifies this`pos, this`mismatch, buf
      ensures n' == v && Moves(mode, Plain(ToLE(v, 4)), old(Now()), Now())
    {
      var data := DoVoid(ToLE(n, 4), 4, ToLE(v, 4));
      assert data == ToLE(v, 4);
      n' := FromLE(data);
      Widths();
      FromToLE(v, 4);
    }

    ghost predicate Ready(sh: Shape, x: Value, w: Value)
      reads this`mode, this`pos, this`buf, this`mismatch, buf
    {
      Meet(mode, sh, x, w) && Room(mode, Now(), Out(sh, w))
    }

    /** Do(std::string&). */
    method DoString(x: seq<Byte>, ghost w: seq<Byte>) returns (x': seq<Byte>)
      requires Ready(Str, StrV(x), StrV(w))
      modifies this`pos, this`mismatch, buf
      ensures StrV(x') == After(mode == READ, Str, StrV(x), StrV(w), less)
      ensures Moves(mode, Out(Str, StrV(w)), old(Now()), Now())
    {
      StringLenIs(w);
      ghost var head, tail, a := Plain(ToLE(StringLen(w) % U32_SIZE, 4)), Block(w + [0], StringLen(w)), Now();
      ghost var total := Out(Str, StrV(w));
      assert total == Join(head, tail);
      assert StrV(if mode == READ then CText(w) else x) == After(mode == READ, Str, StrV(x), StrV(w), less);
      StringBits(w);
      hide Room, Moves, ToLE, Progress, Join, Out, After, StringLen, Wrap32, Block, Plain;
      JoinNothing(head);
      JoinNothing(tail);
      ProgressStart(mode, total, a);
      ProgressNext(mode, total, NOTHING, head, tail, a, a);
      var bits := DoU32(StringLen(x) % U32_SIZE, StringLen(w) % U32_SIZE);
      var stringLen := Wrap32(bits);
      ghost var b := Now();
      ProgressStep(mode, total, NOTHING, head, tail, a, a, b);
      ProgressNext(mode, total, head, tail, NOTHING, a, b);
      x' := MoveString(x, stringLen, w);
      ProgressStep(mode, total, head, tail, NOTHING, a, b, Now());
      JoinEnd(total, head, tail);
      ProgressEnd(mode, total, Join(head, tail), a, Now());
    }

    /** Loading takes the characters up to the first NUL, whatever the length says. */
    method MoveString(x: seq<Byte>, stringLen: int, ghost w: seq<Byte>) returns (x': seq<Byte>)
      requires Meet(mode, Str, StrV(x), StrV(w)) && stringLen == StringLen(w) <= |w| + 1
      requires Room(mode, Now(), Block(w + [0], stringLen))
      modifies this`pos, this`mismatch, buf
      ensures x' == if mode == READ then CText(w) else x
      ensures Moves(mode, Block(w + [0], stringLen), old(Now()), Now())
    {
      x' := x;
      ghost var e := (w + [0])[..Nat(stringLen)];
      match mode {
        case READ =>
          WholeText(w);
          x' := CString(w);
        case WRITE => Copy((x + [0])[..stringLen]);
        case MEASURE =>
        case VERIFY =>
          WholeText(w);
          var same := SameString(x);
          mismatch := mismatch || !same;
      }
      pos := pos + stringLen;
    }

    /** !strcmp(x.c_str(), *ptr). */
    method SameString(x: seq<Byte>) returns (same: bool)
      requires 0 !in x && 0 <= pos && pos + |x| < buf.Length
      ensures same <==> buf[..][pos..pos + |x| + 1] == x + [0]
    {
      var i := 0;
      while i < |x| && buf[pos + i] == x[i]
        invariant 0 <= i <= |x| && forall k :: 0 <= k < i ==> buf[pos + k] == x[k]
      {
        i := i + 1;
      }
      same := i == |x| && buf[pos + i] == 0;
      ghost var there, e := buf[..][pos..pos + |x| + 1], x + [0];
      assert forall k :: 0 <= k < |e| ==> there[k] == buf[pos + k];
      if there == e { assert there[i] == e[i]; }
    }

    /** The NUL-terminated string at the cursor. */
    method CString(ghost w: seq<Byte>) returns (r: seq<Byte>)
      requires 0 <= pos && pos + |w| < buf.Length && buf[..][pos..pos + |w| + 1] == w + [0]
      ensures r == CText(w)
    {
      ghost var v, there := CText(w), buf[..][pos..pos + |w| + 1];
      r := [];
      assert there[0] == buf[pos];
      while buf[pos + |r|] != 0
        invariant |r| <= |v| && r == v[..|r|] && there[|r|] == buf[pos + |r|]
        decreases |v| - |r|
      {
        r := r + [buf[pos + |r|]];
        assert there[|r|] == buf[pos + |r|];
      }
    }

    /** DoVector: the count, the resize, and the elements, in one block or one by one up to an int. */
    method DoVector(elem: Shape, x: seq<Value>, ghost w: seq<Value>) returns (x': seq<Value>)
      requires Ready(Vec(elem), SeqV(x), SeqV(w))
      modifies this`pos, this`mismatch, buf
      ensures SeqV(x') == After(mode == READ, Vec(elem), SeqV(x), SeqV(w), less)
      ensures Moves(mode, Out(Vec(elem), SeqV(w)), old(Now()), Now())
      decreases elem, 7
    {
      VisitsIs(|w|);
      ghost var head, a, total := Plain(ToLE(Count(|w|), 4)), Now(), Out(Vec(elem), SeqV(w));
      ghost var tail := if elem.Pod? then VectorBlock(w, elem.size) else OutAll(elem, w[..Visits(|w|)], 0);
      assert total == Join(head, tail);
      MeetElems(mode, Vec(elem), elem, x, w, Count(|w|), Visits(|w|));
      hide Room, Moves, ToLE, Progress, Join, Out, OutAll, VectorBlock, AfterBlock, AfterElems, MeetAll, Matched;
      JoinNothing(head);
      JoinNothing(tail);
      ProgressStart(mode, total, a);
      ProgressNext(mode, total, NOTHING, head, tail, a, a);
      var vecSize := DoU32(|x| % U32_SIZE, Count(|w|));
      ghost var b := Now();
      ProgressStep(mode, total, NOTHING, head, tail, a, a, b);
      ProgressNext(mode, total, head, tail, NOTHING, a, b);
      var r := Resized(x, vecSize, Default(elem));
      if elem.Pod? {
        TypedPods(r, elem.size);
        x' := DoPodArray(elem.size, r, w);
      } else {
        x' := DoElems(elem, r, Nat(Wrap32(vecSize)), w[..Visits(|w|)]);
      }
      ProgressStep(mode, total, head, tail, NOTHING, a, b, Now());
      JoinEnd(total, head, tail);
      ProgressEnd(mode, total, Join(head, tail), a, Now());
    }

    /** DoArray on a trivial type: one block of memory. */
    method DoPodArray(k: nat, r: seq<Value>, ghost w: seq<Value>) returns (x': seq<Value>)
      requires Typed(SeqV(w), Vec(Pod(k))) && Pods(r, k) && |r| == Count(|w|) && (mode != READ ==> r == w[..|r|])
      requires Room(mode, Now(), VectorBlock(w, k))
      modifies this`pos, this`mismatch, buf
      ensures x' == AfterBlock(r, w, k) && Moves(mode, VectorBlock(w, k), old(Now()), Now())
    {
      hide Room, Moves, Poured, EncAll, VectorBytes, Pods;
      ghost var block := VectorBlock(w, k);
      PodsSize(r, k);
      VectorBytesIs(k, |r|);
      PodArrayBlock(r, w, k);
      var memory := DoVoid(EncAll(r), VectorBytes(k, |r|), block.bytes);
      x' := Poured(|r|, k, memory);
    }

    /** DoDeque, DoList: the count, the resize, the elements in place. */
    method DoSeq(elem: Shape, x: seq<Value>, ghost w: seq<Value>) returns (x': seq<Value>)
      requires Ready(Seq(elem), SeqV(x), SeqV(w))
      modifies this`pos, this`mismatch, buf
      ensures SeqV(x') == After(mode == READ, Seq(elem), SeqV(x), SeqV(w), less)
      ensures Moves(mode, Out(Seq(elem), SeqV(w)), old(Now()), Now())
      decreases elem, 7
    {
      VisitsIs(|w|);
      ghost var head, a, total := Plain(ToLE(Count(|w|), 4)), Now(), Out(Seq(elem), SeqV(w));
      ghost var tail := OutAll(elem, w[..Count(|w|)], 0);
      assert total == Join(head, tail);
      MeetElems(mode, Seq(elem), elem, x, w, Count(|w|), Count(|w|));
      hide Room, Moves, ToLE, Progress, Join, Out, OutAll, AfterElems, MeetAll, Matched;
      JoinNothing(head);
      JoinNothing(tail);
      ProgressStart(mode, total, a);
      ProgressNext(mode, total, NOTHING, head, tail, a, a);
      var n := DoU32(|x| % U32_SIZE, Count(|w|));
      ghost var b := Now();
      ProgressStep(mode, total, NOTHING, head, tail, a, a, b);
      ProgressNext(mode, total, head, tail, NOTHING, a, b);
      x' := DoElems(elem, Resized(x, n, Default(elem)), n, w[..Count(|w|)]);
      ProgressStep(mode, total, head, tail, NOTHING, a, b, Now());
      JoinEnd(total, head, tail);
      ProgressEnd(mode, total, Join(head, tail), a, Now());
    }

    /** Do on the next part of an object. */
    method DoNext(sh: Shape, x: Value, ghost w: Value, ghost total: Piece, ghost done: Piece, ghost rest: Piece,
                  ghost a: Stream)
      returns (x': Value, ghost done': Piece)
      requires Meet(mode, sh, x, w) && Progress(mode, total, done, Join(Out(sh, w), rest), a, Now())
      modifies this`pos, this`mismatch, buf
      ensures x' == After(mode == READ, sh, x, w, less) && Progress(mode, total, done', rest, a, Now())
      ensures done' == Join(done, Out(sh, w))
      decreases sh, 5
    {
      assert Typed(w, sh);
      hide Room, Moves, Progress, Out, After, Join, Typed, Texts, Meet;
      ghost var b := Now();
      ProgressNext(mode, total, done, Out(sh, w), rest, a, b);
      x' := Do(sh, x, w);
      ProgressStep(mode, total, done, Out(sh, w), rest, a, b, Now());
      done' := Join(done, Out(sh, w));
    }

    method DoElems(elem: Shape, r: seq<Value>, c: nat, ghost w: seq<Value>) returns (x': seq<Value>)
      requires |w| == c && Typed(SeqV(w), Seq(elem)) && MeetAll(mode, elem, r, w) && Matched(mode == READ, elem, r, w)
      requires Room(mode, Now(), OutAll(elem, w, 0))
      modifies this`pos, this`mismatch, buf
      ensures x' == AfterElems(mode == READ, elem, r, w, less)
      ensures Moves(mode, OutAll(elem, w, 0), old(Now()), Now())
      decreases elem, 6
    {
      ghost var a, done, total := Now(), NOTHING, OutAll(elem, w, 0);
      x' := r;
      assert c <= |r|;
      hide Room, Moves, Progress, Out, OutAll, After, AfterElems, Join, Typed, Texts, Meet, Matched, ElemsDone;
      ProgressStart(mode, total, a);
      ElemsStart(mode == READ, elem, r, w, less);
      for i := 0 to c
        invariant ElemsDone(mode == READ, elem, r, w, less, x', i)
        invariant Progress(mode, total, done, OutAll(elem, w, i), a, Now())
      {
        OutAllNext(elem, w, i);
        ElemsNext(mode == READ, elem, r, w, less, x', i);
        var y;
        y, done := DoNext(elem, x'[i], w[i], total, done, OutAll(elem, w, i + 1), a);
        x' := x'[i := y];
      }
      OutAllNext(elem, w, c);
      ElemsEnd(mode == READ, elem, r, w, less, x');
      ProgressEnd(mode, total, done, a, Now());
    }

    /** A class: its members in turn. */
    method DoFields(members: seq<Shape>, x: seq<Value>, ghost w: seq<Value>) returns (x': seq<Value>)
      requires Ready(Fields(members), FieldsV(x), FieldsV(w))
      modifies this`pos, this`mismatch, buf
      ensures FieldsV(x') == After(mode == READ, Fields(members), FieldsV(x), FieldsV(w), less)
      ensures Moves(mode, Out(Fields(members), FieldsV(w)), old(Now()), Now())
      decreases members
    {
      ghost var a, done, total := Now(), NOTHING, OutFields(members, w, 0);
      assert Out(Fields(members), FieldsV(w)) == total;
      x' := x;
      assert FieldsDone(mode == READ, members, x, w, less, x', 0);
      hide Room, Moves, Progress, Out, OutFields, After, Join, Typed, Texts, Meet, FieldsDone;
      ProgressStart(mode, total, a);
      for i := 0 to |members|
        invariant FieldsDone(mode == READ, members, x, w, less, x', i)
        invariant Progress(mode, total, done, OutFields(members, w, i), a, Now())
      {
        OutFieldsNext(members, w, i);
        FieldsNext(mode == READ, members, x, w, less, x', i);
        MeetMember(mode, members, x, w, i);
        var y;
        y, done := DoNext(members[i], x'[i], w[i], total, done, OutFields(members, w, i + 1), a);
        x' := x'[i := y];
      }
      OutFieldsNext(members, w, |members|);
      FieldsEnd(mode == READ, members, x, w, less, x');
      ProgressEnd(mode, total, done, a, Now());
    }

    /** DoMap. Loading starts from an empty map and assigns key by key; the other modes do a copy of
        each key and the value in place. */
    method DoMap(key: Shape, val: Shape, x: seq<Entry>, ghost w: seq<Entry>) returns (x': seq<Entry>)
      requires Ready(Map(key, val), MapV(x), MapV(w))
      modifies this`pos, this`mismatch, buf
      ensures MapV(x') == After(mode == READ, Map(key, val), MapV(x), MapV(w), less)
      ensures Moves(mode, Out(Map(key, val), MapV(w)), old(Now()), Now())
      decreases Map(key, val), 3, 2
    {
      VisitsIs(|w|);
      ghost var head, a, total := Plain(ToLE(Count(|w|), 4)), Now(), Out(Map(key, val), MapV(w));
      ghost var tail := OutEntries(key, val, w[..Count(|w|)], 0);
      assert total == Join(head, tail);
      MeetMap(mode, key, val, x, w);
      hide Room, Moves, ToLE, Progress, Join, Out, OutEntries, LoadedEntries, Texts, Meet, Typed;
      JoinNothing(head);
      JoinNothing(tail);
      ProgressStart(mode, total, a);
      ProgressNext(mode, total, NOTHING, head, tail, a, a);
      var number := DoU32(|x| % U32_SIZE, Count(|w|));
      ghost var b := Now();
      ProgressStep(mode, total, NOTHING, head, tail, a, a, b);
      ProgressNext(mode, total, head, tail, NOTHING, a, b);
      if mode == READ {
        x' := LoadEntries(key, val, number, w[..Count(|w|)]);
        AfterMapLoaded(key, val, x, w, less);
      } else {
        x' := DoEntries(key, val, x, number, w[..Count(|w|)]);
      }
      ProgressStep(mode, total, head, tail, NOTHING, a, b, Now());
      JoinEnd(total, head, tail);
      ProgressEnd(mode, total, Join(head, tail), a, Now());
    }

    method DoEntry(key: Shape, val: Shape, k: Value, v: Value, ghost w: Entry) returns (k': Value, v': Value)
      requires Meet(mode, key, k, w.key) && Meet(mode, val, v, w.val) && Room(mode, Now(), OutEntry(key, val, w))
      modifies this`pos, this`mismatch, buf
      ensures k' == After(mode == READ, key, k, w.key, less) && v' == After(mode == READ, val, v, w.val, less)
      ensures Moves(mode, OutEntry(key, val, w), old(Now()), Now())
      decreases Map(key, val), 1
    {
      ghost var a, total := Now(), OutEntry(key, val, w);
      ghost var e, f, done := Out(key, w.key), Out(val, w.val), NOTHING;
      assert total == Join(e, f);
      hide Room, Moves, Progress, Out, OutEntry, After, Join, Typed, Texts, Meet;
      JoinNothing(e);
      JoinNothing(f);
      ProgressStart(mode, total, a);
      k', done := DoNext(key, k, w.key, total, done, f, a);
      v', done := DoNext(val, v, w.val, total, done, NOTHING, a);
      ProgressEnd(mode, total, done, a, Now());
    }

    /** DoEntry on the next entry. */
    method DoNextEntry(key: Shape, val: Shape, k: Value, v: Value, ghost w: Entry, ghost total: Piece,
                       ghost done: Piece, ghost rest: Piece, ghost a: Stream)
      returns (k': Value, v': Value, ghost done': Piece)
      requires Meet(mode, key, k, w.key) && Meet(mode, val, v, w.val)
        && Progress(mode, total, done, Join(OutEntry(key, val, w), rest), a, Now())
      modifies this`pos, this`mismatch, buf
      ensures k' == After(mode == READ, key, k, w.key, less) && v' == After(mode == READ, val, v, w.val, less)
      ensures Progress(mode, total, done', rest, a, Now()) && done' == Join(done, OutEntry(key, val, w))
      decreases Map(key, val), 2
    {
      assert Typed(w.key, key) && Typed(w.val, val);
      hide Room, Moves, Progress, OutEntry, After, Join, Typed, Texts, Meet;
      ghost var b := Now();
      ProgressNext(mode, total, done, OutEntry(key, val, w), rest, a, b);
      k', v' := DoEntry(key, val, k, v, w);
      ProgressStep(mode, total, done, OutEntry(key, val, w), rest, a, b, Now());
      done' := Join(done, OutEntry(key, val, w));
    }

    method LoadEntries(key: Shape, val: Shape, number: nat, ghost w: seq<Entry>) returns (x': seq<Entry>)
      requires mode == READ && number == |w| && Typed(MapV(w), Map(key, val)) && Texts(mode, MapV(w))
      requires Room(mode, Now(), OutEntries(key, val, w, 0))
      modifies this`pos, this`mismatch, buf
      ensures x' == LoadedEntries(key, val, w, number, less)
      ensures Moves(mode, OutEntries(key, val, w, 0), old(Now()), Now())
      decreases Map(key, val), 3, 1
    {
      hide *;
      ghost var a, done, total := Now(), NOTHING, OutEntries(key, val, w, 0);
      x' := [];
      LoadedNone(key, val, w, less);
      ProgressStart(mode, total, a);
      for i := 0 to number
        invariant x' == LoadedEntries(key, val, w, i, less)
        invariant Progress(mode, total, done, OutEntries(key, val, w, i), a, Now())
      {
        x', done := LoadEntry(key, val, w, i, x', total, done, a);
      }
      OutEntriesNext(key, val, w, number);
      ProgressEnd(mode, total, done, a, Now());
    }

    method LoadEntry(key: Shape, val: Shape, ghost w: seq<Entry>, ghost i: nat, x: seq<Entry>, ghost total: Piece,
                     ghost done: Piece, ghost a: Stream)
      returns (x': seq<Entry>, ghost done': Piece)
      requires mode == READ && i < |w| && Typed(MapV(w), Map(key, val)) && Texts(mode, MapV(w))
      requires x == LoadedEntries(key, val, w, i, less)
        && Progress(mode, total, done, OutEntries(key, val, w, i), a, Now())
      modifies this`pos, this`mismatch, buf
      ensures x' == LoadedEntries(key, val, w, i + 1, less)
        && Progress(mode, total, done', OutEntries(key, val, w, i + 1), a, Now())
      decreases Map(key, val), 3, 0
    {
      hide Room, Moves, Progress, OutEntry, OutEntries, After, Join, Typed, Texts, Meet, PutKey, LoadedEntries;
      OutEntriesNext(key, val, w, i);
      MeetEntry(mode, key, val, w, i);
      LoadedNext(key, val, w, i, less);
      var first, second;
      first, second, done' :=
        DoNextEntry(key, val, Default(key), Default(val), w[i], total, done, OutEntries(key, val, w, i + 1), a);
      x' := PutKey(x, first, second, less);
    }

    method DoEntries(key: Shape, val: Shape, x: seq<Entry>, number: nat, ghost v: seq<Entry>) returns (x': seq<Entry>)
      requires mode != READ && number == Count(|x|) && Typed(MapV(x), Map(key, val)) && Typed(MapV(v), Map(key, val))
      requires |v| == number <= |x| && forall i :: 0 <= i < number ==> v[i] == x[i]
      requires Texts(mode, MapV(x))
      requires Room(mode, Now(), OutEntries(key, val, v, 0))
      modifies this`pos, this`mismatch, buf
      ensures MapV(x') == After(false, Map(key, val), MapV(x), MapV(x), less)
      ensures Moves(mode, OutEntries(key, val, v, 0), old(Now()), Now())
      decreases Map(key, val), 3, 1
    {
      ghost var a, done, total := Now(), NOTHING, OutEntries(key, val, v, 0);
      x' := x;
      assert EntriesDone(key, val, x, less, x', 0);
      hide Room, Moves, Progress, OutEntries, After, Typed, Texts, EntriesDone;
      ProgressStart(mode, total, a);
      for i := 0 to number
        invariant EntriesDone(key, val, x, less, x', i)
        invariant Progress(mode, total, done, OutEntries(key, val, v, i), a, Now())
      {
        x', done := DoEntryInPlace(key, val, x, v, i, x', total, done, a);
      }
      OutEntriesNext(key, val, v, number);
      EntriesEnd(key, val, x, less, x');
      ProgressEnd(mode, total, done, a, Now());
    }

    method DoEntryInPlace(key: Shape, val: Shape, ghost r: seq<Entry>, ghost v: seq<Entry>, i: nat, x: seq<Entry>,
                          ghost total: Piece, ghost done: Piece, ghost a: Stream)
      returns (x': seq<Entry>, ghost done': Piece)
      requires mode != READ && i < |v| && i < |r| && v[i] == r[i] && Typed(MapV(r), Map(key, val))
        && Typed(MapV(v), Map(key, val))
      requires Texts(mode, MapV(r))
      requires EntriesDone(key, val, r, less, x, i) && Progress(mode, total, done, OutEntries(key, val, v, i), a, Now())
      modifies this`pos, this`mismatch, buf
      ensures EntriesDone(key, val, r, less, x', i + 1)
        && Progress(mode, total, done', OutEntries(key, val, v, i + 1), a, Now())
      decreases Map(key, val), 3, 0
    {
      hide Room, Moves, Progress, OutEntry, OutEntries, After, Join, Typed, Texts, Meet, EntriesDone;
      OutEntriesNext(key, val, v, i);
      EntriesNext(key, val, r, less, x, i);
      MeetEntry(mode, key, val, r, i);
      var first, second;
      first, second, done' :=
        DoNextEntry(key, val, x[i].key, x[i].val, r[i], total, done, OutEntries(key, val, v, i + 1), a);
      x' := x[i := x[i].(val := second)];
    }

    /** DoSet. */
    method DoSet(size: nat, x: seq<seq<Byte>>, ghost w: seq<seq<Byte>>) returns (x': seq<seq<Byte>>)
      requires Ready(Set(size), SetV(x), SetV(w))
      modifies this`pos, this`mismatch, buf
      ensures SetV(x') == After(mode == READ, Set(size), SetV(x), SetV(w), less)
      ensures Moves(mode, Out(Set(size), SetV(w)), old(Now()), Now())
    {
      VisitsIs(|w|);
      ghost var head, a, total := Plain(ToLE(Count(|w|), 4)), Now(), Out(Set(size), SetV(w));
      ghost var tail := OutPods(size, w[..Count(|w|)], 0);
      assert total == Join(head, tail);
      hide Room, Moves, ToLE, Progress, Join, Out, OutPods, LoadedPods;
      JoinNothing(head);
      JoinNothing(tail);
      ProgressStart(mode, total, a);
      ProgressNext(mode, total, NOTHING, head, tail, a, a);
      var number := DoU32(|x| % U32_SIZE, Count(|w|));
      ghost var b := Now();
      ProgressStep(mode, total, NOTHING, head, tail, a, a, b);
      ProgressNext(mode, total, head, tail, NOTHING, a, b);
      x' := DoPods(size, x, number, w);
      ProgressStep(mode, total, head, tail, NOTHING, a, b, Now());
      JoinEnd(total, head, tail);
      ProgressEnd(mode, total, Join(head, tail), a, Now());
    }

    method DoPods(size: nat, x: seq<seq<Byte>>, number: nat, ghost w: seq<seq<Byte>>) returns (x': seq<seq<Byte>>)
      requires number <= |w| && (mode != READ ==> x == w) && Typed(SetV(w), Set(size))
        && Typed(SetV(w[..number]), Set(size))
      requires Room(mode, Now(), OutPods(size, w[..number], 0))
      modifies this`pos, this`mismatch, buf
      ensures x' == if mode == READ then LoadedPods(size, w, number, less) else x
      ensures Moves(mode, OutPods(size, w[..number], 0), old(Now()), Now())
    {
      hide *;
      ghost var v := w[..number];
      ghost var a, done, total := Now(), NOTHING, OutPods(size, v, 0);
      x' := if mode == READ then [] else x;
      LoadedPodsNext(size, w, 0, less);
      ProgressStart(mode, total, a);
      for i := 0 to number
        invariant x' == if mode == READ then LoadedPods(size, w, i, less) else x
        invariant Progress(mode, total, done, OutPods(size, v, i), a, Now())
      {
        OutPodsNext(size, v, i);
        LoadedPodsNext(size, w, i, less);
        PodBlock(if mode == READ then seq(size, _ => 0) else x[i], v[i]);
        ghost var e, rest, b := Block(v[i], Wrap32(size)), OutPods(size, v, i + 1), Now();
        ProgressNext(mode, total, done, e, rest, a, b);
        var p := DoVoid(if mode == READ then seq(size, _ => 0) else x[i], Wrap32(size), e.bytes);
        ProgressStep(mode, total, done, e, rest, a, b, Now());
        if mode == READ { x' := PutPod(x', p, less); }
        done := Join(done, e);
      }
      OutPodsNext(size, v, number);
      ProgressEnd(mode, total, done, a, Now());
    }

    /** Do on an object x. The stream form is that of w: x itself, or in MODE_READ the object that was
        saved. Objects and containers may have any size. */
    method Do(sh: Shape, x: Value, ghost w: Value) returns (x': Value)
      requires Ready(sh, x, w)
      modifies this`pos, this`mismatch, buf
      ensures x' == After(mode == READ, sh, x, w, less) && Moves(mode, Out(sh, w), old(Now()), Now())
      decreases sh, 4
    {
      hide Room, Moves;
      match sh
      case Pod(n) =>
        var b := DoVoid(x.bytes, Wrap32(n), w.bytes[..Nat(Wrap32(n))]);
        x' := PodV(b);
      case Str =>
        var c := DoString(x.chars, w.chars);
        x' := StrV(c);
      case Vec(elem) =>
        var es := DoVector(elem, x.elems, w.elems);
        x' := SeqV(es);
      case Seq(elem) =>
        var es := DoSeq(elem, x.elems, w.elems);
        x' := SeqV(es);
      case Map(key, val) =>
        var es := DoMap(key, val, x.entries, w.entries);
        x' := MapV(es);
      case Set(n) =>
        var ps := DoSet(n, x.pods, w.pods);
        x' := SetV(ps);
      case Fields(members) =>
        var ms := DoFields(members, x.members, w.members);
        x' := FieldsV(ms);
    }
  }

  // ---------------------------------------------------------------- what saving and loading give

  /** Measures an object, saves it to a buffer of exactly that size, and loads it over any other one. */
  method SaveAndLoad(sh: Shape, x: Value, y: Value, less: (Value, Value) -> bool)
    returns (size: nat, image: seq<Byte>, y': Value)
    requires Typed(x, sh) && Typed(y, sh) && Fits(sh, x) && NulFree(x) && Lawful(x, less) && StrictOrder(less)
    ensures y' == x
    ensures size == |image| && image == Enc(x)
  {
    hide StrictOrder, Fits, Lawful, NulFree, Texts, Enc, Typed, Out, After, Steady;
    OutIsEnc(sh, x);
    FitsTexts(READ, sh, x);
    TextsFree(WRITE, x);
    TextsFree(MEASURE, x);
    FitsSteady(sh, x);
    KeepsIff(sh, x, less);
    LoadedIs(sh, y, x, less);
    var none := new Byte[0];
    var p := new PointerWrap(none, MEASURE, less);
    var _ := p.Do(sh, x, x);
    size := p.pos;
    var buf := new Byte[size];
    p := new PointerWrap(buf, WRITE, less);
    var _ := p.Do(sh, x, x);
    image := buf[..];
    p := new PointerWrap(buf, READ, less);
    assert buf[..][0..0 + |Enc(x)|] == Enc(x);
    y' := p.Do(sh, y, x);
  }

  /** Measures an object of any size. The measured size never passes the true one, and is the true one
      exactly when the object fits; the object stays as it was exactly when it is steady. */
  method Measure(sh: Shape, x: Value, less: (Value, Value) -> bool) returns (size: int, x': Value)
    requires Typed(x, sh)
    ensures size <= |Enc(x)|
    ensures Solid(sh) ==> (size == |Enc(x)| <==> Fits(sh, x))
    ensures x' == x <==> Steady(sh, x)
  {
    hide Enc, Out, After, Solid, Fits, Steady;
    var none := new Byte[0];
    var p := new PointerWrap(none, MEASURE, less);
    TextsFree(MEASURE, x);
    x' := p.Do(sh, x, x);
    size := p.pos;
    SizeIff(sh, x);
    KeepsIff(sh, x, less);
  }

  /** Measuring a vector, a deque or a list of steady elements cuts it to its size modulo 2^32. */
  method MeasureElements(sh: Shape, elem: Shape, x: seq<Value>, less: (Value, Value) -> bool) returns (x': seq<Value>)
    requires (sh == Vec(elem) || sh == Seq(elem)) && Typed(SeqV(x), sh)
      && forall i :: 0 <= i < |x| ==> Steady(elem, x[i])
    ensures x' == x[..|x| % U32_SIZE]
  {
    hide Out, After, Steady;
    CountKeepsIff(sh, elem, x, less);
    var none := new Byte[0];
    var p := new PointerWrap(none, MEASURE, less);
    TextsFree(MEASURE, SeqV(x));
    var v := p.Do(sh, SeqV(x), SeqV(x));
    x' := v.elems;
  }

  /** After SetError(ERROR_FAILURE), whatever the mode was, Do on an object of any size changes no byte,
      and no object but an unsteady one. */
  method DoAfterFailure(p: PointerWrap, sh: Shape, x: Value) returns (x': Value)
    requires Typed(x, sh)
    modifies p, p.buf
    ensures x' == x <==> Steady(sh, x)
    ensures p.mode == MEASURE && p.buf == old(p.buf) && p.buf[..] == old(p.buf[..]) && p.mismatch == old(p.mismatch)
    ensures Fits(sh, x) ==> x' == x && p.pos == old(p.pos) + |Enc(x)|
  {
    hide Enc, Out, After, Fits, Steady;
    p.SetError(FAILURE);
    TextsFree(MEASURE, x);
    x' := p.Do(sh, x, x);
    KeepsIff(sh, x, p.less);
    if Fits(sh, x) {
      FitsSteady(sh, x);
      OutIsEnc(sh, x);
    }
  }

  /** MODE_VERIFY over the saved form of v, with room for x, reports a difference exactly when x is not v. */
  lemma VerifyFindsDifference(sh: Shape, x: Value, v: Value, a: Stream, b: Stream, rest: seq<Byte>)
    requires Typed(x, sh) && Typed(v, sh) && Fits(sh, x) && Sized(v)
    requires 0 <= a.pos <= |a.buf| && a.buf[a.pos..] == Enc(v) + rest && !a.bad
    requires Moves(VERIFY, Out(sh, x), a, b)
    ensures b.bad <==> x != v
  {
    hide Enc, Out, Fits, Sized;
    OutIsEnc(sh, x);
    FitsSized(sh, x);
    var tail := a.buf[b.pos..];
    assert a.buf[a.pos..b.pos] == a.buf[a.pos..][..|Enc(x)|];
    if a.buf[a.pos..b.pos] == Enc(x) {
      assert a.buf[a.pos..] == Enc(x) + tail;
      EncInjective(sh, x, v, tail, rest);
    }
  }
}

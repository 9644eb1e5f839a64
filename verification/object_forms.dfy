/** common/chunk_file.h: what an object should be in the stream, what PointerWrap moves for it, and what
    it makes of the object. Sizes and counts go through the source's 32-bit types, for objects of any
    size; the two agree exactly for the objects that fit. */
module ObjectForms {
  import opened Arith
  import opened Bytes

  datatype Mode = READ | WRITE | MEASURE | VERIFY
  datatype Error = NONE | WARNING | FAILURE

  /** The C++ type of an object. Vec stands for vector; Seq for deque and list, which move element by
      element; Fields for a class whose DoState does its members in turn. Pods are the trivial types.
      DoSet only compiles for those. */
  datatype Shape =
    | Pod(size: nat)
    | Str
    | Vec(elem: Shape)
    | Seq(elem: Shape)
    | Map(key: Shape, val: Shape)
    | Set(size: nat)
    | Fields(members: seq<Shape>)

  /** SeqV is a vector, a deque or a list. */
  datatype Value =
    | PodV(bytes: seq<Byte>)
    | StrV(chars: seq<Byte>)
    | SeqV(elems: seq<Value>)
    | MapV(entries: seq<Entry>)
    | SetV(pods: seq<seq<Byte>>)
    | FieldsV(members: seq<Value>)

  datatype Entry = Entry(key: Value, val: Value)

  const U32_SIZE: nat := 0x1_0000_0000
  const INT_MAX: nat := 0x7FFF_FFFF

  // ---------------------------------------------------------------- objects

  predicate Typed(v: Value, sh: Shape)
    decreases sh
  {
    match (v, sh)
    case (PodV(b), Pod(n)) => |b| == n
    case (StrV(_), Str) => true
    case (SeqV(es), Vec(e)) => forall i :: 0 <= i < |es| ==> Typed(es[i], e)
    case (SeqV(es), Seq(e)) => forall i :: 0 <= i < |es| ==> Typed(es[i], e)
    case (MapV(es), Map(k, w)) => forall i :: 0 <= i < |es| ==> Typed(es[i].key, k) && Typed(es[i].val, w)
    case (SetV(ps), Set(n)) => forall i :: 0 <= i < |ps| ==> |ps[i]| == n
    case (FieldsV(ms), Fields(ss)) => |ms| == |ss| && forall i :: 0 <= i < |ms| ==> Typed(ms[i], ss[i])
    case _ => false
  }

  /** T(). */
  function Default(sh: Shape): (v: Value)
    ensures Typed(v, sh)
    decreases sh
  {
    match sh
    case Pod(n) => PodV(seq(n, _ => 0))
    case Str => StrV([])
    case Vec(_) => SeqV([])
    case Seq(_) => SeqV([])
    case Map(_, _) => MapV([])
    case Set(_) => SetV([])
    case Fields(ss) => FieldsV(seq(|ss|, i requires 0 <= i < |ss| => Default(ss[i])))
  }

  /** No byte count of a block passes the int it is handed over in, and no element count the type it is
      kept in: a u32, and an int as well for vectors. */
  predicate Fits(sh: Shape, v: Value)
    requires Typed(v, sh)
    decreases sh
  {
    match sh
    case Pod(n) => n <= INT_MAX
    case Str => |v.chars| < INT_MAX
    case Vec(e) =>
      if e.Pod? then |v.elems| < U32_SIZE && e.size * |v.elems| <= INT_MAX
      else |v.elems| <= INT_MAX && forall i :: 0 <= i < |v.elems| ==> Fits(e, v.elems[i])
    case Seq(e) => |v.elems| < U32_SIZE && forall i :: 0 <= i < |v.elems| ==> Fits(e, v.elems[i])
    case Map(k, w) =>
      && |v.entries| < U32_SIZE
      && forall i :: 0 <= i < |v.entries| ==> Fits(k, v.entries[i].key) && Fits(w, v.entries[i].val)
    case Set(n) => |v.pods| < U32_SIZE && (v.pods != [] ==> n <= INT_MAX)
    case Fields(ss) => forall i :: 0 <= i < |ss| ==> Fits(ss[i], v.members[i])
  }

  /** Counts fit the u32 they are written in: what the stream form needs to be readable at all. */
  predicate Sized(v: Value)
    decreases v
  {
    match v
    case PodV(_) => true
    case StrV(c) => |c| < INT_MAX
    case SeqV(es) => |es| < U32_SIZE && forall i :: 0 <= i < |es| ==> Sized(es[i])
    case MapV(es) => |es| < U32_SIZE && forall i :: 0 <= i < |es| ==> Sized(es[i].key) && Sized(es[i].val)
    case SetV(ps) => |ps| < U32_SIZE
    case FieldsV(ms) => forall i :: 0 <= i < |ms| ==> Sized(ms[i])
  }

  lemma {:induction false} FitsSized(sh: Shape, v: Value)
    requires Typed(v, sh) && Fits(sh, v)
    ensures Sized(v)
    decreases sh
  {
    match sh
    case Pod(_) =>
    case Str =>
    case Vec(e) => forall i | 0 <= i < |v.elems| ensures Sized(v.elems[i]) { if !e.Pod? { FitsSized(e, v.elems[i]); } }
    case Seq(e) => forall i | 0 <= i < |v.elems| ensures Sized(v.elems[i]) { FitsSized(e, v.elems[i]); }
    case Map(k, w) =>
      forall i | 0 <= i < |v.entries| ensures Sized(v.entries[i].key) && Sized(v.entries[i].val) {
        FitsSized(k, v.entries[i].key);
        FitsSized(w, v.entries[i].val);
      }
    case Set(_) =>
    case Fields(ss) => forall i | 0 <= i < |ss| ensures Sized(v.members[i]) { FitsSized(ss[i], v.members[i]); }
  }

  /** No string has a NUL in it. */
  predicate NulFree(v: Value)
    decreases v
  {
    match v
    case StrV(c) => 0 !in c
    case SeqV(es) => forall i :: 0 <= i < |es| ==> NulFree(es[i])
    case MapV(es) => forall i :: 0 <= i < |es| ==> NulFree(es[i].key) && NulFree(es[i].val)
    case FieldsV(ms) => forall i :: 0 <= i < |ms| ==> NulFree(ms[i])
    case _ => true
  }

  /** What each mode asks of the strings: to be loaded or compared, that the NUL behind each is in the
      stream too; and to be compared, that it is the first one. */
  predicate Texts(mode: Mode, v: Value)
    decreases v
  {
    match v
    case StrV(c) => (mode == READ || mode == VERIFY ==> |c| < INT_MAX) && (mode == VERIFY ==> 0 !in c)
    case SeqV(es) => forall i :: 0 <= i < |es| ==> Texts(mode, es[i])
    case MapV(es) => forall i :: 0 <= i < |es| ==> Texts(mode, es[i].key) && Texts(mode, es[i].val)
    case FieldsV(ms) => forall i :: 0 <= i < |ms| ==> Texts(mode, ms[i])
    case _ => true
  }

  lemma {:induction false} TextsFree(mode: Mode, v: Value)
    requires mode == WRITE || mode == MEASURE
    ensures Texts(mode, v)
    decreases v
  {
    match v
    case SeqV(es) => forall i | 0 <= i < |es| ensures Texts(mode, es[i]) { TextsFree(mode, es[i]); }
    case MapV(es) =>
      forall i | 0 <= i < |es| ensures Texts(mode, es[i].key) && Texts(mode, es[i].val) {
        TextsFree(mode, es[i].key);
        TextsFree(mode, es[i].val);
      }
    case FieldsV(ms) => forall i | 0 <= i < |ms| ensures Texts(mode, ms[i]) { TextsFree(mode, ms[i]); }
    case _ =>
  }

  lemma {:induction false} FitsTexts(mode: Mode, sh: Shape, v: Value)
    requires Typed(v, sh) && Fits(sh, v) && (mode == VERIFY ==> NulFree(v))
    ensures Texts(mode, v)
    decreases sh
  {
    match sh
    case Pod(_) =>
    case Str =>
    case Vec(e) =>
      forall i | 0 <= i < |v.elems| ensures Texts(mode, v.elems[i]) {
        if !e.Pod? { FitsTexts(mode, e, v.elems[i]); }
      }
    case Seq(e) => forall i | 0 <= i < |v.elems| ensures Texts(mode, v.elems[i]) { FitsTexts(mode, e, v.elems[i]); }
    case Map(k, w) =>
      forall i | 0 <= i < |v.entries| ensures Texts(mode, v.entries[i].key) && Texts(mode, v.entries[i].val) {
        FitsTexts(mode, k, v.entries[i].key);
        FitsTexts(mode, w, v.entries[i].val);
      }
    case Set(_) =>
    case Fields(ss) =>
      forall i | 0 <= i < |ss| ensures Texts(mode, v.members[i]) { FitsTexts(mode, ss[i], v.members[i]); }
  }

  /** The C string that starts these characters. */
  function CText(c: seq<Byte>): (r: seq<Byte>)
    ensures r <= c && 0 !in r && (|r| < |c| ==> c[|r|] == 0)
    ensures 0 !in c <==> r == c
  {
    if c == [] || c[0] == 0 then [] else [c[0]] + CText(c[1..])
  }

  // ---------------------------------------------------------------- the stream form

  /** The bytes an object should be in the stream. */
  function Enc(v: Value): seq<Byte>
    decreases v
  {
    match v
    case PodV(b) => b
    case StrV(c) => ToLE(|c| + 1, 4) + c + [0]
    case SeqV(es) => ToLE(|es|, 4) + EncAll(es)
    case MapV(es) => ToLE(|es|, 4) + EncEntries(es)
    case SetV(ps) => ToLE(|ps|, 4) + Flat(ps)
    case FieldsV(ms) => EncAll(ms)
  }

  function EncAll(vs: seq<Value>): seq<Byte>
    decreases vs
  {
    if vs == [] then [] else Enc(vs[0]) + EncAll(vs[1..])
  }

  function EncEntries(es: seq<Entry>): seq<Byte>
    decreases es
  {
    if es == [] then [] else EncEntry(es[0]) + EncEntries(es[1..])
  }

  function EncEntry(e: Entry): seq<Byte>
    decreases e
  {
    Enc(e.key) + Enc(e.val)
  }

  function Flat(ps: seq<seq<Byte>>): seq<Byte>
    decreases ps
  {
    if ps == [] then [] else ps[0] + Flat(ps[1..])
  }

  lemma SplitEqual(a: seq<Byte>, r: seq<Byte>, b: seq<Byte>, t: seq<Byte>)
    requires a + r == b + t && |a| == |b|
    ensures a == b && r == t
  {
    assert a == (a + r)[..|a|] && b == (b + t)[..|b|];
    assert r == (a + r)[|a|..] && t == (b + t)[|b|..];
  }

  lemma CountEqual(n: nat, r: seq<Byte>, m: nat, t: seq<Byte>)
    requires n < U32_SIZE && m < U32_SIZE && ToLE(n, 4) + r == ToLE(m, 4) + t
    ensures n == m && r == t
  {
    SplitEqual(ToLE(n, 4), r, ToLE(m, 4), t);
    Widths();
    FromToLE(n, 4);
    FromToLE(m, 4);
  }

  /** The stream form determines the object: no object's form is a prefix of another's. */
  lemma {:induction false} EncInjective(sh: Shape, x: Value, y: Value, r: seq<Byte>, t: seq<Byte>)
    requires Typed(x, sh) && Typed(y, sh) && Sized(x) && Sized(y)
    requires Enc(x) + r == Enc(y) + t
    ensures x == y && r == t
    decreases sh, 2
  {
    hide ToLE, EncAll, EncEntries, Flat;
    match sh
    case Pod(n) => SplitEqual(x.bytes, r, y.bytes, t);
    case Str =>
      Regroup(ToLE(|x.chars| + 1, 4), x.chars, [0], r);
      Regroup(ToLE(|y.chars| + 1, 4), y.chars, [0], t);
      CountEqual(|x.chars| + 1, x.chars + ([0] + r), |y.chars| + 1, y.chars + ([0] + t));
      SplitEqual(x.chars, [0] + r, y.chars, [0] + t);
      SplitEqual([0], r, [0], t);
    case Vec(elem) =>
      CountsEqual(|x.elems|, EncAll(x.elems), r, |y.elems|, EncAll(y.elems), t);
      ElemsInjective(elem, x.elems, y.elems, r, t);
    case Seq(elem) =>
      CountsEqual(|x.elems|, EncAll(x.elems), r, |y.elems|, EncAll(y.elems), t);
      ElemsInjective(elem, x.elems, y.elems, r, t);
    case Map(key, val) =>
      CountsEqual(|x.entries|, EncEntries(x.entries), r, |y.entries|, EncEntries(y.entries), t);
      EntriesInjective(key, val, x.entries, y.entries, r, t);
    case Set(n) =>
      CountsEqual(|x.pods|, Flat(x.pods), r, |y.pods|, Flat(y.pods), t);
      FlatInjective(n, x.pods, y.pods, r, t);
    case Fields(members) => FieldsInjective(members, x.members, y.members, r, t);
  }

  lemma Regroup(a: seq<Byte>, b: seq<Byte>, c: seq<Byte>, d: seq<Byte>)
    ensures a + b + c + d == a + (b + (c + d))
  {
  }

  lemma CountsEqual(n: nat, a: seq<Byte>, r: seq<Byte>, m: nat, b: seq<Byte>, t: seq<Byte>)
    requires n < U32_SIZE && m < U32_SIZE && ToLE(n, 4) + a + r == ToLE(m, 4) + b + t
    ensures n == m && a + r == b + t
  {
    hide ToLE;
    assert ToLE(n, 4) + a + r == ToLE(n, 4) + (a + r) && ToLE(m, 4) + b + t == ToLE(m, 4) + (b + t);
    CountEqual(n, a + r, m, b + t);
  }

  lemma EncAllFirst(x: seq<Value>, r: seq<Byte>)
    requires x != []
    ensures EncAll(x) + r == Enc(x[0]) + (EncAll(x[1..]) + r)
  {
  }

  lemma EncEntriesFirst(x: seq<Entry>, r: seq<Byte>)
    requires x != []
    ensures EncEntries(x) + r == Enc(x[0].key) + (Enc(x[0].val) + (EncEntries(x[1..]) + r))
  {
    hide Enc;
    Regroup(Enc(x[0].key), Enc(x[0].val), EncEntries(x[1..]), r);
  }

  lemma {:induction false} ElemsInjective(elem: Shape, x: seq<Value>, y: seq<Value>, r: seq<Byte>, t: seq<Byte>)
    requires |x| == |y| && EncAll(x) + r == EncAll(y) + t
    requires forall i :: 0 <= i < |x| ==> Typed(x[i], elem) && Typed(y[i], elem) && Sized(x[i]) && Sized(y[i])
    ensures x == y && r == t
    decreases elem, 3, |x|
  {
    hide Enc;
    if x == [] {
      assert r == [] + r && t == [] + t;
    } else {
      EncAllFirst(x, r);
      EncAllFirst(y, t);
      EncInjective(elem, x[0], y[0], EncAll(x[1..]) + r, EncAll(y[1..]) + t);
      ElemsInjective(elem, x[1..], y[1..], r, t);
    }
  }

  lemma {:induction false} FieldsInjective(members: seq<Shape>, x: seq<Value>, y: seq<Value>, r: seq<Byte>,
                                           t: seq<Byte>)
    requires |x| == |y| == |members| && EncAll(x) + r == EncAll(y) + t
    requires forall i :: 0 <= i < |x| ==>
      Typed(x[i], members[i]) && Typed(y[i], members[i]) && Sized(x[i]) && Sized(y[i])
    ensures x == y && r == t
    decreases members, 3
  {
    hide Enc;
    if x == [] {
      assert r == [] + r && t == [] + t;
    } else {
      EncAllFirst(x, r);
      EncAllFirst(y, t);
      EncInjective(members[0], x[0], y[0], EncAll(x[1..]) + r, EncAll(y[1..]) + t);
      FieldsInjective(members[1..], x[1..], y[1..], r, t);
    }
  }

  lemma {:induction false} EntriesInjective(key: Shape, val: Shape, x: seq<Entry>, y: seq<Entry>, r: seq<Byte>,
                                            t: seq<Byte>)
    requires |x| == |y| && EncEntries(x) + r == EncEntries(y) + t
    requires forall i :: 0 <= i < |x| ==>
      Typed(x[i].key, key) && Typed(y[i].key, key) && Sized(x[i].key) && Sized(y[i].key)
    requires forall i :: 0 <= i < |x| ==>
      Typed(x[i].val, val) && Typed(y[i].val, val) && Sized(x[i].val) && Sized(y[i].val)
    ensures x == y && r == t
    decreases Map(key, val), 1, |x|
  {
    hide Enc;
    if x == [] {
      assert r == [] + r && t == [] + t;
    } else {
      var r1, t1 := EncEntries(x[1..]) + r, EncEntries(y[1..]) + t;
      EncEntriesFirst(x, r);
      EncEntriesFirst(y, t);
      EncInjective(key, x[0].key, y[0].key, Enc(x[0].val) + r1, Enc(y[0].val) + t1);
      EncInjective(val, x[0].val, y[0].val, r1, t1);
      EntriesInjective(key, val, x[1..], y[1..], r, t);
    }
  }

  lemma {:induction false} FlatInjective(n: nat, x: seq<seq<Byte>>, y: seq<seq<Byte>>, r: seq<Byte>, t: seq<Byte>)
    requires |x| == |y| && Flat(x) + r == Flat(y) + t
    requires forall i :: 0 <= i < |x| ==> |x[i]| == |y[i]| == n
    ensures x == y && r == t
    decreases |x|
  {
    if x == [] {
      assert r == [] + r && t == [] + t;
    } else {
      assert Flat(x) + r == x[0] + (Flat(x[1..]) + r);
      assert Flat(y) + t == y[0] + (Flat(y[1..]) + t);
      SplitEqual(x[0], Flat(x[1..]) + r, y[0], Flat(y[1..]) + t);
      FlatInjective(n, x[1..], y[1..], r, t);
    }
  }

  // ---------------------------------------------------------------- sizes in the source's types

  function Nat(x: int): nat {
    if x < 0 then 0 else x
  }

  /** sizeof(T) * count as it reaches DoVoid: the u32 count becomes an int, then a size_t, and the product an int. */
  function VectorBytes(size: nat, n: nat): S32 {
    Wrap32(size * (Wrap32(n) % 0x1_0000_0000_0000_0000) % 0x1_0000_0000_0000_0000)
  }

  lemma VectorBytesIs(size: nat, n: nat)
    ensures VectorBytes(size, n) == Wrap32(size * n)
    ensures VectorBytes(size, n) <= size * n
  {
    var m := 0x1_0000_0000_0000_0000;
    var c := Wrap32(n);
    var d, e, f := (n + 0x8000_0000) / U32_SIZE, c / m, size * (c % m) / m;
    assert c == n - d * U32_SIZE && c == e * m + c % m;
    var q := -d - e * U32_SIZE;
    assert c % m == n + q * U32_SIZE;
    assert size * (c % m) == size * n + (size * q) * U32_SIZE by { Distribute(size, n, q); }
    assert size * (c % m) == f * m + size * (c % m) % m;
    WrapSame(size * (c % m) % m, size * n, size * q - f * U32_SIZE);
    assert size * n >= 0;
  }

  lemma Distribute(a: int, b: int, q: int)
    ensures a * (b + q * U32_SIZE) == a * b + (a * q) * U32_SIZE
  {
    MulAssoc(a, q, U32_SIZE);
  }

  lemma WrapSame(x: int, y: int, q: int)
    requires x == y + q * U32_SIZE
    ensures Wrap32(x) == Wrap32(y)
  {
    ModShift(y + 0x8000_0000, q, U32_SIZE);
  }

  // ---------------------------------------------------------------- moving bytes

  /** Bytes moved, and how far the cursor goes: the same, except that a block of negative size moves no
      bytes and takes the cursor back. */
  datatype Move = Move(bytes: seq<Byte>, size: int)

  type Piece = m: Move | m.size <= |m.bytes| witness Move([], 0)

  function Plain(e: seq<Byte>): Piece {
    Move(e, |e|)
  }

  /** A block of memory that is handed over with this size. */
  function Block(data: seq<Byte>, size: int): Piece
    requires size <= |data|
  {
    Move(data[..Nat(size)], size)
  }

  function Join(p: Piece, q: Piece): Piece {
    Move(p.bytes + q.bytes, p.size + q.size)
  }

  const NOTHING: Piece := Move([], 0)

  lemma JoinNothing(p: Piece)
    ensures Join(NOTHING, p) == p == Join(p, NOTHING)
  {
  }

  lemma JoinAssociates(p: Piece, q: Piece, r: Piece)
    ensures Join(p, Join(q, r)) == Join(Join(p, q), r)
  {
  }

  lemma PlainJoin(e: seq<Byte>, f: seq<Byte>)
    ensures Plain(e + f) == Join(Plain(e), Plain(f))
  {
  }

  /** No block of negative size. */
  predicate Whole(p: Piece) {
    p.size == |p.bytes|
  }

  /** The stream at one moment: the buffer, the cursor, and whether a difference has been reported. */
  datatype Stream = Stream(buf: seq<Byte>, pos: int, bad: bool)

  /** What the caller owes for moving p: the bytes to load, or room for them. */
  ghost predicate Room(mode: Mode, a: Stream, p: Piece) {
    mode == MEASURE ||
    (Whole(p) && 0 <= a.pos <= a.pos + p.size <= |a.buf| && (mode == READ ==> a.buf[a.pos..a.pos + p.size] == p.bytes))
  }

  /** What moving p does to the stream. */
  ghost predicate Moves(mode: Mode, p: Piece, a: Stream, b: Stream) {
    && b.pos == a.pos + p.size
    && (mode != MEASURE ==> 0 <= a.pos <= b.pos <= |a.buf|)
    && match mode
       case WRITE => b.buf == a.buf[..a.pos] + p.bytes + a.buf[b.pos..] && b.bad == a.bad
       case VERIFY => b.buf == a.buf && b.bad == (a.bad || a.buf[a.pos..b.pos] != p.bytes)
       case _ => b.buf == a.buf && b.bad == a.bad
  }

  /** total = done + rest, with done moved and the stream ready for rest. */
  ghost predicate Progress(mode: Mode, total: Piece, done: Piece, rest: Piece, a: Stream, b: Stream) {
    total == Join(done, rest) && Moves(mode, done, a, b) && Room(mode, b, rest) && (mode != MEASURE ==> Whole(done))
  }

  lemma ProgressStart(mode: Mode, total: Piece, a: Stream)
    requires Room(mode, a, total)
    ensures Progress(mode, total, NOTHING, total, a, a)
  {
    JoinNothing(total);
    if mode == WRITE { assert a.buf == a.buf[..a.pos] + [] + a.buf[a.pos..]; }
  }

  lemma RoomFirst(mode: Mode, a: Stream, e: Piece, f: Piece)
    requires Room(mode, a, Join(e, f))
    ensures Room(mode, a, e)
  {
    if mode == READ {
      var both := e.bytes + f.bytes;
      assert a.buf[a.pos..a.pos + |e.bytes|] == a.buf[a.pos..a.pos + |both|][..|e.bytes|] == e.bytes;
    }
  }

  lemma RoomSecond(mode: Mode, a: Stream, b: Stream, e: Piece, f: Piece)
    requires Room(mode, a, Join(e, f)) && Moves(mode, e, a, b)
    ensures Room(mode, b, f)
  {
    if mode == READ {
      var both := e.bytes + f.bytes;
      assert a.buf[b.pos..b.pos + |f.bytes|] == a.buf[a.pos..a.pos + |both|][|e.bytes|..] == f.bytes;
    }
  }

  lemma MovesTwice(mode: Mode, e: Piece, f: Piece, a: Stream, b: Stream, c: Stream)
    requires Moves(mode, e, a, b) && Moves(mode, f, b, c) && (mode != MEASURE ==> Whole(e) && Whole(f))
    ensures Moves(mode, Join(e, f), a, c)
  {
    if mode == VERIFY {
      var both := e.bytes + f.bytes;
      assert a.buf[a.pos..c.pos] == a.buf[a.pos..b.pos] + a.buf[b.pos..c.pos];
      assert both[..|e.bytes|] == e.bytes && both[|e.bytes|..] == f.bytes;
    }
  }

  lemma ProgressNext(mode: Mode, total: Piece, done: Piece, e: Piece, rest: Piece, a: Stream, b: Stream)
    requires Progress(mode, total, done, Join(e, rest), a, b)
    ensures Room(mode, b, e)
  {
    RoomFirst(mode, b, e, rest);
  }

  lemma ProgressStep(mode: Mode, total: Piece, done: Piece, e: Piece, rest: Piece, a: Stream, b: Stream, c: Stream)
    requires Progress(mode, total, done, Join(e, rest), a, b) && Moves(mode, e, b, c)
    ensures Progress(mode, total, Join(done, e), rest, a, c)
  {
    RoomWhole(mode, b, e, rest);
    hide Moves, Room, Join;
    MovesTwice(mode, done, e, a, b, c);
    RoomSecond(mode, b, c, e, rest);
    JoinAssociates(done, e, rest);
  }

  lemma RoomWhole(mode: Mode, b: Stream, e: Piece, rest: Piece)
    requires Room(mode, b, Join(e, rest))
    ensures mode != MEASURE ==> Whole(e)
    ensures forall done: Piece :: mode != MEASURE && Whole(done) ==> Whole(Join(done, e))
  {
  }

  lemma ProgressEnd(mode: Mode, total: Piece, done: Piece, a: Stream, b: Stream)
    requires Progress(mode, total, done, NOTHING, a, b)
    ensures Moves(mode, total, a, b)
  {
    JoinNothing(done);
  }

  // ---------------------------------------------------------------- containers

  ghost predicate StrictOrder(less: (Value, Value) -> bool) {
    && (forall a :: !less(a, a))
    && (forall a, b, c :: less(a, b) && less(b, c) ==> less(a, c))
  }

  ghost predicate Ascending(es: seq<Entry>, less: (Value, Value) -> bool) {
    forall i, j :: 0 <= i < j < |es| ==> less(es[i].key, es[j].key)
  }

  ghost predicate AscendingPods(ps: seq<seq<Byte>>, less: (Value, Value) -> bool) {
    forall i, j :: 0 <= i < j < |ps| ==> less(PodV(ps[i]), PodV(ps[j]))
  }

  /** Maps and sets, wherever they are inside v, are in the order of their keys. */
  ghost predicate Lawful(v: Value, less: (Value, Value) -> bool)
    decreases v
  {
    match v
    case SeqV(es) => forall i :: 0 <= i < |es| ==> Lawful(es[i], less)
    case MapV(es) =>
      Ascending(es, less) && forall i :: 0 <= i < |es| ==> Lawful(es[i].key, less) && Lawful(es[i].val, less)
    case SetV(ps) => AscendingPods(ps, less)
    case FieldsV(ms) => forall i :: 0 <= i < |ms| ==> Lawful(ms[i], less)
    case _ => true
  }

  /** x[key] = val on a std::map. */
  function PutKey(es: seq<Entry>, key: Value, val: Value, less: (Value, Value) -> bool): seq<Entry> {
    if es == [] || less(key, es[0].key) then [Entry(key, val)] + es
    else if less(es[0].key, key) then [es[0]] + PutKey(es[1..], key, val, less)
    else [Entry(es[0].key, val)] + es[1..]
  }

  lemma OneWay(less: (Value, Value) -> bool, a: Value, b: Value)
    requires StrictOrder(less) && less(a, b)
    ensures !less(b, a)
  {
    assert less(b, a) ==> less(a, a);
  }

  lemma {:induction false} PutKeyLast(es: seq<Entry>, key: Value, val: Value, less: (Value, Value) -> bool)
    requires StrictOrder(less) && forall i :: 0 <= i < |es| ==> less(es[i].key, key)
    ensures PutKey(es, key, val, less) == es + [Entry(key, val)]
  {
    hide StrictOrder;
    if es != [] {
      OneWay(less, es[0].key, key);
      PutKeyLast(es[1..], key, val, less);
    }
  }

  /** x.insert(p) on a std::set. */
  function PutPod(ps: seq<seq<Byte>>, p: seq<Byte>, less: (Value, Value) -> bool): seq<seq<Byte>> {
    if ps == [] || less(PodV(p), PodV(ps[0])) then [p] + ps
    else if less(PodV(ps[0]), PodV(p)) then [ps[0]] + PutPod(ps[1..], p, less)
    else ps
  }

  lemma {:induction false} PutPodLast(ps: seq<seq<Byte>>, p: seq<Byte>, less: (Value, Value) -> bool)
    requires StrictOrder(less) && forall i :: 0 <= i < |ps| ==> less(PodV(ps[i]), PodV(p))
    ensures PutPod(ps, p, less) == ps + [p]
  {
    hide StrictOrder;
    if ps != [] {
      OneWay(less, PodV(ps[0]), PodV(p));
      PutPodLast(ps[1..], p, less);
    }
  }

  /** x.resize(n, default_val). */
  function Resized(es: seq<Value>, n: nat, d: Value): (r: seq<Value>)
    ensures |r| == n
  {
    if n <= |es| then es[..n] else es + seq(n - |es|, _ => d)
  }

  lemma EncAllSplit(vs: seq<Value>, i: nat)
    requires i < |vs|
    ensures EncAll(vs[i..]) == Enc(vs[i]) + EncAll(vs[i + 1..])
  {
    assert vs[i..][1..] == vs[i + 1..];
  }

  lemma {:induction false} EncAllConcat(a: seq<Value>, b: seq<Value>)
    ensures EncAll(a + b) == EncAll(a) + EncAll(b)
  {
    hide Enc;
    if a == [] {
      assert a + b == b;
    } else {
      assert (a + b)[1..] == a[1..] + b;
      EncAllConcat(a[1..], b);
    }
  }

  // ---------------------------------------------------------------- vectors of trivial type, as memory

  predicate Pods(es: seq<Value>, k: nat) {
    forall i :: 0 <= i < |es| ==> es[i].PodV? && |es[i].bytes| == k
  }

  lemma {:induction false} PodsSize(es: seq<Value>, k: nat)
    requires Pods(es, k)
    ensures |EncAll(es)| == k * |es|
  {
    if es != [] {
      PodsSize(es[1..], k);
      assert k * |es| == k + k * |es[1..]|;
    }
  }

  lemma {:induction false} PodsSame(x: seq<Value>, y: seq<Value>, k: nat)
    requires Pods(x, k) && Pods(y, k) && |x| == |y| && EncAll(x) == EncAll(y)
    ensures x == y
  {
    if x != [] {
      assert EncAll(x)[..k] == x[0].bytes && EncAll(y)[..k] == y[0].bytes;
      assert EncAll(x)[k..] == EncAll(x[1..]) && EncAll(y)[k..] == EncAll(y[1..]);
      PodsSame(x[1..], y[1..], k);
      assert x == [x[0]] + x[1..] && y == [y[0]] + y[1..];
    }
  }

  /** The elements of a vector whose memory is these bytes. */
  function Poured(n: nat, k: nat, memory: seq<Byte>): (r: seq<Value>)
    requires |memory| == k * n
    ensures |r| == n && Pods(r, k) && EncAll(r) == memory
    decreases n
  {
    if n == 0 then []
    else
      OneMore(k, n);
      var r := [PodV(memory[..k])] + Poured(n - 1, k, memory[k..]);
      assert r[1..] == Poured(n - 1, k, memory[k..]) && memory[..k] + memory[k..] == memory;
      r
  }

  /** es with the first bytes of its memory overwritten. */
  function Overlaid(es: seq<Value>, k: nat, e: seq<Byte>): (r: seq<Value>)
    requires Pods(es, k) && |e| <= k * |es|
    ensures |EncAll(es)| == k * |es|
    ensures |r| == |es| && Pods(r, k) && EncAll(r) == e + EncAll(es)[|e|..]
  {
    PodsSize(es, k);
    Poured(|es|, k, e + EncAll(es)[|e|..])
  }

  // ---------------------------------------------------------------- what moving an object does

  /** The count that a container's size becomes. */
  function Count(n: nat): nat {
    n % U32_SIZE
  }

  /** How many elements the loop over a vector's int count visits. */
  function Visits(n: nat): nat {
    Nat(Wrap32(Count(n)))
  }

  lemma VisitsIs(n: nat)
    ensures Visits(n) <= Count(n) <= n
    ensures Count(n) == n <==> n < U32_SIZE
    ensures Visits(n) == n <==> n <= INT_MAX
  {
  }

  /** stringLen; the overflow at a length of 2^31 - 1 is taken to wrap. */
  function StringLen(c: seq<Byte>): S32 {
    Wrap32(Wrap32(|c|) + 1)
  }

  lemma StringLenIs(c: seq<Byte>)
    ensures StringLen(c) <= |c| + 1 && (StringLen(c) == |c| + 1 <==> |c| < INT_MAX)
  {
  }

  lemma WholeText(c: seq<Byte>)
    requires |c| < INT_MAX
    ensures StringLen(c) == |c| + 1 == |c + [0]| && (c + [0])[..Nat(StringLen(c))] == c + [0]
  {
  }

  /** The int comes back from the bits it is stored as. */
  lemma StringBits(c: seq<Byte>)
    ensures Wrap32(StringLen(c) % U32_SIZE) == StringLen(c)
  {
  }

  /** Typed elements of a trivial type are pods. */
  lemma TypedPods(es: seq<Value>, k: nat)
    requires Typed(SeqV(es), Vec(Pod(k)))
    ensures Pods(es, k)
  {
    forall i | 0 <= i < |es| ensures es[i].PodV? && |es[i].bytes| == k { assert Typed(es[i], Pod(k)); }
  }

  function VectorBlock(es: seq<Value>, k: nat): (p: Piece)
    requires Typed(SeqV(es), Vec(Pod(k)))
    ensures |p.bytes| == Nat(p.size) <= k * Count(|es|) && p.size == VectorBytes(k, Count(|es|))
    ensures p.bytes <= EncAll(es[..Count(|es|)])
  {
    var n := Count(|es|);
    TypedPods(es, k);
    PodsSize(es[..n], k);
    VectorBytesIs(k, n);
    Block(EncAll(es[..n]), VectorBytes(k, n))
  }

  /** What Do moves for an object, in every mode but MODE_READ; and what MODE_READ takes back in. */
  function Out(sh: Shape, v: Value): Piece
    requires Typed(v, sh)
    decreases sh, 2
  {
    match sh
    case Pod(n) => Block(v.bytes, Wrap32(n))
    case Str =>
      StringLenIs(v.chars);
      Join(Plain(ToLE(StringLen(v.chars) % U32_SIZE, 4)), Block(v.chars + [0], StringLen(v.chars)))
    case Vec(e) =>
      VisitsIs(|v.elems|);
      Join(Plain(ToLE(Count(|v.elems|), 4)),
           if e.Pod? then VectorBlock(v.elems, e.size) else OutAll(e, v.elems[..Visits(|v.elems|)], 0))
    case Seq(e) => Join(Plain(ToLE(Count(|v.elems|), 4)), OutAll(e, v.elems[..Count(|v.elems|)], 0))
    case Map(k, w) => Join(Plain(ToLE(Count(|v.entries|), 4)), OutEntries(k, w, v.entries[..Count(|v.entries|)], 0))
    case Set(n) => Join(Plain(ToLE(Count(|v.pods|), 4)), OutPods(n, v.pods[..Count(|v.pods|)], 0))
    case Fields(ss) => OutFields(ss, v.members, 0)
  }

  /** From element i on. */
  function OutAll(e: Shape, es: seq<Value>, i: nat): Piece
    requires i <= |es| && Typed(SeqV(es), Seq(e))
    decreases e, 3, |es| - i
  {
    if i == |es| then NOTHING else Join(Out(e, es[i]), OutAll(e, es, i + 1))
  }

  function OutEntry(k: Shape, w: Shape, e: Entry): Piece
    requires Typed(e.key, k) && Typed(e.val, w)
    decreases Map(k, w), 0
  {
    Join(Out(k, e.key), Out(w, e.val))
  }

  function OutEntries(k: Shape, w: Shape, es: seq<Entry>, i: nat): Piece
    requires i <= |es| && Typed(MapV(es), Map(k, w))
    decreases Map(k, w), 1, |es| - i
  {
    if i == |es| then NOTHING else Join(OutEntry(k, w, es[i]), OutEntries(k, w, es, i + 1))
  }

  function OutPods(n: nat, ps: seq<seq<Byte>>, i: nat): Piece
    requires i <= |ps| && Typed(SetV(ps), Set(n))
    decreases |ps| - i
  {
    if i == |ps| then NOTHING else Join(Block(ps[i], Wrap32(n)), OutPods(n, ps, i + 1))
  }

  function OutFields(ss: seq<Shape>, ms: seq<Value>, i: nat): Piece
    requires i <= |ss| && Typed(FieldsV(ms), Fields(ss))
    decreases ss, 3, |ss| - i
  {
    if i == |ss| then NOTHING else Join(Out(ss[i], ms[i]), OutFields(ss, ms, i + 1))
  }

  /** What an object x is after Do: in MODE_READ (load), where the stream has what saving w put there,
      and in the other modes, where w is x itself. */
  ghost function After(load: bool, sh: Shape, x: Value, w: Value, less: (Value, Value) -> bool): Value
    requires Typed(x, sh) && Typed(w, sh) && (!load ==> w == x)
    decreases sh, 2
  {
    match sh
    case Pod(n) => PodV(AfterPod(x.bytes, w.bytes))
    case Str => if load then StrV(CText(w.chars)) else x
    case Vec(e) =>
      var r := Resized(x.elems, Count(|w.elems|), Default(e));
      VisitsIs(|w.elems|);
      if e.Pod? then TypedPods(r, e.size); SeqV(AfterBlock(r, w.elems, e.size))
      else SeqV(AfterElems(load, e, r, w.elems[..Visits(|w.elems|)], less))
    case Seq(e) =>
      SeqV(AfterElems(load, e, Resized(x.elems, Count(|w.elems|), Default(e)), w.elems[..Count(|w.elems|)], less))
    case Map(k, val) =>
      if load then MapV(LoadedEntries(k, val, w.entries[..Count(|w.entries|)], Count(|w.entries|), less))
      else MapV(seq(|x.entries|, i requires 0 <= i < |x.entries| =>
        if i < Count(|x.entries|) then Redone(val, x.entries[i], less) else x.entries[i]))
    case Set(n) => if load then SetV(LoadedPods(n, w.pods, Count(|w.pods|), less)) else x
    case Fields(ss) =>
      FieldsV(seq(|ss|, i requires 0 <= i < |ss| => After(load, ss[i], x.members[i], w.members[i], less)))
  }

  function AfterPod(x: seq<Byte>, w: seq<Byte>): (r: seq<Byte>)
    requires |x| == |w|
    ensures |r| == |x|
  {
    var m := Nat(Wrap32(|x|));
    w[..m] + x[m..]
  }

  function AfterBlock(r: seq<Value>, w: seq<Value>, k: nat): (r': seq<Value>)
    requires Pods(r, k) && Typed(SeqV(w), Vec(Pod(k))) && |r| == Count(|w|)
    ensures |r'| == |r| && Pods(r', k)
  {
    Overlaid(r, k, VectorBlock(w, k).bytes)
  }

  /** The elements of r that w has stand for objects of this shape that can be moved. */
  ghost predicate Matched(load: bool, e: Shape, r: seq<Value>, w: seq<Value>) {
    |w| <= |r| && forall i :: 0 <= i < |w| ==> Typed(r[i], e) && Typed(w[i], e) && (!load ==> w[i] == r[i])
  }

  /** r with its first elements moved, as many as w has. */
  ghost function AfterElems(load: bool, e: Shape, r: seq<Value>, w: seq<Value>, less: (Value, Value) -> bool)
    : (r': seq<Value>)
    requires Matched(load, e, r, w)
    ensures |r'| == |r|
    decreases e, 3
  {
    seq(|r|, i requires 0 <= i < |r| => if i < |w| then After(load, e, r[i], w[i], less) else r[i])
  }

  /** The map that loading n entries builds, assigning one after the other. */
  ghost function LoadedEntries(k: Shape, val: Shape, w: seq<Entry>, n: nat, less: (Value, Value) -> bool): seq<Entry>
    requires n <= |w| && Typed(MapV(w), Map(k, val))
    decreases Map(k, val), 1, n
  {
    if n == 0 then []
    else PutKey(LoadedEntries(k, val, w, n - 1, less),
                After(true, k, Default(k), w[n - 1].key, less),
                After(true, val, Default(val), w[n - 1].val, less), less)
  }

  /** An entry in place, its value moved. */
  ghost function Redone(val: Shape, e: Entry, less: (Value, Value) -> bool): Entry
    requires Typed(e.val, val)
    decreases val, 3
  {
    e.(val := After(false, val, e.val, e.val, less))
  }

  /** The set that loading n elements builds. */
  ghost function LoadedPods(n: nat, w: seq<seq<Byte>>, count: nat, less: (Value, Value) -> bool): seq<seq<Byte>>
    requires count <= |w| && Typed(SetV(w), Set(n))
    decreases count
  {
    if count == 0 then [] else PutPod(LoadedPods(n, w, count - 1, less), AfterPod(seq(n, _ => 0), w[count - 1]), less)
  }

  // ---------------------------------------------------------------- one piece after the other

  lemma JoinEnd(total: Piece, head: Piece, tail: Piece)
    requires total == Join(head, tail)
    ensures Join(head, Join(tail, NOTHING)) == total && Join(Join(head, tail), NOTHING) == total
  {
    JoinNothing(tail);
    JoinNothing(total);
  }

  lemma OutAllNext(e: Shape, es: seq<Value>, i: nat)
    requires i <= |es| && Typed(SeqV(es), Seq(e))
    ensures i < |es| ==> Typed(es[i], e)
    ensures OutAll(e, es, i) == if i == |es| then NOTHING else Join(Out(e, es[i]), OutAll(e, es, i + 1))
  {
  }

  lemma OutEntriesNext(k: Shape, w: Shape, es: seq<Entry>, i: nat)
    requires i <= |es| && Typed(MapV(es), Map(k, w))
    ensures i < |es| ==> Typed(es[i].key, k) && Typed(es[i].val, w)
    ensures OutEntries(k, w, es, i)
         == if i == |es| then NOTHING else Join(OutEntry(k, w, es[i]), OutEntries(k, w, es, i + 1))
  {
  }

  lemma OutPodsNext(n: nat, ps: seq<seq<Byte>>, i: nat)
    requires i <= |ps| && Typed(SetV(ps), Set(n))
    ensures i < |ps| ==> |ps[i]| == n
    ensures OutPods(n, ps, i) == if i == |ps| then NOTHING else Join(Block(ps[i], Wrap32(n)), OutPods(n, ps, i + 1))
  {
  }

  lemma LoadedPodsNext(n: nat, w: seq<seq<Byte>>, i: nat, less: (Value, Value) -> bool)
    requires i <= |w| && Typed(SetV(w), Set(n))
    ensures LoadedPods(n, w, 0, less) == []
    ensures i < |w| ==>
      && |w[i]| == n
      && LoadedPods(n, w, i + 1, less) == PutPod(LoadedPods(n, w, i, less), AfterPod(seq(n, _ => 0), w[i]), less)
  {
  }

  /** What DoVoid makes of the block of an element. */
  lemma PodBlock(x: seq<Byte>, w: seq<Byte>)
    requires |x| == |w|
    ensures var e := Block(w, Wrap32(|w|)).bytes; |e| == Nat(Wrap32(|w|)) <= |x| && AfterPod(x, w) == e + x[|e|..]
    ensures Wrap32(|w|) <= |w| && Block(w, Wrap32(|w|)) == Move(Block(w, Wrap32(|w|)).bytes, Wrap32(|w|))
    ensures x == w ==> Block(w, Wrap32(|w|)).bytes == x[..Nat(Wrap32(|w|))]
  {
  }

  lemma OutFieldsNext(ss: seq<Shape>, ms: seq<Value>, i: nat)
    requires i <= |ss| && Typed(FieldsV(ms), Fields(ss))
    ensures |ms| == |ss| && (i < |ss| ==> Typed(ms[i], ss[i]))
    ensures OutFields(ss, ms, i) == if i == |ss| then NOTHING else Join(Out(ss[i], ms[i]), OutFields(ss, ms, i + 1))
  {
  }

  /** i elements are done. */
  ghost predicate ElemsDone(load: bool, e: Shape, r: seq<Value>, w: seq<Value>, less: (Value, Value) -> bool,
                            x: seq<Value>, i: nat)
    requires Matched(load, e, r, w) && i <= |w|
  {
    && |x| == |r| && (forall j :: i <= j < |r| ==> x[j] == r[j])
    && forall j :: 0 <= j < i ==> x[j] == After(load, e, r[j], w[j], less)
  }

  lemma ElemsStart(load: bool, e: Shape, r: seq<Value>, w: seq<Value>, less: (Value, Value) -> bool)
    requires Matched(load, e, r, w)
    ensures ElemsDone(load, e, r, w, less, r, 0)
  {
  }

  lemma ElemsNext(load: bool, e: Shape, r: seq<Value>, w: seq<Value>, less: (Value, Value) -> bool, x: seq<Value>,
                  i: nat)
    requires Matched(load, e, r, w) && i < |w| && ElemsDone(load, e, r, w, less, x, i)
    ensures i < |x| && i < |r| && x[i] == r[i] && Typed(r[i], e) && Typed(w[i], e) && (!load ==> w[i] == r[i])
    ensures ElemsDone(load, e, r, w, less, x[i := After(load, e, r[i], w[i], less)], i + 1)
  {
    hide After, Typed;
  }

  lemma ElemsEnd(load: bool, e: Shape, r: seq<Value>, w: seq<Value>, less: (Value, Value) -> bool, x: seq<Value>)
    requires Matched(load, e, r, w) && ElemsDone(load, e, r, w, less, x, |w|)
    ensures x == AfterElems(load, e, r, w, less)
  {
    hide After, Typed;
  }

  ghost predicate FieldsDone(load: bool, ss: seq<Shape>, r: seq<Value>, w: seq<Value>, less: (Value, Value) -> bool,
                             x: seq<Value>, i: nat)
    requires Typed(FieldsV(r), Fields(ss)) && Typed(FieldsV(w), Fields(ss)) && (!load ==> w == r) && i <= |ss|
  {
    && |x| == |r| && (forall j :: i <= j < |r| ==> x[j] == r[j])
    && forall j :: 0 <= j < i ==> x[j] == After(load, ss[j], r[j], w[j], less)
  }

  lemma FieldsNext(load: bool, ss: seq<Shape>, r: seq<Value>, w: seq<Value>, less: (Value, Value) -> bool,
                   x: seq<Value>, i: nat)
    requires Typed(FieldsV(r), Fields(ss)) && Typed(FieldsV(w), Fields(ss)) && (!load ==> w == r) && i < |ss|
    requires FieldsDone(load, ss, r, w, less, x, i)
    ensures i < |x| && i < |r| && i < |w| && x[i] == r[i] && Typed(r[i], ss[i]) && Typed(w[i], ss[i])
      && (!load ==> w[i] == r[i])
    ensures FieldsDone(load, ss, r, w, less, x[i := After(load, ss[i], r[i], w[i], less)], i + 1)
  {
    hide After;
  }

  lemma FieldsEnd(load: bool, ss: seq<Shape>, r: seq<Value>, w: seq<Value>, less: (Value, Value) -> bool, x: seq<Value>)
    requires Typed(FieldsV(r), Fields(ss)) && Typed(FieldsV(w), Fields(ss)) && (!load ==> w == r)
    requires FieldsDone(load, ss, r, w, less, x, |ss|)
    ensures FieldsV(x) == After(load, Fields(ss), FieldsV(r), FieldsV(w), less)
  {
  }

  ghost predicate EntriesDone(k: Shape, val: Shape, r: seq<Entry>, less: (Value, Value) -> bool, x: seq<Entry>, i: nat)
    requires Typed(MapV(r), Map(k, val)) && i <= |r|
  {
    && |x| == |r| && (forall j :: i <= j < |r| ==> x[j] == r[j])
    && forall j :: 0 <= j < i ==> x[j] == Redone(val, r[j], less)
  }

  lemma EntriesNext(k: Shape, val: Shape, r: seq<Entry>, less: (Value, Value) -> bool, x: seq<Entry>, i: nat)
    requires Typed(MapV(r), Map(k, val)) && i < |r| && EntriesDone(k, val, r, less, x, i)
    ensures i < |x| && x[i] == r[i] && Typed(r[i].key, k) && Typed(r[i].val, val)
    ensures EntriesDone(k, val, r, less, x[i := r[i].(val := After(false, val, r[i].val, r[i].val, less))], i + 1)
  {
    hide After;
  }

  lemma EntriesEnd(k: Shape, val: Shape, r: seq<Entry>, less: (Value, Value) -> bool, x: seq<Entry>)
    requires Typed(MapV(r), Map(k, val)) && EntriesDone(k, val, r, less, x, Count(|r|))
    ensures MapV(x) == After(false, Map(k, val), MapV(r), MapV(r), less)
  {
    VisitsIs(|r|);
  }

  /** The memory of the resized vector starts with the block that was saved, where it is the same vector. */
  lemma PodArrayBlock(r: seq<Value>, w: seq<Value>, k: nat)
    requires Typed(SeqV(w), Vec(Pod(k))) && Pods(r, k) && |r| == Count(|w|)
    ensures VectorBlock(w, k).size == VectorBytes(k, |r|) && |VectorBlock(w, k).bytes| == Nat(VectorBytes(k, |r|))
    ensures r == w[..|r|] && VectorBytes(k, |r|) <= |EncAll(r)| ==>
      VectorBlock(w, k).bytes == EncAll(r)[..Nat(VectorBytes(k, |r|))]
  {
    TypedPods(w, k);
    PodsSize(w[..|r|], k);
    VectorBytesIs(k, |r|);
  }

  // ---------------------------------------------------------------- what each mode asks

  /** What each mode asks of an object, apart from the stream. */
  ghost predicate Meet(mode: Mode, sh: Shape, x: Value, w: Value)
  {
    Typed(x, sh) && Typed(w, sh) && (mode != READ ==> w == x) && Texts(mode, w)
  }

  ghost predicate MeetAll(mode: Mode, e: Shape, r: seq<Value>, w: seq<Value>) {
    |w| <= |r| && forall i :: 0 <= i < |w| ==> Meet(mode, e, r[i], w[i])
  }

  /** The elements of a resized container, and what the stream is about, element by element. */
  lemma MeetElems(mode: Mode, sh: Shape, elem: Shape, x: seq<Value>, w: seq<Value>, n: nat, m: nat)
    requires (sh == Vec(elem) || sh == Seq(elem)) && m <= n <= |w| && Meet(mode, sh, SeqV(x), SeqV(w))
    ensures var r := Resized(x, n, Default(elem));
            Typed(SeqV(r), sh) && Typed(SeqV(w[..m]), Seq(elem)) && MeetAll(mode, elem, r, w[..m])
              && Matched(mode == READ, elem, r, w[..m])
  {
  }

  lemma MeetMap(mode: Mode, key: Shape, val: Shape, x: seq<Entry>, w: seq<Entry>)
    requires Meet(mode, Map(key, val), MapV(x), MapV(w))
    ensures Typed(MapV(w), Map(key, val)) && Typed(MapV(w[..Count(|w|)]), Map(key, val))
    ensures Texts(mode, MapV(w)) && Texts(mode, MapV(w[..Count(|w|)]))
    ensures mode != READ ==> x == w
    ensures Count(|w|) <= |w| && forall i :: 0 <= i < Count(|w|) ==> w[..Count(|w|)][i] == w[i]
  {
  }

  lemma AfterMapLoaded(k: Shape, val: Shape, x: seq<Entry>, w: seq<Entry>, less: (Value, Value) -> bool)
    requires Typed(MapV(x), Map(k, val)) && Typed(MapV(w), Map(k, val))
    ensures MapV(LoadedEntries(k, val, w[..Count(|w|)], Count(|w|), less))
         == After(true, Map(k, val), MapV(x), MapV(w), less)
  {
  }

  lemma LoadedNone(k: Shape, val: Shape, w: seq<Entry>, less: (Value, Value) -> bool)
    requires Typed(MapV(w), Map(k, val))
    ensures LoadedEntries(k, val, w, 0, less) == []
  {
  }

  lemma LoadedNext(k: Shape, val: Shape, w: seq<Entry>, n: nat, less: (Value, Value) -> bool)
    requires n < |w| && Typed(MapV(w), Map(k, val))
    ensures Typed(w[n].key, k) && Typed(w[n].val, val)
    ensures LoadedEntries(k, val, w, n + 1, less) ==
      PutKey(LoadedEntries(k, val, w, n, less),
             After(true, k, Default(k), w[n].key, less), After(true, val, Default(val), w[n].val, less), less)
  {
  }

  lemma MeetEntry(mode: Mode, key: Shape, val: Shape, w: seq<Entry>, i: nat)
    requires Typed(MapV(w), Map(key, val)) && Texts(mode, MapV(w)) && i < |w|
    ensures mode == READ ==> Meet(mode, key, Default(key), w[i].key) && Meet(mode, val, Default(val), w[i].val)
    ensures mode != READ ==> Meet(mode, key, w[i].key, w[i].key) && Meet(mode, val, w[i].val, w[i].val)
  {
  }

  lemma MeetMember(mode: Mode, ss: seq<Shape>, x: seq<Value>, w: seq<Value>, i: nat)
    requires Meet(mode, Fields(ss), FieldsV(x), FieldsV(w)) && i < |ss|
    ensures |x| == |w| == |ss| && Meet(mode, ss[i], x[i], w[i])
  {
  }

  // ---------------------------------------------------------------- objects that fit

  lemma {:induction false} OutIsEnc(sh: Shape, v: Value)
    requires Typed(v, sh) && Fits(sh, v)
    ensures Out(sh, v) == Plain(Enc(v))
    decreases sh, 2
  {
    hide ToLE;
    match sh
    case Pod(_) =>
    case Str => StringLenIs(v.chars); assert (v.chars + [0])[..|v.chars| + 1] == v.chars + [0];
    case Vec(e) =>
      VisitsIs(|v.elems|);
      assert v.elems[..|v.elems|] == v.elems && v.elems[0..] == v.elems;
      if e.Pod? { VectorBlockIsEnc(v.elems, e.size); } else { OutAllIsEnc(e, v.elems, 0); }
    case Seq(e) =>
      VisitsIs(|v.elems|);
      assert v.elems[..|v.elems|] == v.elems && v.elems[0..] == v.elems;
      OutAllIsEnc(e, v.elems, 0);
    case Map(k, w) =>
      VisitsIs(|v.entries|);
      assert v.entries[..|v.entries|] == v.entries && v.entries[0..] == v.entries;
      OutEntriesIsEnc(k, w, v.entries, 0);
    case Set(n) =>
      VisitsIs(|v.pods|);
      assert v.pods[..|v.pods|] == v.pods && v.pods[0..] == v.pods;
      OutPodsIsEnc(n, v.pods, 0);
    case Fields(ss) =>
      assert v.members[0..] == v.members;
      OutFieldsIsEnc(ss, v.members, 0);
  }

  lemma VectorBlockIsEnc(es: seq<Value>, k: nat)
    requires Typed(SeqV(es), Vec(Pod(k))) && Fits(Vec(Pod(k)), SeqV(es))
    ensures VectorBlock(es, k) == Plain(EncAll(es))
  {
    VisitsIs(|es|);
    TypedPods(es, k);
    PodsSize(es, k);
    VectorBytesIs(k, |es|);
    assert es[..|es|] == es;
    assert EncAll(es)[..|EncAll(es)|] == EncAll(es);
  }

  lemma {:induction false} OutAllIsEnc(e: Shape, es: seq<Value>, i: nat)
    requires i <= |es| && Typed(SeqV(es), Seq(e)) && forall j :: 0 <= j < |es| ==> Fits(e, es[j])
    ensures OutAll(e, es, i) == Plain(EncAll(es[i..]))
    decreases e, 3, |es| - i
  {
    hide Enc, Out;
    if i < |es| {
      OutIsEnc(e, es[i]);
      OutAllIsEnc(e, es, i + 1);
      EncAllSplit(es, i);
    }
  }

  lemma {:induction false} OutEntriesIsEnc(k: Shape, w: Shape, es: seq<Entry>, i: nat)
    requires i <= |es| && Typed(MapV(es), Map(k, w))
      && forall j :: 0 <= j < |es| ==> Fits(k, es[j].key) && Fits(w, es[j].val)
    ensures OutEntries(k, w, es, i) == Plain(EncEntries(es[i..]))
    decreases Map(k, w), 1, |es| - i
  {
    hide Enc, Out;
    if i < |es| {
      OutIsEnc(k, es[i].key);
      OutIsEnc(w, es[i].val);
      OutEntriesIsEnc(k, w, es, i + 1);
      assert es[i..][1..] == es[i + 1..];
    }
  }

  lemma {:induction false} OutPodsIsEnc(n: nat, ps: seq<seq<Byte>>, i: nat)
    requires i <= |ps| && Typed(SetV(ps), Set(n)) && (ps != [] ==> n <= INT_MAX)
    ensures OutPods(n, ps, i) == Plain(Flat(ps[i..]))
    decreases |ps| - i
  {
    if i < |ps| {
      OutPodsIsEnc(n, ps, i + 1);
      assert ps[i..][1..] == ps[i + 1..] && ps[i][..n] == ps[i];
    }
  }

  lemma {:induction false} OutFieldsIsEnc(ss: seq<Shape>, ms: seq<Value>, i: nat)
    requires Typed(FieldsV(ms), Fields(ss)) && i <= |ms| == |ss| && forall j :: 0 <= j < |ms| ==> Fits(ss[j], ms[j])
    ensures OutFields(ss, ms, i) == Plain(EncAll(ms[i..]))
    decreases ss, 3, |ss| - i
  {
    hide Enc, Out;
    if i < |ss| {
      OutIsEnc(ss[i], ms[i]);
      OutFieldsIsEnc(ss, ms, i + 1);
      EncAllSplit(ms, i);
    }
  }

  /** Loading an object that fits gives it back, whatever there was before, if its strings have no NULs. */
  lemma {:induction false} LoadedIs(sh: Shape, x: Value, w: Value, less: (Value, Value) -> bool)
    requires Typed(x, sh) && Typed(w, sh) && Fits(sh, w) && NulFree(w) && Lawful(w, less) && StrictOrder(less)
    ensures After(true, sh, x, w, less) == w
    decreases sh, 2
  {
    hide StrictOrder;
    match sh
    case Pod(n) => assert w.bytes[..n] + x.bytes[n..] == w.bytes;
    case Str =>
    case Vec(e) =>
      VisitsIs(|w.elems|);
      assert w.elems[..|w.elems|] == w.elems;
      var r := Resized(x.elems, |w.elems|, Default(e));
      if e.Pod? { LoadedBlock(r, w.elems, e.size); } else { LoadedElems(e, r, w.elems, less); }
    case Seq(e) =>
      VisitsIs(|w.elems|);
      assert w.elems[..|w.elems|] == w.elems;
      LoadedElems(e, Resized(x.elems, |w.elems|, Default(e)), w.elems, less);
    case Map(k, val) =>
      VisitsIs(|w.entries|);
      assert w.entries[..|w.entries|] == w.entries;
      LoadedMap(k, val, w.entries, |w.entries|, less);
    case Set(n) =>
      VisitsIs(|w.pods|);
      LoadedSet(n, w.pods, |w.pods|, less);
      assert w.pods[..|w.pods|] == w.pods;
    case Fields(ss) =>
      forall i | 0 <= i < |ss| ensures After(true, ss[i], x.members[i], w.members[i], less) == w.members[i] {
        LoadedIs(ss[i], x.members[i], w.members[i], less);
      }
  }

  lemma LoadedBlock(r: seq<Value>, w: seq<Value>, k: nat)
    requires Typed(SeqV(w), Vec(Pod(k))) && Fits(Vec(Pod(k)), SeqV(w)) && Pods(r, k) && |r| == |w| == Count(|w|)
    ensures AfterBlock(r, w, k) == w
  {
    VectorBlockIsEnc(w, k);
    TypedPods(w, k);
    PodsSize(w, k);
    PodsSize(r, k);
    assert EncAll(w) + EncAll(r)[|EncAll(w)|..] == EncAll(w);
    PodsSame(AfterBlock(r, w, k), w, k);
  }

  lemma {:induction false} LoadedElems(e: Shape, r: seq<Value>, w: seq<Value>, less: (Value, Value) -> bool)
    requires Typed(SeqV(r), Seq(e)) && Typed(SeqV(w), Seq(e)) && |r| == |w| && StrictOrder(less)
    requires forall i :: 0 <= i < |w| ==> Fits(e, w[i]) && NulFree(w[i]) && Lawful(w[i], less)
    ensures AfterElems(true, e, r, w, less) == w
    decreases e, 3
  {
    hide StrictOrder, Lawful;
    forall i | 0 <= i < |w| ensures After(true, e, r[i], w[i], less) == w[i] { LoadedIs(e, r[i], w[i], less); }
  }

  lemma {:induction false} LoadedMap(k: Shape, val: Shape, w: seq<Entry>, n: nat, less: (Value, Value) -> bool)
    requires n <= |w| && Typed(MapV(w), Map(k, val)) && Lawful(MapV(w), less) && StrictOrder(less)
    requires (forall i :: 0 <= i < |w| ==> Fits(k, w[i].key) && Fits(val, w[i].val)) && NulFree(MapV(w))
    ensures LoadedEntries(k, val, w, n, less) == w[..n]
    decreases Map(k, val), 1, n
  {
    hide StrictOrder, After, Fits;
    if n > 0 {
      LoadedMap(k, val, w, n - 1, less);
      LoadedIs(k, Default(k), w[n - 1].key, less);
      LoadedIs(val, Default(val), w[n - 1].val, less);
      PutKeyLast(w[..n - 1], w[n - 1].key, w[n - 1].val, less);
      assert w[..n] == w[..n - 1] + [w[n - 1]];
    }
  }

  lemma {:induction false} LoadedSet(n: nat, w: seq<seq<Byte>>, count: nat, less: (Value, Value) -> bool)
    requires count <= |w| && Typed(SetV(w), Set(n)) && AscendingPods(w, less) && StrictOrder(less)
      && (w != [] ==> n <= INT_MAX)
    ensures LoadedPods(n, w, count, less) == w[..count]
    decreases count
  {
    hide StrictOrder;
    if count > 0 {
      LoadedSet(n, w, count - 1, less);
      assert w[count - 1][..n] + seq(n, _ => 0)[n..] == w[count - 1];
      PutPodLast(w[..count - 1], w[count - 1], less);
      assert w[..count] == w[..count - 1] + [w[count - 1]];
    }
  }

  // ---------------------------------------------------------------- and objects that do not

  /** Types that take at least a byte, as every C++ type but an empty list of members does. */
  predicate Solid(sh: Shape) {
    match sh
    case Pod(n) => n > 0
    case Str => true
    case Vec(e) => Solid(e)
    case Seq(e) => Solid(e)
    case Map(k, w) => Solid(k) && Solid(w)
    case Set(n) => n > 0
    case Fields(ss) => ss != [] && forall i :: 0 <= i < |ss| ==> Solid(ss[i])
  }

  lemma {:induction false} EncSolid(sh: Shape, v: Value)
    requires Typed(v, sh) && Solid(sh)
    ensures |Enc(v)| > 0
    decreases sh
  {
    hide ToLE;
    if sh.Fields? { EncSolid(sh.members[0], v.members[0]); }
  }

  lemma {:induction false} EncAllSolid(e: Shape, es: seq<Value>, i: nat)
    requires i <= |es| && Typed(SeqV(es), Seq(e)) && Solid(e)
    ensures |EncAll(es[i..])| >= |es| - i
    decreases |es| - i
  {
    hide Enc, Solid;
    if i < |es| {
      EncSolid(e, es[i]);
      EncAllSolid(e, es, i + 1);
      EncAllSplit(es, i);
    }
  }

  /** The measured size of an object never passes its true size; and for any object of any size and nesting,
      it is the true size exactly when the object fits. */
  lemma {:induction false} SizeIff(sh: Shape, v: Value)
    requires Typed(v, sh)
    ensures Out(sh, v).size <= |Enc(v)|
    ensures Solid(sh) ==> (Out(sh, v).size == |Enc(v)| <==> Fits(sh, v))
    decreases sh, 2
  {
    hide ToLE;
    match sh
    case Pod(_) =>
    case Str => StringLenIs(v.chars);
    case Vec(e) =>
      if e.Pod? {
        BlockSizeIff(v.elems, e.size);
      } else {
        VisitsIs(|v.elems|);
        PrefixSizeIff(e, v.elems, Visits(|v.elems|));
      }
    case Seq(e) =>
      VisitsIs(|v.elems|);
      PrefixSizeIff(e, v.elems, Count(|v.elems|));
    case Map(k, w) =>
      MapSizeIff(k, w, v.entries);
    case Set(n) =>
      SetSizeIff(n, v.pods);
    case Fields(ss) =>
      assert v.members[0..] == v.members;
      FieldsSizeIff(ss, v.members, 0);
  }

  lemma BlockSizeIff(es: seq<Value>, k: nat)
    requires Typed(SeqV(es), Vec(Pod(k)))
    ensures VectorBlock(es, k).size <= |EncAll(es)|
    ensures k > 0 ==> (VectorBlock(es, k).size == |EncAll(es)| <==> Fits(Vec(Pod(k)), SeqV(es)))
  {
    var n := Count(|es|);
    VisitsIs(|es|);
    TypedPods(es, k);
    PodsSize(es, k);
    VectorBytesIs(k, n);
    Monotone(k, n, |es|);
  }

  lemma {:induction false} PrefixSizeIff(e: Shape, es: seq<Value>, c: nat)
    requires c <= |es| && Typed(SeqV(es), Seq(e)) && Typed(SeqV(es[..c]), Seq(e))
    ensures OutAll(e, es[..c], 0).size <= |EncAll(es)|
    ensures Solid(e) ==>
      (OutAll(e, es[..c], 0).size == |EncAll(es)| <==> c == |es| && forall j :: 0 <= j < |es| ==> Fits(e, es[j]))
    decreases e, 4
  {
    hide Enc, Out, Fits;
    var head, tail := es[..c], es[c..];
    assert es == head + tail && head[0..] == head;
    EncAllConcat(head, tail);
    AllSizeIff(e, head, 0);
    if Solid(e) { EncAllSolid(e, es, c); }
    assert forall j :: 0 <= j < c ==> head[j] == es[j];
  }

  lemma {:induction false} AllSizeIff(e: Shape, es: seq<Value>, i: nat)
    requires i <= |es| && Typed(SeqV(es), Seq(e))
    ensures OutAll(e, es, i).size <= |EncAll(es[i..])|
    ensures Solid(e) ==> (OutAll(e, es, i).size == |EncAll(es[i..])| <==> forall j :: i <= j < |es| ==> Fits(e, es[j]))
    decreases e, 3, |es| - i
  {
    hide Enc, Out, Fits, Solid;
    if i < |es| {
      SizeIff(e, es[i]);
      AllSizeIff(e, es, i + 1);
      EncAllSplit(es, i);
    }
  }

  lemma {:induction false} MapSizeIff(k: Shape, w: Shape, es: seq<Entry>)
    requires Typed(MapV(es), Map(k, w))
    ensures Out(Map(k, w), MapV(es)).size <= |Enc(MapV(es))|
    ensures Solid(Map(k, w)) ==> (Out(Map(k, w), MapV(es)).size == |Enc(MapV(es))| <==> Fits(Map(k, w), MapV(es)))
    decreases Map(k, w), 1
  {
    hide *;
    MapForm(k, w, es);
    var head, tail := es[..Count(|es|)], es[Count(|es|)..];
    assert es == head + tail && head[0..] == head;
    EncEntriesConcat(head, tail);
    EntriesSizeIff(k, w, head, 0);
    if Solid(k) { EntriesSolid(k, w, tail); }
  }

  /** From entry i on. */
  predicate EntriesFit(k: Shape, w: Shape, es: seq<Entry>, i: nat)
    requires Typed(MapV(es), Map(k, w))
  {
    forall j :: i <= j < |es| ==> Fits(k, es[j].key) && Fits(w, es[j].val)
  }

  /** The parts of the sizes, and of the condition. */
  lemma MapForm(k: Shape, w: Shape, es: seq<Entry>)
    requires Typed(MapV(es), Map(k, w))
    ensures var c := Count(|es|);
      && c <= |es| && Typed(MapV(es[..c]), Map(k, w)) && Typed(MapV(es[c..]), Map(k, w))
      && Out(Map(k, w), MapV(es)).size == 4 + OutEntries(k, w, es[..c], 0).size
      && (Fits(Map(k, w), MapV(es))
          <==> c == |es| && EntriesFit(k, w, es[..c], 0))
    ensures |Enc(MapV(es))| == 4 + |EncEntries(es)|
    ensures Solid(Map(k, w)) <==> Solid(k) && Solid(w)
  {
    VisitsIs(|es|);
    MapFits(k, w, es);
    hide EncEntries, OutEntries, ToLE, Fits, EntriesFit;
  }

  lemma MapFits(k: Shape, w: Shape, es: seq<Entry>)
    requires Typed(MapV(es), Map(k, w)) && Count(|es|) <= |es|
    ensures Fits(Map(k, w), MapV(es)) <==> Count(|es|) == |es| && EntriesFit(k, w, es[..Count(|es|)], 0)
  {
    hide Typed;
    if Count(|es|) == |es| { assert es[..Count(|es|)] == es; }
  }

  lemma EntriesSolid(k: Shape, w: Shape, es: seq<Entry>)
    requires Typed(MapV(es), Map(k, w)) && Solid(k)
    ensures |EncEntries(es)| > 0 <==> es != []
  {
    if es != [] { EncSolid(k, es[0].key); }
  }

  lemma {:induction false} EncEntriesConcat(a: seq<Entry>, b: seq<Entry>)
    ensures EncEntries(a + b) == EncEntries(a) + EncEntries(b)
  {
    hide EncEntry;
    if a == [] {
      assert a + b == b;
    } else {
      assert (a + b)[1..] == a[1..] + b;
      EncEntriesConcat(a[1..], b);
    }
  }

  lemma {:induction false} EntriesSizeIff(k: Shape, w: Shape, es: seq<Entry>, i: nat)
    requires i <= |es| && Typed(MapV(es), Map(k, w))
    ensures OutEntries(k, w, es, i).size <= |EncEntries(es[i..])|
    ensures Solid(k) && Solid(w) ==> (OutEntries(k, w, es, i).size == |EncEntries(es[i..])|
              <==> EntriesFit(k, w, es, i))
    decreases Map(k, w), 0, |es| - i
  {
    hide Enc, Out, Fits, Solid;
    if i < |es| {
      SizeIff(k, es[i].key);
      SizeIff(w, es[i].val);
      EntriesSizeIff(k, w, es, i + 1);
      assert es[i..][1..] == es[i + 1..];
    }
  }

  lemma SetSizeIff(n: nat, ps: seq<seq<Byte>>)
    requires Typed(SetV(ps), Set(n))
    ensures Out(Set(n), SetV(ps)).size <= |Enc(SetV(ps))|
    ensures n > 0 ==> (Out(Set(n), SetV(ps)).size == |Enc(SetV(ps))| <==> Fits(Set(n), SetV(ps)))
  {
    SetForm(n, ps);
    hide *;
    var c, w := Count(|ps|), Wrap32(n);
    var sum := OutPods(n, ps[..c], 0).size;
    assert sum == w * c by { PodsOutSize(n, ps[..c], 0); }
    FlatSize(n, ps);
    Shortfall(n, Wrap32Gap(n), w, c, |ps|);
  }

  lemma SetForm(n: nat, ps: seq<seq<Byte>>)
    requires Typed(SetV(ps), Set(n))
    ensures Count(|ps|) <= |ps| && Typed(SetV(ps[..Count(|ps|)]), Set(n))
    ensures Out(Set(n), SetV(ps)).size == 4 + OutPods(n, ps[..Count(|ps|)], 0).size && |Enc(SetV(ps))| == 4 + |Flat(ps)|
    ensures Fits(Set(n), SetV(ps)) <==> Count(|ps|) == |ps| && (Wrap32Gap(n) == 0 || |ps| == 0)
  {
    VisitsIs(|ps|);
    hide OutPods, Flat, ToLE;
  }

  lemma Shortfall(n: nat, g: nat, w: int, c: nat, m: nat)
    requires c <= m && w == n - g
    ensures w * c <= n * m
    ensures n > 0 ==> (w * c == n * m <==> c == m && (g == 0 || m == 0))
  {
    assert w * c == n * c - g * c && n * m == n * c + n * (m - c);
    Monotone(g, 0, c);
    Monotone(n, 0, m - c);
    if g > 0 && c > 0 { Monotone(g, 1, c); }
  }

  /** What one element of a set is short of its size. */
  function Wrap32Gap(n: nat): (g: nat)
    ensures g == 0 <==> n <= INT_MAX
    ensures Wrap32(n) == n - g
  {
    n - Wrap32(n)
  }

  lemma {:induction false} PodsOutSize(n: nat, ps: seq<seq<Byte>>, i: nat)
    requires i <= |ps| && Typed(SetV(ps), Set(n))
    ensures OutPods(n, ps, i).size == Wrap32(n) * (|ps| - i)
    decreases |ps| - i
  {
    if i < |ps| {
      PodsOutSize(n, ps, i + 1);
      assert Wrap32(n) * (|ps| - i) == Wrap32(n) + Wrap32(n) * (|ps| - i - 1);
    }
  }

  lemma {:induction false} FlatSize(n: nat, ps: seq<seq<Byte>>)
    requires Typed(SetV(ps), Set(n))
    ensures |Flat(ps)| == n * |ps|
  {
    if ps != [] {
      FlatSize(n, ps[1..]);
      OneMore(n, |ps|);
    }
  }

  lemma {:induction false} FieldsSizeIff(ss: seq<Shape>, ms: seq<Value>, i: nat)
    requires Typed(FieldsV(ms), Fields(ss)) && i <= |ms| == |ss|
    ensures OutFields(ss, ms, i).size <= |EncAll(ms[i..])|
    ensures (forall j :: 0 <= j < |ss| ==> Solid(ss[j])) ==>
              (OutFields(ss, ms, i).size == |EncAll(ms[i..])| <==> forall j :: i <= j < |ms| ==> Fits(ss[j], ms[j]))
    decreases ss, 3, |ss| - i
  {
    hide Enc, Out, Fits, Solid;
    if i < |ss| {
      SizeIff(ss[i], ms[i]);
      FieldsSizeIff(ss, ms, i + 1);
      EncAllSplit(ms, i);
    }
  }

  // ---------------------------------------------------------------- what the other modes do to an object

  /** No vector, deque or list in the object, and none that its values of maps hold, has 2^32 elements
      or more, as far as the loops go. */
  predicate Steady(sh: Shape, x: Value)
    requires Typed(x, sh)
    decreases sh
  {
    match sh
    case Vec(e) => |x.elems| < U32_SIZE && forall i :: 0 <= i < Visits(|x.elems|) <= |x.elems| ==> Steady(e, x.elems[i])
    case Seq(e) => |x.elems| < U32_SIZE && forall i :: 0 <= i < |x.elems| ==> Steady(e, x.elems[i])
    case Map(_, w) => forall i :: 0 <= i < Count(|x.entries|) <= |x.entries| ==> Steady(w, x.entries[i].val)
    case Fields(ss) => forall i :: 0 <= i < |ss| ==> Steady(ss[i], x.members[i])
    case _ => true
  }

  /** Saving, measuring and verifying leave an object as it was exactly when it is steady: the count that
      a container is resized to goes through a u32 in these modes too. */
  lemma {:induction false} KeepsIff(sh: Shape, x: Value, less: (Value, Value) -> bool)
    requires Typed(x, sh)
    ensures After(false, sh, x, x, less) == x <==> Steady(sh, x)
    decreases sh, 2
  {
    match sh
    case Pod(_) =>
    case Str =>
    case Vec(e) =>
      VisitsIs(|x.elems|);
      if |x.elems| < U32_SIZE {
        assert Resized(x.elems, |x.elems|, Default(e)) == x.elems;
        if e.Pod? { KeptBlock(x.elems, e.size); } else { KeptElems(e, x.elems, Visits(|x.elems|), less); }
      }
    case Seq(e) =>
      VisitsIs(|x.elems|);
      if |x.elems| < U32_SIZE {
        assert Resized(x.elems, |x.elems|, Default(e)) == x.elems;
        KeptElems(e, x.elems, |x.elems|, less);
      }
    case Map(k, w) =>
      VisitsIs(|x.entries|);
      KeptEntries(k, w, x.entries, less);
    case Set(_) =>
    case Fields(ss) => KeptFields(ss, x.members, less);
  }

  lemma KeptBlock(x: seq<Value>, k: nat)
    requires Typed(SeqV(x), Vec(Pod(k))) && |x| < U32_SIZE && Pods(x, k)
    ensures AfterBlock(x, x, k) == x
  {
    BlockIsPrefix(x, k);
    hide VectorBlock, EncAll, Overlaid, Poured;
    var e := VectorBlock(x, k).bytes;
    assert e + EncAll(x)[|e|..] == EncAll(x);
    PodsSize(x, k);
    PodsSame(Overlaid(x, k, e), x, k);
  }

  lemma BlockIsPrefix(x: seq<Value>, k: nat)
    requires Typed(SeqV(x), Vec(Pod(k))) && |x| < U32_SIZE && Pods(x, k)
    ensures VectorBlock(x, k).bytes <= EncAll(x)
  {
    hide *;
    VisitsIs(|x|);
    assert x[..Count(|x|)] == x;
  }

  lemma {:induction false} KeptElems(e: Shape, x: seq<Value>, c: nat, less: (Value, Value) -> bool)
    requires c <= |x| && Typed(SeqV(x), Seq(e)) && Matched(false, e, x, x[..c])
    ensures AfterElems(false, e, x, x[..c], less) == x <==> forall i :: 0 <= i < c ==> Steady(e, x[i])
    decreases e, 3
  {
    var r := AfterElems(false, e, x, x[..c], less);
    forall i | 0 <= i < |x| ensures r[i] == x[i] <==> (i < c ==> Steady(e, x[i])) {
      if i < c { KeepsIff(e, x[i], less); }
    }
  }

  lemma {:induction false} KeptEntries(k: Shape, w: Shape, x: seq<Entry>, less: (Value, Value) -> bool)
    requires Typed(MapV(x), Map(k, w))
    ensures After(false, Map(k, w), MapV(x), MapV(x), less) == MapV(x) <==> Steady(Map(k, w), MapV(x))
    decreases Map(k, w), 0
  {
    VisitsIs(|x|);
    var r := After(false, Map(k, w), MapV(x), MapV(x), less).entries;
    forall i | 0 <= i < |x| ensures r[i] == x[i] <==> (i < Count(|x|) ==> Steady(w, x[i].val)) {
      KeepsIff(w, x[i].val, less);
      assert r[i] == if i < Count(|x|) then Redone(w, x[i], less) else x[i];
      assert x[i].(val := x[i].val) == x[i];
    }
  }

  lemma {:induction false} KeptFields(ss: seq<Shape>, x: seq<Value>, less: (Value, Value) -> bool)
    requires Typed(FieldsV(x), Fields(ss))
    ensures After(false, Fields(ss), FieldsV(x), FieldsV(x), less) == FieldsV(x) <==> Steady(Fields(ss), FieldsV(x))
    decreases ss
  {
    var r := After(false, Fields(ss), FieldsV(x), FieldsV(x), less).members;
    forall i | 0 <= i < |ss| ensures r[i] == x[i] <==> Steady(ss[i], x[i]) { KeepsIff(ss[i], x[i], less); }
  }

  /** A vector, deque or list of steady elements is cut to its size modulo 2^32. */
  lemma CountKeepsIff(sh: Shape, e: Shape, x: seq<Value>, less: (Value, Value) -> bool)
    requires (sh == Vec(e) || sh == Seq(e)) && Typed(SeqV(x), sh) && forall i :: 0 <= i < |x| ==> Steady(e, x[i])
    ensures After(false, sh, SeqV(x), SeqV(x), less) == SeqV(x[..|x| % U32_SIZE])
    ensures After(false, sh, SeqV(x), SeqV(x), less) == SeqV(x) <==> |x| < U32_SIZE
  {
    var n := Count(|x|);
    VisitsIs(|x|);
    VisitsIs(n);
    var r := x[..n];
    assert r == Resized(x, n, Default(e)) && Count(n) == n && r[..n] == r;
    assert r[..Visits(n)] == x[..Visits(n)];
    KeepsIff(sh, SeqV(r), less);
    assert Resized(r, n, Default(e)) == r;
  }

  lemma {:induction false} FitsSteady(sh: Shape, x: Value)
    requires Typed(x, sh) && Fits(sh, x)
    ensures Steady(sh, x)
    decreases sh
  {
    match sh
    case Vec(e) =>
      forall i | 0 <= i < |x.elems| ensures Steady(e, x.elems[i]) { if !e.Pod? { FitsSteady(e, x.elems[i]); } }
    case Seq(e) => forall i | 0 <= i < |x.elems| ensures Steady(e, x.elems[i]) { FitsSteady(e, x.elems[i]); }
    case Map(_, w) =>
      forall i | 0 <= i < |x.entries| ensures Steady(w, x.entries[i].val) { FitsSteady(w, x.entries[i].val); }
    case Fields(ss) => forall i | 0 <= i < |ss| ensures Steady(ss[i], x.members[i]) { FitsSteady(ss[i], x.members[i]); }
    case _ =>
  }
}

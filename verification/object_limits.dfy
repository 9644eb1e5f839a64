/** Which objects come back when they are saved and loaded: both directions, for every nesting, and inputs
    that show what does not. */
module ObjectLimits {
  import opened Arith
  import opened Bytes
  import opened ObjectForms

  /** The parts of every map and set fit and come back. */
  predicate PartsFit(sh: Shape, w: Value)
    requires Typed(w, sh)
    decreases sh
  {
    match sh
    case Vec(e) => forall i :: 0 <= i < |w.elems| ==> PartsFit(e, w.elems[i])
    case Seq(e) => forall i :: 0 <= i < |w.elems| ==> PartsFit(e, w.elems[i])
    case Map(k, val) =>
      NulFree(w) && forall i :: 0 <= i < |w.entries| ==> Fits(k, w.entries[i].key) && Fits(val, w.entries[i].val)
    case Set(n) => w.pods != [] ==> n <= INT_MAX
    case Fields(ss) => forall i :: 0 <= i < |ss| ==> PartsFit(ss[i], w.members[i])
    case _ => true
  }

  /** Loading gives the object back whatever there was before, without a block of negative size and a
      string whose NUL is not in the stream. */
  ghost predicate ComesBack(sh: Shape, w: Value, less: (Value, Value) -> bool)
    requires Typed(w, sh)
  {
    Whole(Out(sh, w)) && Texts(READ, w) && forall x :: Typed(x, sh) ==> After(true, sh, x, w, less) == w
  }

  /** An object of any nesting comes back exactly when it fits and its strings have no NULs. */
  lemma ComesBackIff(sh: Shape, w: Value, less: (Value, Value) -> bool)
    requires Typed(w, sh) && Lawful(w, less) && StrictOrder(less) && PartsFit(sh, w) && Solid(sh)
    ensures ComesBack(sh, w, less) <==> Fits(sh, w) && NulFree(w)
  {
    hide Out, StrictOrder, Lawful, Texts, NulFree, PartsFit, Solid, Fits, Enc, After;
    if Fits(sh, w) && NulFree(w) {
      OutIsEnc(sh, w);
      FitsTexts(READ, sh, w);
      forall x | Typed(x, sh) ensures After(true, sh, x, w, less) == w { LoadedIs(sh, x, w, less); }
    } else if Texts(READ, w) {
      var x := Lost(sh, w, less);
    }
  }

  function OtherByte(b: Byte): (r: Byte)
    ensures r != b
  {
    if b == 0 then 1 else 0
  }

  /** Another value of the same type. */
  function Other(sh: Shape, v: Value): (r: Value)
    requires Typed(v, sh) && Solid(sh)
    ensures Typed(r, sh) && r != v
    decreases sh
  {
    match sh
    case Pod(n) => PodV(v.bytes[n - 1 := OtherByte(v.bytes[n - 1])])
    case Str => StrV(v.chars + [0])
    case Vec(e) => SeqV(v.elems + [Default(e)])
    case Seq(e) => SeqV(v.elems + [Default(e)])
    case Map(k, w) => MapV(v.entries + [Entry(Default(k), Default(w))])
    case Set(n) => SetV(v.pods + [seq(n, _ => 0)])
    case Fields(ss) => FieldsV(v.members[0 := Other(ss[0], v.members[0])])
  }

  /** What does not come back: the size is too large, or a string is cut at a NUL. */
  predicate Spoilt(sh: Shape, w: Value)
    requires Typed(w, sh)
  {
    !Fits(sh, w) || !NulFree(w)
  }

  /** An object over which loading w does not give w. */
  lemma {:induction false} Lost(sh: Shape, w: Value, less: (Value, Value) -> bool) returns (x: Value)
    requires Typed(w, sh) && Texts(READ, w) && Lawful(w, less) && StrictOrder(less)
    requires PartsFit(sh, w) && Solid(sh) && Spoilt(sh, w)
    ensures Typed(x, sh) && After(true, sh, x, w, less) != w
    decreases sh, 2
  {
    hide StrictOrder;
    match sh
    case Pod(n) => x := Other(sh, w);
    case Str => x := w;
    case Vec(e) =>
      if e.Pod? { x := LostPods(e.size, w.elems, less); } else { x := LostElem(sh, e, w.elems, less); }
    case Seq(e) => x := LostElem(sh, e, w.elems, less);
    case Map(k, val) =>
      x := w;
      MapComesBackIff(k, val, w.entries, w.entries, less);
    case Set(n) =>
      x := w;
      if n <= INT_MAX { SetComesBackIff(n, w.pods, w.pods, less); }
    case Fields(ss) => x := LostMember(ss, w.members, less);
  }

  lemma LostPods(k: nat, w: seq<Value>, less: (Value, Value) -> bool) returns (x: Value)
    requires Typed(SeqV(w), Vec(Pod(k))) && k > 0 && Spoilt(Vec(Pod(k)), SeqV(w))
    ensures Typed(x, Vec(Pod(k))) && After(true, Vec(Pod(k)), x, SeqV(w), less) != SeqV(w)
  {
    TypedPods(w, k);
    if |w| >= U32_SIZE {
      VisitsIs(|w|);
      x := SeqV([]);
    } else {
      assert NulFree(SeqV(w));
      x := LostBlock(k, w, less);
    }
  }

  /** An element past the int count keeps what it was; and one that does not come back itself is lost. */
  lemma {:induction false} LostElem(sh: Shape, e: Shape, w: seq<Value>, less: (Value, Value) -> bool) returns (x: Value)
    requires (sh == Vec(e) && !e.Pod?) || sh == Seq(e)
    requires Typed(SeqV(w), sh) && Texts(READ, SeqV(w)) && Lawful(SeqV(w), less) && StrictOrder(less)
    requires PartsFit(sh, SeqV(w)) && Solid(e) && Spoilt(sh, SeqV(w))
    ensures Typed(x, sh) && After(true, sh, x, SeqV(w), less) != SeqV(w)
    decreases e, 3
  {
    hide StrictOrder, After, Solid;
    var n := |w|;
    VisitsIs(n);
    if n >= U32_SIZE {
      x := SeqV([]);
      AfterCut(sh, e, w, less);
    } else {
      var i, y;
      if sh.Vec? && n > INT_MAX {
        i := n - 1;
        y := Other(e, w[i]);
      } else {
        i :| 0 <= i < n && Spoilt(e, w[i]);
        y := Lost(e, w[i], less);
      }
      x := SeqV(w[i := y]);
      AfterElement(sh, e, w, i, y, less);
    }
  }

  lemma {:induction false} LostMember(ss: seq<Shape>, w: seq<Value>, less: (Value, Value) -> bool) returns (x: Value)
    requires var v := FieldsV(w);
      && Typed(v, Fields(ss)) && Texts(READ, v) && Lawful(v, less) && StrictOrder(less)
      && PartsFit(Fields(ss), v) && Solid(Fields(ss)) && Spoilt(Fields(ss), v)
    ensures Typed(x, Fields(ss)) && After(true, Fields(ss), x, FieldsV(w), less) != FieldsV(w)
    decreases ss
  {
    hide StrictOrder;
    var i :| 0 <= i < |ss| && Spoilt(ss[i], w[i]);
    var y := Lost(ss[i], w[i], less);
    x := FieldsV(w[i := y]);
    assert After(true, Fields(ss), x, FieldsV(w), less).members[i] == After(true, ss[i], y, w[i], less);
  }

  lemma AfterCut(sh: Shape, e: Shape, w: seq<Value>, less: (Value, Value) -> bool)
    requires (sh == Vec(e) && !e.Pod?) || sh == Seq(e)
    requires Typed(SeqV(w), sh) && |w| >= U32_SIZE
    ensures Typed(SeqV([]), sh) && After(true, sh, SeqV([]), SeqV(w), less) != SeqV(w)
  {
    VisitsIs(|w|);
  }

  lemma AfterElement(sh: Shape, e: Shape, w: seq<Value>, i: nat, y: Value, less: (Value, Value) -> bool)
    requires (sh == Vec(e) && !e.Pod?) || sh == Seq(e)
    requires Typed(SeqV(w), sh) && i < |w| < U32_SIZE && Typed(y, e)
    ensures Typed(SeqV(w[i := y]), sh)
    ensures After(true, sh, SeqV(w[i := y]), SeqV(w), less).SeqV?
    ensures var r := After(true, sh, SeqV(w[i := y]), SeqV(w), less).elems;
            |r| == |w| && r[i] == if sh.Seq? || i < Visits(|w|) then After(true, e, y, w[i], less) else y
  {
    VisitsIs(|w|);
    assert Resized(w[i := y], |w|, Default(e)) == w[i := y];
  }

  lemma LostBlock(k: nat, w: seq<Value>, less: (Value, Value) -> bool) returns (x: Value)
    requires Typed(SeqV(w), Vec(Pod(k))) && k > 0 && |w| < U32_SIZE && k * |w| > INT_MAX
    ensures Typed(x, Vec(Pod(k))) && After(true, Vec(Pod(k)), x, SeqV(w), less) != SeqV(w)
  {
    var n := |w|;
    TypedPods(w, k);
    var y := w[n - 1 := Other(Pod(k), w[n - 1])];
    x := SeqV(y);
    TypedPods(y, k);
    assert |VectorBlock(w, k).bytes| < k * n by { hide VectorBytes, VectorBlock; }
    AfterSameSize(k, y, w, less);
    hide AfterBlock, After, VectorBlock, VectorBytes, Typed;
    OverlaidLast(y, k, VectorBlock(w, k).bytes);
  }

  lemma AfterSameSize(k: nat, y: seq<Value>, w: seq<Value>, less: (Value, Value) -> bool)
    requires Typed(SeqV(w), Vec(Pod(k))) && Typed(SeqV(y), Vec(Pod(k))) && |y| == |w| < U32_SIZE
    requires Pods(y, k) && |VectorBlock(w, k).bytes| <= k * |w|
    ensures After(true, Vec(Pod(k)), SeqV(y), SeqV(w), less) == SeqV(Overlaid(y, k, VectorBlock(w, k).bytes))
  {
    assert Resized(y, |w|, Default(Pod(k))) == y;
    VisitsIs(|w|);
    hide VectorBlock, Overlaid;
  }

  lemma OverlaidLast(y: seq<Value>, k: nat, e: seq<Byte>)
    requires Pods(y, k) && k > 0 && |e| < k * |y|
    ensures Overlaid(y, k, e)[|y| - 1].bytes[k - 1] == y[|y| - 1].bytes[k - 1]
  {
    PodsSize(y, k);
    LastByte(y, k);
    LastByte(Overlaid(y, k, e), k);
    hide EncAll, Overlaid;
  }

  lemma LastByte(es: seq<Value>, k: nat)
    requires Pods(es, k) && es != [] && k > 0
    ensures EncAll(es) != [] && EncAll(es)[|EncAll(es)| - 1] == es[|es| - 1].bytes[k - 1]
  {
    var n := |es| - 1;
    assert es == es[..n] + [es[n]];
    EncAllConcat(es[..n], [es[n]]);
    assert EncAll([es[n]]) == es[n].bytes;
  }

  /** A map or a set whose parts fit comes back cut to its size modulo 2^32. */
  lemma MapComesBackIff(k: Shape, val: Shape, x: seq<Entry>, w: seq<Entry>, less: (Value, Value) -> bool)
    requires Typed(MapV(x), Map(k, val)) && Typed(MapV(w), Map(k, val)) && Lawful(MapV(w), less) && StrictOrder(less)
    requires (forall i :: 0 <= i < |w| ==> Fits(k, w[i].key) && Fits(val, w[i].val)) && NulFree(MapV(w))
    ensures After(true, Map(k, val), MapV(x), MapV(w), less) == MapV(w[..|w| % U32_SIZE])
    ensures After(true, Map(k, val), MapV(x), MapV(w), less) == MapV(w) <==> |w| < U32_SIZE
  {
    hide StrictOrder, Fits;
    var c := Count(|w|);
    VisitsIs(|w|);
    var v := w[..c];
    assert forall i :: 0 <= i < c ==> v[i] == w[i];
    LoadedMap(k, val, v, c, less);
    assert v[..c] == v;
  }

  lemma SetComesBackIff(n: nat, x: seq<seq<Byte>>, w: seq<seq<Byte>>, less: (Value, Value) -> bool)
    requires Typed(SetV(x), Set(n)) && Typed(SetV(w), Set(n)) && n <= INT_MAX && AscendingPods(w, less)
      && StrictOrder(less)
    ensures After(true, Set(n), SetV(x), SetV(w), less) == SetV(w[..|w| % U32_SIZE])
    ensures After(true, Set(n), SetV(x), SetV(w), less) == SetV(w) <==> |w| < U32_SIZE
  {
    hide StrictOrder;
    VisitsIs(|w|);
    LoadedSet(n, w, Count(|w|), less);
  }

  /** 2^30 elements of four bytes: only their number is measured, saved and loaded, so that loading over an
      empty vector leaves zeros. */
  lemma FourGigabytes(less: (Value, Value) -> bool)
    ensures var n, sh := 0x4000_0000, Vec(Pod(4));
            var w := SeqV(seq(n, _ => PodV([1, 2, 3, 4])));
            && Typed(w, sh) && Sized(w)
            && Out(sh, w) == Plain(ToLE(n, 4)) && |Enc(w)| == 4 + 0x1_0000_0000
            && After(true, sh, SeqV([]), w, less) == SeqV(seq(n, _ => PodV([0, 0, 0, 0]))) != w
  {
    hide EncAll, Wrap32, ToLE, Poured;
    var n, pod := 0x4000_0000, PodV([1, 2, 3, 4]);
    var es := seq(n, _ => pod);
    TypedPods(es, 4);
    PodsSize(es, 4);
    VectorBytesIs(4, n);
    assert Count(n) == n && es[..n] == es && VectorBlock(es, 4) == NOTHING by {
      assert Wrap32(4 * n) == 0 by { WrapsToZero(); }
    }
    var zeros := seq(n, _ => PodV([0, 0, 0, 0]));
    assert seq(4, _ => 0) == [0, 0, 0, 0];
    assert Resized([], n, Default(Pod(4))) == zeros;
    PodsSize(zeros, 4);
    assert [] + EncAll(zeros)[0..] == EncAll(zeros);
    PodsSame(Overlaid(zeros, 4, []), zeros, 4);
    assert es[0] == pod && zeros[0] != pod;
  }

  lemma WrapsToZero()
    ensures Wrap32(4 * 0x4000_0000) == 0
  {
  }

  /** 2^31 elements of one byte: the block has a negative size, and measuring takes the cursor back. */
  lemma TwoGigabytes(b: Byte)
    ensures var n, sh := 0x8000_0000, Vec(Pod(1));
            var w := SeqV(seq(n, _ => PodV([b])));
            Typed(w, sh) && Out(sh, w) == Move(ToLE(n, 4), 4 - 0x8000_0000) && |Enc(w)| == 4 + 0x8000_0000
  {
    hide EncAll, ToLE, Poured;
    var n := 0x8000_0000;
    var es := seq(n, _ => PodV([b]));
    TypedPods(es, 1);
    PodsSize(es, 1);
    VectorBytesIs(1, n);
    assert Count(n) == n && es[..n] == es;
  }

  /** From 2^31 elements with members on, none is measured, saved or loaded. */
  lemma NegativeCount(e: Shape, es: seq<Value>)
    requires !e.Pod? && Typed(SeqV(es), Vec(e)) && INT_MAX < |es| < U32_SIZE
    ensures Out(Vec(e), SeqV(es)) == Plain(ToLE(|es|, 4))
  {
    NoVisits(|es|);
    hide ToLE, Visits, Count, OutAll, Wrap32, Nat;
    assert es[..0] == [] && OutAll(e, es[..0], 0) == NOTHING by { OutAllNext(e, es[..0], 0); }
    JoinNothing(Plain(ToLE(|es|, 4)));
  }

  lemma NoVisits(n: nat)
    requires INT_MAX < n < U32_SIZE
    ensures Visits(n) == 0 && Count(n) == n
  {
  }

  // ---------------------------------------------------------------- the stream form in bytes

  /** Small objects: counts in four bytes, the least significant first, parts one after the other, a key
      before its value, and a string with its length, NUL included, before it and the NUL behind it. */
  lemma SmallForms(b: seq<Byte>, x: Value, y: Value, z: Value)
    ensures Enc(PodV(b)) == b && Enc(StrV([0x48, 0x69])) == [3, 0, 0, 0, 0x48, 0x69, 0]
    ensures Enc(SeqV([])) == [0, 0, 0, 0] && Enc(SeqV([x, y, z])) == [3, 0, 0, 0] + Enc(x) + Enc(y) + Enc(z)
    ensures Enc(MapV([Entry(x, y)])) == [1, 0, 0, 0] + Enc(x) + Enc(y)
    ensures Enc(SetV([b])) == [1, 0, 0, 0] + b && Enc(FieldsV([x, y, z])) == Enc(x) + Enc(y) + Enc(z)
  {
    hide *;
    StringForm();
    ListForms(x, y, z);
    OneForm(b, Entry(x, y));
    PodForm(b);
  }

  lemma PodForm(b: seq<Byte>)
    ensures Enc(PodV(b)) == b
  {
  }

  lemma StringForm()
    ensures Enc(StrV([0x48, 0x69])) == [3, 0, 0, 0, 0x48, 0x69, 0]
  {
    SmallCount(3);
    hide ToLE;
    assert Enc(StrV([0x48, 0x69])) == [3, 0, 0, 0] + [0x48, 0x69] + [0];
  }

  lemma ListForms(x: Value, y: Value, z: Value)
    ensures Enc(SeqV([])) == [0, 0, 0, 0] && Enc(SeqV([x, y, z])) == [3, 0, 0, 0] + Enc(x) + Enc(y) + Enc(z)
    ensures Enc(FieldsV([x, y, z])) == Enc(x) + Enc(y) + Enc(z)
  {
    hide *;
    SmallCount(0);
    SmallCount(3);
    ThreeForms(x, y, z);
    SeqForms([]);
    SeqForms([x, y, z]);
    InARow([3, 0, 0, 0], Enc(x), Enc(y), Enc(z));
  }

  lemma InARow(a: seq<Byte>, b: seq<Byte>, c: seq<Byte>, d: seq<Byte>)
    ensures a + (b + c + d) == a + b + c + d
  {
  }

  lemma SeqForms(es: seq<Value>)
    ensures Enc(SeqV(es)) == ToLE(|es|, 4) + EncAll(es) && Enc(FieldsV(es)) == EncAll(es) && EncAll([]) == []
  {
    hide ToLE;
  }

  lemma OneForm(b: seq<Byte>, e: Entry)
    ensures Enc(MapV([e])) == [1, 0, 0, 0] + Enc(e.key) + Enc(e.val) && Enc(SetV([b])) == [1, 0, 0, 0] + b
  {
    SmallCount(1);
    OneForms(b, e);
    hide ToLE, EncEntries, Flat;
  }

  lemma OneForms(b: seq<Byte>, e: Entry)
    ensures EncEntries([e]) == Enc(e.key) + Enc(e.val) && Flat([b]) == b
  {
    assert [b][1..] == [] && [e][1..] == [];
    assert Flat([]) == [] && EncEntries([]) == [];
  }

  lemma ThreeForms(x: Value, y: Value, z: Value)
    ensures EncAll([x, y, z]) == Enc(x) + Enc(y) + Enc(z)
  {
    assert [x, y, z][1..] == [y, z] && [y, z][1..] == [z] && [z][1..] == [];
    assert EncAll([z]) == Enc(z) && EncAll([y, z]) == Enc(y) + Enc(z);
  }

  lemma SmallCount(n: Byte)
    ensures ToLE(n, 4) == [n, 0, 0, 0]
  {
    assert ToLE(0, 1) == [0] && ToLE(0, 2) == [0, 0] && ToLE(0, 3) == [0, 0, 0];
  }
}

/** PointerWrap::DoLinkedList as CoreTiming::DoState uses it: an event list goes to the stream as a
    byte 1 and a memory image per node and a byte 0 at the end; loading reuses the nodes there are,
    takes new ones when they run out, and frees the surplus. */
module EventState {
  import opened Bytes
  import opened EventSpec
  import opened NodeLists
  import opened Seqs
  import opened CoreTiming
  import opened ObjectForms
  import opened PointerWrap

  // ---------------------------------------------------------------- the image of a BaseEvent

  function Bits64(x: S64): (r: nat)
    ensures r < 0x1_0000_0000_0000_0000
  {
    if x < 0 then x + 0x1_0000_0000_0000_0000 else x
  }

  function Bits32(x: S32): (r: nat)
    ensures r < 0x1_0000_0000
  {
    if x < 0 then x + 0x1_0000_0000 else x
  }

  /** The 24 bytes of a BaseEvent; the last four are padding. */
  function Image(e: Ev, pad: seq<Byte>): (r: seq<Byte>)
    ensures |r| == 20 + |pad|
  {
    ToLE(Bits64(e.time), 8) + ToLE(e.userdata, 8) + ToLE(Bits32(e.kind), 4) + pad
  }

  function Unimage(b: seq<Byte>): Ev
    requires |b| == 24
  {
    Widths();
    Ev(Wrap64(FromLE(b[..8])), FromLE(b[8..16]), Wrap32(FromLE(b[16..20])))
  }

  lemma ImageBack(e: Ev, pad: seq<Byte>)
    requires |pad| == 4
    ensures Unimage(Image(e, pad)) == e
  {
    var b := Image(e, pad);
    assert b[..8] == ToLE(Bits64(e.time), 8) && b[8..16] == ToLE(e.userdata, 8) && b[16..20] == ToLE(Bits32(e.kind), 4);
    Widths();
    FromToLE(Bits64(e.time), 8);
    FromToLE(e.userdata, 8);
    FromToLE(Bits32(e.kind), 4);
  }

  /** Where each field lies: the time in the first eight bytes, the user data in the next eight, then the type
      in four, each the least significant byte first and in two's complement, and the padding. */
  lemma ImageBytes(e: Ev, pad: seq<Byte>, k: nat)
    requires |pad| == 4 && k < 8
    ensures var b := Image(e, pad);
      && b[k] == (e.time as int) % 0x1_0000_0000_0000_0000 / Pow256(k) % 256
      && b[8 + k] == (e.userdata as int) / Pow256(k) % 256
      && (k < 4 ==> b[16 + k] == (e.kind as int) % 0x1_0000_0000 / Pow256(k) % 256 && b[20 + k] == pad[k])
  {
    ByteOfLE(Bits64(e.time), 8, k);
    ByteOfLE(e.userdata, 8, k);
    if k < 4 { ByteOfLE(Bits32(e.kind), 4, k); }
    BitsAre(e.time, e.kind);
    hide ToLE, Pow256, Bits64, Bits32;
  }

  lemma BitsAre(x: S64, y: S32)
    ensures Bits64(x) == (x as int) % 0x1_0000_0000_0000_0000 && Bits32(y) == (y as int) % 0x1_0000_0000
  {
  }

  ghost predicate Pads(pads: seq<seq<Byte>>, n: nat) {
    n <= |pads| && forall i :: 0 <= i < |pads| ==> |pads[i]| == 4
  }

  /** The stream form of a list whose nodes have pads in their padding. */
  function ListForm(evs: seq<Ev>, pads: seq<seq<Byte>>): seq<Byte>
    requires |evs| <= |pads|
  {
    if evs == [] then [0] else [1] + (Image(evs[0], pads[0]) + ListForm(evs[1..], pads[1..]))
  }

  /** What follows the flag of the i-th node. */
  ghost function RestForm(evs: seq<Ev>, pads: seq<seq<Byte>>, i: nat): seq<Byte>
    requires i <= |evs| <= |pads|
  {
    if i == |evs| then [] else Image(evs[i], pads[i]) + ListForm(evs[i + 1..], pads[i + 1..])
  }

  lemma RestFormAt(evs: seq<Ev>, pads: seq<seq<Byte>>, i: nat)
    requires i < |evs| <= |pads|
    ensures RestForm(evs, pads, i) == Image(evs[i], pads[i]) + ListForm(evs[i + 1..], pads[i + 1..])
  {
  }

  lemma RestFormEnd(evs: seq<Ev>, pads: seq<seq<Byte>>)
    requires |evs| <= |pads|
    ensures RestForm(evs, pads, |evs|) == [] && evs[..|evs|] == evs
  {
  }

  lemma ListFormAt(evs: seq<Ev>, pads: seq<seq<Byte>>, i: nat)
    requires i <= |evs| <= |pads|
    ensures ListForm(evs[i..], pads[i..]) == [if i < |evs| then 1 else 0] + RestForm(evs, pads, i)
  {
    if i < |evs| {
      assert evs[i..][1..] == evs[i + 1..] && pads[i..][1..] == pads[i + 1..];
    }
  }

  lemma {:induction false} ListFormSize(evs: seq<Ev>, pads: seq<seq<Byte>>)
    requires Pads(pads, |evs|)
    ensures |ListForm(evs, pads)| == 25 * |evs| + 1
  {
    if evs != [] { ListFormSize(evs[1..], pads[1..]); }
  }

  /** A byte 1 before each node's image, and a byte 0 at the end. */
  lemma {:induction false} ListFormBytes(evs: seq<Ev>, pads: seq<seq<Byte>>, i: nat)
    requires Pads(pads, |evs|) && i <= |evs|
    ensures |ListForm(evs, pads)| == 25 * |evs| + 1
    ensures ListForm(evs, pads)[25 * i] == if i < |evs| then 1 else 0
    ensures i < |evs| ==> ListForm(evs, pads)[25 * i + 1..25 * i + 25] == Image(evs[i], pads[i])
    decreases i
  {
    ListFormSize(evs, pads);
    hide Image;
    if i > 0 {
      ListFormBytes(evs[1..], pads[1..], i - 1);
      var first, rest := [1] + Image(evs[0], pads[0]), ListForm(evs[1..], pads[1..]);
      assert ListForm(evs, pads) == first + rest && |first| == 25;
      assert (first + rest)[25 * i] == rest[25 * (i - 1)];
      if i < |evs| { assert (first + rest)[25 * i + 1..25 * i + 25] == rest[25 * (i - 1) + 1..25 * (i - 1) + 25]; }
    }
  }

  // ---------------------------------------------------------------- one node

  /** Event_DoState on the bytes of a node; e is its image in the stream. */
  method DoEvent(p: PointerWrap, x: Ev, pad: seq<Byte>, ghost v: Ev, ghost vpad: seq<Byte>) returns (x': Ev)
    requires |pad| == |vpad| == 4 && (p.mode != READ ==> v == x && vpad == pad)
    requires Room(p.mode, p.Now(), Plain(Image(v, vpad)))
    modifies p`pos, p`mismatch, p.buf
    ensures x' == v && Moves(p.mode, Plain(Image(v, vpad)), old(p.Now()), p.Now())
  {
    ghost var e := Image(v, vpad);
    assert Plain(e) == Move(e, 24);
    var b := p.DoVoid(Image(x, pad), 24, e);
    assert b == e + (Image(x, pad))[24..] == e;
    ImageBack(v, vpad);
    x' := Unimage(b);
  }

  // ---------------------------------------------------------------- which list

  // The template is instantiated twice: for the main queue with GetNewEvent and FreeEvent, and for
  // the thread-safe queue with GetNewTsEvent, FreeTsEvent and a pointer to its last node.

  ghost function EvsOf(st: Sched, h: Home): seq<Ev> { if h == Main then st.main else st.ts }

  ghost function WithEvs(st: Sched, h: Home, evs: seq<Ev>): Sched {
    if h == Main then st.(main := evs) else st.(ts := evs)
  }

  /** Nothing but that queue has changed. */
  ghost predicate Only(h: Home, st: Sched, st': Sched) {
    st' == WithEvs(st, h, EvsOf(st', h))
  }

  lemma OnlySelf(h: Home, st: Sched)
    ensures Only(h, st, st)
  {
  }

  lemma OnlySet(h: Home, st: Sched, v: seq<Ev>)
    requires Side(h)
    ensures Only(h, st, WithEvs(st, h, v)) && EvsOf(WithEvs(st, h, v), h) == v
  {
  }

  lemma OnlyStep(h: Home, st0: Sched, st1: Sched, st2: Sched)
    requires Only(h, st0, st1) && Only(h, st1, st2)
    ensures Only(h, st0, st2)
  {
  }

  lemma OnlySame(h: Home, st0: Sched, st1: Sched)
    requires Only(h, st0, st1)
    ensures EvsOf(st1, h) == EvsOf(st0, h) ==> st1 == st0
  {
  }

  ghost function HeadOf(s: Scheduler, h: Home): Event?
    reads s`first, s`tsFirst
  {
    if h == Main then s.first else s.tsFirst
  }

  /** Valid, but that tsLast is not kept up while its list is loaded. */
  ghost predicate Fit(s: Scheduler, h: Home)
    reads s, s.view.homes.Keys
  {
    Side(h) && s.Shape() && (h == Main ==> s.tsLast == Last(s.view.ts))
  }

  lemma FitQueue(s: Scheduler, h: Home)
    requires Fit(s, h)
    ensures Side(h) && Queue(HeadOf(s, h), s.view.Of(h), EvsOf(s.st, h)) && Placed(s.view)
    ensures HeadOf(s, h) == At(s.view.Of(h), 0) && |s.view.Of(h)| == |EvsOf(s.st, h)|
    ensures forall e :: e in s.view.Of(h) ==> e in s.view.homes
  {
    hide Placed, Pools, Queue;
    QueueHead(HeadOf(s, h), s.view.Of(h), EvsOf(s.st, h));
    PlacedWithin(s.view);
  }

  /** TDo on a node of the list. */
  method DoListed(s: Scheduler, h: Home, p: PointerWrap, cur: Event, pad: seq<Byte>, ghost k: nat, ghost v: Ev,
                  ghost vpad: seq<Byte>)
    requires Fit(s, h) && k < |s.view.Of(h)| == |EvsOf(s.st, h)| && cur == s.view.Of(h)[k]
    requires p.mode != READ ==> v == EvsOf(s.st, h)[k] && vpad == pad
    requires |pad| == |vpad| == 4 && Room(p.mode, p.Now(), Plain(Image(v, vpad)))
    modifies p`pos, p`mismatch, p.buf, s`st, cur`time, cur`userdata, cur`kind
    ensures Fit(s, h) && s.st == WithEvs(old(s.st), h, EvsOf(old(s.st), h)[k := v])
    ensures Moves(p.mode, Plain(Image(v, vpad)), old(p.Now()), p.Now())
  {
    hide Queue, Pools, Placed, Distinct, Room, Moves, Image;
    ghost var evs := EvsOf(s.st, h);
    QueueNode(HeadOf(s, h), s.view.Of(h), evs, k);
    var e := DoEvent(p, cur.Payload(), pad, v, vpad);
    if p.mode == READ {
      PlacedDistinct(s.view, h);
      PlacedElsewhere(s.view, h, k);
      Overwrite(HeadOf(s, h), s.view.Of(h), evs, k, cur, e);
    } else {
      assert evs[k := v] == evs;
    }
    s.st := WithEvs(s.st, h, evs[k := v]);
  }

  /** TNew. */
  method TakeNew(s: Scheduler, h: Home) returns (cur: Event)
    requires Fit(s, h)
    modifies s`eventPool, s`eventTsPool, s`allocatedTsEvents, s`view
    ensures Fit(s, h) && s.view.IsHeld(cur) && cur !in s.view.Of(h)
    ensures h == Threadsafe ==> s.allocatedTsEvents > |s.view.ts|
    ensures Side(h) && s.view.Of(h) == old(s.view.Of(h))
    ensures s.view.homes == old(s.view.homes)[cur := Held]
    ensures cur in old(s.view.homes) ==> old(s.view.homes)[cur] == PoolOf(h)
    ensures fresh({cur} - old(s.view.homes.Keys))
    ensures forall e :: e in s.view.Of(h) ==> e in old(s.view.homes)
  {
    hide Queue, Pools, Placed;
    PlacedWithin(s.view);
    if h == Main {
      cur := s.GetNewEvent();
    } else {
      cur := s.GetNewTsEvent();
    }
  }

  /** TNew, TDo and the linking, when the list there is has run out. */
  method LoadNew(s: Scheduler, h: Home, p: PointerWrap, prev: Event?, pad: seq<Byte>, ghost v: Ev,
                 ghost vpad: seq<Byte>)
    returns (cur: Event)
    requires Fit(s, h) && p.mode == READ && prev == Last(s.view.Of(h))
    requires |pad| == |vpad| == 4 && Room(p.mode, p.Now(), Plain(Image(v, vpad)))
    modifies p`pos, p`mismatch, p.buf
    modifies s`first, s`tsFirst, s`eventPool, s`eventTsPool, s`allocatedTsEvents, s`view, s`st, s.view.homes.Keys
    ensures Fit(s, h) && s.st == WithEvs(old(s.st), h, EvsOf(old(s.st), h) + [v])
    ensures s.view.Of(h) == old(s.view.Of(h)) + [cur]
    ensures Onward(old(s.view.homes), s.view.homes) && fresh(s.view.homes.Keys - old(s.view.homes.Keys))
    ensures Moves(p.mode, Plain(Image(v, vpad)), old(p.Now()), p.Now())
  {
    hide Fit, Room, Moves, Image;
    cur := TakeNew(s, h);
    var e := DoEvent(p, cur.Payload(), pad, v, vpad);
    Append(s, h, prev, cur, e);
  }

  /** The loaded fields, cur.next = 0, and the pointer to cur. */
  method Append(s: Scheduler, h: Home, prev: Event?, cur: Event, e: Ev)
    requires Fit(s, h) && s.view.IsHeld(cur) && prev == Last(s.view.Of(h))
    requires h == Threadsafe ==> s.allocatedTsEvents > |s.view.ts|
    modifies s`first, s`tsFirst, s`view, s`st, s.view.Of(h)`next, cur
    ensures Fit(s, h)
    ensures s.view == old(s.view).With(h, old(s.view.Of(h)) + [cur]).(homes := old(s.view.homes)[cur := h])
    ensures s.st == WithEvs(old(s.st), h, EvsOf(old(s.st), h) + [e])
  {
    hide Queue, Pools, Placed, Distinct, Spliced;
    ghost var k, q, v := |s.view.Of(h)|, s.view.Of(h), EvsOf(s.st, h);
    QueueHead(HeadOf(s, h), q, v);
    PlacedHang(s.view, h, k, cur);
    SplicedLast(q, cur);
    assert v[..k] + [e] + v[k..] == v + [e];
    var head := FillAndHang(if h == Main then s.first else s.tsFirst, q, v, k, prev, null, cur, e);
    if h == Main { s.first := head; } else { s.tsFirst := head; }
    s.view, s.st := s.view.Put(h, k, cur), WithEvs(s.st, h, v + [e]);
  }

  lemma SplicedLast(q: seq<Event>, e: Event)
    ensures Spliced(q, |q|, e) == q + [e]
  {
  }

  method FillAndHang(head: Event?, ghost q: seq<Event>, ghost v: seq<Ev>, ghost k: nat, prev: Event?, next: Event?,
                     cur: Event, e: Ev)
    returns (head': Event?)
    requires Queue(head, q, v) && |q| == |v| && Distinct(q) && k <= |q| && cur !in q
    requires next == At(q, k) && prev == (if k == 0 then null else q[k - 1])
    modifies cur, (if prev == null then {} else {prev})`next
    ensures Queue(head', Spliced(q, k, cur), v[..k] + [e] + v[k..])
  {
    hide Queue, Distinct;
    cur.Fill(e.time, e.kind, e.userdata);
    head' := HangIn(head, q, v, k, prev, next, cur);
  }

  // ---------------------------------------------------------------- the surplus

  /** tail is a detached chain of held nodes, to be freed; the others are held or not as in h0. */
  ghost predicate Detached(h0: Homes, v: View, head: Event?, tail: seq<Event>)
    reads tail`next
  {
    && Chain(head, tail) && Distinct(tail)
    && (forall e :: e in tail ==> v.IsHeld(e) && v.OnNone(e) && e in h0 && h0[e] != Held)
    && v.homes.Keys == h0.Keys
    && (forall e :: e in h0 && e !in tail ==> (h0[e] == Held <==> v.homes[e] == Held))
  }

  lemma DetachedStart(v: View, h: Home, k: nat)
    requires Placed(v) && h != Held && k <= |v.Of(h)| && Chain(At(v.Of(h), k), v.Of(h)[k..])
    ensures Detached(v.homes, Truncated(v, h, k), At(v.Of(h), k), v.Of(h)[k..])
  {
    hide Placed, Chain;
    PlacedTruncated(v, h, k);
  }

  lemma DetachedFacts(h0: Homes, v: View, head: Event?, tail: seq<Event>)
    requires Detached(h0, v, head, tail)
    ensures head == At(tail, 0) && Distinct(tail) && v.homes.Keys == h0.Keys
    ensures forall e :: e in tail ==> v.IsHeld(e) && v.OnNone(e) && e in h0 && h0[e] != Held
    ensures forall e :: e in h0 && e !in tail ==> (h0[e] == Held <==> v.homes[e] == Held)
    ensures forall i {:trigger tail[i].next} :: 0 <= i < |tail| ==> tail[i].next == At(tail, i + 1)
  {
  }

  lemma DetachedEnd(h0: Homes, v: View, head: Event?, tail: seq<Event>)
    requires Detached(h0, v, head, tail)
    ensures v.homes.Keys == h0.Keys && head == At(tail, 0)
    ensures tail != [] ==> tail[0] in v.homes
    ensures tail == [] ==> Onward(h0, v.homes)
  {
  }

  /** The head of the chain has gone to a pool, and its own pointer with it. */
  lemma DetachedNext(h0: Homes, v: View, head: Event?, tail: seq<Event>, to: Home, v': View)
    requires tail != [] && Distinct(tail) && to != Held
    requires forall e :: e in tail ==> v.IsHeld(e) && v.OnNone(e) && e in h0 && h0[e] != Held
    requires v.homes.Keys == h0.Keys
    requires forall e :: e in h0 && e !in tail ==> (h0[e] == Held <==> v.homes[e] == Held)
    requires forall i {:trigger tail[i].next} :: 0 < i < |tail| ==> tail[i].next == At(tail, i + 1)
    requires v'.homes == v.homes[tail[0] := to] && head == At(tail, 1)
    requires v'.main == v.main && v'.ts == v.ts
    requires if to == Pool then v'.pool == Spliced(v.pool, 0, tail[0]) && v'.tsPool == v.tsPool
             else v'.tsPool == Spliced(v.tsPool, 0, tail[0]) && v'.pool == v.pool
    ensures Detached(h0, v', head, tail[1..])
  {
    var rest := tail[1..];
    assert tail == [tail[0]] + rest;
    forall e | e in rest ensures e != tail[0] && e in tail {
      var i :| 0 <= i < |rest| && rest[i] == e;
      assert tail[i + 1] == e;
    }
    assert Spliced(v.pool, 0, tail[0]) == [tail[0]] + v.pool && Spliced(v.tsPool, 0, tail[0]) == [tail[0]] + v.tsPool;
    forall i | 0 <= i < |rest| ensures rest[i].next == At(rest, i + 1) {
      assert rest[i] == tail[i + 1] && tail[i + 1].next == At(tail, i + 2);
    }
  }

  /** Cuts the list off behind prev, and frees what was left of it. */
  method FreeSurplus(s: Scheduler, h: Home, prev: Event?, rest: Event?, ghost k: nat)
    requires Fit(s, h) && k <= |s.view.Of(h)| == |EvsOf(s.st, h)|
    requires rest == At(s.view.Of(h), k) && prev == (if k == 0 then null else s.view.Of(h)[k - 1])
    modifies s`first, s`tsFirst, s`eventPool, s`eventTsPool, s`allocatedTsEvents, s`view, s`st, s.view.homes.Keys`next
    ensures Fit(s, h) && s.st == WithEvs(old(s.st), h, EvsOf(old(s.st), h)[..k])
    ensures s.view.Of(h) == old(s.view.Of(h))[..k]
    ensures Onward(old(s.view.homes), s.view.homes) && s.view.homes.Keys == old(s.view.homes.Keys)
    ensures forall e :: e in old(s.view.Of(h))[k..] ==> e in s.view.Of(PoolOf(h))
  {
    hide Fit, Detached, Onward, Chain, Truncated, EvsOf, WithEvs;
    ghost var h0, surplus := s.view.homes, s.view.Of(h)[k..];
    FitQueue(s, h);
    TruncatedLists(s.view, h, k);
    Detach(s, h, prev, rest, k);
    DetachedStart(old(s.view), h, k);
    DetachedEnd(h0, s.view, rest, surplus);
    FreeAll(s, h, h0, rest, surplus);
  }

  /** The loop: a detached chain goes to the pool, node by node. */
  method FreeAll(s: Scheduler, h: Home, ghost h0: Homes, head: Event?, ghost surplus: seq<Event>)
    requires Fit(s, h) && Detached(h0, s.view, head, surplus)
    requires h == Threadsafe ==> s.allocatedTsEvents >= |s.view.ts| + |surplus|
    modifies s`eventPool, s`eventTsPool, s`allocatedTsEvents, s`view, s.view.homes.Keys`next
    ensures Fit(s, h) && s.view.Of(h) == old(s.view.Of(h))
    ensures Onward(h0, s.view.homes) && s.view.homes.Keys == old(s.view.homes.Keys)
    ensures forall e :: e in surplus ==> e in s.view.Of(PoolOf(h))
  {
    hide Fit, Detached, Onward, Chain;
    FitSide(s, h);
    ghost var tail := surplus;
    var cur := head;
    DetachedEnd(h0, s.view, cur, tail);
    while cur != null
      invariant Fit(s, h) && Detached(h0, s.view, cur, tail) && s.view.Of(h) == old(s.view.Of(h))
      invariant h == Threadsafe ==> s.allocatedTsEvents >= |s.view.ts| + |tail|
      invariant cur == At(tail, 0) && s.view.homes.Keys == h0.Keys && (cur != null ==> cur in h0)
      invariant forall e :: e in surplus ==> e in tail || e in s.view.Of(PoolOf(h))
      decreases |tail|
    {
      assert tail == [cur] + tail[1..];
      cur := FreeOne(s, h, h0, cur, tail);
      tail := tail[1..];
      DetachedEnd(h0, s.view, cur, tail);
    }
    DetachedEnd(h0, s.view, cur, tail);
  }

  lemma FitSide(s: Scheduler, h: Home)
    requires Fit(s, h)
    ensures Side(h)
  {
  }

  method FreeOne(s: Scheduler, h: Home, ghost h0: Homes, cur: Event, ghost tail: seq<Event>) returns (next: Event?)
    requires Fit(s, h) && Detached(h0, s.view, cur, tail)
    requires h == Threadsafe ==> s.allocatedTsEvents > |s.view.ts|
    modifies s`eventPool, s`eventTsPool, s`allocatedTsEvents, s`view, cur`next
    ensures Fit(s, h) && tail != [] && tail[0] == cur && Detached(h0, s.view, next, tail[1..])
    ensures s.view.main == old(s.view.main) && s.view.ts == old(s.view.ts)
    ensures s.view.Of(PoolOf(h)) == [cur] + old(s.view.Of(PoolOf(h)))
    ensures h == Threadsafe ==> s.allocatedTsEvents == old(s.allocatedTsEvents) - 1
  {
    hide Queue, Pools, Placed, Detached, Distinct;
    DetachedFacts(h0, s.view, cur, tail);
    next := cur.next;
    ghost var v := s.view;
    if h == Main {
      s.FreeEvent(cur, s.first, s.tsFirst);
    } else {
      s.FreeTsEvent(cur, s.first, s.tsFirst);
    }
    assert Spliced(v.Of(PoolOf(h)), 0, cur) == [cur] + v.Of(PoolOf(h));
    DistinctFirst(tail);
    DetachedNext(h0, v, next, tail, PoolOf(h), s.view);
  }

  lemma DistinctFirst(q: seq<Event>)
    requires Distinct(q)
    ensures forall i :: 0 < i < |q| ==> q[i] != q[0]
  {
  }

  lemma TruncatedLists(v: View, h: Home, k: nat)
    requires Side(h) && k <= |v.Of(h)|
    ensures var w := Truncated(v, h, k);
      && w.Of(h) == v.Of(h)[..k] && w.homes.Keys == v.homes.Keys && w.pool == v.pool && w.tsPool == v.tsPool
      && (if h == Main then w.ts == v.ts else w.main == v.main)
  {
  }

  lemma PlacedCutOff(v: View, h: Home, k: nat)
    requires Placed(v) && h != Held && k <= |v.Of(h)|
    ensures Placed(Truncated(v, h, k)) && Distinct(v.Of(h))
    ensures Truncated(v, h, k) == v.With(h, v.Of(h)[..k]).(homes := Truncated(v, h, k).homes)
    ensures Truncated(v, h, k).homes.Keys == v.homes.Keys
    ensures k > 0 ==> v.Of(h)[k - 1] in v.homes && v.With(h, []).OnNone(v.Of(h)[k - 1])
  {
    hide Placed, Distinct;
    PlacedTruncated(v, h, k);
    PlacedDistinct(v, h);
    if k > 0 { PlacedElsewhere(v, h, k - 1); }
  }

  method Detach(s: Scheduler, h: Home, prev: Event?, rest: Event?, ghost k: nat)
    requires Fit(s, h) && k <= |s.view.Of(h)| == |EvsOf(s.st, h)|
    requires rest == At(s.view.Of(h), k) && prev == (if k == 0 then null else s.view.Of(h)[k - 1])
    modifies s`first, s`tsFirst, s`view, s`st, s.view.Of(h)`next
    ensures Fit(s, h) && s.st == WithEvs(old(s.st), h, EvsOf(old(s.st), h)[..k])
    ensures s.view == Truncated(old(s.view), h, k)
    ensures Chain(rest, old(s.view.Of(h))[k..]) && Placed(old(s.view))
    ensures h == Threadsafe ==> s.allocatedTsEvents >= |old(s.view.ts)|
  {
    hide Queue, Pools, Placed, Chain, Truncated;
    if h == Main { DetachMain(s, prev, rest, k); } else { DetachTs(s, prev, rest, k); }
  }

  method DetachMain(s: Scheduler, prev: Event?, rest: Event?, ghost k: nat)
    requires s.Valid() && k <= |s.view.main| == |s.st.main|
    requires rest == At(s.view.main, k) && prev == (if k == 0 then null else s.view.main[k - 1])
    modifies s`first, s`view, s`st, s.view.main`next
    ensures s.Valid() && s.st == old(s.st).(main := old(s.st.main)[..k])
    ensures s.view == Truncated(old(s.view), Main, k) && Chain(rest, old(s.view.main)[k..])
  {
    hide Queue, Pools, Placed, Distinct, Chain, Truncated, At, Last;
    PlacedCutOff(s.view, Main, k);
    s.first := CutOffAlone(s.first, s.view.main, s.st.main, prev, k, s.tsFirst, s.view.ts, s.st.ts,
                           s.eventPool, s.view.pool, s.eventTsPool, s.view.tsPool);
    s.view, s.st := Truncated(s.view, Main, k), s.st.(main := s.st.main[..k]);
  }

  method DetachTs(s: Scheduler, prev: Event?, rest: Event?, ghost k: nat)
    requires s.Shape() && k <= |s.view.ts| == |s.st.ts|
    requires rest == At(s.view.ts, k) && prev == (if k == 0 then null else s.view.ts[k - 1])
    modifies s`tsFirst, s`view, s`st, s.view.ts`next
    ensures s.Shape() && s.st == old(s.st).(ts := old(s.st.ts)[..k])
    ensures s.view == Truncated(old(s.view), Threadsafe, k) && Chain(rest, old(s.view.ts)[k..])
  {
    hide Queue, Pools, Placed, Distinct, Chain, Truncated, At, Last;
    PlacedCutOff(s.view, Threadsafe, k);
    s.tsFirst := CutOffAlone(s.tsFirst, s.view.ts, s.st.ts, prev, k, s.first, s.view.main, s.st.main,
                             s.eventPool, s.view.pool, s.eventTsPool, s.view.tsPool);
    s.view, s.st := Truncated(s.view, Threadsafe, k), s.st.(ts := s.st.ts[..k]);
  }

  /** Which does not touch the other queue and the pools, as prev is not on them. */
  method CutOffAlone(head: Event?, ghost q: seq<Event>, ghost v: seq<Ev>, prev: Event?, ghost k: nat,
                     ghost other: Event?, ghost r: seq<Event>, ghost w: seq<Ev>,
                     ghost pool: Event?, ghost s: seq<Event>, ghost tsPool: Event?, ghost t: seq<Event>)
    returns (head': Event?)
    requires Queue(head, q, v) && Distinct(q) && k <= |q| == |v|
    requires prev == (if k == 0 then null else q[k - 1])
    requires Queue(other, r, w) && Pools(pool, s, tsPool, t)
    requires prev != null ==> prev !in r && prev !in s && prev !in t
    modifies (if prev == null then {} else {prev})`next
    ensures Queue(head', q[..k], v[..k]) && Chain(At(q, k), q[k..])
    ensures Queue(other, r, w) && Pools(pool, s, tsPool, t)
  {
    head' := CutOff(head, q, v, prev, k);
  }

  /** prev.next = 0, or no list at all; the rest stays chained. */
  method CutOff(head: Event?, ghost q: seq<Event>, ghost v: seq<Ev>, prev: Event?, ghost k: nat) returns (head': Event?)
    requires Queue(head, q, v) && Distinct(q) && k <= |q| == |v|
    requires prev == (if k == 0 then null else q[k - 1])
    modifies (if prev == null then {} else {prev})`next
    ensures Queue(head', q[..k], v[..k]) && Chain(At(q, k), q[k..])
  {
    head' := head;
    if prev != null {
      prev.next := null;
    } else {
      head' := null;
    }
    forall i | 0 <= i < k ensures q[..k][i].next == At(q[..k], i + 1) {
      if i + 1 < k { assert q[i].next == At(q, i + 1); }
    }
    forall i | 0 <= i < |q| - k ensures q[k..][i].next == At(q[k..], i + 1) {
      assert q[k + i].next == At(q, k + i + 1);
    }
  }

  // ---------------------------------------------------------------- the whole list

  /** i nodes of the list are done: cur and prev stand behind them, and they carry evs[..i]. q0 is
      the list as it was. */
  ghost predicate Standing(q: seq<Event>, v: seq<Ev>, q0: seq<Event>, prev: Event?, cur: Event?, i: nat, evs: seq<Ev>) {
    && i <= |evs| && i <= |q| == |v|
    && cur == At(q, i) && prev == (if i == 0 then null else q[i - 1])
    && v[..i] == evs[..i]
    && (if i <= |q0| then q == q0 else |q| == i && q[..|q0|] == q0)
  }

  lemma StandingStart(q: seq<Event>, v: seq<Ev>, evs: seq<Ev>)
    requires |q| == |v|
    ensures Standing(q, v, q, null, At(q, 0), 0, evs)
  {
  }

  lemma StandingOld(q: seq<Event>, v: seq<Ev>, q0: seq<Event>, prev: Event?, cur: Event, i: nat, evs: seq<Ev>)
    requires Standing(q, v, q0, prev, cur, i, evs) && i < |evs|
    ensures i < |q| == |v| && cur == q[i]
    ensures Standing(q, v[i := evs[i]], q0, cur, At(q, i + 1), i + 1, evs)
  {
    assert evs[..i + 1] == evs[..i] + [evs[i]];
    assert v[i := evs[i]][..i + 1] == v[..i] + [evs[i]];
  }

  lemma StandingNew(q: seq<Event>, v: seq<Ev>, q0: seq<Event>, prev: Event?, i: nat, evs: seq<Ev>, cur: Event)
    requires Standing(q, v, q0, prev, null, i, evs) && i < |evs|
    ensures i == |q| == |v| && prev == Last(q)
    ensures Standing(q + [cur], v + [evs[i]], q0, cur, null, i + 1, evs)
  {
    assert evs[..i + 1] == evs[..i] + [evs[i]];
    assert (v + [evs[i]])[..i + 1] == v[..i] + [evs[i]];
  }

  lemma StandingLast(q: seq<Event>, v: seq<Ev>, q0: seq<Event>, prev: Event?, i: nat, evs: seq<Ev>)
    requires Standing(q, v, q0, prev, null, i, evs)
    ensures prev == Last(q) && i == |q|
  {
  }

  lemma StandingEnd(q: seq<Event>, v: seq<Ev>, q0: seq<Event>, prev: Event?, cur: Event?, i: nat, evs: seq<Ev>)
    requires Standing(q, v, q0, prev, cur, i, evs)
    ensures i <= |evs| && i <= |q| == |v|
    ensures cur == At(q, i) && prev == (if i == 0 then null else q[i - 1])
    ensures v[..i] == evs[..i]
    ensures if i <= |q0| then q == q0 else |q| == i && q[..|q0|] == q0
  {
  }

  /** One round of the loop, for a node that should exist. */
  method DoNode(s: Scheduler, h: Home, p: PointerWrap,
                ghost q0: seq<Event>, prev: Event?, listCur: Event?, ghost i: nat,
                pad: seq<Byte>, ghost evs: seq<Ev>, ghost vpad: seq<Byte>) returns (prev': Event?, listCur': Event?)
    requires Fit(s, h) && Standing(s.view.Of(h), EvsOf(s.st, h), q0, prev, listCur, i, evs) && i < |evs|
    requires p.mode != READ ==> EvsOf(s.st, h) == evs && vpad == pad
    requires |pad| == |vpad| == 4 && Room(p.mode, p.Now(), Plain(Image(evs[i], vpad)))
    modifies p`pos, p`mismatch, p.buf
    modifies s`first, s`tsFirst, s`eventPool, s`eventTsPool, s`allocatedTsEvents, s`view, s`st, s.view.homes.Keys
    ensures Fit(s, h) && Standing(s.view.Of(h), EvsOf(s.st, h), q0, prev', listCur', i + 1, evs)
    ensures Only(h, old(s.st), s.st)
    ensures p.mode != READ ==> EvsOf(s.st, h) == evs && s.view == old(s.view)
    ensures Onward(old(s.view.homes), s.view.homes) && fresh(s.view.homes.Keys - old(s.view.homes.Keys))
    ensures Moves(p.mode, Plain(Image(evs[i], vpad)), old(p.Now()), p.Now())
  {
    hide Fit, Queue, Placed, Room, Moves, Image, Onward, Standing, EvsOf, WithEvs, Only;
    ghost var q, v := s.view.Of(h), EvsOf(s.st, h);
    FitQueue(s, h);
    if listCur != null {
      OnwardSelf(s.view.homes);
      StandingOld(q, v, q0, prev, listCur, i, evs);
      QueueNode(HeadOf(s, h), q, v, i);
      OnlySet(h, s.st, v[i := evs[i]]);
      listCur' := listCur.next;
      DoListed(s, h, p, listCur, pad, i, evs[i], vpad);
      prev' := listCur;
      assert p.mode != READ ==> v[i := evs[i]] == evs;
    } else {
      // A mode that does not load never turns 0 into 1, so TFree(cur); continue is never reached.
      StandingLast(q, v, q0, prev, i, evs);
      OnlySet(h, s.st, v + [evs[i]]);
      prev' := LoadNew(s, h, p, prev, pad, evs[i], vpad);
      StandingNew(q, v, q0, prev, i, evs, prev');
      FitQueue(s, h);
      QueueNode(HeadOf(s, h), s.view.Of(h), EvsOf(s.st, h), i);
      listCur' := prev'.next;
    }
  }

  /** DoLinkedList on one of the two queues. evs and vpads are what the stream form belongs to: the
      list itself, or in MODE_READ the one that was saved. Whatever the list was, it is evs afterwards;
      the nodes there were are reused from the front, and surplus ones go to the pool. */
  method DoList(s: Scheduler, h: Home, p: PointerWrap, pads: seq<seq<Byte>>, ghost evs: seq<Ev>,
                ghost vpads: seq<seq<Byte>>)
    requires s.Valid() && Side(h) && Pads(pads, |evs|) && Pads(vpads, |evs|) && |pads| == |vpads|
    requires p.mode != READ ==> evs == EvsOf(s.st, h) && vpads == pads
    requires Room(p.mode, p.Now(), Plain(ListForm(evs, vpads)))
    modifies p`pos, p`mismatch, p.buf
    modifies s`first, s`tsFirst, s`tsLast, s`eventPool, s`eventTsPool, s`allocatedTsEvents
    modifies s`view, s`st, s.view.homes.Keys
    ensures s.Valid() && EvsOf(s.st, h) == evs && Only(h, old(s.st), s.st)
    ensures Reused(old(s.view.Of(h)), s.view, h, |evs|)
    ensures p.mode != READ ==> s.view == old(s.view) && s.st == old(s.st)
    ensures Onward(old(s.view.homes), s.view.homes) && fresh(s.view.homes.Keys - old(s.view.homes.Keys))
    ensures Moves(p.mode, Plain(ListForm(evs, vpads)), old(p.Now()), p.Now())
  {
    hide Scheduler.Valid, Fit, Room, Moves, Image, Onward, Progress, ListForm, RestForm, Standing, Reused, Only, EvsOf,
         WithEvs;
    ghost var a, total, done := p.Now(), Plain(ListForm(evs, vpads)), NOTHING;
    ghost var h0, q0 := s.view.homes, s.view.Of(h);
    FitStart(s, h);
    var listCur, prev: Event? := if h == Main then s.first else s.tsFirst, null;
    var i := 0;
    FitQueue(s, h);
    StandingStart(s.view.Of(h), EvsOf(s.st, h), evs);
    OnwardSelf(h0);
    OnlySelf(h, s.st);
    ProgressStart(p.mode, total, a);
    assert evs[0..] == evs && vpads[0..] == vpads;
    while true
      invariant i <= |evs| && Fit(s, h) && Standing(s.view.Of(h), EvsOf(s.st, h), q0, prev, listCur, i, evs)
      invariant Only(h, old(s.st), s.st)
      invariant p.mode != READ ==>
        EvsOf(s.st, h) == evs && vpads == pads && s.view == old(s.view) && s.tsLast == Last(s.view.ts)
      invariant Onward(h0, s.view.homes) && fresh(s.view.homes.Keys - h0.Keys)
      invariant Progress(p.mode, total, done, Plain(ListForm(evs[i..], vpads[i..])), a, p.Now())
      decreases |evs| - i
    {
      ghost var before, st := s.view.homes, s.st;
      var more;
      more, prev, listCur, done := Round(s, h, p, q0, prev, listCur, i, pads, evs, vpads, total, done, a);
      if more {
        OnwardStep(h0, before, s.view.homes);
        OnlyStep(h, old(s.st), st, s.st);
        i := i + 1;
      } else {
        Finish(s, h, p.mode == READ, q0, prev, listCur, i, evs);
        OnwardStep(h0, before, s.view.homes);
        OnlyStep(h, old(s.st), st, s.st);
        OnlySame(h, old(s.st), s.st);
        break;
      }
    }
  }

  /** The flag, and the node if there is to be one. */
  method Round(s: Scheduler, h: Home, p: PointerWrap, ghost q0: seq<Event>, prev: Event?, listCur: Event?, i: nat,
               pads: seq<seq<Byte>>, ghost evs: seq<Ev>, ghost vpads: seq<seq<Byte>>,
               ghost total: Piece, ghost done: Piece, ghost a: Stream)
    returns (more: bool, prev': Event?, listCur': Event?, ghost done': Piece)
    requires i <= |evs| && Fit(s, h) && Standing(s.view.Of(h), EvsOf(s.st, h), q0, prev, listCur, i, evs)
    requires Pads(pads, |evs|) && Pads(vpads, |evs|) && |pads| == |vpads|
    requires p.mode != READ ==> EvsOf(s.st, h) == evs && vpads == pads
    requires Progress(p.mode, total, done, Plain(ListForm(evs[i..], vpads[i..])), a, p.Now())
    modifies p`pos, p`mismatch, p.buf
    modifies s`first, s`tsFirst, s`eventPool, s`eventTsPool, s`allocatedTsEvents, s`view, s`st, s.view.homes.Keys
    ensures Fit(s, h) && Side(h) && more == (i < |evs|)
    ensures more ==> Only(h, old(s.st), s.st) && Standing(s.view.Of(h), EvsOf(s.st, h), q0, prev', listCur', i + 1, evs)
    ensures more ==> Progress(p.mode, total, done', Plain(ListForm(evs[i + 1..], vpads[i + 1..])), a, p.Now())
    ensures !more ==> s.st == old(s.st) && s.view == old(s.view) && prev' == prev && listCur' == listCur
    ensures !more ==> Moves(p.mode, total, a, p.Now())
    ensures p.mode != READ ==> EvsOf(s.st, h) == evs && s.view == old(s.view)
    ensures Onward(old(s.view.homes), s.view.homes) && fresh(s.view.homes.Keys - old(s.view.homes.Keys))
  {
    hide Fit, Room, Moves, Image, Onward, Progress, ListForm, RestForm, Standing, Only, EvsOf;
    OnwardSelf(s.view.homes);
    FitQueue(s, h);
    ListFormAt(evs, vpads, i);
    StandingEnd(s.view.Of(h), EvsOf(s.st, h), q0, prev, listCur, i, evs);
    prev', listCur' := prev, listCur;
    PlainJoin([if i < |evs| then 1 else 0], RestForm(evs, vpads, i));
    more := DoFlag(p, listCur != null, i < |evs|, total, done, Plain(RestForm(evs, vpads, i)), a);
    done' := Join(done, Plain([if i < |evs| then 1 else 0]));
    if more {
      RestFormAt(evs, vpads, i);
      PlainJoin(Image(evs[i], vpads[i]), ListForm(evs[i + 1..], vpads[i + 1..]));
      ghost var e, rest, b := Plain(Image(evs[i], vpads[i])), Plain(ListForm(evs[i + 1..], vpads[i + 1..])), p.Now();
      ProgressNext(p.mode, total, done', e, rest, a, b);
      prev', listCur' := DoNode(s, h, p, q0, prev, listCur, i, pads[i], evs, vpads[i]);
      ProgressStep(p.mode, total, done', e, rest, a, b, p.Now());
      done' := Join(done', e);
    } else {
      RestFormEnd(evs, vpads);
      ProgressEnd(p.mode, total, done', a, p.Now());
    }
  }

  lemma FitStart(s: Scheduler, h: Home)
    requires s.Valid() && Side(h)
    ensures Fit(s, h) && s.tsLast == Last(s.view.ts)
  {
  }

  lemma FitEnd(s: Scheduler, h: Home)
    requires Fit(s, h) && (h == Threadsafe ==> s.tsLast == Last(s.view.ts))
    ensures s.Valid()
  {
  }

  /** *list_end = prev. */
  method SetEnd(s: Scheduler, prev: Event?)
    requires Fit(s, Threadsafe) && prev == Last(s.view.ts)
    modifies s`tsLast
    ensures s.Valid()
  {
    hide Queue, Pools, Placed;
    s.tsLast := prev;
  }

  /** The end of the list has been read. */
  method Finish(s: Scheduler, h: Home, loading: bool, ghost q0: seq<Event>, prev: Event?, listCur: Event?, ghost i: nat,
                ghost evs: seq<Ev>)
    requires Fit(s, h) && Side(h) && Standing(s.view.Of(h), EvsOf(s.st, h), q0, prev, listCur, i, evs) && i == |evs|
    requires !loading ==> EvsOf(s.st, h) == evs && s.tsLast == Last(s.view.ts) && s.view.Of(h) == q0
    modifies s`first, s`tsFirst, s`tsLast, s`eventPool, s`eventTsPool, s`allocatedTsEvents
    modifies s`view, s`st, s.view.homes.Keys`next
    ensures s.Valid() && EvsOf(s.st, h) == evs && Only(h, old(s.st), s.st)
    ensures Reused(q0, s.view, h, |evs|)
    ensures !loading ==> s.view == old(s.view)
    ensures Onward(old(s.view.homes), s.view.homes) && s.view.homes.Keys == old(s.view.homes.Keys)
  {
    hide Fit, Scheduler.Valid, Onward;
    OnwardSelf(s.view.homes);
    assert evs[..i] == evs;
    if loading {
      FreeSurplus(s, h, prev, listCur, i);
      if h == Threadsafe { SetEnd(s, prev); } else { FitEnd(s, h); }
    } else {
      FitEnd(s, h);
    }
  }

  /** n nodes now: the first ones are those that were there, and any further ones are in the pool. */
  ghost predicate Reused(q0: seq<Event>, w: View, h: Home, n: nat) {
    var q := w.Of(h);
    |q| == n && if n <= |q0| then q == q0[..n] && forall e :: e in q0[n..] ==> e in w.Of(PoolOf(h)) else q[..|q0|] == q0
  }

  /** Do(shouldExist). */
  method DoFlag(p: PointerWrap, x: bool, ghost v: bool, ghost total: Piece, ghost done: Piece, ghost rest: Piece,
                ghost a: Stream)
    returns (x': bool)
    requires p.mode != READ ==> v == x
    requires Progress(p.mode, total, done, Join(Plain([if v then 1 else 0]), rest), a, p.Now())
    modifies p`pos, p`mismatch, p.buf
    ensures x' == v && Progress(p.mode, total, Join(done, Plain([if v then 1 else 0])), rest, a, p.Now())
  {
    hide Progress, Moves, Room;
    ghost var e, b := Plain([if v then 1 else 0]), p.Now();
    ProgressNext(p.mode, total, done, e, rest, a, b);
    var data := p.DoVoid([if x then 1 else 0], 1, e.bytes);
    ProgressStep(p.mode, total, done, e, rest, a, b, p.Now());
    x' := data[0] == 1;
  }

  /** Measures a queue and saves it to a buffer of that size. */
  method Save(s: Scheduler, h: Home, pads: seq<seq<Byte>>, less: (Value, Value) -> bool) returns (buf: array<Byte>)
    requires s.Valid() && Side(h) && Pads(pads, |EvsOf(s.st, h)|)
    modifies s, s.view.homes.Keys
    ensures s.Valid() && EvsOf(s.st, h) == old(EvsOf(s.st, h)) && s.view.homes.Keys >= old(s.view.homes.Keys)
    ensures fresh(s.view.homes.Keys - old(s.view.homes.Keys))
    ensures fresh(buf) && buf[..] == ListForm(old(EvsOf(s.st, h)), pads)
  {
    hide Scheduler.Valid, Only, EvsOf, Reused, ListForm;
    ghost var evs := EvsOf(s.st, h);
    var none := new Byte[0];
    var p := new PointerWrap(none, MEASURE, less);
    DoList(s, h, p, pads, evs, pads);
    buf := new Byte[p.pos];
    p := new PointerWrap(buf, WRITE, less);
    DoList(s, h, p, pads, evs, pads);
  }

  /** Saves a queue and loads it over the queue of any other scheduler: the same events in the same
      order, in 25 bytes each and one more. */
  method SaveAndLoad(s: Scheduler, t: Scheduler, h: Home, pads: seq<seq<Byte>>, less: (Value, Value) -> bool)
    returns (size: nat)
    requires s.Valid() && t.Valid() && s != t && s.view.homes.Keys !! t.view.homes.Keys
    requires Side(h) && Pads(pads, |EvsOf(s.st, h)|)
    modifies s, s.view.homes.Keys, t, t.view.homes.Keys
    ensures s.Valid() && t.Valid()
    ensures EvsOf(s.st, h) == old(EvsOf(s.st, h)) && EvsOf(t.st, h) == old(EvsOf(s.st, h)) && Only(h, old(t.st), t.st)
    ensures size == 25 * |old(EvsOf(s.st, h))| + 1
  {
    hide Scheduler.Valid, Only, EvsOf, Onward, Reused, ListForm;
    ghost var evs := EvsOf(s.st, h);
    ListFormSize(evs, pads);
    var buf := Save(s, h, pads, less);
    size := buf.Length;
    var p := new PointerWrap(buf, READ, less);
    assert buf[..][0..0 + |ListForm(evs, pads)|] == ListForm(evs, pads);
    DoList(t, h, p, pads, evs, pads);
  }
}

/** Event nodes and singly linked lists of them: which node is where, what the next pointers say,
    and how each single pointer change moves a list from one sequence of nodes to another. */
module NodeLists {
  import opened Bytes
  import opened EventSpec
  import opened Seqs

  /** LinkedListItem<BaseEvent>. */
  class Event {
    var time: S64
    var userdata: U64
    var kind: S32
    var next: Event?

    constructor () {
      time, userdata, kind, next := 0, 0, 0, null;
    }

    method Fill(time: S64, kind: S32, userdata: U64)
      modifies this`time, this`userdata, this`kind
      ensures Payload() == Ev(time, userdata, kind)
    {
      this.time, this.kind, this.userdata := time, kind, userdata;
    }

    function Payload(): Ev
      reads this`time, this`userdata, this`kind
    {
      Ev(time, userdata, kind)
    }
  }

  /** Where an existing node is: in one of the four lists, or in the hands of the running operation. */
  datatype Home = Main | Threadsafe | Pool | TsPool | Held

  /** The two queues; each has a pool of its own. */
  predicate Side(h: Home) { h == Main || h == Threadsafe }

  function PoolOf(h: Home): Home { if h == Main then Pool else TsPool }

  /** The place of every node that has been allocated and not deleted. */
  type Homes = map<Event, Home>

  function At(s: seq<Event>, i: nat): Event? {
    if i < |s| then s[i] else null
  }

  function Last(s: seq<Event>): Event? {
    if s == [] then null else s[|s| - 1]
  }

  function Spliced(s: seq<Event>, k: nat, e: Event): seq<Event>
    requires k <= |s|
  {
    s[..k] + [e] + s[k..]
  }

  function Cut(s: seq<Event>, k: nat): seq<Event>
    requires k < |s|
  {
    s[..k] + s[k + 1..]
  }

  /** Cutting a node off the end moves the last node one back; cutting another leaves it. */
  lemma DistinctLast(s: seq<Event>, k: nat)
    requires Distinct(s) && 0 < k < |s|
    ensures Last(Cut(s, k)) == if s[k] == Last(s) then s[k - 1] else Last(s)
  {
  }

  lemma SplicedFirst(s: seq<Event>, e: Event)
    ensures Spliced(s, 0, e) == [e] + s
  {
  }

  lemma LastIs(s: seq<Event>)
    ensures Last(s) == (if |s| == 0 then null else s[|s| - 1])
  {
  }

  lemma LastSpliced(s: seq<Event>, e: Event)
    ensures |Spliced(s, |s|, e)| == |s| + 1 && Last(Spliced(s, |s|, e)) == e
  {
  }

  /** The nodes of s are exactly the nodes at home, each of them once. */
  ghost predicate Holds(homes: Homes, s: seq<Event>, home: Home) {
    && Distinct(s)
    && (forall i :: 0 <= i < |s| ==> s[i] in homes && homes[s[i]] == home)
    && (forall e :: e in homes && homes[e] == home ==> e in s)
  }

  /** head leads through exactly the nodes s, in order, to null. */
  ghost predicate Chain(head: Event?, s: seq<Event>)
    reads s`next
  {
    && head == At(s, 0)
    && (forall i {:trigger s[i].next} :: 0 <= i < |s| ==> s[i].next == At(s, i + 1))
  }

  /** The nodes of s carry the payloads v. */
  ghost predicate Shows(s: seq<Event>, v: seq<Ev>)
    reads s`time, s`userdata, s`kind
  {
    && |s| == |v|
    && (forall i {:trigger v[i]} {:trigger s[i]} :: 0 <= i < |s| ==> s[i].Payload() == v[i])
  }

  // ---------------------------------------------------------------- who is where

  lemma HoldsMember(homes: Homes, s: seq<Event>, home: Home, k: nat)
    requires Holds(homes, s, home) && k < |s|
    ensures s[k] in homes && homes[s[k]] == home
  {
  }

  lemma HoldsOnce(homes: Homes, s: seq<Event>, home: Home, i: nat, j: nat)
    requires Holds(homes, s, home) && i < |s| && j < |s|
    ensures s[i] == s[j] ==> i == j
  {
  }

  /** A node that moves between two other places does not concern a list, and is not on it. */
  lemma HoldsFrame(homes: Homes, s: seq<Event>, home: Home, e: Event, to: Home)
    requires Holds(homes, s, home) && to != home
    requires e in homes ==> homes[e] != home
    ensures e !in s
    ensures Holds(homes[e := to], s, home)
  {
  }

  lemma SplicedDistinct(s: seq<Event>, k: nat, e: Event)
    requires Distinct(s) && k <= |s| && e !in s
    ensures Distinct(Spliced(s, k, e))
  {
    var r := Spliced(s, k, e);
    forall i, j | 0 <= i < j < |r| ensures r[i] != r[j] {
      if i != k && j != k {
        assert r[i] == s[if i < k then i else i - 1];
        assert r[j] == s[if j < k then j else j - 1];
      }
    }
  }

  lemma HoldsSplice(homes: Homes, s: seq<Event>, home: Home, k: nat, e: Event)
    requires Holds(homes, s, home) && k <= |s|
    requires e in homes ==> homes[e] != home
    ensures e !in s
    ensures Holds(homes[e := home], Spliced(s, k, e), home)
  {
    SplicedDistinct(s, k, e);
    var r := Spliced(s, k, e);
    forall x | x in homes[e := home] && homes[e := home][x] == home ensures x in r {
      if x != e {
        assert x in s[..k] + s[k..] by { assert s[..k] + s[k..] == s; }
      } else {
        assert r[k] == e;
      }
    }
  }

  lemma HoldsCut(homes: Homes, s: seq<Event>, home: Home, k: nat, to: Home)
    requires Holds(homes, s, home) && k < |s| && to != home
    ensures s[k] !in Cut(s, k)
    ensures Holds(homes[s[k] := to], Cut(s, k), home)
  {
    var r := Cut(s, k);
    assert forall i :: 0 <= i < |r| ==> r[i] == s[if i < k then i else i + 1];
    forall x | x in homes && homes[x] == home && x != s[k] ensures x in r {
      var i :| 0 <= i < |s| && s[i] == x;
      assert r[if i < k then i else i - 1] == x;
    }
  }

  /** A deleted node is on no list; the others are where they were. */
  lemma HoldsDelete(homes: Homes, s: seq<Event>, home: Home, e: Event)
    requires Holds(homes, s, home) && e in homes && homes[e] != home
    ensures Holds(homes - {e}, s, home)
  {
  }

  // ---------------------------------------------------------------- the four lists

  /** The four lists as node sequences, and the place of every existing node. */
  datatype View = View(homes: Homes, main: seq<Event>, ts: seq<Event>, pool: seq<Event>, tsPool: seq<Event>) {
    function Of(h: Home): seq<Event> {
      match h
      case Main => main
      case Threadsafe => ts
      case Pool => pool
      case TsPool => tsPool
      case Held => []
    }

    function With(h: Home, s: seq<Event>): View {
      match h
      case Main => this.(main := s)
      case Threadsafe => this.(ts := s)
      case Pool => this.(pool := s)
      case TsPool => this.(tsPool := s)
      case Held => this
    }

    /** The k-th node of list h comes off the list, into the hands of the running operation. */
    function Take(h: Home, k: nat): View
      requires k < |Of(h)|
    {
      With(h, Cut(Of(h), k)).(homes := homes[Of(h)[k] := Held])
    }

    /** A held node goes into list h at position k. */
    function Put(h: Home, k: nat, e: Event): View
      requires k <= |Of(h)|
    {
      With(h, Spliced(Of(h), k, e)).(homes := homes[e := h])
    }

    /** A new node, in the hands of the operation that allocated it. */
    function Adopt(e: Event): View { this.(homes := homes[e := Held]) }

    /** A deleted node no longer exists. */
    function Forget(e: Event): View { this.(homes := homes - {e}) }

    predicate IsHeld(e: Event) { e in homes && homes[e] == Held }

    ghost predicate OnNone(e: Event) {
      e !in main && e !in ts && e !in pool && e !in tsPool
    }
  }

  /** Nothing has been deleted, and the operation that ran holds no node of its own any more. */
  ghost predicate Onward(h0: Homes, h1: Homes) {
    && (forall e :: e in h0 ==> e in h1 && (h0[e] == Held <==> h1[e] == Held))
    && (forall e :: e in h1 && e !in h0 ==> h1[e] != Held)
  }

  lemma OnwardSelf(h: Homes)
    ensures Onward(h, h)
  {
  }

  lemma OnwardMove(h0: Homes, h1: Homes, e: Event, to: Home)
    requires Onward(h0, h1) && to != Held && e in h1 && h1[e] != Held
    ensures Onward(h0, h1[e := to])
  {
  }

  lemma OnwardStep(h0: Homes, h1: Homes, h2: Homes)
    requires Onward(h0, h1) && Onward(h1, h2)
    ensures Onward(h0, h2)
  {
  }

  /** A node an operation held throughout another one is still held, and goes back at its end. */
  lemma OnwardBorrow(h0: Homes, h1: Homes, e: Event, to: Home)
    requires e in h0 && h0[e] != Held && to != Held && Onward(h0[e := Held], h1)
    ensures e in h1 && h1[e] == Held && Onward(h0, h1[e := to])
  {
  }

  /** Nodes have gone from one list to another, and no other way. */
  ghost predicate Rehomed(h0: Homes, h1: Homes, from: Home, to: Home) {
    && h1.Keys == h0.Keys
    && (forall e :: e in h0 ==> h1[e] == h0[e] || (h0[e] == from && h1[e] == to))
  }

  lemma RehomedSelf(h: Homes, from: Home, to: Home)
    ensures Rehomed(h, h, from, to)
  {
  }

  lemma RehomedMove(h0: Homes, h1: Homes, e: Event, from: Home, to: Home)
    requires Rehomed(h0, h1, from, to) && e in h1 && h1[e] == from
    ensures Rehomed(h0, h1[e := to], from, to) && h1[e := to].Keys == h0.Keys
  {
  }

  lemma RehomedOnward(h0: Homes, h1: Homes, from: Home, to: Home)
    requires Rehomed(h0, h1, from, to) && from != Held && to != Held
    ensures Onward(h0, h1) && h1.Keys == h0.Keys
  {
  }

  /** Every existing node is on exactly one of the four lists, once, or held. */
  ghost predicate Placed(v: View) {
    && Holds(v.homes, v.main, Main) && Holds(v.homes, v.ts, Threadsafe)
    && Holds(v.homes, v.pool, Pool) && Holds(v.homes, v.tsPool, TsPool)
  }

  /** What the name says: a node of one list is on no other, and on its own list only once. */
  lemma {:induction false} PlacedOnce(v: View, h: Home, g: Home, i: nat, j: nat)
    requires Placed(v)
    requires i < |v.Of(h)| && j < |v.Of(g)| && v.Of(h)[i] == v.Of(g)[j]
    ensures h == g && i == j
  {
    hide Holds;
    HoldsMember(v.homes, v.Of(h), h, i);
    HoldsMember(v.homes, v.Of(g), g, j);
    HoldsOnce(v.homes, v.Of(h), h, i, j);
  }

  lemma PlacedMember(v: View, h: Home, k: nat)
    requires Placed(v) && k < |v.Of(h)|
    ensures v.Of(h)[k] in v.homes && v.homes[v.Of(h)[k]] == h
  {
  }

  lemma PlacedDistinct(v: View, h: Home)
    requires Placed(v)
    ensures Distinct(v.Of(h))
  {
  }

  lemma PlacedWithin(v: View)
    requires Placed(v)
    ensures forall e :: e in v.main ==> e in v.homes
    ensures forall e :: e in v.ts ==> e in v.homes
  {
  }

  lemma PlacedAdopt(v: View, e: Event)
    requires Placed(v) && (e in v.homes ==> v.homes[e] == Held)
    ensures v.OnNone(e) && Placed(v.Adopt(e))
  {
    hide Holds;
    HoldsFrame(v.homes, v.main, Main, e, Held);
    HoldsFrame(v.homes, v.ts, Threadsafe, e, Held);
    HoldsFrame(v.homes, v.pool, Pool, e, Held);
    HoldsFrame(v.homes, v.tsPool, TsPool, e, Held);
  }

  lemma OthersFrame(v: View, h: Home, e: Event, to: Home)
    requires Placed(v) && e in v.homes && h != Held
    requires (v.homes[e] == h && to == Held) || (v.homes[e] == Held && to == h)
    ensures v.With(h, []).OnNone(e)
    ensures forall g :: g != h && g != Held ==> Holds(v.homes[e := to], v.Of(g), g)
  {
    hide Holds;
    if h != Main { HoldsFrame(v.homes, v.main, Main, e, to); }
    if h != Threadsafe { HoldsFrame(v.homes, v.ts, Threadsafe, e, to); }
    if h != Pool { HoldsFrame(v.homes, v.pool, Pool, e, to); }
    if h != TsPool { HoldsFrame(v.homes, v.tsPool, TsPool, e, to); }
  }

  lemma PlacedTake(v: View, h: Home, k: nat)
    requires Placed(v) && k < |v.Of(h)|
    ensures Placed(v.Take(h, k)) && v.Take(h, k).OnNone(v.Of(h)[k])
    ensures v.Of(h)[k] in v.homes && v.homes[v.Of(h)[k]] == h
  {
    hide Holds;
    PlacedMember(v, h, k);
    HoldsCut(v.homes, v.Of(h), h, k, Held);
    OthersFrame(v, h, v.Of(h)[k], Held);
    var w := v.Take(h, k);
    assert forall g :: g != Held ==> w.Of(g) == if g == h then Cut(v.Of(h), k) else v.Of(g);
    assert Holds(w.homes, w.Of(Main), Main) && Holds(w.homes, w.Of(Threadsafe), Threadsafe);
    assert Holds(w.homes, w.Of(Pool), Pool) && Holds(w.homes, w.Of(TsPool), TsPool);
  }

  lemma PlacedPut(v: View, h: Home, k: nat, e: Event)
    requires Placed(v) && k <= |v.Of(h)| && h != Held && v.IsHeld(e)
    ensures v.OnNone(e) && Placed(v.Put(h, k, e))
  {
    hide Holds;
    HoldsSplice(v.homes, v.Of(h), h, k, e);
    OthersFrame(v, h, e, h);
    var w := v.Put(h, k, e);
    assert forall g :: g != Held ==> w.Of(g) == if g == h then Spliced(v.Of(h), k, e) else v.Of(g);
    assert Holds(w.homes, w.Of(Main), Main) && Holds(w.homes, w.Of(Threadsafe), Threadsafe);
    assert Holds(w.homes, w.Of(Pool), Pool) && Holds(w.homes, w.Of(TsPool), TsPool);
  }

  /** A node of one list is on none of the other three. */
  lemma PlacedElsewhere(v: View, h: Home, k: nat)
    requires Placed(v) && k < |v.Of(h)|
    ensures v.With(h, []).OnNone(v.Of(h)[k])
    ensures v.Of(h)[k] in v.homes && v.homes[v.Of(h)[k]] == h
  {
    hide Holds;
    PlacedMember(v, h, k);
    OthersFrame(v, h, v.Of(h)[k], Held);
  }

  /** All that hanging e in at position k needs to know: which nodes it writes, and that no other
      list has one of them. */
  lemma PlacedHang(v: View, h: Home, k: nat, e: Event)
    requires Placed(v) && k <= |v.Of(h)| && h != Held && v.IsHeld(e)
    ensures v.OnNone(e) && Placed(v.Put(h, k, e)) && Distinct(v.Of(h))
    ensures k > 0 ==> v.Of(h)[k - 1] in v.homes && v.With(h, []).OnNone(v.Of(h)[k - 1])
  {
    hide Holds, Distinct;
    PlacedPut(v, h, k, e);
    PlacedDistinct(v, h);
    if k > 0 { PlacedElsewhere(v, h, k - 1); }
  }

  /** The same for bypassing the node at position k. */
  lemma PlacedUnhang(v: View, h: Home, k: nat)
    requires Placed(v) && 0 < k < |v.Of(h)|
    ensures Placed(v.Take(h, k)) && v.Take(h, k).OnNone(v.Of(h)[k]) && Distinct(v.Of(h))
    ensures v.Of(h)[k] in v.homes && v.homes[v.Of(h)[k]] == h
    ensures v.Of(h)[k - 1] in v.homes && v.With(h, []).OnNone(v.Of(h)[k - 1])
    ensures |Cut(v.Of(h), k)| == |v.Of(h)| - 1 && Cut(v.Of(h), k)[k - 1] == v.Of(h)[k - 1]
    ensures Last(Cut(v.Of(h), k)) == if v.Of(h)[k] == Last(v.Of(h)) then v.Of(h)[k - 1] else Last(v.Of(h))
  {
    hide Holds, Distinct;
    PlacedTake(v, h, k);
    PlacedDistinct(v, h);
    PlacedElsewhere(v, h, k - 1);
    DistinctLast(v.Of(h), k);
  }

  /** What is no longer in the queue is in its pool. */
  lemma RehomedMain(v: View, w: View)
    requires Placed(v) && Placed(w) && Rehomed(v.homes, w.homes, Main, Pool)
    ensures forall e :: e in v.main && e !in w.main ==> e in w.pool
  {
  }

  lemma RehomedTs(v: View, w: View)
    requires Placed(v) && Placed(w) && Rehomed(v.homes, w.homes, Threadsafe, TsPool)
    ensures forall e :: e in v.ts && e !in w.ts ==> e in w.tsPool
  {
  }

  lemma MovedTs(v: View, w: View)
    requires Placed(v) && Placed(w) && Rehomed(v.homes, w.homes, Threadsafe, Main) && w.ts == []
    ensures forall e :: e in v.ts ==> e in w.main
  {
  }

  /** The first n nodes of the pool have gone to the thread-safe pool, one on top of the other. */
  ghost predicate Refilled(v: View, w: View, n: int) {
    && 0 <= n <= |v.pool| && w.pool == v.pool[n..]
    && |w.tsPool| == n + |v.tsPool| && w.tsPool[n..] == v.tsPool
    && forall i :: 0 <= i < n ==> w.tsPool[i] == v.pool[n - 1 - i]
  }

  lemma RefilledStart(v: View)
    ensures Refilled(v, v, 0)
  {
  }

  lemma RefilledNext(v: View, w: View, w': View, n: int)
    requires Refilled(v, w, n) && w.pool != [] && w'.pool == w.pool[1..] && w'.tsPool == [w.pool[0]] + w.tsPool
    ensures Refilled(v, w', n + 1)
  {
    forall i | 0 <= i < n + 1 ensures w'.tsPool[i] == v.pool[n - i] {
      if i > 0 { assert w'.tsPool[i] == w.tsPool[i - 1]; }
    }
    assert w'.tsPool[n + 1..] == w.tsPool[n..];
  }

  // ---------------------------------------------------------------- deletion

  ghost predicate NoneHeld(h: Homes) {
    forall e :: e in h ==> h[e] != Held
  }

  lemma NoneHeldOnward(h0: Homes, h1: Homes)
    requires NoneHeld(h0) && Onward(h0, h1)
    ensures NoneHeld(h1)
  {
  }

  /** Of the nodes all, exactly those that no longer exist have been deleted, each of them once. */
  ghost predicate Gone(deleted: seq<Event>, all: set<Event>, h: Homes) {
    && Distinct(deleted)
    && (forall e :: e in deleted ==> e in all && e !in h)
    && (forall e :: e in all && e !in h ==> e in deleted)
    && h.Keys <= all
  }

  lemma GoneStart(h: Homes)
    ensures Gone([], h.Keys, h)
  {
  }

  /** Deleting the first node of a list: it existed until now, and nothing else changes. */
  lemma DeleteStep(v: View, h: Home, all: set<Event>, deleted: seq<Event>) returns (more: seq<Event>)
    requires Placed(v) && v.Of(h) != [] && Gone(deleted, all, v.homes)
    ensures v.Of(h)[0] in v.homes && more == deleted + [v.Of(h)[0]]
    ensures var w := v.Take(h, 0).Forget(v.Of(h)[0]);
      && Placed(w) && Gone(more, all, w.homes) && w.homes.Keys < v.homes.Keys
      && (NoneHeld(v.homes) ==> NoneHeld(w.homes))
  {
    hide Holds;
    var e := v.Of(h)[0];
    PlacedTake(v, h, 0);
    PlacedForget(v.Take(h, 0), e);
    more := deleted + [e];
    GoneMore(deleted, all, v.homes, e);
    assert v.homes[e := Held] - {e} == v.homes - {e};
  }

  lemma GoneMore(deleted: seq<Event>, all: set<Event>, h: Homes, e: Event)
    requires Gone(deleted, all, h) && e in h
    ensures Gone(deleted + [e], all, h - {e})
  {
    var more := deleted + [e];
    forall x | x in all && x !in h - {e} ensures x in more {
      assert more[|deleted|] == e;
      assert x in deleted || x == e;
    }
  }

  lemma PlacedForget(v: View, e: Event)
    requires Placed(v) && v.IsHeld(e)
    ensures Placed(v.Forget(e))
  {
    hide Holds;
    HoldsDelete(v.homes, v.main, Main, e);
    HoldsDelete(v.homes, v.ts, Threadsafe, e);
    HoldsDelete(v.homes, v.pool, Pool, e);
    HoldsDelete(v.homes, v.tsPool, TsPool, e);
  }

  lemma AllGone(v: View, all: set<Event>, deleted: seq<Event>)
    requires Placed(v) && NoneHeld(v.homes) && Gone(deleted, all, v.homes)
    requires v.main == [] && v.ts == [] && v.pool == [] && v.tsPool == []
    ensures v.homes == map[]
    ensures Distinct(deleted) && forall e :: e in deleted <==> e in all
  {
    assert forall e :: e in v.homes ==> false;
  }

  // ---------------------------------------------------------------- pointers

  lemma ChainHead(head: Event?, s: seq<Event>)
    requires Chain(head, s)
    ensures head == At(s, 0)
  {
  }

  lemma ChainPop(head: Event, s: seq<Event>)
    requires Chain(head, s)
    ensures s != [] && s[0] == head && Cut(s, 0) == s[1..]
    ensures Chain(head.next, s[1..])
  {
  }

  lemma ChainPush(e: Event, s: seq<Event>)
    requires Chain(e.next, s)
    ensures Spliced(s, 0, e) == [e] + s
    ensures Chain(e, [e] + s)
  {
  }

  lemma ChainSpliced(head: Event?, s: seq<Event>, k: nat, e: Event)
    requires k <= |s| && e.next == At(s, k)
    requires if k == 0 then head == e else head == s[0] && s[k - 1].next == e
    requires forall i {:trigger s[i].next} :: 0 <= i < |s| && i != k - 1 ==> s[i].next == At(s, i + 1)
    ensures Chain(head, Spliced(s, k, e))
  {
    var r := Spliced(s, k, e);
    forall i | 0 <= i < |r| ensures r[i].next == At(r, i + 1) {
      if i < k {
        assert r[i] == s[i];
        if i < k - 1 { assert s[i].next == At(s, i + 1); }
      } else if i > k {
        assert r[i] == s[i - 1];
        assert s[i - 1].next == At(s, i);
      }
    }
  }

  lemma ChainBypassed(head: Event?, s: seq<Event>, k: nat)
    requires 0 < k < |s| && head == s[0]
    requires s[k - 1].next == At(s, k + 1)
    requires forall i {:trigger s[i].next} :: 0 <= i < |s| && i != k - 1 ==> s[i].next == At(s, i + 1)
    ensures Chain(head, Cut(s, k))
  {
    var r := Cut(s, k);
    forall i | 0 <= i < |r| ensures r[i].next == At(r, i + 1) {
      if i < k {
        assert r[i] == s[i];
        if i < k - 1 { assert s[i].next == At(s, i + 1); }
      } else {
        assert r[i] == s[i + 1];
        assert s[i + 1].next == At(s, i + 2);
      }
    }
  }

  // ---------------------------------------------------------------- queues: pointers and payloads

  ghost predicate Queue(head: Event?, s: seq<Event>, v: seq<Ev>)
    reads s
  {
    Chain(head, s) && Shows(s, v)
  }

  lemma QueueHead(head: Event?, s: seq<Event>, v: seq<Ev>)
    requires Queue(head, s, v)
    ensures head == At(s, 0) && |s| == |v|
  {
  }

  lemma QueueNode(head: Event?, s: seq<Event>, v: seq<Ev>, k: nat)
    requires Queue(head, s, v) && k < |s|
    ensures |s| == |v| && s[k].next == At(s, k + 1) && s[k].Payload() == v[k]
  {
  }

  lemma QueuePop(head: Event, s: seq<Event>, v: seq<Ev>)
    requires Queue(head, s, v)
    ensures s != [] && v != [] && s[0] == head && head.Payload() == v[0] && Cut(s, 0) == s[1..]
    ensures Queue(head.next, s[1..], v[1..])
  {
  }

  lemma ShowsSplice(s: seq<Event>, v: seq<Ev>, k: nat, e: Event)
    requires Shows(s, v) && k <= |s|
    ensures |s| == |v| && Shows(Spliced(s, k, e), v[..k] + [e.Payload()] + v[k..])
  {
  }

  lemma ShowsCut(s: seq<Event>, v: seq<Ev>, k: nat)
    requires Shows(s, v) && k < |s|
    ensures |s| == |v| && Shows(Cut(s, k), v[..k] + v[k + 1..])
  {
  }

  /** Hangs e in between prev and next; prev is null at the head, where the caller's head changes. */
  method HangIn(head: Event?, ghost s: seq<Event>, ghost v: seq<Ev>, ghost k: nat, prev: Event?, next: Event?, e: Event)
    returns (head': Event?)
    requires Queue(head, s, v) && |s| == |v| && Distinct(s) && k <= |s| && e !in s
    requires next == At(s, k) && prev == (if k == 0 then null else s[k - 1])
    modifies e`next, (if prev == null then {} else {prev})`next
    ensures Queue(head', Spliced(s, k, e), v[..k] + [e.Payload()] + v[k..])
  {
    hide Shows;
    ShowsSplice(s, v, k, e);
    e.next := next;
    if prev == null {
      head' := e;
    } else {
      prev.next := e;
      head' := head;
    }
    ChainSpliced(head', s, k, e);
  }

  /** prev.next = ptr.next, for a node ptr that is not the first. */
  method Bypass(head: Event?, ghost s: seq<Event>, ghost v: seq<Ev>, ghost k: nat, prev: Event, ptr: Event)
    requires Queue(head, s, v) && |s| == |v| && Distinct(s) && 0 < k < |s|
    requires ptr == s[k] && prev == s[k - 1]
    modifies prev`next
    ensures Queue(head, Cut(s, k), v[..k] + v[k + 1..])
  {
    hide Shows;
    ShowsCut(s, v, k);
    prev.next := ptr.next;
    ChainBypassed(head, s, k);
  }

  /** The two pools. */
  ghost predicate Pools(p: Event?, s: seq<Event>, q: Event?, t: seq<Event>)
    reads s`next, t`next
  {
    Chain(p, s) && Chain(q, t)
  }

  lemma PoolHeads(p: Event?, s: seq<Event>, q: Event?, t: seq<Event>)
    requires Pools(p, s, q, t)
    ensures p == At(s, 0) && q == At(t, 0)
  {
  }

  // ---------------------------------------------------------------- loading over a list

  lemma ShowsSet(s: seq<Event>, v: seq<Ev>, k: nat, e: Ev)
    requires k < |s| == |v| && s[k].Payload() == e
    requires forall i :: 0 <= i < |s| && i != k ==> s[i].Payload() == v[i]
    ensures Shows(s, v[k := e])
  {
  }

  /** Writes a new payload into the node at position k. */
  method Overwrite(ghost head: Event?, ghost s: seq<Event>, ghost v: seq<Ev>, ghost k: nat, node: Event, e: Ev)
    requires Queue(head, s, v) && |s| == |v| && Distinct(s) && k < |s| && node == s[k]
    modifies node`time, node`userdata, node`kind
    ensures Queue(head, s, v[k := e])
  {
    hide Chain;
    node.Fill(e.time, e.kind, e.userdata);
    ShowsSet(s, v, k, e);
  }

  /** The nodes from position k on leave the list together. */
  function Truncated(v: View, h: Home, k: nat): View
    requires k <= |v.Of(h)|
  {
    var tail := v.Of(h)[k..];
    v.With(h, v.Of(h)[..k]).(homes := map e | e in v.homes :: if e in tail then Held else v.homes[e])
  }

  lemma HoldsTruncated(homes: Homes, homes': Homes, s: seq<Event>, home: Home, k: nat)
    requires Holds(homes, s, home) && k <= |s| && home != Held
    requires homes'.Keys == homes.Keys && forall e :: e in homes ==> homes'[e] == if e in s[k..] then Held else homes[e]
    ensures Holds(homes', s[..k], home) && forall e :: e in s[k..] ==> e in homes && homes[e] == home && e !in s[..k]
  {
    assert s == s[..k] + s[k..];
    forall e | e in s[k..] ensures e in homes && homes[e] == home && e !in s[..k] {
      var i :| 0 <= i < |s| - k && s[k..][i] == e;
      assert s[k + i] == e;
    }
  }

  lemma HoldsOtherTruncated(homes: Homes, homes': Homes, s: seq<Event>, home: Home, tail: seq<Event>)
    requires Holds(homes, s, home) && home != Held
    requires homes'.Keys == homes.Keys && forall e :: e in homes ==> homes'[e] == if e in tail then Held else homes[e]
    requires forall e :: e in tail ==> e in homes && homes[e] != home
    ensures Holds(homes', s, home)
  {
  }

  lemma PlacedTruncated(v: View, h: Home, k: nat)
    requires Placed(v) && h != Held && k <= |v.Of(h)|
    ensures Placed(Truncated(v, h, k)) && Distinct(v.Of(h)[k..])
    ensures forall e :: e in v.Of(h)[k..] ==> e in v.homes && v.homes[e] == h && Truncated(v, h, k).OnNone(e)
  {
    var w := Truncated(v, h, k);
    var tail := v.Of(h)[k..];
    HoldsTruncated(v.homes, w.homes, v.Of(h), h, k);
    hide Holds;
    if h != Main { HoldsOtherTruncated(v.homes, w.homes, v.main, Main, tail); }
    if h != Threadsafe { HoldsOtherTruncated(v.homes, w.homes, v.ts, Threadsafe, tail); }
    if h != Pool { HoldsOtherTruncated(v.homes, w.homes, v.pool, Pool, tail); }
    if h != TsPool { HoldsOtherTruncated(v.homes, w.homes, v.tsPool, TsPool, tail); }
    assert Placed(w);
    forall e | e in tail ensures w.OnNone(e) {
      PlacedAdopt(w, e);
    }
    PlacedDistinct(v, h);
  }
}

/** Where every event node is, write by write. The CPU thread works on the main queue and its pool
    without the lock; another thread, or the CPU thread itself in MoveEvents, works on the thread-safe
    queue and its pool with it. Every pointer write is a step of its own, and the steps of the two sides
    come in any order. Which events the walks stop at, and which the removals take, is left open. */
module PlacementSteps {
  import opened NodeLists
  import opened Seqs

  /** The four head pointers. */
  datatype Heads = Heads(main: Event?, ts: Event?, pool: Event?, tsPool: Event?) {
    function Of(h: Home): Event? {
      match h
      case Main => main
      case Threadsafe => ts
      case Pool => pool
      case TsPool => tsPool
      case Held => null
    }

    function With(h: Home, e: Event?): Heads {
      match h
      case Main => this.(main := e)
      case Threadsafe => this.(ts := e)
      case Pool => this.(pool := e)
      case TsPool => this.(tsPool := e)
      case Held => this
    }
  }

  /** Where a node that is hung into the main queue comes from: a pool, or the front of the thread-safe
      queue, with the node after it saved. */
  datatype From = Fresh | Queue(next: Event?)

  /** Where a thread is, with its local variables. */
  datatype Pc =
    | Rest
    | Seeking(node: Event, prev: Event?, from: From)  // in AddEventToQueue, prev being the last node passed
    | Hanging(node: Event, prev: Event?, from: From)  // node->next is written, the pointer to node is not
    | Hung(node: Event)                               // the same on the thread-safe side, before tsLast = node
    | Heading                                         // in the first loop of a removal
    | HeadOff(node: Event, next: Event?)              // FreeEvent(first) called, first->next saved
    | HeadLinked(node: Event, next: Event?)           // ev->next = eventPool
    | HeadFreed(next: Event?)                         // eventPool = ev, before first = next
    | Sweeping(prev: Event?)                          // in the second loop
    | Unhung(node: Event, prev: Event?)               // prev->next = ptr->next, before tsLast is looked at
    | Freeing(node: Event, prev: Event?)              // FreeEvent called on a node that no pointer leads to
    | FreeLinked(node: Event, prev: Event?)
    | Moving                                          // in the first loop of MoveEvents, as is a node from the queue
    | Moved(next: Event?)                             // before tsFirst = next
    | Paying                                          // in the second loop of MoveEvents
    | Paid(node: Event)                               // eventPool = ev->next
    | PaidLinked(node: Event)                         // ev->next = eventTsPool

  datatype Owner = Nobody | Cpu | Another

  datatype State = State(
    next: map<Event, Event?>, heads: Heads, tsLast: Event?,
    cpu: Pc, other: Pc, owner: Owner,
    firing: seq<Event>,  // the nodes whose callbacks run
    view: View)

  datatype Step =
    | Acquire
    | Release
    | Take(h: Home)
    | TakeNew(h: Home, e: Event)
    | Seek
    | WriteNext(h: Home)
    | Hang(h: Home)
    | SetLast
    | Begin(h: Home)
    | TakeHead(h: Home)
    | LinkFree(h: Home)
    | PushFree(h: Home)
    | SetHead(h: Home)
    | EndHeads(h: Home)
    | StartSweep(h: Home)
    | SweepOn(h: Home)
    | Unhang(h: Home)
    | FixLast
    | EndSweep(h: Home)
    | Pop
    | EndCallback
    | StartMove
    | Carry
    | SetTsFirst
    | ClearLast
    | Pay
    | LinkPaid
    | PushPaid
    | EndMove

  function PcOf(s: State, h: Home): Pc { if h == Main then s.cpu else s.other }

  function Go(s: State, h: Home, pc: Pc): State { if h == Main then s.(cpu := pc) else s.(other := pc) }

  /** e->next. */
  function After(s: State, e: Event?): Event? {
    if e != null && e in s.next then s.next[e] else null
  }

  /** *pNext behind prev. */
  function Behind(s: State, h: Home, prev: Event?): Event? {
    if prev == null then s.heads.Of(h) else After(s, prev)
  }

  /** The position of e in a list; 0 when it is not on it. */
  ghost function Place(q: seq<Event>, e: Event): (k: nat)
    ensures e in q ==> k < |q| && q[k] == e
  {
    if e in q then var k :| 0 <= k < |q| && q[k] == e; k else 0
  }

  /** The view with e off list h, and with e on it behind prev. */
  ghost function Off(v: View, h: Home, e: Event): View {
    if e in v.Of(h) then v.Take(h, Place(v.Of(h), e)) else v
  }

  ghost function Onto(v: View, h: Home, prev: Event?, e: Event): View {
    if prev != null && prev in v.Of(h) then v.Put(h, Place(v.Of(h), prev) + 1, e) else v.Put(h, 0, e)
  }

  /** May this side run at all. */
  predicate Runs(s: State, h: Home) {
    Side(h) && (h == Threadsafe ==> s.owner == Another)
  }

  predicate Enabled(s: State, step: Step) {
    match step
    case Acquire => s.owner == Nobody
    case Release => s.owner == Another && s.other == Rest
    case Take(h) => Runs(s, h) && PcOf(s, h) == Rest && s.heads.Of(PoolOf(h)) != null
    case TakeNew(h, e) => Runs(s, h) && PcOf(s, h) == Rest && s.heads.Of(PoolOf(h)) == null && e !in s.next
    case Seek => s.cpu.Seeking? && Behind(s, Main, s.cpu.prev) != null
    case WriteNext(h) => Runs(s, h) && PcOf(s, h).Seeking?
    case Hang(h) => Runs(s, h) && PcOf(s, h).Hanging?
    case SetLast => s.owner == Another && s.other.Hung?
    case Begin(h) => Runs(s, h) && PcOf(s, h) == Rest
    case TakeHead(h) => Runs(s, h) && PcOf(s, h) == Heading && s.heads.Of(h) != null
    case LinkFree(h) => Runs(s, h) && (PcOf(s, h).HeadOff? || PcOf(s, h).Freeing?)
    case PushFree(h) => Runs(s, h) && (PcOf(s, h).HeadLinked? || PcOf(s, h).FreeLinked?)
    case SetHead(h) => Runs(s, h) && PcOf(s, h).HeadFreed?
    case EndHeads(h) => Runs(s, h) && PcOf(s, h) == Heading && s.heads.Of(h) == null
    case StartSweep(h) => Runs(s, h) && PcOf(s, h) == Heading && s.heads.Of(h) != null
    case SweepOn(h) => Runs(s, h) && PcOf(s, h).Sweeping? && After(s, PcOf(s, h).prev) != null
    case Unhang(h) => Runs(s, h) && PcOf(s, h).Sweeping? && After(s, PcOf(s, h).prev) != null
    case FixLast => s.owner == Another && s.other.Unhung?
    case EndSweep(h) => Runs(s, h) && PcOf(s, h).Sweeping? && After(s, PcOf(s, h).prev) == null
    case Pop => s.cpu == Rest && s.heads.main != null
    case EndCallback => s.cpu == Rest && s.firing != []
    case StartMove => s.cpu == Rest && s.owner == Nobody
    case Carry => s.cpu == Moving && s.heads.ts != null
    case SetTsFirst => s.cpu.Moved?
    case ClearLast => s.cpu == Moving && s.heads.ts == null
    case Pay => s.cpu == Paying && s.heads.pool != null
    case LinkPaid => s.cpu.Paid?
    case PushPaid => s.cpu.PaidLinked?
    case EndMove => s.cpu == Paying
  }

  /** *pNext = ne. */
  ghost function HangMain(s: State): State
    requires s.cpu.Hanging?
  {
    var pc := s.cpu;
    var s' := s.(view := Onto(s.view, Main, pc.prev, pc.node),
                 cpu := if pc.from.Queue? then Moved(pc.from.next) else Rest);
    if pc.prev == null then s'.(heads := s.heads.With(Main, pc.node)) else s'.(next := s.next[pc.prev := pc.node])
  }

  /** if (!tsFirst) tsFirst = ne; if (tsLast) tsLast->next = ne; of which one writes, and the other does not. */
  ghost function HangTs(s: State): State
    requires s.other.Hanging?
  {
    var node := s.other.node;
    s.(heads := if s.heads.ts == null then s.heads.With(Threadsafe, node) else s.heads,
       next := if s.tsLast != null then s.next[s.tsLast := node] else s.next,
       view := Onto(s.view, Threadsafe, s.tsLast, node), other := Hung(node))
  }

  ghost function Next(s: State, step: Step): State
    requires Enabled(s, step)
  {
    match step
    case Acquire => s.(owner := Another)
    case Release => s.(owner := Nobody)
    case Take(h) =>
      var ev: Event := s.heads.Of(PoolOf(h));
      Go(s.(heads := s.heads.With(PoolOf(h), After(s, ev)), view := Off(s.view, PoolOf(h), ev)), h,
         Seeking(ev, null, Fresh))
    case TakeNew(h, e) => Go(s.(next := s.next[e := null], view := s.view.Adopt(e)), h, Seeking(e, null, Fresh))
    case Seek => s.(cpu := Seeking(s.cpu.node, Behind(s, Main, s.cpu.prev), s.cpu.from))
    case WriteNext(h) =>
      var pc := PcOf(s, h);
      Go(s.(next := s.next[pc.node := if h == Main then Behind(s, Main, pc.prev) else null]), h,
         Hanging(pc.node, pc.prev, pc.from))
    case Hang(h) => if h == Main then HangMain(s) else HangTs(s)
    case SetLast => s.(tsLast := s.other.node, other := Rest)
    case Begin(h) => Go(s, h, Heading)
    case TakeHead(h) =>
      var e: Event := s.heads.Of(h);
      Go(s.(view := Off(s.view, h, e)), h, HeadOff(e, After(s, e)))
    case LinkFree(h) =>
      var pc := PcOf(s, h);
      Go(s.(next := s.next[pc.node := s.heads.Of(PoolOf(h))]), h,
         if pc.HeadOff? then HeadLinked(pc.node, pc.next) else FreeLinked(pc.node, pc.prev))
    case PushFree(h) =>
      var pc := PcOf(s, h);
      Go(s.(heads := s.heads.With(PoolOf(h), pc.node), view := Onto(s.view, PoolOf(h), null, pc.node)), h,
         if pc.HeadLinked? then HeadFreed(pc.next) else if pc.prev == null then Rest else Sweeping(pc.prev))
    case SetHead(h) => Go(s.(heads := s.heads.With(h, PcOf(s, h).next)), h, Heading)
    case EndHeads(h) => Go(s.(tsLast := if h == Main then s.tsLast else null), h, Rest)
    case StartSweep(h) => Go(s, h, Sweeping(s.heads.Of(h)))
    case SweepOn(h) => Go(s, h, Sweeping(After(s, PcOf(s, h).prev)))
    case Unhang(h) =>
      var prev := PcOf(s, h).prev;
      var ptr: Event := After(s, prev);
      Go(s.(next := s.next[prev := After(s, ptr)], view := Off(s.view, h, ptr)), h,
         if h == Main then Freeing(ptr, prev) else Unhung(ptr, prev))
    case FixLast =>
      var pc := s.other;
      s.(tsLast := if pc.node == s.tsLast then pc.prev else s.tsLast, other := Freeing(pc.node, pc.prev))
    case EndSweep(h) => Go(s, h, Rest)
    case Pop =>
      var evt: Event := s.heads.main;
      s.(heads := s.heads.With(Main, After(s, evt)), view := Off(s.view, Main, evt), firing := s.firing + [evt])
    case EndCallback =>
      var n := |s.firing| - 1;
      s.(firing := s.firing[..n], cpu := Freeing(s.firing[n], null))
    case StartMove => s.(owner := Cpu, cpu := Moving)
    case Carry =>
      var e: Event := s.heads.ts;
      s.(view := Off(s.view, Threadsafe, e), cpu := Seeking(e, null, Queue(After(s, e))))
    case SetTsFirst => s.(heads := s.heads.With(Threadsafe, s.cpu.next), cpu := Moving)
    case ClearLast => s.(tsLast := null, cpu := Paying)
    case Pay =>
      var ev: Event := s.heads.pool;
      s.(heads := s.heads.With(Pool, After(s, ev)), view := Off(s.view, Pool, ev), cpu := Paid(ev))
    case LinkPaid => s.(next := s.next[s.cpu.node := s.heads.tsPool], cpu := PaidLinked(s.cpu.node))
    case PushPaid =>
      s.(heads := s.heads.With(TsPool, s.cpu.node), view := Onto(s.view, TsPool, null, s.cpu.node), cpu := Paying)
    case EndMove => s.(owner := Nobody, cpu := Rest)
  }

  predicate Init(s: State) {
    && s.next == map[] && s.heads == Heads(null, null, null, null) && s.tsLast == null
    && s.cpu == Rest && s.other == Rest && s.owner == Nobody && s.firing == []
    && s.view == View(map[], [], [], [], [])
  }

  // ---------------------------------------------------------------- what holds at every moment

  ghost predicate Follows(next: map<Event, Event?>, head: Event?, q: seq<Event>) {
    && head == At(q, 0)
    && forall i :: 0 <= i < |q| ==> q[i] in next && next[q[i]] == At(q, i + 1)
  }

  /** The node a thread has in its hands. */
  function NodeOf(pc: Pc): seq<Event> {
    match pc
    case Seeking(node, _, _) => [node]
    case Hanging(node, _, _) => [node]
    case HeadOff(node, _) => [node]
    case HeadLinked(node, _) => [node]
    case Unhung(node, _) => [node]
    case Freeing(node, _) => [node]
    case FreeLinked(node, _) => [node]
    case Paid(node) => [node]
    case PaidLinked(node) => [node]
    case _ => []
  }

  function Hands(s: State): seq<Event> {
    NodeOf(s.cpu) + NodeOf(s.other) + s.firing
  }

  // ---------------------------------------------------------------- four lists

  /** The pointers, with the head pointers a thread keeps in a local variable put in. */
  datatype Heap = Heap(next: map<Event, Event?>, heads: Heads, view: View)

  ghost predicate Sound(p: Heap) {
    && Placed(p.view) && p.next.Keys == p.view.homes.Keys
    && Follows(p.next, p.heads.main, p.view.main) && Follows(p.next, p.heads.ts, p.view.ts)
    && Follows(p.next, p.heads.pool, p.view.pool) && Follows(p.next, p.heads.tsPool, p.view.tsPool)
  }

  lemma SoundList(p: Heap, h: Home)
    requires Sound(p) && h != Held
    ensures Follows(p.next, p.heads.Of(h), p.view.Of(h)) && Holds(p.view.homes, p.view.Of(h), h)
  {
  }

  /** Only e's pointer differs. */
  ghost predicate Apart(next: map<Event, Event?>, next': map<Event, Event?>, e: Event?) {
    forall f :: f in next && f != e ==> f in next' && next'[f] == next[f]
  }

  /** A pointer of a node that is not on the list does not matter to it. */
  lemma FollowsFrame(next: map<Event, Event?>, next': map<Event, Event?>, head: Event?, q: seq<Event>, e: Event?)
    requires Follows(next, head, q) && Apart(next, next', e) && (e == null || e !in q)
    ensures Follows(next', head, q)
  {
  }

  /** What p' may differ in from p: one list, and one pointer, of a node that is on no other. */
  lemma OthersFollow(p: Heap, p': Heap, h: Home, e: Event?)
    requires Sound(p) && h != Held && Placed(p'.view) && p'.next.Keys == p'.view.homes.Keys && Apart(p.next, p'.next, e)
    requires forall g :: g != h && g != Held ==>
               p'.view.Of(g) == p.view.Of(g) && p'.heads.Of(g) == p.heads.Of(g) && (e == null || e !in p.view.Of(g))
    requires Follows(p'.next, p'.heads.Of(h), p'.view.Of(h))
    ensures Sound(p')
  {
    hide Placed, Follows, Apart;
    forall g | g != h && g != Held ensures Follows(p'.next, p'.heads.Of(g), p'.view.Of(g)) {
      SoundList(p, g);
      FollowsFrame(p.next, p'.next, p.heads.Of(g), p.view.Of(g), e);
    }
    assert Follows(p'.next, p'.heads.Of(Main), p'.view.Of(Main))
      && Follows(p'.next, p'.heads.Of(Threadsafe), p'.view.Of(Threadsafe));
    assert Follows(p'.next, p'.heads.Of(Pool), p'.view.Of(Pool))
      && Follows(p'.next, p'.heads.Of(TsPool), p'.view.Of(TsPool));
  }

  lemma NotOn(p: Heap, e: Event, h: Home)
    requires Sound(p) && (e in p.view.homes ==> p.view.homes[e] == h)
    ensures forall g :: g != h && g != Held ==> e !in p.view.Of(g)
  {
    forall g | g != h && g != Held ensures e !in p.view.Of(g) { SoundList(p, g); }
  }

  /** The writes of the operations, each with what it does to the lists. */

  lemma SoundWrite(p: Heap, e: Event, x: Event?)
    requires Sound(p) && p.view.IsHeld(e)
    ensures Sound(p.(next := p.next[e := x]))
  {
    NotOn(p, e, Held);
    var p' := p.(next := p.next[e := x]);
    assert p'.next.Keys == p.next.Keys;
    SoundList(p, Main);
    FollowsFrame(p.next, p'.next, p.heads.main, p.view.Of(Main), e);
    OthersFollow(p, p', Main, e);
  }

  lemma SoundAdopt(p: Heap, e: Event)
    requires Sound(p) && e !in p.next
    ensures Sound(p.(next := p.next[e := null], view := p.view.Adopt(e)))
  {
    NotOn(p, e, Held);
    var p' := p.(next := p.next[e := null], view := p.view.Adopt(e));
    PlacedAdopt(p.view, e);
    assert p'.next.Keys == p'.view.homes.Keys;
    SoundList(p, Main);
    FollowsFrame(p.next, p'.next, p.heads.main, p.view.Of(Main), e);
    OthersFollow(p, p', Main, e);
  }

  lemma TakeLists(v: View, h: Home, k: nat)
    requires h != Held && k < |v.Of(h)|
    ensures v.Take(h, k).Of(h) == Cut(v.Of(h), k) && v.Take(h, k).homes == v.homes[v.Of(h)[k] := Held]
    ensures forall g :: g != h && g != Held ==> v.Take(h, k).Of(g) == v.Of(g)
  {
  }

  lemma PutLists(v: View, h: Home, k: nat, e: Event)
    requires h != Held && k <= |v.Of(h)|
    ensures v.Put(h, k, e).Of(h) == Spliced(v.Of(h), k, e) && v.Put(h, k, e).homes == v.homes[e := h]
    ensures forall g :: g != h && g != Held ==> v.Put(h, k, e).Of(g) == v.Of(g)
  {
  }

  lemma WithHeads(heads: Heads, h: Home, e: Event?)
    requires h != Held
    ensures heads.With(h, e).Of(h) == e && forall g :: g != h && g != Held ==> heads.With(h, e).Of(g) == heads.Of(g)
  {
  }

  lemma ApartSelf(next: map<Event, Event?>, e: Event?, x: Event?)
    ensures Apart(next, next, e) && (e != null ==> Apart(next, next[e := x], e))
  {
  }

  lemma FollowsPop(next: map<Event, Event?>, head: Event, q: seq<Event>)
    requires Follows(next, head, q)
    ensures q != [] && q[0] == head && head in next && Follows(next, next[head], Cut(q, 0))
  {
    assert Cut(q, 0) == q[1..];
  }

  lemma FollowsPush(next: map<Event, Event?>, head: Event?, q: seq<Event>, e: Event)
    requires Follows(next, head, q) && e in next && next[e] == head
    ensures Follows(next, e, Spliced(q, 0, e))
  {
    SplicedFirst(q, e);
  }

  lemma FollowsHang(next: map<Event, Event?>, head: Event?, q: seq<Event>, k: nat, e: Event)
    requires Follows(next, head, q) && Distinct(q) && 0 < k <= |q| && e !in q && e in next && next[e] == At(q, k)
    ensures Follows(next[q[k - 1] := e], head, Spliced(q, k, e))
  {
    var r := Spliced(q, k, e);
    forall i | 0 <= i < |r| ensures r[i] in next && next[q[k - 1] := e][r[i]] == At(r, i + 1) {
      assert r[i] == if i < k then q[i] else if i == k then e else q[i - 1];
    }
  }

  lemma FollowsUnhang(next: map<Event, Event?>, head: Event?, q: seq<Event>, k: nat)
    requires Follows(next, head, q) && Distinct(q) && 0 < k < |q|
    ensures q[k] in next && Follows(next[q[k - 1] := next[q[k]]], head, Cut(q, k))
  {
    var r := Cut(q, k);
    forall i | 0 <= i < |r| ensures r[i] in next && next[q[k - 1] := next[q[k]]][r[i]] == At(r, i + 1) {
      assert r[i] == q[if i < k then i else i + 1];
    }
  }

  lemma Keys(p: Heap, h: Home, k: nat)
    requires Sound(p) && h != Held && k < |p.view.Of(h)|
    ensures p.next.Keys == p.view.homes.Keys && p.view.Of(h)[k] in p.next && p.view.homes[p.view.Of(h)[k]] == h
  {
    PlacedMember(p.view, h, k);
  }

  lemma SoundPop(p: Heap, h: Home)
    requires Sound(p) && h != Held && p.heads.Of(h) != null
    ensures var q, e := p.view.Of(h), p.heads.Of(h);
      && q != [] && q[0] == e && e in p.next && p.view.homes[e] == h
      && Sound(p.(heads := p.heads.With(h, p.next[e]), view := p.view.Take(h, 0)))
  {
    hide Placed, Sound, Follows, View.Of, View.Take, Heads.Of, Heads.With, Apart, Cut, Holds;
    SoundList(p, h);
    var e: Event := p.heads.Of(h);
    FollowsPop(p.next, e, p.view.Of(h));
    Keys(p, h, 0);
    SoundPlaced(p);
    PlacedTake(p.view, h, 0);
    TakeLists(p.view, h, 0);
    WithHeads(p.heads, h, p.next[e]);
    ApartSelf(p.next, null, null);
    var p' := p.(heads := p.heads.With(h, p.next[e]), view := p.view.Take(h, 0));
    OthersFollow(p, p', h, null);
  }

  lemma SoundPlaced(p: Heap)
    requires Sound(p)
    ensures Placed(p.view) && p.next.Keys == p.view.homes.Keys
  {
  }

  lemma SoundPush(p: Heap, h: Home, e: Event)
    requires Sound(p) && h != Held && p.view.IsHeld(e) && e in p.next && p.next[e] == p.heads.Of(h)
    ensures Sound(p.(heads := p.heads.With(h, e), view := p.view.Put(h, 0, e)))
  {
    hide Placed, Sound, Follows, View.Of, View.Put, Heads.Of, Heads.With, Apart, Spliced, Holds;
    SoundList(p, h);
    FollowsPush(p.next, p.heads.Of(h), p.view.Of(h), e);
    SoundPlaced(p);
    PlacedPut(p.view, h, 0, e);
    PutLists(p.view, h, 0, e);
    WithHeads(p.heads, h, e);
    ApartSelf(p.next, null, null);
    var p' := p.(heads := p.heads.With(h, e), view := p.view.Put(h, 0, e));
    assert p'.view.homes.Keys == p.view.homes.Keys;
    OthersFollow(p, p', h, null);
  }

  lemma SoundHang(p: Heap, h: Home, k: nat, e: Event)
    requires Sound(p) && h != Held && 0 < k <= |p.view.Of(h)| && p.view.IsHeld(e)
    requires e in p.next && p.next[e] == At(p.view.Of(h), k)
    ensures Sound(p.(next := p.next[p.view.Of(h)[k - 1] := e], view := p.view.Put(h, k, e)))
  {
    hide Placed, Sound, Follows, View.Of, View.Put, Heads.Of, Apart, Spliced, Holds, Distinct, View.OnNone;
    SoundList(p, h);
    SoundPlaced(p);
    var q, prev := p.view.Of(h), p.view.Of(h)[k - 1];
    Keys(p, h, k - 1);
    PlacedPut(p.view, h, k, e);
    PlacedDistinct(p.view, h);
    HeldOff(p, h, e);
    FollowsHang(p.next, p.heads.Of(h), q, k, e);
    PutLists(p.view, h, k, e);
    ApartSelf(p.next, prev, e);
    NotOn(p, prev, h);
    var p' := p.(next := p.next[prev := e], view := p.view.Put(h, k, e));
    assert p'.next.Keys == p'.view.homes.Keys;
    OthersFollow(p, p', h, prev);
  }

  lemma HeldOff(p: Heap, h: Home, e: Event)
    requires Sound(p) && h != Held && p.view.IsHeld(e)
    ensures e !in p.view.Of(h)
  {
    SoundList(p, h);
  }

  lemma SoundUnhang(p: Heap, h: Home, k: nat)
    requires Sound(p) && h != Held && 0 < k < |p.view.Of(h)|
    ensures var q := p.view.Of(h);
      && q[k] in p.next && p.view.homes[q[k]] == h
      && Sound(p.(next := p.next[q[k - 1] := p.next[q[k]]], view := p.view.Take(h, k)))
  {
    hide Placed, Sound, Follows, View.Of, View.Take, Heads.Of, Apart, Cut, Holds, Distinct;
    SoundList(p, h);
    SoundPlaced(p);
    var q, prev := p.view.Of(h), p.view.Of(h)[k - 1];
    Keys(p, h, k - 1);
    Keys(p, h, k);
    PlacedTake(p.view, h, k);
    PlacedDistinct(p.view, h);
    FollowsUnhang(p.next, p.heads.Of(h), q, k);
    TakeLists(p.view, h, k);
    ApartSelf(p.next, prev, p.next[q[k]]);
    NotOn(p, prev, h);
    var p' := p.(next := p.next[prev := p.next[q[k]]], view := p.view.Take(h, k));
    assert p'.next.Keys == p'.view.homes.Keys;
    OthersFollow(p, p', h, prev);
  }

  // ---------------------------------------------------------------- the invariant

  /** The thread has the rest of list h in a local variable. */
  function Saved(pc: Pc, head: Event?): Event? {
    if pc.HeadOff? || pc.HeadLinked? || pc.HeadFreed? then pc.next else head
  }

  predicate Carries(pc: Pc) {
    (pc.Seeking? || pc.Hanging?) && pc.from.Queue?
  }

  predicate InMove(pc: Pc) {
    Carries(pc) || pc.Moving? || pc.Moved? || pc.Paying? || pc.Paid? || pc.PaidLinked?
  }

  function HeapOf(s: State): Heap {
    var ts := if Carries(s.cpu) then s.cpu.from.next
              else if s.cpu.Moved? then s.cpu.next else Saved(s.other, s.heads.ts);
    Heap(s.next, Heads(Saved(s.cpu, s.heads.main), ts, s.heads.pool, s.heads.tsPool), s.view)
  }

  ghost predicate OnOrNull(prev: Event?, q: seq<Event>) {
    prev != null ==> prev in q
  }

  /** What a thread may rely on where it is. */
  ghost predicate PcOk(p: Heap, h: Home, pc: Pc) {
    match pc
    case Rest => true
    case Seeking(_, prev, from) => OnOrNull(prev, p.view.Of(h)) && (from.Queue? ==> h == Main)
    case Hanging(node, prev, from) =>
      && node in p.next && (from.Queue? ==> h == Main)
      && if h == Main && prev != null then prev in p.view.main && prev in p.next && p.next[node] == p.next[prev]
         else p.next[node] == if h == Main then p.heads.main else null
    case Hung(_) => h == Threadsafe
    case Heading => true
    case HeadOff(_, _) => true
    case HeadLinked(node, _) => node in p.next && p.next[node] == p.heads.Of(PoolOf(h))
    case HeadFreed(_) => true
    case Sweeping(prev) => prev != null && prev in p.view.Of(h)
    case Unhung(_, prev) => h == Threadsafe && prev != null && prev in p.view.Of(h)
    case Freeing(_, prev) => OnOrNull(prev, p.view.Of(h))
    case FreeLinked(node, prev) =>
      OnOrNull(prev, p.view.Of(h)) && node in p.next && p.next[node] == p.heads.Of(PoolOf(h))
    case PaidLinked(node) => h == Main && node in p.next && p.next[node] == p.heads.tsPool
    case _ => h == Main
  }

  /** tsLast is the last node but where it is about to be set. */
  ghost predicate LastOk(cpu: Pc, other: Pc, ts: seq<Event>, tsLast: Event?) {
    if cpu.Moving? || cpu.Moved? || Carries(cpu) then true
    else match other
      case Heading => ts != [] ==> tsLast == Last(ts)
      case HeadOff(_, _) => ts != [] ==> tsLast == Last(ts)
      case HeadLinked(_, _) => ts != [] ==> tsLast == Last(ts)
      case HeadFreed(_) => ts != [] ==> tsLast == Last(ts)
      case Hung(node) => Last(ts) == node
      case Unhung(node, prev) => if tsLast == node then Last(ts) == prev else tsLast == Last(ts)
      case _ => tsLast == Last(ts)
  }

  predicate Owned(s: State) {
    (s.owner != Another ==> s.other == Rest) && (s.owner == Cpu <==> InMove(s.cpu))
  }

  ghost predicate Inv(s: State) {
    && Sound(HeapOf(s)) && Holds(s.view.homes, Hands(s), Held)
    && PcOk(HeapOf(s), Main, s.cpu) && PcOk(HeapOf(s), Threadsafe, s.other)
    && Owned(s) && LastOk(s.cpu, s.other, s.view.ts, s.tsLast)
  }

  /** A thread relies on nothing that the other side writes. */
  lemma PcFrame(p: Heap, p': Heap, h: Home, pc: Pc, e: Event?)
    requires PcOk(p, h, pc) && Side(h) && !InMove(pc)
    requires p'.view.Of(h) == p.view.Of(h)
    requires p'.heads.Of(h) == p.heads.Of(h) && p'.heads.Of(PoolOf(h)) == p.heads.Of(PoolOf(h))
    requires Apart(p.next, p'.next, e) && (e != null ==> e !in NodeOf(pc) && e !in p.view.Of(h))
    ensures PcOk(p', h, pc)
  {
  }

  function OtherSide(h: Home): Home { if h == Main then Threadsafe else Main }

  lemma HeadIs(p: Heap)
    requires Sound(p)
    ensures p.heads.main == At(p.view.main, 0) && p.heads.ts == At(p.view.ts, 0)
    ensures p.heads.pool == At(p.view.pool, 0) && p.heads.tsPool == At(p.view.tsPool, 0)
  {
  }

  /** Steps that write nothing a list is made of. */
  lemma QuietStep(s: State, step: Step)
    requires Inv(s) && Enabled(s, step)
    requires step.Acquire? || step.Release? || step.SetLast? || step.FixLast?
          || step.StartMove? || step.ClearLast? || step.EndMove? || step.SetTsFirst?
    ensures Inv(Next(s, step))
  {
    hide Sound, Holds;
    var s' := Next(s, step);
    HeadIs(HeapOf(s));
    assert HeapOf(s') == HeapOf(s);
    assert Hands(s') == Hands(s);
  }

  lemma RemovalStep(s: State, h: Home, step: Step)
    requires Inv(s) && Enabled(s, step)
    requires step == Begin(h) || step == EndHeads(h) || step == StartSweep(h) || step == EndSweep(h)
      || step == SetHead(h)
    ensures Inv(Next(s, step))
  {
    hide Sound, Holds;
    var s' := Next(s, step);
    HeadIs(HeapOf(s));
    assert HeapOf(s') == HeapOf(s);
    assert Hands(s') == Hands(s);
  }

  ghost function Spot(q: seq<Event>, prev: Event?): nat {
    if prev == null then 0 else Place(q, prev) + 1
  }

  /** What comes behind prev on its list. */
  lemma Successor(p: Heap, h: Home, prev: Event?)
    requires Sound(p) && h != Held && OnOrNull(prev, p.view.Of(h))
    ensures var q, k := p.view.Of(h), Spot(p.view.Of(h), prev);
      && k <= |q| && (k < |q| ==> Place(q, q[k]) == k)
      && if prev == null then p.heads.Of(h) == At(q, k)
         else prev in p.next && p.next[prev] == At(q, k) && q[k - 1] == prev
  {
    hide Placed, View.Of, Heads.Of;
    SoundList(p, h);
  }

  lemma WalkStep(s: State, h: Home, step: Step)
    requires Inv(s) && Enabled(s, step) && (step == Seek || step == SweepOn(h))
    ensures Inv(Next(s, step))
  {
    hide Sound, Holds, Place, Last;
    var s' := Next(s, step);
    assert HeapOf(s') == HeapOf(s);
    assert Hands(s') == Hands(s);
    hide Hands;
    if step == Seek {
      Successor(HeapOf(s), Main, s.cpu.prev);
    } else {
      Successor(HeapOf(s), h, PcOf(s, h).prev);
    }
  }

  lemma HandsMoved(homes: Homes, q: seq<Event>, r: seq<Event>, h: Home)
    requires Holds(homes, q, h) && Distinct(r) && forall e :: e in r <==> e in q
    ensures Holds(homes, r, h)
  {
    forall i | 0 <= i < |r| ensures r[i] in homes && homes[r[i]] == h { assert r[i] in r; }
  }

  /** A callback has returned, and its node is to be freed. */
  lemma CallbackStep(s: State)
    requires Inv(s) && Enabled(s, EndCallback)
    ensures Inv(Next(s, EndCallback))
  {
    hide Sound, Holds;
    var s' := Next(s, EndCallback);
    assert HeapOf(s') == HeapOf(s);
    var n := |s.firing| - 1;
    assert s.firing == s.firing[..n] + [s.firing[n]];
    HoldsDistinct(s.view.homes, Hands(s), Held);
    assert Hands(s) == NodeOf(s.other) + s.firing[..n] + [s.firing[n]];
    Rotated(NodeOf(s.other) + s.firing[..n], s.firing[n]);
    assert Hands(s') == [s.firing[n]] + (NodeOf(s.other) + s.firing[..n]);
    HandsMoved(s.view.homes, Hands(s), Hands(s'), Held);
  }

  lemma HoldsDistinct(homes: Homes, q: seq<Event>, h: Home)
    requires Holds(homes, q, h)
    ensures Distinct(q)
  {
  }

  lemma Rotated(q: seq<Event>, e: Event)
    requires Distinct(q + [e])
    ensures Distinct([e] + q) && forall x :: x in [e] + q <==> x in q + [e]
  {
    forall i, j | 0 <= i < j < |[e] + q| ensures ([e] + q)[i] != ([e] + q)[j] {
      assert ([e] + q)[j] == (q + [e])[j - 1];
      assert ([e] + q)[i] == (q + [e])[if i == 0 then |q| else i - 1];
    }
  }

  // ---------------------------------------------------------------- each kind of write

  /** What the thread on the other side sees of a step of side h: its own lists, and its node, as they were. */
  lemma Bystander(s: State, s': State, h: Home, e: Event?)
    requires Inv(s) && Side(h)
    requires (h == Main ==> s'.other == s.other) && (h == Threadsafe ==> s'.cpu == s.cpu && s.owner == Another)
    requires var g, p, p' := OtherSide(h), HeapOf(s), HeapOf(s');
      s.owner != Cpu ==>
        (p'.view.Of(g) == p.view.Of(g) && p'.heads.Of(g) == p.heads.Of(g)
         && p'.heads.Of(PoolOf(g)) == p.heads.Of(PoolOf(g))
         && Apart(p.next, p'.next, e) && (e != null ==> e !in NodeOf(PcOf(s, g)) && e !in p.view.Of(g)))
    ensures h == Main ==> PcOk(HeapOf(s'), Threadsafe, s'.other)
    ensures h == Threadsafe ==> PcOk(HeapOf(s'), Main, s'.cpu)
  {
    hide Sound, Holds, LastOk;
    if s.owner != Cpu {
      PcFrame(HeapOf(s), HeapOf(s'), OtherSide(h), PcOf(s, OtherSide(h)), e);
    }
  }

  /** The hands of a state: this side's node, and the others. */
  lemma NodeHeld(s: State, h: Home)
    requires Inv(s) && Side(h) && NodeOf(PcOf(s, h)) != []
    ensures var e := NodeOf(PcOf(s, h))[0];
      && s.view.IsHeld(e) && e in s.next && e !in NodeOf(PcOf(s, OtherSide(h)))
      && forall g :: g != Held ==> e !in s.view.Of(g)
  {
    hide Placed, Follows;
    var e, k := NodeOf(PcOf(s, h))[0], if h == Main then 0 else |NodeOf(s.cpu)|;
    assert Hands(s)[k] == e;
    if NodeOf(PcOf(s, OtherSide(h))) != [] {
      assert Hands(s)[if h == Main then |NodeOf(s.cpu)| else 0] == NodeOf(PcOf(s, OtherSide(h)))[0];
    }
    SoundPlaced(HeapOf(s));
    NotOn(HeapOf(s), e, Held);
  }

  /** A write to the pointer of the node in hand. */
  lemma WriteKeeps(s: State, s': State, h: Home)
    requires Inv(s) && Side(h) && (h == Threadsafe ==> s.owner == Another) && NodeOf(PcOf(s, h)) != []
    requires var e := NodeOf(PcOf(s, h))[0]; e in s'.next && s'.next == s.next[e := s'.next[e]]
    requires s' == Go(s.(next := s'.next), h, PcOf(s', h)) && HeapOf(s') == HeapOf(s).(next := s'.next)
    requires NodeOf(PcOf(s', h)) == NodeOf(PcOf(s, h))
    ensures Sound(HeapOf(s')) && Holds(s'.view.homes, Hands(s'), Held)
    ensures h == Main ==> PcOk(HeapOf(s'), Threadsafe, s'.other)
    ensures h == Threadsafe ==> PcOk(HeapOf(s'), Main, s'.cpu)
  {
    hide Sound, Holds, PcOk, Placed, Follows;
    var p, e := HeapOf(s), NodeOf(PcOf(s, h))[0];
    NodeHeld(s, h);
    SoundWrite(p, e, s'.next[e]);
    ApartSelf(p.next, e, s'.next[e]);
    assert Hands(s') == Hands(s);
    hide Apart;
    Bystander(s, s', h, e);
  }

  lemma WriteNextStep(s: State, h: Home)
    requires Inv(s) && Enabled(s, WriteNext(h))
    ensures Inv(Next(s, WriteNext(h)))
  {
    hide Sound, Holds, Place;
    var s' := Next(s, WriteNext(h));
    NodeHeld(s, h);
    Successor(HeapOf(s), h, PcOf(s, h).prev);
    WriteKeeps(s, s', h);
  }

  lemma LinkStep(s: State, h: Home, step: Step)
    requires Inv(s) && Enabled(s, step) && (step == LinkFree(h) || (step == LinkPaid && h == Main))
    ensures Inv(Next(s, step))
  {
    hide Sound, Holds;
    var s' := Next(s, step);
    NodeHeld(s, h);
    WriteKeeps(s, s', h);
  }

  lemma OffFirst(p: Heap, l: Home)
    requires Sound(p) && l != Held && p.view.Of(l) != []
    ensures Off(p.view, l, p.view.Of(l)[0]) == p.view.Take(l, 0)
  {
    SoundList(p, l);
  }

  /** A list that a step of this side may take from or put on. */
  predicate Reaches(s: State, h: Home, l: Home) {
    l == h || l == PoolOf(h) || (s.owner == Cpu && h == Main && l != Held)
  }

  /** The first node comes off a list, into the hands of a thread. */
  lemma PopKeeps(s: State, s': State, h: Home, l: Home, k: nat)
    requires Inv(s) && Side(h) && (h == Threadsafe ==> s.owner == Another) && Reaches(s, h, l)
      && HeapOf(s).heads.Of(l) != null
    requires var p, e: Event := HeapOf(s), HeapOf(s).heads.Of(l);
      && s'.next == s.next && HeapOf(s').heads == p.heads.With(l, After(s, e)) && s'.view == Off(s.view, l, e)
      && k <= |Hands(s)| && Hands(s') == Spliced(Hands(s), k, e)
    requires if h == Main then s'.other == s.other else s'.cpu == s.cpu
    ensures Sound(HeapOf(s')) && Holds(s'.view.homes, Hands(s'), Held)
    ensures HeapOf(s).view.Of(l) != [] && s'.view == s.view.Take(l, 0)
    ensures h == Main ==> PcOk(HeapOf(s'), Threadsafe, s'.other)
    ensures h == Threadsafe ==> PcOk(HeapOf(s'), Main, s'.cpu)
  {
    hide Sound, Holds, PcOk, Placed, Follows, Off, Spliced, Hands, View.Of, View.Take, Heads.Of, Heads.With, Cut, Apart;
    var p, e: Event := HeapOf(s), HeapOf(s).heads.Of(l);
    SoundPop(p, l);
    OffFirst(p, l);
    HoldsSplice(s.view.homes, Hands(s), Held, k, e);
    TakeLists(s.view, l, 0);
    WithHeads(p.heads, l, p.next[e]);
    ApartSelf(p.next, null, null);
    Bystander(s, s', h, null);
  }

  lemma TakenHands(s: State, s': State, h: Home, e: Event)
    requires Side(h) && NodeOf(PcOf(s, h)) == [] && NodeOf(PcOf(s', h)) == [e]
    requires s'.firing == s.firing && if h == Main then s'.other == s.other else s'.cpu == s.cpu
    ensures var k := if h == Main then 0 else |NodeOf(s.cpu)|; k <= |Hands(s)| && Hands(s') == Spliced(Hands(s), k, e)
  {
  }

  lemma TakeStep(s: State, h: Home)
    requires Inv(s) && Enabled(s, Take(h))
    ensures Inv(Next(s, Take(h)))
  {
    hide Sound, Holds, Off, Hands, Spliced;
    var s' := Next(s, Take(h));
    TakenHands(s, s', h, s.heads.Of(PoolOf(h)));
    PopKeeps(s, s', h, PoolOf(h), if h == Main then 0 else |NodeOf(s.cpu)|);
  }

  lemma TakeHeadStep(s: State, h: Home)
    requires Inv(s) && Enabled(s, TakeHead(h))
    ensures Inv(Next(s, TakeHead(h)))
  {
    hide Sound, Holds, Off, Hands, Spliced;
    var s' := Next(s, TakeHead(h));
    TakenHands(s, s', h, s.heads.Of(h));
    PopKeeps(s, s', h, h, if h == Main then 0 else |NodeOf(s.cpu)|);
  }

  lemma PopStep(s: State)
    requires Inv(s) && Enabled(s, Pop)
    ensures Inv(Next(s, Pop))
  {
    hide Sound, Holds, Off;
    var s' := Next(s, Pop);
    assert Hands(s') == Spliced(Hands(s), |Hands(s)|, s.heads.main);
    hide Hands, Spliced;
    PopKeeps(s, s', Main, Main, |Hands(s)|);
  }

  lemma MovePops(s: State, step: Step)
    requires Inv(s) && Enabled(s, step) && (step.Carry? || step.Pay?)
    ensures Inv(Next(s, step))
  {
    hide Sound, Holds, Off, Hands, Spliced;
    var s' := Next(s, step);
    TakenHands(s, s', Main, if step.Carry? then s.heads.ts else s.heads.pool);
    PopKeeps(s, s', Main, if step.Carry? then Threadsafe else Pool, 0);
  }

  lemma AdoptKeeps(s: State, s': State, h: Home, e: Event, k: nat)
    requires Inv(s) && Side(h) && (h == Threadsafe ==> s.owner == Another) && e !in s.next
    requires HeapOf(s') == HeapOf(s).(next := s.next[e := null], view := s.view.Adopt(e))
    requires k <= |Hands(s)| && Hands(s') == Spliced(Hands(s), k, e)
    requires if h == Main then s'.other == s.other else s'.cpu == s.cpu
    ensures Sound(HeapOf(s')) && Holds(s'.view.homes, Hands(s'), Held)
    ensures h == Main ==> PcOk(HeapOf(s'), Threadsafe, s'.other)
    ensures h == Threadsafe ==> PcOk(HeapOf(s'), Main, s'.cpu)
  {
    hide Sound, Holds, PcOk, Placed, Follows, Spliced, Apart;
    var p := HeapOf(s);
    SoundPlaced(p);
    SoundAdopt(p, e);
    NotOn(p, e, Held);
    HoldsSplice(s.view.homes, Hands(s), Held, k, e);
    ApartSelf(s.next, e, null);
    Bystander(s, s', h, e);
  }

  lemma TakeNewStep(s: State, h: Home, e: Event)
    requires Inv(s) && Enabled(s, TakeNew(h, e))
    ensures Inv(Next(s, TakeNew(h, e)))
  {
    hide Sound, Holds, Hands, Spliced;
    var s' := Next(s, TakeNew(h, e));
    TakenHands(s, s', h, e);
    AdoptKeeps(s, s', h, e, if h == Main then 0 else |NodeOf(s.cpu)|);
  }

  lemma OntoTop(v: View, l: Home, e: Event)
    ensures Onto(v, l, null, e) == v.Put(l, 0, e)
  {
  }

  /** The node in hand goes on top of a list. */
  lemma PushKeeps(s: State, s': State, h: Home, l: Home, k: nat)
    requires Inv(s) && Side(h) && (h == Threadsafe ==> s.owner == Another) && Reaches(s, h, l)
    requires k < |Hands(s)| && NodeOf(PcOf(s, h)) == [Hands(s)[k]] && Hands(s') == Cut(Hands(s), k)
    requires var p, e := HeapOf(s), Hands(s)[k];
      && e in p.next && p.next[e] == p.heads.Of(l)
      && s'.next == s.next && HeapOf(s').heads == p.heads.With(l, e) && s'.view == Onto(s.view, l, null, e)
    requires if h == Main then s'.other == s.other else s'.cpu == s.cpu
    ensures Sound(HeapOf(s')) && Holds(s'.view.homes, Hands(s'), Held)
    ensures s'.view == s.view.Put(l, 0, Hands(s)[k])
    ensures h == Main ==> PcOk(HeapOf(s'), Threadsafe, s'.other)
    ensures h == Threadsafe ==> PcOk(HeapOf(s'), Main, s'.cpu)
  {
    hide Sound, Holds, PcOk, Placed, Follows, Onto, Cut, Hands, View.Of, View.Put, Heads.Of, Heads.With, Spliced, Apart;
    var p, e := HeapOf(s), Hands(s)[k];
    OntoTop(s.view, l, e);
    NodeHeld(s, h);
    SoundPush(p, l, e);
    HoldsCut(s.view.homes, Hands(s), Held, k, l);
    PutLists(s.view, l, 0, e);
    WithHeads(p.heads, l, e);
    ApartSelf(p.next, null, null);
    Bystander(s, s', h, null);
  }

  /** Or behind prev. */
  lemma HangKeeps(s: State, s': State, h: Home, k: nat, prev: Event)
    requires Inv(s) && Side(h) && (h == Threadsafe ==> s.owner == Another)
    requires k < |Hands(s)| && NodeOf(PcOf(s, h)) == [Hands(s)[k]] && Hands(s') == Cut(Hands(s), k)
    requires prev in s.view.Of(h)
    requires var p, e := HeapOf(s), Hands(s)[k];
      && e in p.next && prev in p.next && p.next[e] == p.next[prev]
      && s'.next == s.next[prev := e] && HeapOf(s').heads == p.heads && s'.view == Onto(s.view, h, prev, e)
    requires if h == Main then s'.other == s.other else s'.cpu == s.cpu
    ensures Sound(HeapOf(s')) && Holds(s'.view.homes, Hands(s'), Held)
    ensures s'.view == s.view.Put(h, Spot(s.view.Of(h), prev), Hands(s)[k])
    ensures h == Main ==> PcOk(HeapOf(s'), Threadsafe, s'.other)
    ensures h == Threadsafe ==> PcOk(HeapOf(s'), Main, s'.cpu)
  {
    var p, e, i := HeapOf(s), Hands(s)[k], Spot(s.view.Of(h), prev);
    assert s'.view == s.view.Put(h, i, e);
    Successor(p, h, prev);
    hide Sound, Holds, PcOk, Placed, Follows, Onto, Cut, Hands, View.Of, View.Put, Heads.Of, Spliced, Apart, Place;
    NodeHeld(s, h);
    SoundHang(p, h, i, e);
    HoldsCut(s.view.homes, Hands(s), Held, k, h);
    PutLists(s.view, h, i, e);
    ListedApart(s, h, prev);
    ApartSelf(p.next, prev, e);
    Bystander(s, s', h, prev);
  }

  /** A node on a list is in nobody's hands and on no other list. */
  lemma ListedApart(s: State, h: Home, e: Event)
    requires Inv(s) && Side(h) && e in s.view.Of(h)
    ensures e !in NodeOf(PcOf(s, OtherSide(h))) && e !in s.view.Of(OtherSide(h)) && e !in Hands(s)
  {
    hide Placed, Follows;
    SoundList(HeapOf(s), h);
    NotOn(HeapOf(s), e, h);
    assert forall i :: 0 <= i < |Hands(s)| ==> Hands(s)[i] != e;
    forall x | x in NodeOf(PcOf(s, OtherSide(h))) ensures x in Hands(s) {
      assert x in NodeOf(s.cpu) + NodeOf(s.other);
    }
  }

  /** The node behind prev comes off the list. */
  lemma UnhangKeeps(s: State, s': State, h: Home, k: nat, prev: Event)
    requires Inv(s) && Side(h) && (h == Threadsafe ==> s.owner == Another) && prev in s.view.Of(h)
      && After(s, prev) != null
    requires var e: Event := After(s, prev);
      && s'.next == s.next[prev := After(s, e)] && HeapOf(s').heads == HeapOf(s).heads && s'.view == Off(s.view, h, e)
      && k <= |Hands(s)| && Hands(s') == Spliced(Hands(s), k, e)
    requires if h == Main then s'.other == s.other else s'.cpu == s.cpu
    ensures Sound(HeapOf(s')) && Holds(s'.view.homes, Hands(s'), Held)
    ensures var q, i := s.view.Of(h), Spot(s.view.Of(h), prev);
      0 < i < |q| && After(s, prev) == q[i] && prev == q[i - 1] && s'.view == s.view.Take(h, i) && Distinct(q)
    ensures h == Main ==> PcOk(HeapOf(s'), Threadsafe, s'.other)
    ensures h == Threadsafe ==> PcOk(HeapOf(s'), Main, s'.cpu)
  {
    var p, i, e: Event := HeapOf(s), Spot(s.view.Of(h), prev), After(s, prev);
    Successor(p, h, prev);
    assert e == s.view.Of(h)[i] && s'.view == s.view.Take(h, i);
    hide Sound, Holds, PcOk, Placed, Follows, Off, Spliced, Hands, View.Of, View.Take, Heads.Of, Cut, Apart, Place;
    SoundUnhang(p, h, i);
    SoundPlaced(p);
    PlacedDistinct(s.view, h);
    HoldsSplice(s.view.homes, Hands(s), Held, k, e);
    TakeLists(s.view, h, i);
    ListedApart(s, h, prev);
    ApartSelf(p.next, prev, After(s, e));
    Bystander(s, s', h, prev);
  }

  lemma FreeStep(s: State, h: Home)
    requires Inv(s) && Enabled(s, PushFree(h))
    ensures Inv(Next(s, PushFree(h)))
  {
    hide Sound, Holds, Onto, Hands, Cut;
    var s', k := Next(s, PushFree(h)), if h == Main then 0 else |NodeOf(s.cpu)|;
    CutHands(s, s', h);
    PushKeeps(s, s', h, PoolOf(h), k);
  }

  lemma CutHands(s: State, s': State, h: Home)
    requires Side(h) && NodeOf(PcOf(s, h)) != [] && NodeOf(PcOf(s', h)) == []
    requires s'.firing == s.firing && if h == Main then s'.other == s.other else s'.cpu == s.cpu
    ensures var k := if h == Main then 0 else |NodeOf(s.cpu)|;
            k < |Hands(s)| && [Hands(s)[k]] == NodeOf(PcOf(s, h)) && Hands(s') == Cut(Hands(s), k)
  {
  }

  lemma PaidStep(s: State)
    requires Inv(s) && Enabled(s, PushPaid)
    ensures Inv(Next(s, PushPaid))
  {
    hide Sound, Holds, Onto;
    var s' := Next(s, PushPaid);
    CutHands(s, s', Main);
    PushKeeps(s, s', Main, TsPool, 0);
  }

  lemma HangMainStep(s: State)
    requires Inv(s) && Enabled(s, Hang(Main))
    ensures Inv(Next(s, Hang(Main)))
  {
    hide Sound, Holds, Onto, Place;
    var s' := Next(s, Hang(Main));
    CutHands(s, s', Main);
    if s.cpu.prev == null {
      PushKeeps(s, s', Main, Main, 0);
    } else {
      HangKeeps(s, s', Main, 0, s.cpu.prev);
    }
  }

  lemma HangTsStep(s: State)
    requires Inv(s) && Enabled(s, Hang(Threadsafe))
    ensures Inv(Next(s, Hang(Threadsafe)))
  {
    hide Sound, Holds, Onto, Place;
    var s', q, k := Next(s, Hang(Threadsafe)), s.view.ts, |NodeOf(s.cpu)|;
    HeadIs(HeapOf(s));
    CutHands(s, s', Threadsafe);
    if q == [] {
      PushKeeps(s, s', Threadsafe, Threadsafe, k);
      SplicedFirst(q, s.other.node);
    } else {
      assert q[|q| - 1] in q && s.tsLast == q[|q| - 1];
      Successor(HeapOf(s), Threadsafe, s.tsLast);
      LastPlace(HeapOf(s), q);
      HangKeeps(s, s', Threadsafe, k, s.tsLast);
      LastSpliced(q, s.other.node);
    }
  }

  lemma LastPlace(p: Heap, q: seq<Event>)
    requires Sound(p) && q == p.view.ts && q != []
    ensures Spot(q, q[|q| - 1]) == |q|
  {
    SoundList(p, Threadsafe);
  }

  lemma CutKeeps(q: seq<Event>, i: nat)
    requires Distinct(q) && 0 < i < |q|
    ensures q[i - 1] in Cut(q, i) && q != [] && Cut(q, i) != []
    ensures Last(Cut(q, i)) == if q[i] == Last(q) then q[i - 1] else Last(q)
  {
    assert Cut(q, i)[i - 1] == q[i - 1];
    DistinctLast(q, i);
  }

  lemma UnhangMainStep(s: State)
    requires Inv(s) && Enabled(s, Unhang(Main))
    ensures Inv(Next(s, Unhang(Main)))
  {
    hide Sound, Holds, Off, Place, Distinct, Hands, Spliced;
    var s', q, prev: Event := Next(s, Unhang(Main)), s.view.main, s.cpu.prev;
    TakenHands(s, s', Main, After(s, prev));
    UnhangKeeps(s, s', Main, 0, prev);
    CutKeeps(q, Spot(q, prev));
    hide Cut, Last, Spot;
  }

  lemma UnhangTsStep(s: State)
    requires Inv(s) && Enabled(s, Unhang(Threadsafe))
    ensures Inv(Next(s, Unhang(Threadsafe)))
  {
    hide Sound, Holds, Off, Place, Distinct, Hands, Spliced;
    var s', q, prev: Event := Next(s, Unhang(Threadsafe)), s.view.ts, s.other.prev;
    TakenHands(s, s', Threadsafe, After(s, prev));
    UnhangKeeps(s, s', Threadsafe, |NodeOf(s.cpu)|, prev);
    CutKeeps(q, Spot(q, prev));
    hide Cut, Last, Spot;
  }

  lemma InvStep(s: State, step: Step)
    requires Inv(s) && Enabled(s, step)
    ensures Inv(Next(s, step))
  {
    hide Inv, Next;
    match step
    case Take(h) => TakeStep(s, h);
    case TakeNew(h, e) => TakeNewStep(s, h, e);
    case Seek => WalkStep(s, Main, step);
    case WriteNext(h) => WriteNextStep(s, h);
    case Hang(h) => if h == Main { HangMainStep(s); } else { HangTsStep(s); }
    case Begin(h) => RemovalStep(s, h, step);
    case TakeHead(h) => TakeHeadStep(s, h);
    case LinkFree(h) => LinkStep(s, h, step);
    case PushFree(h) => FreeStep(s, h);
    case SetHead(h) => RemovalStep(s, h, step);
    case EndHeads(h) => RemovalStep(s, h, step);
    case StartSweep(h) => RemovalStep(s, h, step);
    case SweepOn(h) => WalkStep(s, h, step);
    case Unhang(h) => if h == Main { UnhangMainStep(s); } else { UnhangTsStep(s); }
    case EndSweep(h) => RemovalStep(s, h, step);
    case Pop => PopStep(s);
    case EndCallback => CallbackStep(s);
    case Carry => MovePops(s, step);
    case Pay => MovePops(s, step);
    case LinkPaid => LinkStep(s, Main, step);
    case PushPaid => PaidStep(s);
    case _ => QuietStep(s, step);
  }

  lemma InitInv(s: State)
    requires Init(s)
    ensures Inv(s)
  {
  }

  lemma InvPlaced(s: State)
    requires Inv(s)
    ensures Placed(s.view) && Holds(s.view.homes, Hands(s), Held) && s.next.Keys == s.view.homes.Keys
  {
  }
}

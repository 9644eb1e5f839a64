/** core/core_timing.cpp: the event scheduler, on the heap. Four singly linked lists share one
    population of nodes; every method states the queues' new contents by the value-level
    functions of EventSpec and keeps each existing node in exactly one place. */
module CoreTiming {
  import opened Bytes
  import opened EventSpec
  import opened NodeLists
  import opened Seqs

  class Scheduler {
    var first: Event?
    var tsFirst: Event?
    var tsLast: Event?
    var eventPool: Event?
    var eventTsPool: Event?
    var allocatedTsEvents: int
    var hasTsEvents: bool
    var globalTimer: S64
    var idledCycles: S64

    // The lists and places of all nodes, and the abstract state.
    ghost var view: View
    ghost var st: Sched

    /** All of the invariant but tsLast, which the removal loops leave behind for a while. */
    ghost predicate Shape()
      reads this, view.homes.Keys
    {
      ShapeFrom(first, tsFirst)
    }

    /** The same, with the queues starting at these nodes: a head pointer may still be on a node that
        has been taken off. */
    ghost predicate ShapeFrom(head: Event?, tsHead: Event?)
      reads this, view.homes.Keys
    {
      && Placed(view)
      && Queue(head, view.main, st.main) && Queue(tsHead, view.ts, st.ts)
      && Pools(eventPool, view.pool, eventTsPool, view.tsPool)
      && allocatedTsEvents >= |view.ts|
      && st.flag == hasTsEvents && st.now == globalTimer
    }

    ghost predicate Valid()
      reads this, view.homes.Keys
    {
      Shape() && tsLast == Last(view.ts)
    }

    constructor ()
      ensures Valid() && view == View(map[], [], [], [], [])
      ensures st == Sched([], [], false, 0, [])
    {
      first, tsFirst, tsLast, eventPool, eventTsPool := null, null, null, null, null;
      allocatedTsEvents, hasTsEvents, globalTimer, idledCycles := 0, false, 0, 0;
      view, st := View(map[], [], [], [], []), Sched([], [], false, 0, []);
    }

    // -------------------------------------------------------------- nodes

    /** A pooled node when there is one, a new one otherwise. */
    method GetNewEvent() returns (ev: Event)
      requires Shape()
      modifies this`eventPool, this`view
      ensures Shape() && view.IsHeld(ev) && view.OnNone(ev)
      ensures view == old(view).(homes := old(view.homes)[ev := Held], pool := view.pool)
      ensures if old(view.pool) == [] then fresh(ev) && view.pool == []
              else old(view.pool) == [ev] + view.pool && ev in old(view.homes) && old(view.homes)[ev] == Pool
    {
      hide Queue, Chain, Placed, Cut;
      ChainHead(eventPool, view.pool);
      if eventPool == null {
        ev := new Event();
        PlacedAdopt(view, ev);
        view := view.Adopt(ev);
      } else {
        ev := eventPool;
        ChainPop(ev, view.pool);
        PlacedTake(view, Pool, 0);
        eventPool := ev.next;
        view := view.Take(Pool, 0);
      }
    }

    method GetNewTsEvent() returns (ev: Event)
      requires Shape()
      modifies this`eventTsPool, this`view, this`allocatedTsEvents
      ensures Shape() && view.IsHeld(ev) && view.OnNone(ev) && allocatedTsEvents == old(allocatedTsEvents) + 1
      ensures view == old(view).(homes := old(view.homes)[ev := Held], tsPool := view.tsPool)
      ensures if old(view.tsPool) == [] then fresh(ev) && view.tsPool == []
              else old(view.tsPool) == [ev] + view.tsPool && ev in old(view.homes) && old(view.homes)[ev] == TsPool
    {
      hide Queue, Chain, Placed, Cut;
      allocatedTsEvents := allocatedTsEvents + 1;
      ChainHead(eventTsPool, view.tsPool);
      if eventTsPool == null {
        ev := new Event();
        PlacedAdopt(view, ev);
        view := view.Adopt(ev);
      } else {
        ev := eventTsPool;
        ChainPop(ev, view.tsPool);
        PlacedTake(view, TsPool, 0);
        eventTsPool := ev.next;
        view := view.Take(TsPool, 0);
      }
    }

    /** Puts a node that is in no list on top of the pool. */
    method FreeEvent(ev: Event, ghost head: Event?, ghost tsHead: Event?)
      requires ShapeFrom(head, tsHead) && view.IsHeld(ev)
      modifies this`eventPool, this`view, ev`next
      ensures ShapeFrom(head, tsHead) && view == old(view).Put(Pool, 0, ev)
    {
      hide Queue, Chain, Placed, Spliced;
      PlacedPut(view, Pool, 0, ev);
      ev.next := eventPool;
      eventPool := ev;
      ChainPush(ev, view.pool);
      view := view.Put(Pool, 0, ev);
    }

    method FreeTsEvent(ev: Event, ghost head: Event?, ghost tsHead: Event?)
      requires ShapeFrom(head, tsHead) && view.IsHeld(ev) && allocatedTsEvents > |view.ts|
      modifies this`eventTsPool, this`view, this`allocatedTsEvents, ev`next
      ensures ShapeFrom(head, tsHead) && allocatedTsEvents == old(allocatedTsEvents) - 1
      ensures view == old(view).Put(TsPool, 0, ev)
    {
      hide Queue, Chain, Placed, Spliced;
      PlacedPut(view, TsPool, 0, ev);
      ev.next := eventTsPool;
      eventTsPool := ev;
      ChainPush(ev, view.tsPool);
      view := view.Put(TsPool, 0, ev);
      allocatedTsEvents := allocatedTsEvents - 1;
    }

    // -------------------------------------------------------------- scheduling

    /** The walk of AddEventToQueue: the first node that is strictly later, and the one before it. */
    method Seek(time: S64, ghost tsHead: Event?) returns (prev: Event?, next: Event?, ghost k: nat)
      requires ShapeFrom(first, tsHead)
      ensures k == Spot(st.main, time) <= |view.main| && |view.main| == |st.main|
      ensures next == At(view.main, k) && prev == (if k == 0 then null else view.main[k - 1])
    {
      hide Queue, Pools, Placed;
      ghost var q := view.main;
      prev, next, k := null, first, 0;
      QueueHead(first, q, st.main);
      while next != null && !(time < next.time)
        invariant 0 <= k <= |q|
        invariant next == At(q, k) && prev == (if k == 0 then null else q[k - 1])
        invariant forall i :: 0 <= i < k ==> st.main[i].time <= time
        decreases |q| - k
      {
        QueueNode(first, q, st.main, k);
        prev := next;
        next := next.next;
        k := k + 1;
      }
      if k < |q| { QueueNode(first, q, st.main, k); }
    }

    /** Hangs a held node in before the first node that is strictly later. */
    method AddEventToQueue(ne: Event, ghost tsHead: Event?)
      requires ShapeFrom(first, tsHead) && view.IsHeld(ne)
      modifies this`first, this`view, this`st, view.main`next, ne`next
      ensures ShapeFrom(first, tsHead)
      ensures Spot(old(st.main), ne.time) <= |old(view.main)|
      ensures view == old(view).Put(Main, Spot(old(st.main), ne.time), ne)
      ensures st == old(st).(main := Insert(old(st.main), ne.Payload()))
    {
      hide Queue, Pools, Placed, Distinct, Spliced, Spot;
      var prev, next, k := Seek(ne.time, tsHead);
      PlacedHang(view, Main, k, ne);
      first := HangIn(first, view.main, st.main, k, prev, next, ne);
      view, st := view.Put(Main, k, ne), st.(main := Insert(st.main, ne.Payload()));
    }

    method ScheduleEvent(cyclesIntoFuture: S64, kind: S32, userdata: U64)
      requires Valid()
      modifies this`eventPool, this`first, this`view, this`st, view.homes.Keys
      ensures Valid() && Onward(old(view.homes), view.homes) && fresh(view.homes.Keys - old(view.homes.Keys))
      ensures st == Obey(old(st), Schedule(cyclesIntoFuture, kind, userdata))
    {
      hide Queue, Pools, Placed, Cut, Spliced, Insert, Spot, Holds;
      PlacedWithin(view);
      var ne := GetNewEvent();
      ne.Fill(Wrap64(globalTimer + cyclesIntoFuture), kind, userdata);
      AddEventToQueue(ne, tsFirst);
    }

    /** The pointers of the linking in ScheduleEvent_Threadsafe: a held node goes behind tsLast. */
    method LinkLast(ne: Event)
      requires Valid() && view.IsHeld(ne)
      modifies this`tsFirst, view.ts`next, ne`next
      ensures Queue(tsFirst, Spliced(view.ts, |view.ts|, ne), st.ts + [ne.Payload()])
      ensures Queue(first, view.main, st.main) && Pools(eventPool, view.pool, eventTsPool, view.tsPool)
      ensures Placed(view.Put(Threadsafe, |view.ts|, ne))
    {
      hide Queue, Pools, Placed, Distinct, Spliced, Last;
      ghost var k := |view.ts|;
      LastIs(view.ts);
      QueueHead(tsFirst, view.ts, st.ts);
      PlacedHang(view, Threadsafe, k, ne);
      SplicedAtEnd(st.ts, ne.Payload());
      tsFirst := HangIn(tsFirst, view.ts, st.ts, k, tsLast, null, ne);
    }

    /** All of it: tsLast is the node then, and the flag is set. */
    method AppendTs(ne: Event)
      requires Valid() && view.IsHeld(ne) && allocatedTsEvents > |view.ts|
      modifies this`tsFirst, this`tsLast, this`hasTsEvents, this`view, this`st, view.ts`next, ne`next
      ensures Valid()
      ensures view == old(view).Put(Threadsafe, |old(view.ts)|, ne)
      ensures st == old(st).(ts := old(st.ts) + [ne.Payload()], flag := true)
    {
      hide Queue, Pools, Placed, Distinct, Spliced, Last;
      LinkLast(ne);
      tsLast, hasTsEvents := ne, true;
      LastSpliced(view.ts, ne);
      view, st := view.Put(Threadsafe, |view.ts|, ne), st.(ts := st.ts + [ne.Payload()], flag := true);
    }

    /** From any thread, under the lock. */
    method ScheduleEventThreadsafe(cyclesIntoFuture: S64, kind: S32, userdata: U64)
      requires Valid()
      modifies this`eventTsPool, this`tsFirst, this`tsLast, this`hasTsEvents, this`allocatedTsEvents
      modifies this`view, this`st, view.homes.Keys
      ensures Valid() && Onward(old(view.homes), view.homes) && fresh(view.homes.Keys - old(view.homes.Keys))
      ensures st == Obey(old(st), ScheduleTs(cyclesIntoFuture, kind, userdata))
    {
      hide Queue, Pools, Placed, Cut, Spliced, Insert, Spot, Last;
      PlacedWithin(view);
      var ne := GetNewTsEvent();
      ne.Fill(Wrap64(globalTimer + cyclesIntoFuture), kind, userdata);
      AppendTs(ne);
    }

    // -------------------------------------------------------------- removal

    /** Takes the first node off the main queue and frees it. */
    method DropFirst() returns (e: Event)
      requires Shape() && first != null
      modifies this`first, this`eventPool, this`view, this`st, view.main`next
      ensures Shape() && e in old(view.homes) && old(view.homes)[e] == Main
      ensures old(st.main) == [e.Payload()] + st.main && st == old(st).(main := st.main)
      ensures old(view.main) == [e] + view.main
      ensures view == old(view).(homes := old(view.homes)[e := Pool], main := view.main, pool := [e] + old(view.pool))
    {
      hide Queue, Pools, Placed, Spliced, Cut;
      e := first;
      QueuePop(e, view.main, st.main);
      PlacedTake(view, Main, 0);
      var next := first.next;
      view, st := view.Take(Main, 0), st.(main := st.main[1..]);
      SplicedFirst(view.pool, e);
      FreeEvent(first, next, tsFirst);
      first := next;
    }

    /** Takes ptr, the node behind prev, off the main queue and frees it; returns the node after it. */
    method DropBehind(prev: Event, ptr: Event, ghost k: nat) returns (next: Event?)
      requires Valid() && 0 < k < |view.main| && view.main[k - 1] == prev && view.main[k] == ptr
      modifies this`eventPool, this`view, this`st, view.homes.Keys`next
      ensures Valid() && |old(view.main)| == |old(st.main)|
      ensures st == old(st).(main := old(st.main)[..k] + old(st.main)[k + 1..])
      ensures |view.main| == |st.main| && k <= |view.main| && view.main[k - 1] == prev && next == At(view.main, k)
      ensures old(view.homes).Keys == view.homes.Keys && ptr in old(view.homes) && old(view.homes)[ptr] == Main
      ensures view == old(view).(homes := old(view.homes)[ptr := Pool], main := view.main, pool := view.pool)
    {
      hide Queue, Pools, Placed, Spliced, Cut, Distinct, Last, Chain;
      QueueHead(first, view.main, st.main);
      PlacedUnhang(view, Main, k);
      Bypass(first, view.main, st.main, k, prev, ptr);
      view, st := view.Take(Main, k), st.(main := st.main[..k] + st.main[k + 1..]);
      FreeEvent(ptr, first, tsFirst);
      assert view.homes == old(view.homes)[ptr := Pool];
      QueueNode(first, view.main, st.main, k - 1);
      next := prev.next;
    }

    /** The first loop of UnscheduleEvent and RemoveEvent: hits at the head of the queue. */
    method DropHeads(m: Match) returns (result: S64)
      requires Valid()
      modifies this`first, this`eventPool, this`view, this`st, view.homes.Keys`next
      ensures Valid() && Rehomed(old(view.homes), view.homes, Main, Pool) && view.homes.Keys == old(view.homes.Keys)
      ensures view.ts == old(view.ts) && view.tsPool == old(view.tsPool)
      ensures st == old(st).(main := st.main) && Swept(old(st.main), m, globalTimer, st.main, 0, result)
      ensures first != null ==> st.main != [] && !m.Hits(st.main[0])
    {
      hide Queue, Pools, Placed, Rehomed, Swept;
      result := 0;
      RehomedSelf(view.homes, Main, Pool);
      SweptStart(st.main, m, globalTimer);
      QueueHead(first, view.main, st.main);
      while first != null && m.Hits(first.Payload())
        invariant Valid() && Rehomed(old(view.homes), view.homes, Main, Pool) && view.homes.Keys == old(view.homes.Keys)
        invariant view.ts == old(view.ts) && view.tsPool == old(view.tsPool)
        invariant st == old(st).(main := st.main) && Swept(old(st.main), m, globalTimer, st.main, 0, result)
        invariant first == At(view.main, 0) && |view.main| == |st.main|
        decreases |st.main|
      {
        QueueNode(first, view.main, st.main, 0);
        SweptHit(old(st.main), m, globalTimer, st.main, 0, result);
        result := Wrap64(first.time - globalTimer);
        PlacedWithin(view);
        ghost var before := view.homes;
        var e := DropFirst();
        RehomedMove(old(view.homes), before, e, Main, Pool);
        QueueHead(first, view.main, st.main);
      }
      if first != null { QueueNode(first, view.main, st.main, 0); }
    }

    /** A hit in the second loop of a removal. */
    method TakeHit(m: Match, ghost q0: seq<Ev>, ghost h0: Homes, prev: Event, ptr: Event, ghost k: nat)
      returns (result: S64, next: Event?)
      requires Valid() && 0 < k < |view.main| == |st.main| && view.main[k - 1] == prev && view.main[k] == ptr
      requires Rehomed(h0, view.homes, Main, Pool) && view.homes.Keys == h0.Keys
      requires m.Hits(ptr.Payload()) && exists acc :: Swept(q0, m, globalTimer, st.main, k, acc)
      modifies this`eventPool, this`view, this`st, view.homes.Keys`next
      ensures Valid() && Rehomed(h0, view.homes, Main, Pool) && view.homes.Keys == h0.Keys
      ensures view.ts == old(view.ts) && view.tsPool == old(view.tsPool)
      ensures st == old(st).(main := st.main) && Swept(q0, m, globalTimer, st.main, k, result)
      ensures k <= |view.main| == |st.main| == |old(st.main)| - 1
      ensures view.main[k - 1] == prev && next == At(view.main, k)
    {
      hide Queue, Pools, Placed, Rehomed, Swept, CyclesLeft, Without, Cut, Wrap64, Last, Distinct, Holds;
      QueueNode(first, view.main, st.main, k);
      ghost var acc :| Swept(q0, m, globalTimer, st.main, k, acc);
      SweptHit(q0, m, globalTimer, st.main, k, acc);
      result := Wrap64(ptr.time - globalTimer);
      ghost var before := view.homes;
      next := DropBehind(prev, ptr, k);
      RehomedMove(h0, before, ptr, Main, Pool);
    }

    /** UnscheduleEvent (by type and user data) and RemoveEvent (by type): both loops. */
    method Unschedule(m: Match) returns (result: S64)
      requires Valid()
      modifies this`first, this`eventPool, this`view, this`st, view.homes.Keys`next
      ensures Valid() && Rehomed(old(view.homes), view.homes, Main, Pool) && view.homes.Keys == old(view.homes.Keys)
      ensures view.ts == old(view.ts) && view.tsPool == old(view.tsPool)
      ensures forall e :: e in old(view.main) && e !in view.main ==> e in view.pool
      ensures st == Obey(old(st), Remove(m))
      ensures result == CyclesLeft(old(st.main), m, globalTimer, 0)
    {
      hide Queue, Pools, Placed, Rehomed, Swept, CyclesLeft, Without, Cut, Wrap64, Last, Distinct, Holds;
      ghost var q0 := st.main;
      result := DropHeads(m);
      QueueHead(first, view.main, st.main);
      if first == null {
        SweptEnd(q0, m, globalTimer, st.main, result);
        RehomedMain(old(view), view);
        return;
      }
      var prev := first;
      QueueNode(prev, view.main, st.main, 0);
      SweptKeep(q0, m, globalTimer, st.main, 0, result);
      var ptr := prev.next;
      ghost var k := 1;
      while ptr != null
        invariant Valid() && Rehomed(old(view.homes), view.homes, Main, Pool) && view.homes.Keys == old(view.homes.Keys)
        invariant view.ts == old(view.ts) && view.tsPool == old(view.tsPool)
        invariant 1 <= k <= |view.main| && |view.main| == |st.main|
        invariant prev == view.main[k - 1] && ptr == At(view.main, k)
        invariant st == old(st).(main := st.main) && Swept(q0, m, globalTimer, st.main, k, result)
        decreases |st.main| - k
      {
        QueueNode(first, view.main, st.main, k);
        if m.Hits(ptr.Payload()) {
          result, ptr := TakeHit(m, q0, old(view.homes), prev, ptr, k);
        } else {
          SweptKeep(q0, m, globalTimer, st.main, k, result);
          prev := ptr;
          ptr := ptr.next;
          k := k + 1;
        }
      }
      SweptEnd(q0, m, globalTimer, st.main, result);
      RehomedMain(old(view), view);
    }

    // The same for the thread-safe queue, under the lock. tsLast goes stale when the queue runs empty.

    method DropTsFirst() returns (e: Event)
      requires Shape() && tsFirst != null
      modifies this`tsFirst, this`eventTsPool, this`allocatedTsEvents, this`view, this`st, view.ts`next
      ensures Shape() && e in old(view.homes) && old(view.homes)[e] == Threadsafe
      ensures old(st.ts) == [e.Payload()] + st.ts && st == old(st).(ts := st.ts)
      ensures old(view.ts) == [e] + view.ts
      ensures view == old(view).(homes := old(view.homes)[e := TsPool], ts := view.ts, tsPool := [e] + old(view.tsPool))
    {
      hide Queue, Pools, Placed, Spliced, Cut;
      e := tsFirst;
      QueuePop(e, view.ts, st.ts);
      PlacedTake(view, Threadsafe, 0);
      var next := tsFirst.next;
      view, st := view.Take(Threadsafe, 0), st.(ts := st.ts[1..]);
      SplicedFirst(view.tsPool, e);
      FreeTsEvent(tsFirst, first, next);
      tsFirst := next;
    }

    /** The node behind prev goes off the thread-safe queue, into the operation's hands. */
    method TakeTsBehind(prev: Event, ptr: Event, ghost k: nat)
      requires Valid() && 0 < k < |view.ts| && view.ts[k - 1] == prev && view.ts[k] == ptr
      modifies this`tsLast, this`view, this`st, prev`next
      ensures Valid() && view == old(view).Take(Threadsafe, k) && view.IsHeld(ptr)
      ensures |old(view.ts)| == |old(st.ts)| && ptr in old(view.homes) && old(view.homes)[ptr] == Threadsafe
      ensures view.homes.Keys == old(view.homes.Keys)
      ensures st == old(st).(ts := old(st.ts)[..k] + old(st.ts)[k + 1..])
      ensures k <= |view.ts| == |old(view.ts)| - 1 && view.ts[k - 1] == prev
    {
      hide Queue, Pools, Placed, Spliced, Cut, Distinct, Last;
      QueueHead(tsFirst, view.ts, st.ts);
      PlacedUnhang(view, Threadsafe, k);
      Bypass(tsFirst, view.ts, st.ts, k, prev, ptr);
      if ptr == tsLast { tsLast := prev; }
      view, st := view.Take(Threadsafe, k), st.(ts := st.ts[..k] + st.ts[k + 1..]);
    }

    method DropTsBehind(prev: Event, ptr: Event, ghost k: nat) returns (next: Event?)
      requires Valid() && 0 < k < |view.ts| && view.ts[k - 1] == prev && view.ts[k] == ptr
      modifies this`tsLast, this`eventTsPool, this`allocatedTsEvents, this`view, this`st, view.homes.Keys`next
      ensures Valid() && |old(view.ts)| == |old(st.ts)|
      ensures st == old(st).(ts := old(st.ts)[..k] + old(st.ts)[k + 1..])
      ensures |view.ts| == |st.ts| && k <= |view.ts| && view.ts[k - 1] == prev && next == At(view.ts, k)
      ensures old(view.homes).Keys == view.homes.Keys && ptr in old(view.homes)
      ensures old(view.homes)[ptr] == Threadsafe
      ensures view == old(view).(homes := old(view.homes)[ptr := TsPool], ts := view.ts, tsPool := view.tsPool)
    {
      hide Queue, Pools, Placed, Spliced, Cut, Distinct, Last;
      PlacedWithin(view);
      TakeTsBehind(prev, ptr, k);
      FreeTsEvent(ptr, first, tsFirst);
      assert view.homes == old(view.homes)[ptr := TsPool];
      QueueNode(tsFirst, view.ts, st.ts, k - 1);
      next := prev.next;
    }

    method DropTsHeads(m: Match) returns (result: S64)
      requires Valid()
      modifies this`tsFirst, this`eventTsPool, this`allocatedTsEvents, this`view, this`st, view.homes.Keys`next
      ensures Shape() && Rehomed(old(view.homes), view.homes, Threadsafe, TsPool)
        && view.homes.Keys == old(view.homes.Keys)
      ensures view.main == old(view.main) && view.pool == old(view.pool)
      ensures tsFirst != null ==> tsLast == Last(view.ts)
      ensures st == old(st).(ts := st.ts) && Swept(old(st.ts), m, globalTimer, st.ts, 0, result)
      ensures tsFirst != null ==> st.ts != [] && !m.Hits(st.ts[0])
    {
      hide Queue, Pools, Placed, Rehomed, Swept;
      result := 0;
      RehomedSelf(view.homes, Threadsafe, TsPool);
      SweptStart(st.ts, m, globalTimer);
      QueueHead(tsFirst, view.ts, st.ts);
      while tsFirst != null && m.Hits(tsFirst.Payload())
        invariant Shape() && Rehomed(old(view.homes), view.homes, Threadsafe, TsPool)
          && view.homes.Keys == old(view.homes.Keys)
        invariant view.main == old(view.main) && view.pool == old(view.pool)
        invariant view.ts != [] ==> tsLast == Last(view.ts)
        invariant st == old(st).(ts := st.ts) && Swept(old(st.ts), m, globalTimer, st.ts, 0, result)
        invariant tsFirst == At(view.ts, 0) && |view.ts| == |st.ts|
        decreases |st.ts|
      {
        QueueNode(tsFirst, view.ts, st.ts, 0);
        SweptHit(old(st.ts), m, globalTimer, st.ts, 0, result);
        result := Wrap64(tsFirst.time - globalTimer);
        PlacedWithin(view);
        ghost var before := view.homes;
        var e := DropTsFirst();
        RehomedMove(old(view.homes), before, e, Threadsafe, TsPool);
        QueueHead(tsFirst, view.ts, st.ts);
      }
      if tsFirst != null { QueueNode(tsFirst, view.ts, st.ts, 0); }
    }

    /** A hit in the second loop of a removal. */
    method TakeTsHit(m: Match, ghost q0: seq<Ev>, ghost h0: Homes, prev: Event, ptr: Event, ghost k: nat)
      returns (result: S64, next: Event?)
      requires Valid() && 0 < k < |view.ts| == |st.ts| && view.ts[k - 1] == prev && view.ts[k] == ptr
      requires Rehomed(h0, view.homes, Threadsafe, TsPool) && view.homes.Keys == h0.Keys
      requires m.Hits(ptr.Payload()) && exists acc :: Swept(q0, m, globalTimer, st.ts, k, acc)
      modifies this`tsLast, this`eventTsPool, this`allocatedTsEvents, this`view, this`st, view.homes.Keys`next
      ensures Valid() && Rehomed(h0, view.homes, Threadsafe, TsPool) && view.homes.Keys == h0.Keys
      ensures view.main == old(view.main) && view.pool == old(view.pool)
      ensures st == old(st).(ts := st.ts) && Swept(q0, m, globalTimer, st.ts, k, result)
      ensures k <= |view.ts| == |st.ts| == |old(st.ts)| - 1
      ensures view.ts[k - 1] == prev && next == At(view.ts, k)
    {
      hide Queue, Pools, Placed, Rehomed, Swept, CyclesLeft, Without, Cut, Wrap64, Last, Distinct, Holds;
      QueueNode(tsFirst, view.ts, st.ts, k);
      ghost var acc :| Swept(q0, m, globalTimer, st.ts, k, acc);
      SweptHit(q0, m, globalTimer, st.ts, k, acc);
      result := Wrap64(ptr.time - globalTimer);
      ghost var before := view.homes;
      next := DropTsBehind(prev, ptr, k);
      RehomedMove(h0, before, ptr, Threadsafe, TsPool);
    }

    /** UnscheduleThreadsafeEvent and RemoveThreadsafeEvent. */
    method UnscheduleThreadsafe(m: Match) returns (result: S64)
      requires Valid()
      modifies this`tsFirst, this`tsLast, this`eventTsPool, this`allocatedTsEvents
      modifies this`view, this`st, view.homes.Keys`next
      ensures Valid() && Rehomed(old(view.homes), view.homes, Threadsafe, TsPool)
        && view.homes.Keys == old(view.homes.Keys)
      ensures view.main == old(view.main) && view.pool == old(view.pool)
      ensures forall e :: e in old(view.ts) && e !in view.ts ==> e in view.tsPool
      ensures st == Obey(old(st), RemoveTs(m))
      ensures result == CyclesLeft(old(st.ts), m, globalTimer, 0)
    {
      hide Queue, Pools, Placed, Rehomed, Swept, CyclesLeft, Without, Cut, Wrap64, Last, Distinct, Holds;
      ghost var q0 := st.ts;
      result := DropTsHeads(m);
      QueueHead(tsFirst, view.ts, st.ts);
      if tsFirst == null {
        tsLast := null;
        LastIs(view.ts);
        SweptEnd(q0, m, globalTimer, st.ts, result);
        RehomedTs(old(view), view);
        return;
      }
      var prev := tsFirst;
      QueueNode(prev, view.ts, st.ts, 0);
      SweptKeep(q0, m, globalTimer, st.ts, 0, result);
      var ptr := prev.next;
      ghost var k := 1;
      while ptr != null
        invariant Valid() && Rehomed(old(view.homes), view.homes, Threadsafe, TsPool)
          && view.homes.Keys == old(view.homes.Keys)
        invariant view.main == old(view.main) && view.pool == old(view.pool)
        invariant 1 <= k <= |view.ts| && |view.ts| == |st.ts|
        invariant prev == view.ts[k - 1] && ptr == At(view.ts, k)
        invariant st == old(st).(ts := st.ts) && Swept(q0, m, globalTimer, st.ts, k, result)
        decreases |st.ts| - k
      {
        QueueNode(tsFirst, view.ts, st.ts, k);
        if m.Hits(ptr.Payload()) {
          result, ptr := TakeTsHit(m, q0, old(view.homes), prev, ptr, k);
        } else {
          SweptKeep(q0, m, globalTimer, st.ts, k, result);
          prev := ptr;
          ptr := ptr.next;
          k := k + 1;
        }
      }
      SweptEnd(q0, m, globalTimer, st.ts, result);
      RehomedTs(old(view), view);
    }

    method ClearPendingEvents()
      requires Valid()
      modifies this`first, this`eventPool, this`view, this`st, view.homes.Keys`next
      ensures Valid() && Rehomed(old(view.homes), view.homes, Main, Pool) && view.homes.Keys == old(view.homes.Keys)
      ensures view.ts == old(view.ts) && view.tsPool == old(view.tsPool)
      ensures view.main == [] && forall e :: e in old(view.main) ==> e in view.pool
      ensures st == old(st).(main := [])
    {
      hide Queue, Pools, Placed, Rehomed;
      RehomedSelf(view.homes, Main, Pool);
      QueueHead(first, view.main, st.main);
      while first != null
        invariant Valid() && Rehomed(old(view.homes), view.homes, Main, Pool) && view.homes.Keys == old(view.homes.Keys)
        invariant view.ts == old(view.ts) && view.tsPool == old(view.tsPool)
        invariant st == old(st).(main := st.main)
        invariant first == At(view.main, 0) && |view.main| == |st.main|
        decreases |st.main|
      {
        PlacedWithin(view);
        ghost var before := view.homes;
        var e := DropFirst();
        RehomedMove(old(view.homes), before, e, Main, Pool);
        QueueHead(first, view.main, st.main);
      }
      assert view.main == [];
      RehomedMain(old(view), view);
    }

    // -------------------------------------------------------------- callbacks and the clock

    /** One thing a callback does. */
    method Handle(r: Request)
      requires Valid()
      modifies this, view.homes.Keys
      ensures Valid() && Onward(old(view.homes), view.homes) && fresh(view.homes.Keys - old(view.homes.Keys))
      ensures st == Obey(old(st), r)
      ensures unchanged(`globalTimer, `idledCycles)
    {
      hide Shape, Onward, Insert, Without, Wrap64;
      match r
      case Schedule(delay, kind, userdata) => ScheduleEvent(delay, kind, userdata);
      case ScheduleTs(delay, kind, userdata) => ScheduleEventThreadsafe(delay, kind, userdata);
      case Remove(m) =>
        var _ := Unschedule(m);
        RehomedOnward(old(view.homes), view.homes, Main, Pool);
      case RemoveTs(m) =>
        var _ := UnscheduleThreadsafe(m);
        RehomedOnward(old(view.homes), view.homes, Threadsafe, TsPool);
    }

    /** A callback, as what it asks of the scheduler. */
    method Callback(batch: seq<Request>)
      requires Valid()
      modifies this, view.homes.Keys
      ensures Valid() && Onward(old(view.homes), view.homes) && fresh(view.homes.Keys - old(view.homes.Keys))
      ensures st == ObeyAll(old(st), batch)
      ensures unchanged(`globalTimer, `idledCycles)
    {
      hide Valid, Onward, Obey;
      OnwardSelf(view.homes);
      for i := 0 to |batch|
        invariant Valid() && Onward(old(view.homes), view.homes) && fresh(view.homes.Keys - old(view.homes.Keys))
        invariant ObeyAll(st, batch[i..]) == ObeyAll(old(st), batch)
        invariant unchanged(`globalTimer, `idledCycles)
      {
        ghost var before := view.homes;
        assert batch[i..][1..] == batch[i + 1..];
        Handle(batch[i]);
        OnwardStep(old(view.homes), before, view.homes);
      }
    }

    /** One round of ProcessFifoWaitEvents: the node is off the queue, in the operation's hands, while
        its callback runs, and goes to the pool afterwards. */
    method FireFirst(batch: seq<Request>)
      requires Valid() && HeadDue(st)
      modifies this, view.homes.Keys
      ensures Valid() && Onward(old(view.homes), view.homes) && fresh(view.homes.Keys - old(view.homes.Keys))
      ensures old(view.main) != [] && view.pool != [] && view.pool[0] == old(view.main)[0]
      ensures st == Fire(old(st), batch)
      ensures unchanged(`globalTimer, `idledCycles)
    {
      hide Queue, Pools, Placed, Spliced, Cut, Onward, ObeyAll;
      QueueHead(first, view.main, st.main);
      var evt := first;
      QueuePop(evt, view.main, st.main);
      PlacedTake(view, Main, 0);
      first := evt.next;
      view := view.Take(Main, 0);
      st := st.(main := st.main[1..], fired := st.fired + [Firing(st.main[0], globalTimer)]);
      Callback(batch);
      OnwardBorrow(old(view.homes), view.homes, evt, Pool);
      SplicedFirst(view.pool, evt);
      FreeEvent(evt, first, tsFirst);
    }

    /** The i-th callback of this call does what script[i] says, and nothing beyond its end. */
    method ProcessFifoWaitEvents(script: seq<seq<Request>>)
      requires Valid()
      modifies this, view.homes.Keys
      ensures Valid() && Onward(old(view.homes), view.homes) && fresh(view.homes.Keys - old(view.homes.Keys))
      ensures st == RunFifo(old(st), script)
      ensures unchanged(`globalTimer, `idledCycles)
    {
      hide Queue, Pools, Placed, Onward, Fire;
      var todo := script;
      OnwardSelf(view.homes);
      while first != null
        invariant Valid() && Onward(old(view.homes), view.homes) && fresh(view.homes.Keys - old(view.homes.Keys))
        invariant RunFifo(st, todo) == RunFifo(old(st), script)
        invariant unchanged(`globalTimer, `idledCycles)
        decreases |st.main| + Pending(todo)
      {
        QueueHead(first, view.main, st.main);
        QueueNode(first, view.main, st.main, 0);
        if first.time <= globalTimer {
          ghost var before := view.homes;
          FireShrinks(st, todo);
          FireFirst(FirstBatch(todo));
          todo := Rest(todo);
          OnwardStep(old(view.homes), before, view.homes);
        } else {
          return;
        }
      }
      QueueHead(first, view.main, st.main);
    }

    /** The first loop of MoveEvents. tsLast is put right by its caller. */
    method MoveAll()
      requires Shape()
      modifies this`first, this`tsFirst, this`view, this`st, view.homes.Keys`next
      ensures Shape() && Rehomed(old(view.homes), view.homes, Threadsafe, Main)
        && view.homes.Keys == old(view.homes.Keys)
      ensures view.pool == old(view.pool) && view.tsPool == old(view.tsPool) && unchanged(`allocatedTsEvents)
      ensures forall e :: e in old(view.ts) ==> e in view.main
      ensures view.ts == [] && st == old(st).(main := InsertAll(old(st.main), old(st.ts)), ts := [])
    {
      hide Queue, Pools, Placed, Rehomed, Insert, Cut, Spliced;
      RehomedSelf(view.homes, Threadsafe, Main);
      QueueHead(tsFirst, view.ts, st.ts);
      while tsFirst != null
        invariant Shape() && Rehomed(old(view.homes), view.homes, Threadsafe, Main)
          && view.homes.Keys == old(view.homes.Keys)
        invariant view.pool == old(view.pool) && view.tsPool == old(view.tsPool)
        invariant st == old(st).(main := st.main, ts := st.ts)
        invariant InsertAll(st.main, st.ts) == InsertAll(old(st.main), old(st.ts))
        invariant tsFirst == At(view.ts, 0) && |view.ts| == |st.ts|
        decreases |st.ts|
      {
        MoveFirst(old(view.homes));
        QueueHead(tsFirst, view.ts, st.ts);
      }
      assert view.ts == [];
      MovedTs(old(view), view);
    }

    method MoveFirst(ghost h0: Homes)
      requires Shape() && tsFirst != null && Rehomed(h0, view.homes, Threadsafe, Main)
      modifies this`first, this`tsFirst, this`view, this`st, view.homes.Keys`next
      ensures Shape() && Rehomed(h0, view.homes, Threadsafe, Main) && view.homes.Keys == old(view.homes.Keys)
      ensures view.pool == old(view.pool) && view.tsPool == old(view.tsPool)
      ensures old(st.ts) != []
      ensures st == old(st).(main := Insert(old(st.main), old(st.ts)[0]), ts := old(st.ts)[1..])
    {
      hide Queue, Pools, Placed, Rehomed, Insert, Cut, Spliced, Spot;
      var e := tsFirst;
      QueuePop(e, view.ts, st.ts);
      PlacedTake(view, Threadsafe, 0);
      RehomedMove(h0, view.homes, e, Threadsafe, Main);
      var next := tsFirst.next;
      PlacedWithin(view);
      view, st := view.Take(Threadsafe, 0), st.(ts := st.ts[1..]);
      AddEventToQueue(tsFirst, next);
      tsFirst := next;
      assert view.homes == old(view.homes)[e := Main];
    }

    /** The second loop of MoveEvents: pooled nodes pay back what the thread-safe side lent out. */
    method Refill()
      requires Valid() && view.ts == []
      modifies this`eventPool, this`eventTsPool, this`allocatedTsEvents, this`view, view.homes.Keys`next
      ensures Valid() && Onward(old(view.homes), view.homes) && view.homes.Keys == old(view.homes.Keys)
      ensures view.main == old(view.main) && view.ts == []
      ensures Refilled(old(view), view, old(allocatedTsEvents) - allocatedTsEvents)
      ensures allocatedTsEvents == 0 || view.pool == []
    {
      hide Queue, Pools, Placed, Onward, Refilled;
      OnwardSelf(view.homes);
      RefilledStart(view);
      PoolHeads(eventPool, view.pool, eventTsPool, view.tsPool);
      while allocatedTsEvents > 0 && eventPool != null
        invariant Valid() && Onward(old(view.homes), view.homes) && view.homes.Keys == old(view.homes.Keys)
        invariant view.main == old(view.main) && view.ts == []
        invariant eventPool == At(view.pool, 0)
        invariant Refilled(old(view), view, old(allocatedTsEvents) - allocatedTsEvents)
        decreases |view.pool|
      {
        ghost var v := view;
        RefillOne(old(view.homes));
        RefilledNext(old(view), v, view, old(allocatedTsEvents) - allocatedTsEvents - 1);
      }
    }

    method RefillOne(ghost h0: Homes)
      requires Valid() && view.ts == [] && eventPool != null && allocatedTsEvents > 0 && Onward(h0, view.homes)
      modifies this`eventPool, this`eventTsPool, this`allocatedTsEvents, this`view, view.homes.Keys`next
      ensures Valid() && Onward(h0, view.homes) && view.homes.Keys == old(view.homes.Keys)
      ensures view.main == old(view.main) && view.ts == [] && eventPool == At(view.pool, 0)
      ensures old(view.pool) != [] && view.pool == old(view.pool)[1..]
      ensures view.tsPool == [old(view.pool)[0]] + old(view.tsPool)
      ensures allocatedTsEvents == old(allocatedTsEvents) - 1
    {
      hide Queue, Placed, Onward, Cut, Spliced, Chain;
      var ev := eventPool;
      ChainPop(ev, view.pool);
      PlacedTake(view, Pool, 0);
      OnwardMove(h0, view.homes, ev, TsPool);
      ghost var v := view.Take(Pool, 0);
      PlacedPut(v, TsPool, 0, ev);
      SplicedFirst(v.tsPool, ev);
      eventPool := ev.next;
      ev.next := eventTsPool;
      ChainHead(eventPool, v.pool);
      ChainPush(ev, v.tsPool);
      eventTsPool := ev;
      allocatedTsEvents := allocatedTsEvents - 1;
      view := v.Put(TsPool, 0, ev);
      assert view.homes == old(view.homes)[ev := TsPool];
    }

    method MoveEvents()
      requires Valid()
      modifies this`first, this`tsFirst, this`tsLast, this`eventPool, this`eventTsPool, this`hasTsEvents,
               this`allocatedTsEvents, this`view, this`st, view.homes.Keys`next
      ensures Valid() && Onward(old(view.homes), view.homes) && view.homes.Keys == old(view.homes.Keys)
      ensures st == Move(old(st))
      ensures forall e :: e in old(view.ts) ==> e in view.main
      ensures Refilled(old(view), view, old(allocatedTsEvents) - allocatedTsEvents)
      ensures allocatedTsEvents == 0 || view.pool == []
    {
      hide Queue, Pools, Placed, Onward, Rehomed, InsertAll;
      hasTsEvents := false;
      st := st.(flag := false);
      MoveAll();
      tsLast := null;
      RehomedOnward(old(view.homes), view.homes, Threadsafe, Main);
      ghost var before := view.homes;
      Refill();
      OnwardStep(old(view.homes), before, view.homes);
    }

    // -------------------------------------------------------------- the clock

    /** The clock may not overflow: signed overflow is undefined. */
    method Advance(script: seq<seq<Request>>, advanceCallback: seq<Request>)
      requires Valid() && globalTimer < S64_MAX
      modifies this, view.homes.Keys
      ensures Valid() && Onward(old(view.homes), view.homes) && fresh(view.homes.Keys - old(view.homes.Keys))
      ensures st == ObeyAll(Catchup(old(st).(now := old(st).now + 1), script), advanceCallback)
    {
      hide Queue, Pools, Placed, Onward, Move, RunFifo, ObeyAll;
      globalTimer := globalTimer + 1;
      st := st.(now := globalTimer);
      CatchUp(script);
      ghost var before := view.homes;
      Callback(advanceCallback);
      OnwardStep(old(view.homes), before, view.homes);
    }

    method CatchUp(script: seq<seq<Request>>)
      requires Valid()
      modifies this, view.homes.Keys
      ensures Valid() && Onward(old(view.homes), view.homes) && fresh(view.homes.Keys - old(view.homes.Keys))
      ensures st == Catchup(old(st), script) && unchanged(`idledCycles)
    {
      hide Queue, Pools, Placed, Onward, Move, RunFifo;
      OnwardSelf(view.homes);
      if hasTsEvents { MoveEvents(); }
      ghost var before := view.homes;
      ProcessFifoWaitEvents(script);
      OnwardStep(old(view.homes), before, view.homes);
    }

    /** What was asked, cut to the next event. */
    method CyclesDown(maxIdle: S32) returns (cyclesDown: S32)
      requires Valid()
      ensures cyclesDown == IdleCycles(st, maxIdle)
    {
      hide Queue, Pools, Placed;
      cyclesDown := if maxIdle > 0 then maxIdle else 1;
      QueueHead(first, view.main, st.main);
      if first != null && cyclesDown > 0 {
        QueueNode(first, view.main, st.main, 0);
        var cyclesNextEvent := Wrap64(first.time - globalTimer);
        if cyclesNextEvent <= 0 {
          cyclesDown := 0;
        } else if cyclesNextEvent < cyclesDown {
          cyclesDown := cyclesNextEvent;
        }
      }
    }

    method Idle(maxIdle: S32, script: seq<seq<Request>>)
      requires Valid()
      requires globalTimer + IdleCycles(st, maxIdle) <= S64_MAX && idledCycles + IdleCycles(st, maxIdle) <= S64_MAX
      modifies this, view.homes.Keys
      ensures Valid() && Onward(old(view.homes), view.homes) && fresh(view.homes.Keys - old(view.homes.Keys))
      ensures var c := IdleCycles(old(st), maxIdle);
              st == Catchup(old(st).(now := old(st).now + c), script) && idledCycles == old(idledCycles) + c
      ensures Waits(old(st), maxIdle, globalTimer - old(globalTimer))
      ensures Waits(old(st), maxIdle, idledCycles - old(idledCycles))
    {
      hide Queue, Pools, Placed, Onward, Catchup;
      IdleCyclesAre(st, maxIdle);
      CatchupNow(st.(now := st.now + IdleCycles(st, maxIdle)), script);
      var cyclesDown := CyclesDown(maxIdle);
      hide Waits, IdleCycles;
      if cyclesDown > 0 {
        idledCycles := idledCycles + cyclesDown;
        globalTimer := globalTimer + cyclesDown;
      }
      st := st.(now := globalTimer);
      CatchUp(script);
    }

    method IsScheduled(kind: S32) returns (found: bool)
      requires Valid()
      ensures found <==> exists i :: 0 <= i < |st.main| && st.main[i].kind == kind
    {
      hide Queue, Pools, Placed;
      var e := first;
      ghost var k := 0;
      QueueHead(first, view.main, st.main);
      while e != null
        invariant k <= |view.main| == |st.main| && e == At(view.main, k)
        invariant forall i :: 0 <= i < k ==> st.main[i].kind != kind
        decreases |view.main| - k
      {
        QueueNode(first, view.main, st.main, k);
        if e.kind == kind { return true; }
        e := e.next;
        k := k + 1;
      }
      return false;
    }

    // -------------------------------------------------------------- the end

    /** Deletes the node on top of a pool. Asserted: it exists, so it was not deleted before. */
    method DeletePooled(ghost all: set<Event>, ghost deleted: seq<Event>) returns (ghost more: seq<Event>)
      requires Valid() && eventPool != null && Gone(deleted, all, view.homes)
      modifies this`eventPool, this`view
      ensures Valid() && Gone(more, all, view.homes) && view.main == old(view.main) && view.ts == old(view.ts)
      ensures view.homes.Keys < old(view.homes.Keys)
      ensures NoneHeld(old(view.homes)) ==> NoneHeld(view.homes)
      ensures eventPool == At(view.pool, 0)
    {
      hide Queue, Placed, Chain, Cut, Gone, NoneHeld;
      var ev := eventPool;
      ChainPop(ev, view.pool);
      PlacedTake(view, Pool, 0);
      more := DeleteStep(view, Pool, all, deleted);
      eventPool := ev.next;
      ChainHead(eventPool, view.pool[1..]);
      view := view.Take(Pool, 0).Forget(ev);
    }

    method DeleteTsPooled(ghost all: set<Event>, ghost deleted: seq<Event>) returns (ghost more: seq<Event>)
      requires Valid() && eventTsPool != null && Gone(deleted, all, view.homes)
      modifies this`eventTsPool, this`view
      ensures Valid() && Gone(more, all, view.homes)
      ensures view.main == old(view.main) && view.ts == old(view.ts) && view.pool == old(view.pool)
      ensures view.homes.Keys < old(view.homes.Keys)
      ensures NoneHeld(old(view.homes)) ==> NoneHeld(view.homes)
      ensures eventTsPool == At(view.tsPool, 0)
    {
      hide Queue, Placed, Chain, Cut, Gone, NoneHeld;
      var ev := eventTsPool;
      ChainPop(ev, view.tsPool);
      PlacedTake(view, TsPool, 0);
      more := DeleteStep(view, TsPool, all, deleted);
      eventTsPool := ev.next;
      ChainHead(eventTsPool, view.tsPool[1..]);
      view := view.Take(TsPool, 0).Forget(ev);
    }

    /** With nothing scheduled meanwhile and no node in use, every node is deleted, each of them once. */
    method Shutdown() returns (ghost deleted: seq<Event>)
      requires Valid() && NoneHeld(view.homes)
      modifies this, view.homes.Keys
      ensures Valid() && view == View(map[], [], [], [], []) && st == old(st).(main := [], ts := [], flag := false)
      ensures Distinct(deleted) && forall e :: e in deleted <==> e in old(view.homes)
    {
      hide Queue, Pools, Placed, Onward, Distinct, Gone, NoneHeld;
      ghost var all := view.homes.Keys;
      MoveEvents();
      ghost var between := view.homes;
      ClearPendingEvents();
      RehomedOnward(between, view.homes, Main, Pool);
      OnwardStep(old(view.homes), between, view.homes);
      NoneHeldOnward(old(view.homes), view.homes);
      QueueHead(first, view.main, st.main);
      QueueHead(tsFirst, view.ts, st.ts);
      deleted := [];
      GoneStart(view.homes);
      PoolHeads(eventPool, view.pool, eventTsPool, view.tsPool);
      while eventPool != null
        invariant Valid() && Gone(deleted, all, view.homes) && NoneHeld(view.homes)
        invariant view.main == [] && view.ts == [] && eventPool == At(view.pool, 0)
        invariant st == old(st).(main := [], ts := [], flag := false)
        decreases view.homes.Keys
      {
        deleted := DeletePooled(all, deleted);
      }
      PoolHeads(eventPool, view.pool, eventTsPool, view.tsPool);
      while eventTsPool != null
        invariant Valid() && Gone(deleted, all, view.homes) && NoneHeld(view.homes)
        invariant view.main == [] && view.ts == [] && view.pool == [] && eventTsPool == At(view.tsPool, 0)
        invariant st == old(st).(main := [], ts := [], flag := false)
        decreases view.homes.Keys
      {
        deleted := DeleteTsPooled(all, deleted);
      }
      AllGone(view, all, deleted);
    }
  }
}

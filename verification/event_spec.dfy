/** The scheduler of core/core_timing.cpp on values: what one operation does to the two event
    queues, the flag, the clock and the log of fired events, with no pointers in sight.
    The class in core_timing.dfy is proved against these functions. */
module EventSpec {
  import opened Bytes

  const S64_MIN: int := -0x8000_0000_0000_0000
  const S64_MAX: int := 0x7FFF_FFFF_FFFF_FFFF

  type S64 = x: int | S64_MIN <= x <= S64_MAX
  type U64 = x: int | 0 <= x < 0x1_0000_0000_0000_0000

  /** The value a 64-bit two's complement register keeps of x. */
  function Wrap64(x: int): (r: S64)
    ensures S64_MIN <= x <= S64_MAX ==> r == x
    ensures (x - r) % 0x1_0000_0000_0000_0000 == 0
  {
    (x + 0x8000_0000_0000_0000) % 0x1_0000_0000_0000_0000 - 0x8000_0000_0000_0000
  }

  /** The payload of one event node. */
  datatype Ev = Ev(time: S64, userdata: U64, kind: S32)

  /** What a removal looks for: a type alone, or a type together with its user data. */
  datatype Match = ByKind(kind: S32) | ByKindAndData(kind: S32, userdata: U64) {
    predicate Hits(e: Ev) {
      e.kind == kind && (ByKindAndData? ==> e.userdata == userdata)
    }
  }

  /** What a callback may ask of the scheduler. */
  datatype Request =
    | Schedule(delay: S64, kind: S32, userdata: U64)
    | ScheduleTs(delay: S64, kind: S32, userdata: U64)
    | Remove(match_: Match)
    | RemoveTs(match_: Match)

  /** One callback invocation: the event and the clock it was called at. */
  datatype Firing = Firing(ev: Ev, at: S64) {
    /** The second argument of the callback. */
    function Late(): S32 { Wrap32(at - ev.time) }
  }

  datatype Sched = Sched(main: seq<Ev>, ts: seq<Ev>, flag: bool, now: S64, fired: seq<Firing>)

  // ---------------------------------------------------------------- queue operations

  /** Where the list walk stops: the first node that is strictly later. */
  function Spot(q: seq<Ev>, time: int): (p: nat)
    ensures p <= |q|
    ensures forall i :: 0 <= i < p ==> q[i].time <= time
    ensures p < |q| ==> time < q[p].time
  {
    if q == [] || time < q[0].time then 0 else 1 + Spot(q[1..], time)
  }

  function Insert(q: seq<Ev>, e: Ev): seq<Ev> {
    var p := Spot(q, e.time);
    q[..p] + [e] + q[p..]
  }

  function InsertAll(q: seq<Ev>, es: seq<Ev>): seq<Ev>
    decreases es
  {
    if es == [] then q else InsertAll(Insert(q, es[0]), es[1..])
  }

  function Without(q: seq<Ev>, m: Match): seq<Ev> {
    if q == [] then [] else (if m.Hits(q[0]) then [] else [q[0]]) + Without(q[1..], m)
  }

  /** Cycles left of the last event hit, or acc when there is none. */
  function CyclesLeft(q: seq<Ev>, m: Match, now: S64, acc: S64): S64 {
    if q == [] then acc
    else CyclesLeft(q[1..], m, now, if m.Hits(q[0]) then Wrap64(q[0].time - now) else acc)
  }

  /** A sweep for m that started on q0 with nothing found has kept q[..k], has q[k..] to go, and has
      seen acc as the cycles left of its last hit. */
  ghost predicate Swept(q0: seq<Ev>, m: Match, now: S64, q: seq<Ev>, k: nat, acc: S64) {
    && k <= |q|
    && q[..k] + Without(q[k..], m) == Without(q0, m)
    && CyclesLeft(q[k..], m, now, acc) == CyclesLeft(q0, m, now, 0)
  }

  lemma SweptStart(q: seq<Ev>, m: Match, now: S64)
    ensures Swept(q, m, now, q, 0, 0)
  {
  }

  lemma SweptHit(q0: seq<Ev>, m: Match, now: S64, q: seq<Ev>, k: nat, acc: S64)
    requires Swept(q0, m, now, q, k, acc) && k < |q| && m.Hits(q[k])
    ensures Swept(q0, m, now, q[..k] + q[k + 1..], k, Wrap64(q[k].time - now))
  {
    var r := q[..k] + q[k + 1..];
    assert r[..k] == q[..k] && r[k..] == q[k + 1..] && q[k..][1..] == q[k + 1..];
  }

  lemma SweptKeep(q0: seq<Ev>, m: Match, now: S64, q: seq<Ev>, k: nat, acc: S64)
    requires Swept(q0, m, now, q, k, acc) && k < |q| && !m.Hits(q[k])
    ensures Swept(q0, m, now, q, k + 1, acc)
  {
    assert q[..k + 1] == q[..k] + [q[k]] && q[k..][1..] == q[k + 1..];
  }

  lemma SweptEnd(q0: seq<Ev>, m: Match, now: S64, q: seq<Ev>, acc: S64)
    requires Swept(q0, m, now, q, |q|, acc)
    ensures q == Without(q0, m) && acc == CyclesLeft(q0, m, now, 0)
  {
    assert q[..|q|] == q;
  }

  // ---------------------------------------------------------------- whole operations

  function Obey(st: Sched, r: Request): Sched {
    match r
    case Schedule(delay, kind, userdata) =>
      st.(main := Insert(st.main, Ev(Wrap64(st.now + delay), userdata, kind)))
    case ScheduleTs(delay, kind, userdata) =>
      st.(ts := st.ts + [Ev(Wrap64(st.now + delay), userdata, kind)], flag := true)
    case Remove(m) => st.(main := Without(st.main, m))
    case RemoveTs(m) => st.(ts := Without(st.ts, m))
  }

  function ObeyAll(st: Sched, rs: seq<Request>): Sched
    decreases rs
  {
    if rs == [] then st else ObeyAll(Obey(st, rs[0]), rs[1..])
  }

  function Move(st: Sched): Sched {
    st.(main := InsertAll(st.main, st.ts), ts := [], flag := false)
  }

  predicate HeadDue(st: Sched) {
    st.main != [] && st.main[0].time <= st.now
  }

  /** Takes the head off, calls its callback, and lets the callback's requests take effect. */
  function Fire(st: Sched, batch: seq<Request>): Sched
    requires HeadDue(st)
  {
    ObeyAll(st.(main := st.main[1..], fired := st.fired + [Firing(st.main[0], st.now)]), batch)
  }

  /** Requests still to come; a callback beyond the script asks for nothing. */
  function Pending(script: seq<seq<Request>>): nat {
    if script == [] then 0 else |script[0]| + Pending(script[1..])
  }

  function FirstBatch(script: seq<seq<Request>>): seq<Request> {
    if script == [] then [] else script[0]
  }

  function Rest(script: seq<seq<Request>>): seq<seq<Request>> {
    if script == [] then [] else script[1..]
  }

  lemma {:induction false} WithoutLength(q: seq<Ev>, m: Match)
    ensures |Without(q, m)| <= |q|
  {
    if q != [] { WithoutLength(q[1..], m); }
  }

  lemma {:induction false} ObeyAllGrows(st: Sched, rs: seq<Request>)
    ensures |ObeyAll(st, rs).main| <= |st.main| + |rs|
    decreases rs
  {
    if rs != [] {
      match rs[0] {
        case Remove(m) => WithoutLength(st.main, m);
        case _ =>
      }
      ObeyAllGrows(Obey(st, rs[0]), rs[1..]);
    }
  }

  lemma FireShrinks(st: Sched, script: seq<seq<Request>>)
    requires HeadDue(st)
    ensures |Fire(st, FirstBatch(script)).main| + Pending(Rest(script)) < |st.main| + Pending(script)
  {
    ObeyAllGrows(st.(main := st.main[1..], fired := st.fired + [Firing(st.main[0], st.now)]), FirstBatch(script));
  }

  /** The firing loop: every due head, in turn, with the callbacks' requests in between. */
  function RunFifo(st: Sched, script: seq<seq<Request>>): Sched
    decreases |st.main| + Pending(script)
  {
    if !HeadDue(st) then st
    else
      FireShrinks(st, script);
      RunFifo(Fire(st, FirstBatch(script)), Rest(script))
  }

  /** What Advance and Idle do once the clock has moved. */
  function Catchup(st: Sched, script: seq<seq<Request>>): Sched {
    RunFifo(if st.flag then Move(st) else st, script)
  }

  /** Cycles that Idle lets pass: up to the next event of the main queue, at most what was asked. */
  function IdleCycles(st: Sched, maxIdle: S32): (c: S32)
    ensures 0 <= c
  {
    var want: S32 := if maxIdle > 0 then maxIdle else 1;
    if st.main == [] then want
    else
      var next := Wrap64(st.main[0].time - st.now);
      if next <= 0 then 0 else if next < want then next else want
  }

  // ---------------------------------------------------------------- what these functions mean

  ghost predicate Sorted(q: seq<Ev>) {
    forall i, j :: 0 <= i < j < |q| ==> q[i].time <= q[j].time
  }

  lemma SpotSplits(q: seq<Ev>, time: int)
    requires Sorted(q)
    ensures forall i :: Spot(q, time) <= i < |q| ==> time < q[i].time
  {
    var p := Spot(q, time);
    if p < |q| {
      assert forall i :: p < i < |q| ==> q[p].time <= q[i].time;
    }
  }

  /** Insertion keeps a sorted queue sorted; e goes behind all that are due no later and before all
      that are due later, and the others keep their order. */
  lemma InsertStable(q: seq<Ev>, e: Ev)
    requires Sorted(q)
    ensures Sorted(Insert(q, e)) && multiset(Insert(q, e)) == multiset(q) + multiset{e}
    ensures var p := Spot(q, e.time);
      && Insert(q, e)[p] == e && Insert(q, e)[..p] == q[..p] && Insert(q, e)[p + 1..] == q[p..]
      && (forall i :: 0 <= i < p ==> q[i].time <= e.time) && (forall i :: p <= i < |q| ==> e.time < q[i].time)
  {
    SpotSplits(q, e.time);
    SpliceFacts(q, Spot(q, e.time), e);
    SpliceSorted(q, Spot(q, e.time), e);
  }

  lemma SpliceFacts(q: seq<Ev>, p: nat, e: Ev)
    requires p <= |q|
    ensures var r := q[..p] + [e] + q[p..];
      r[p] == e && r[..p] == q[..p] && r[p + 1..] == q[p..] && multiset(r) == multiset(q) + multiset{e}
  {
    assert q == q[..p] + q[p..];
  }

  lemma SplicedAtEnd(q: seq<Ev>, e: Ev)
    ensures q[..|q|] + [e] + q[|q|..] == q + [e]
  {
  }

  lemma SpliceSorted(q: seq<Ev>, p: nat, e: Ev)
    requires Sorted(q) && p <= |q|
    requires (forall i :: 0 <= i < p ==> q[i].time <= e.time) && (forall i :: p <= i < |q| ==> e.time < q[i].time)
    ensures Sorted(q[..p] + [e] + q[p..])
  {
    var r := q[..p] + [e] + q[p..];
    forall i, j | 0 <= i < j < |r| ensures r[i].time <= r[j].time {
      var a := if i < p then q[i] else if i == p then e else q[i - 1];
      var b := if j < p then q[j] else if j == p then e else q[j - 1];
      assert r[i] == a && r[j] == b;
    }
  }

  /** Removal takes out every event it looks for and no other one. */
  lemma {:induction false} WithoutCounts(q: seq<Ev>, m: Match, e: Ev)
    ensures multiset(Without(q, m))[e] == if m.Hits(e) then 0 else multiset(q)[e]
  {
    if q != [] {
      WithoutCounts(q[1..], m, e);
      assert q == [q[0]] + q[1..];
    }
  }

  lemma WithoutFirst(q: seq<Ev>, m: Match)
    requires q != []
    ensures Without(q, m) == (if m.Hits(q[0]) then [] else [q[0]]) + Without(q[1..], m)
  {
  }

  /** Removal takes pieces apart independently, so what stays keeps its order. */
  lemma {:induction false} WithoutConcat(p: seq<Ev>, q: seq<Ev>, m: Match)
    ensures Without(p + q, m) == Without(p, m) + Without(q, m)
  {
    if p == [] {
      assert p + q == q;
    } else {
      WithoutConcat(p[1..], q, m);
      WithoutFirst(p, m);
      WithoutFirst(p + q, m);
      assert (p + q)[1..] == p[1..] + q && (p + q)[0] == p[0];
      Associative(if m.Hits(p[0]) then [] else [p[0]], Without(p[1..], m), Without(q, m));
    }
  }

  lemma Associative<T>(a: seq<T>, b: seq<T>, c: seq<T>)
    ensures a + (b + c) == (a + b) + c
  {
  }

  /** The cycles left are those of the last event hit, and 0 (or what went before) if none is. */
  lemma {:induction false} CyclesLeftOfLast(q: seq<Ev>, m: Match, now: S64, acc: S64, i: nat)
    requires i <= |q| && (i < |q| ==> m.Hits(q[i]))
    requires if i < |q| then forall j :: i < j < |q| ==> !m.Hits(q[j]) else forall j :: 0 <= j < |q| ==> !m.Hits(q[j])
    ensures CyclesLeft(q, m, now, acc) == if i < |q| then Wrap64(q[i].time - now) else acc
    decreases q
  {
    if q != [] {
      var acc' := if m.Hits(q[0]) then Wrap64(q[0].time - now) else acc;
      if i == 0 {
        CyclesLeftOfLast(q[1..], m, now, acc', |q| - 1);
      } else {
        CyclesLeftOfLast(q[1..], m, now, acc', i - 1);
      }
    }
  }

  lemma {:induction false} WithoutSorted(q: seq<Ev>, m: Match)
    requires Sorted(q)
    ensures Sorted(Without(q, m)) && forall e :: e in Without(q, m) ==> e in q
  {
    if q != [] {
      WithoutSorted(q[1..], m);
      forall e | e in Without(q[1..], m) ensures q[0].time <= e.time && e in q {
        var k :| 0 <= k < |q| - 1 && q[1..][k] == e;
        assert q[k + 1] == e;
      }
    }
  }

  lemma {:induction false} ObeyAllSorted(st: Sched, rs: seq<Request>)
    requires Sorted(st.main)
    ensures Sorted(ObeyAll(st, rs).main) && ObeyAll(st, rs).now == st.now
    decreases rs
  {
    hide Insert, Without, Sorted;
    if rs != [] {
      match rs[0] {
        case Schedule(d, k, u) => InsertStable(st.main, Ev(Wrap64(st.now + d), u, k));
        case Remove(m) => WithoutSorted(st.main, m);
        case _ =>
      }
      ObeyAllSorted(Obey(st, rs[0]), rs[1..]);
    }
  }

  lemma {:induction false} InsertAllSorted(q: seq<Ev>, es: seq<Ev>)
    requires Sorted(q)
    ensures Sorted(InsertAll(q, es)) && multiset(InsertAll(q, es)) == multiset(q) + multiset(es)
    decreases es
  {
    hide Insert, Sorted, Spot;
    if es != [] {
      InsertStable(q, es[0]);
      InsertAllSorted(Insert(q, es[0]), es[1..]);
      assert es == [es[0]] + es[1..];
    }
  }

  /** The firing loop keeps the queue sorted, ends with nothing due in it, and appends to the log
      events due by the clock. */
  lemma {:induction false} RunFifoEnds(st: Sched, script: seq<seq<Request>>)
    requires Sorted(st.main)
    ensures var r := RunFifo(st, script);
      && Sorted(r.main) && r.now == st.now && (forall e :: e in r.main ==> r.now < e.time)
      && st.fired <= r.fired
      && forall i :: |st.fired| <= i < |r.fired| ==> r.fired[i].ev.time <= r.fired[i].at == st.now
    decreases |st.main| + Pending(script)
  {
    if HeadDue(st) {
      var batch := FirstBatch(script);
      var s1 := st.(main := st.main[1..], fired := st.fired + [Firing(st.main[0], st.now)]);
      ObeyAllSorted(s1, batch);
      ObeyAllFired(s1, batch);
      FireShrinks(st, script);
      RunFifoEnds(Fire(st, batch), Rest(script));
    }
  }

  lemma {:induction false} ObeyAllFired(st: Sched, rs: seq<Request>)
    ensures ObeyAll(st, rs).fired == st.fired
    decreases rs
  {
    if rs != [] { ObeyAllFired(Obey(st, rs[0]), rs[1..]); }
  }

  /** When Advance or Idle has caught up, nothing in the main queue is due. */
  lemma CatchupLeavesNothingDue(st: Sched, script: seq<seq<Request>>)
    requires Sorted(st.main)
    ensures var r := Catchup(st, script);
      Sorted(r.main) && r.now == st.now && forall e :: e in r.main ==> st.now < e.time
  {
    InsertAllSorted(st.main, st.ts);
    RunFifoEnds(if st.flag then Move(st) else st, script);
  }

  /** Idle lets the clock reach the next event of the main queue, but not pass it; it stands still
      exactly when that event is due. (An overdue of more than 2^63 cycles is undefined in the source.) */
  lemma IdleStopsAtNext(st: Sched, maxIdle: S32)
    requires Sorted(st.main) && 0 <= st.now
    requires st.main != [] ==> st.now - st.main[0].time <= S64_MAX + 1
    ensures IdleCycles(st, maxIdle) == 0 <==> HeadDue(st)
    ensures forall i :: 0 <= i < |st.main| && st.now < st.main[i].time ==>
              st.now + IdleCycles(st, maxIdle) <= st.main[i].time
  {
    assert forall i :: 0 < i < |st.main| ==> st.main[0].time <= st.main[i].time;
  }

  /** In numbers: the whole of what was asked (at least 1) when no event is that near, and the time to the
      next event otherwise. */
  lemma IdleCyclesAre(st: Sched, maxIdle: S32)
    ensures Waits(st, maxIdle, IdleCycles(st, maxIdle))
  {
  }

  /** d, the time to the next event, may not overflow: that is undefined. */
  predicate Waits(st: Sched, maxIdle: S32, c: int) {
    var want := if maxIdle > 0 then maxIdle else 1;
    if st.main == [] then c == want
    else
      var d := st.main[0].time - st.now;
      && (want <= d <= S64_MAX ==> c == want)
      && (0 < d < want ==> c == d)
      && (S64_MIN <= d <= 0 ==> c == 0)
  }

  lemma CatchupNow(st: Sched, script: seq<seq<Request>>)
    ensures Catchup(st, script).now == st.now
  {
    RunFifoNow(if st.flag then Move(st) else st, script);
  }

  lemma {:induction false} ObeyAllNow(st: Sched, rs: seq<Request>)
    ensures ObeyAll(st, rs).now == st.now
    decreases rs
  {
    if rs != [] { ObeyAllNow(Obey(st, rs[0]), rs[1..]); }
  }

  /** Catching up takes no time. */
  lemma {:induction false} RunFifoNow(st: Sched, script: seq<seq<Request>>)
    ensures RunFifo(st, script).now == st.now
    decreases |st.main| + Pending(script)
  {
    if HeadDue(st) {
      var batch := FirstBatch(script);
      ObeyAllNow(st.(main := st.main[1..], fired := st.fired + [Firing(st.main[0], st.now)]), batch);
      FireShrinks(st, script);
      RunFifoNow(Fire(st, batch), Rest(script));
    }
  }

  /** An event that is scheduled or handed off is due its delay after now, with its type and user data. */
  lemma DueAfterDelay(st: Sched, delay: S64, kind: S32, userdata: U64)
    requires S64_MIN <= st.now + delay <= S64_MAX
    ensures var e, r := Ev(st.now + delay, userdata, kind), Obey(st, Request.Schedule(delay, kind, userdata));
      multiset(r.main) == multiset(st.main) + multiset{e} && r == st.(main := r.main)
    ensures Obey(st, ScheduleTs(delay, kind, userdata))
         == st.(ts := st.ts + [Ev(st.now + delay, userdata, kind)], flag := true)
  {
    hide Wrap64, Insert;
    WrapsNot(st.now + delay);
    InsertAdds(st.main, Ev(st.now + delay, userdata, kind));
  }

  lemma WrapsNot(x: S64)
    ensures Wrap64(x) == x
  {
  }

  lemma InsertAdds(q: seq<Ev>, e: Ev)
    ensures multiset(Insert(q, e)) == multiset(q) + multiset{e}
  {
    SpliceFacts(q, Spot(q, e.time), e);
  }

  /** A removal by type takes the events of that type, and one by type and user data those that have both. */
  lemma RemovedAre(q: seq<Ev>, kind: S32, userdata: U64, e: Ev)
    ensures multiset(Without(q, ByKind(kind)))[e] == if e.kind == kind then 0 else multiset(q)[e]
    ensures multiset(Without(q, ByKindAndData(kind, userdata)))[e]
         == if e.kind == kind && e.userdata == userdata then 0 else multiset(q)[e]
  {
    WithoutCounts(q, ByKind(kind), e);
    WithoutCounts(q, ByKindAndData(kind, userdata), e);
  }

  /** Where callbacks ask for nothing, the events due by now fire, in queue order, at now; the others stay. */
  lemma {:induction false} DueOnesFire(st: Sched, n: nat)
    requires n <= |st.main| && forall i :: 0 <= i < n ==> st.main[i].time <= st.now
    requires n < |st.main| ==> st.now < st.main[n].time
    ensures RunFifo(st, []) == st.(main := st.main[n..], fired := st.fired + AllAt(st.main[..n], st.now))
    decreases n
  {
    RunFifoNext(st);
    if n > 0 {
      var next := st.(main := st.main[1..], fired := st.fired + [Firing(st.main[0], st.now)]);
      DueOnesFire(next, n - 1);
      hide RunFifo;
      AllAtNext(st.main, n, st.now);
      Associative(st.fired, [Firing(st.main[0], st.now)], AllAt(next.main[..n - 1], st.now));
      assert next.main[n - 1..] == st.main[n..];
    } else {
      assert st.main[0..] == st.main && st.fired + AllAt(st.main[..0], st.now) == st.fired;
    }
  }

  lemma RunFifoNext(st: Sched)
    ensures HeadDue(st) ==>
      RunFifo(st, []) == RunFifo(st.(main := st.main[1..], fired := st.fired + [Firing(st.main[0], st.now)]), [])
    ensures !HeadDue(st) ==> RunFifo(st, []) == st
  {
  }

  lemma AllAtNext(q: seq<Ev>, n: nat, now: S64)
    requires 0 < n <= |q|
    ensures AllAt(q[..n], now) == [Firing(q[0], now)] + AllAt(q[1..][..n - 1], now)
  {
  }

  function AllAt(q: seq<Ev>, now: S64): (r: seq<Firing>)
    ensures |r| == |q| && forall i :: 0 <= i < |q| ==> r[i] == Firing(q[i], now)
  {
    seq(|q|, i requires 0 <= i < |q| => Firing(q[i], now))
  }

  /** Where callbacks ask for nothing, of all that waited what is due fires and the rest is in the main queue.
      What other threads handed off takes part exactly if the flag is up; otherwise it waits on. */
  lemma CatchupTakesAll(st: Sched)
    requires Sorted(st.main)
    ensures var r, moved := Catchup(st, []), if st.flag then st.ts else [];
      && r.ts == (if st.flag then [] else st.ts) && !r.flag && st.fired <= r.fired
      && multiset(r.main) + multiset(EvsIn(r.fired[|st.fired|..])) == multiset(st.main) + multiset(moved)
      && (forall i :: |st.fired| <= i < |r.fired| ==> r.fired[i].ev.time <= st.now)
      && (forall e :: e in r.main ==> st.now < e.time)
  {
    InsertAllSorted(st.main, st.ts);
    RunTakesDue(if st.flag then Move(st) else st);
    hide InsertAll, RunFifo, EvsIn, Sorted;
  }

  lemma RunTakesDue(st: Sched)
    requires Sorted(st.main)
    ensures var r := RunFifo(st, []);
      && r.ts == st.ts && r.flag == st.flag && st.fired <= r.fired
      && multiset(r.main) + multiset(EvsIn(r.fired[|st.fired|..])) == multiset(st.main)
      && (forall i :: |st.fired| <= i < |r.fired| ==> r.fired[i].ev.time <= st.now)
      && (forall e :: e in r.main ==> st.now < e.time)
  {
    var n := FirstLate(st.main, st.now);
    DueOnesFire(st, n);
    FiredAre(st.fired, st.main, n, st.now);
    hide *;
  }

  lemma FiredAre(fired: seq<Firing>, q: seq<Ev>, n: nat, now: S64)
    requires n <= |q|
    ensures var r := fired + AllAt(q[..n], now);
      && fired <= r && multiset(q[n..]) + multiset(EvsIn(r[|fired|..])) == multiset(q)
      && forall i :: |fired| <= i < |r| ==> r[i].ev in q[..n]
  {
    var more := AllAt(q[..n], now);
    assert (fired + more)[|fired|..] == more;
    assert EvsIn(more) == q[..n];
    assert q == q[..n] + q[n..];
    forall i | |fired| <= i < |fired + more| ensures (fired + more)[i].ev in q[..n] {
      assert (fired + more)[i] == more[i - |fired|];
    }
  }

  function EvsIn(fired: seq<Firing>): (r: seq<Ev>)
    ensures |r| == |fired| && forall i :: 0 <= i < |fired| ==> r[i] == fired[i].ev
  {
    seq(|fired|, i requires 0 <= i < |fired| => fired[i].ev)
  }

  lemma FirstLate(q: seq<Ev>, now: S64) returns (n: nat)
    requires Sorted(q)
    ensures n <= |q| && (forall i :: 0 <= i < n ==> q[i].time <= now) && (forall i :: n <= i < |q| ==> now < q[i].time)
  {
    n := Spot(q, now);
    SpotSplits(q, now);
  }
}

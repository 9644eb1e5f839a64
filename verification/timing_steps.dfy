/** The scheduler in steps: the CPU thread and any number of other threads, with every access to the
    flag, the clock and the lock a step of its own. The main queue carries tickets here: the
    order in which entries came into it, and how many events had fired by then. */
module TimingSteps {
  import opened Bytes
  import opened EventSpec

  /** An event in a queue, and what is noted about it. */
  datatype Queued<T> = Queued(ev: Ev, note: T)

  /** In the main queue: the place in the order of entry, and the firings found done. */
  datatype Stamp = Stamp(ticket: nat, since: nat)

  type Entry = Queued<Stamp>

  datatype Shot = Shot(entry: Entry, at: S64)

  /** In the thread-safe queue: the number of the hand-off. */
  type Item = Queued<nat>

  /** Where the CPU thread is; direct is for a call of MoveEvents that goes back to guest code. */
  datatype Cpu =
    | Outside     // running guest code
    | Ticked      // the clock has moved, the flag has not been looked at
    | Flagged(direct: bool)  // in MoveEvents, has not cleared the flag
    | Cleared(direct: bool)  // cleared the flag, has not got the lock
    | Looping     // in the loop of ProcessFifoWaitEvents
    | InCallback

  /** Where a thread is in ScheduleEvent_Threadsafe. It has the lock everywhere but at Away. */
  datatype Other =
    | Away
    | Locked(delay: S64, kind: S32, userdata: U64)
    | Timed(ev: Ev)
    | Linked
    | Signalled

  datatype State = State(
    now: S64, flag: bool, lock: bool, cpu: Cpu, others: map<nat, Other>,
    main: seq<Entry>, ts: seq<Item>, shots: seq<Shot>,
    tickets: nat,
    issued: seq<Item>, moved: seq<Item>, dropped: seq<Item>)  // hand-offs made, moved over, unscheduled

  datatype Step =
    | Advance
    | Idle(maxIdle: S32)
    | CallMove
    | CallFifo
    | LoadFlag
    | ClearFlag
    | MoveLocked
    | Fire
    | EndCallback
    | Return
    | Schedule(delay: S64, kind: S32, userdata: U64)
    | Unschedule(match_: Match)
    | Acquire(t: nat, tDelay: S64, tKind: S32, tUserdata: U64)
    | ReadClock(t: nat)
    | Link(t: nat)
    | SetFlag(t: nat)
    | Release(t: nat)
    | UnscheduleTs(match_: Match)

  function Evs<T>(q: seq<Queued<T>>): (r: seq<Ev>)
    ensures |r| == |q|
    ensures forall i :: 0 <= i < |q| ==> r[i] == q[i].ev
  {
    seq(|q|, i requires 0 <= i < |q| => q[i].ev)
  }

  /** AddEventToQueue. */
  function Enter(q: seq<Entry>, e: Entry): seq<Entry> {
    var p := Spot(Evs(q), e.ev.time);
    q[..p] + [e] + q[p..]
  }

  function EnterAll(q: seq<Entry>, es: seq<Item>, ticket: nat, since: nat): seq<Entry>
    decreases es
  {
    if es == [] then q
    else EnterAll(Enter(q, Queued(es[0].ev, Stamp(ticket, since))), es[1..], ticket + 1, since)
  }

  function Filter<T>(q: seq<T>, keep: T -> bool): seq<T> {
    if q == [] then [] else (if keep(q[0]) then [q[0]] else []) + Filter(q[1..], keep)
  }

  function Misses<T>(m: Match): Queued<T> -> bool { (x: Queued<T>) => !m.Hits(x.ev) }

  function HitBy<T>(m: Match): Queued<T> -> bool { (x: Queued<T>) => m.Hits(x.ev) }

  function Pc(s: State, t: nat): Other {
    if t in s.others then s.others[t] else Away
  }

  /** The value-level state of this state: what the scheduler's methods are specified on. */
  function Erase(s: State): Sched {
    Sched(Evs(s.main), Evs(s.ts), s.flag, s.now,
          seq(|s.shots|, i requires 0 <= i < |s.shots| => Firing(s.shots[i].entry.ev, s.shots[i].at)))
  }

  predicate Due(s: State) {
    s.main != [] && s.main[0].ev.time <= s.now
  }

  predicate Enabled(s: State, step: Step) {
    match step
    case Advance => s.cpu == Outside && s.now < S64_MAX
    case Idle(max) => s.cpu == Outside && s.now + IdleCycles(Erase(s), max) <= S64_MAX
    case CallMove => s.cpu == Outside
    case CallFifo => s.cpu == Outside
    case LoadFlag => s.cpu == Ticked
    case ClearFlag => s.cpu.Flagged?
    case MoveLocked => s.cpu.Cleared? && !s.lock
    case Fire => s.cpu == Looping && Due(s)
    case EndCallback => s.cpu == InCallback
    case Return => s.cpu == Looping && !Due(s)
    case Schedule(_, _, _) => s.cpu == Outside || s.cpu == InCallback
    case Unschedule(_) => s.cpu == Outside || s.cpu == InCallback
    case Acquire(t, _, _, _) => !s.lock && Pc(s, t) == Away
    case ReadClock(t) => Pc(s, t).Locked?
    case Link(t) => Pc(s, t).Timed?
    case SetFlag(t) => Pc(s, t) == Linked
    case Release(t) => Pc(s, t) == Signalled
    case UnscheduleTs(_) => !s.lock
  }

  function Next(s: State, step: Step): State
    requires Enabled(s, step)
  {
    match step
    case Advance => s.(now := s.now + 1, cpu := Ticked)
    case Idle(max) => s.(now := s.now + IdleCycles(Erase(s), max), cpu := Ticked)
    case CallMove => s.(cpu := Flagged(true))
    case CallFifo => s.(cpu := Looping)
    case LoadFlag => s.(cpu := if s.flag then Flagged(false) else Looping)
    case ClearFlag => s.(flag := false, cpu := Cleared(s.cpu.direct))
    case MoveLocked =>
      s.(main := EnterAll(s.main, s.ts, s.tickets, |s.shots|), ts := [], tickets := s.tickets + |s.ts|,
         moved := s.moved + s.ts, cpu := if s.cpu.direct then Outside else Looping)
    case Fire => s.(main := s.main[1..], shots := s.shots + [Shot(s.main[0], s.now)], cpu := InCallback)
    case EndCallback => s.(cpu := Looping)
    case Return => s.(cpu := Outside)
    case Schedule(delay, kind, userdata) =>
      s.(main := Enter(s.main, Queued(Ev(Wrap64(s.now + delay), userdata, kind), Stamp(s.tickets, |s.shots|))),
         tickets := s.tickets + 1)
    case Unschedule(m) => s.(main := Filter(s.main, Misses(m)))
    case Acquire(t, delay, kind, userdata) => s.(lock := true, others := s.others[t := Locked(delay, kind, userdata)])
    case ReadClock(t) =>
      var c := s.others[t];
      s.(others := s.others[t := Timed(Ev(Wrap64(s.now + c.delay), c.userdata, c.kind))])
    case Link(t) =>
      var x := Queued(s.others[t].ev, |s.issued|);
      s.(ts := s.ts + [x], issued := s.issued + [x], others := s.others[t := Linked])
    case SetFlag(t) => s.(flag := true, others := s.others[t := Signalled])
    case Release(t) => s.(lock := false, others := s.others[t := Away])
    case UnscheduleTs(m) =>
      s.(ts := Filter(s.ts, Misses(m)), dropped := s.dropped + Filter(s.ts, HitBy(m)))
  }

  predicate Init(s: State) {
    && s.now == 0 && !s.flag && !s.lock && s.cpu == Outside && s.others == map[]
    && s.main == [] && s.ts == [] && s.shots == []
    && s.tickets == 0 && s.issued == [] && s.moved == [] && s.dropped == []
  }

  // ---------------------------------------------------------------- hand-off

  /** Someone has linked an event in and not yet raised the flag. */
  ghost predicate Signalling(s: State) {
    exists t :: t in s.others && s.others[t] == Linked
  }

  ghost predicate LockHeld(s: State) {
    && (forall t, u :: t in s.others && u in s.others && s.others[t] != Away && s.others[u] != Away ==> t == u)
    && (forall t :: t in s.others && s.others[t] != Away ==> s.lock)
  }

  ghost predicate HandOff(s: State) {
    && LockHeld(s)
    && (s.ts != [] ==> s.flag || s.cpu.Cleared? || Signalling(s))
  }

  lemma HandOffStep(s: State, step: Step)
    requires HandOff(s) && Enabled(s, step)
    ensures HandOff(Next(s, step))
  {
    var s' := Next(s, step);
    if step.Link? {
      assert s'.others[step.t] == Linked;
    } else if Signalling(s) {
      var t :| t in s.others && s.others[t] == Linked;
      var stays := s'.others[t] == Linked;
    }
  }

  // ---------------------------------------------------------------- removal keeps the order

  lemma {:induction false} FilterMember<T>(q: seq<T>, keep: T -> bool)
    ensures forall x :: x in Filter(q, keep) <==> x in q && keep(x)
  {
    if q != [] {
      FilterMember(q[1..], keep);
      assert q == [q[0]] + q[1..];
    }
  }

  ghost predicate Pairwise<T(!new)>(q: seq<T>, r: (T, T) -> bool) {
    forall i, j :: 0 <= i < j < |q| ==> r(q[i], q[j])
  }

  lemma {:induction false} FilterPairwise<T(!new)>(q: seq<T>, keep: T -> bool, r: (T, T) -> bool)
    requires Pairwise(q, r)
    ensures Pairwise(Filter(q, keep), r)
  {
    if q != [] {
      var rest := Filter(q[1..], keep);
      FilterPairwise(q[1..], keep, r);
      FilterMember(q[1..], keep);
      forall j | 0 <= j < |rest| ensures r(q[0], rest[j]) {
        assert rest[j] in q[1..];
        var k :| 0 <= k < |q| - 1 && q[1..][k] == rest[j];
        assert q[k + 1] == rest[j];
      }
    }
  }

  lemma {:induction false} FilterSplit<T>(q: seq<T>, keep: T -> bool, drop: T -> bool)
    requires forall x :: x in q ==> keep(x) == !drop(x)
    ensures multiset(q) == multiset(Filter(q, keep)) + multiset(Filter(q, drop))
  {
    if q != [] {
      FilterSplit(q[1..], keep, drop);
      assert q == [q[0]] + q[1..];
    }
  }

  // ---------------------------------------------------------------- each hand-off once, in order

  ghost predicate Numbered(q: seq<Item>) {
    forall i :: 0 <= i < |q| ==> q[i].note == i
  }

  /** What was handed off is moved, still waiting, or was unscheduled; what moved did so in order. */
  ghost predicate Accounted(s: State) {
    && Numbered(s.issued)
    && multiset(s.issued) == multiset(s.moved) + multiset(s.ts) + multiset(s.dropped)
    && Pairwise(s.moved + s.ts, Earlier())
  }

  function Earlier(): (Item, Item) -> bool { (x: Item, y: Item) => x.note < y.note }

  lemma AccountedIds(s: State)
    requires Accounted(s)
    ensures forall x :: x in s.moved + s.ts ==> x.note < |s.issued|
  {
    forall x | x in s.moved + s.ts ensures x.note < |s.issued| {
      assert x in multiset(s.issued);
    }
  }

  lemma AccountedStep(s: State, step: Step)
    requires Accounted(s) && Enabled(s, step)
    ensures Accounted(Next(s, step))
  {
    hide Accounted, Enter, EnterAll, Filter;
    var s' := Next(s, step);
    match step
    case Link(t) =>
      var x := s'.ts[|s.ts|];
      AccountedLink(s, x);
      AccountedSame(s.(ts := s.ts + [x], issued := s.issued + [x]), s');
    case MoveLocked =>
      AccountedMove(s);
      AccountedSame(s.(ts := [], moved := s.moved + s.ts), s');
    case UnscheduleTs(m) => AccountedDrop(s, m);
    case _ => AccountedSame(s, s');
  }

  /** Only some of the fields matter to the account. */
  lemma AccountedSame(s: State, s': State)
    requires s'.issued == s.issued && s'.moved == s.moved && s'.ts == s.ts && s'.dropped == s.dropped
    ensures Accounted(s) ==> Accounted(s')
  {
  }

  lemma AccountedLink(s: State, x: Item)
    requires Accounted(s) && x.note == |s.issued|
    ensures Accounted(s.(ts := s.ts + [x], issued := s.issued + [x]))
  {
    AccountedIds(s);
    assert s.moved + (s.ts + [x]) == s.moved + s.ts + [x];
  }

  lemma AccountedMove(s: State)
    requires Accounted(s)
    ensures Accounted(s.(ts := [], moved := s.moved + s.ts))
  {
    assert s.moved + s.ts + [] == s.moved + s.ts;
  }

  lemma DropKeepsOrder(s: State, m: Match)
    requires Accounted(s)
    ensures Pairwise(s.moved + Filter(s.ts, Misses(m)), Earlier())
  {
    var all, left := s.moved + s.ts, Filter(s.ts, Misses(m));
    forall i, j | 0 <= i < j < |s.ts| ensures Earlier()(s.ts[i], s.ts[j]) {
      assert all[|s.moved| + i] == s.ts[i] && all[|s.moved| + j] == s.ts[j];
    }
    FilterPairwise(s.ts, Misses(m), Earlier());
    FilterMember(s.ts, Misses(m));
    forall i, j | 0 <= i < |s.moved| && 0 <= j < |left| ensures Earlier()(s.moved[i], left[j]) {
      assert left[j] in s.ts;
      var k :| 0 <= k < |s.ts| && s.ts[k] == left[j];
      assert all[i] == s.moved[i] && all[|s.moved| + k] == left[j];
    }
    forall i, j | 0 <= i < j < |s.moved| ensures Earlier()(s.moved[i], s.moved[j]) {
      assert all[i] == s.moved[i] && all[j] == s.moved[j];
    }
  }

  lemma AccountedDrop(s: State, m: Match)
    requires Accounted(s)
    ensures Accounted(s.(ts := Filter(s.ts, Misses(m)), dropped := s.dropped + Filter(s.ts, HitBy(m))))
  {
    DropKeepsOrder(s, m);
    hide Filter;
    FilterSplit(s.ts, Misses(m), HitBy(m));
  }

  // ---------------------------------------------------------------- order of firing

  /** The order of the main queue: by due time, and by entry among equals. */
  predicate Before(a: Entry, b: Entry) {
    a.ev.time < b.ev.time || (a.ev.time == b.ev.time && a.note.ticket < b.note.ticket)
  }

  function InOrder(): (Entry, Entry) -> bool { (a: Entry, b: Entry) => Before(a, b) }

  /** An entry knows which tickets were out, and which firings over, when it came in. */
  ghost predicate Dated(e: Entry, shots: seq<Shot>, tickets: nat) {
    && e.note.ticket < tickets && e.note.since <= |shots|
    && forall i :: 0 <= i < e.note.since ==> shots[i].entry.note.ticket < e.note.ticket
  }

  /** Whatever fired while e waited was before e. */
  ghost predicate Overtaken(e: Entry, shots: seq<Shot>, upTo: nat)
    requires upTo <= |shots|
  {
    forall i :: e.note.since <= i < upTo ==> Before(shots[i].entry, e)
  }

  ghost predicate Ordered(s: State) {
    && Pairwise(s.main, InOrder())
    && (forall e :: e in s.main ==> Dated(e, s.shots, s.tickets) && Overtaken(e, s.shots, |s.shots|))
    && (forall k :: 0 <= k < |s.shots| ==>
          && s.shots[k].entry.note.since <= k && Dated(s.shots[k].entry, s.shots, s.tickets)
          && Overtaken(s.shots[k].entry, s.shots, k))
    && (forall k :: 0 <= k < |s.shots| ==> s.shots[k].entry.ev.time <= s.shots[k].at <= s.now)
    && (forall i, k :: 0 <= i < k < |s.shots| ==> s.shots[i].at <= s.shots[k].at)
  }

  lemma EnterSplits(q: seq<Entry>, time: S64)
    requires Pairwise(q, InOrder())
    ensures Spot(Evs(q), time) <= |q|
    ensures forall i :: 0 <= i < |q| ==> (i < Spot(Evs(q), time) <==> q[i].ev.time <= time)
  {
    forall i, j | 0 <= i < j < |q| ensures Evs(q)[i].time <= Evs(q)[j].time { assert InOrder()(q[i], q[j]); }
    SpotSplits(Evs(q), time);
    assert forall i :: 0 <= i < |q| ==> Evs(q)[i] == q[i].ev;
  }

  lemma EnterOrdered(q: seq<Entry>, e: Entry)
    requires Pairwise(q, InOrder()) && forall x :: x in q ==> x.note.ticket < e.note.ticket
    ensures Pairwise(Enter(q, e), InOrder())
    ensures forall x :: x in Enter(q, e) <==> x in q || x == e
  {
    hide Spot, Evs;
    EnterSplits(q, e.ev.time);
    var p := Spot(Evs(q), e.ev.time);
    assert q == q[..p] + q[p..];
    SpliceOrdered(q, p, e);
  }

  lemma SpliceOrdered(q: seq<Entry>, p: nat, e: Entry)
    requires p <= |q| && Pairwise(q, InOrder())
    requires forall i :: 0 <= i < |q| ==> if i < p then Before(q[i], e) else Before(e, q[i])
    ensures Pairwise(q[..p] + [e] + q[p..], InOrder())
  {
    hide Before;
    var r := q[..p] + [e] + q[p..];
    forall i, j | 0 <= i < j < |r| ensures InOrder()(r[i], r[j]) {
      var a, b := if i <= p then i else i - 1, if j <= p then j else j - 1;
      assert r[i] == if i == p then e else q[a];
      assert r[j] == if j == p then e else q[b];
      if i != p && j != p { assert InOrder()(q[a], q[b]); }
    }
  }

  lemma OrderedEnter(s: State, ev: Ev)
    requires Ordered(s)
    ensures var e := Queued(ev, Stamp(s.tickets, |s.shots|));
      Ordered(s.(main := Enter(s.main, e), tickets := s.tickets + 1))
  {
    hide Enter, Before;
    var e := Queued(ev, Stamp(s.tickets, |s.shots|));
    EnterOrdered(s.main, e);
    assert Dated(e, s.shots, s.tickets + 1);
  }

  lemma {:induction false} OrderedEnterAll(s: State, es: seq<Item>)
    requires Ordered(s)
    ensures Ordered(s.(main := EnterAll(s.main, es, s.tickets, |s.shots|), tickets := s.tickets + |es|))
    decreases es
  {
    hide Ordered, Enter;
    if es != [] {
      OrderedEnter(s, es[0].ev);
      var s1 := s.(main := Enter(s.main, Queued(es[0].ev, Stamp(s.tickets, |s.shots|))), tickets := s.tickets + 1);
      OrderedEnterAll(s1, es[1..]);
      assert s.(main := EnterAll(s.main, es, s.tickets, |s.shots|), tickets := s.tickets + |es|)
          == s1.(main := EnterAll(s1.main, es[1..], s1.tickets, |s1.shots|), tickets := s1.tickets + |es[1..]|);
    } else {
      assert s.(main := s.main, tickets := s.tickets + 0) == s;
    }
  }

  lemma OrderedFire(s: State)
    requires Ordered(s) && Enabled(s, Fire)
    ensures Ordered(Next(s, Fire))
  {
    hide Before;
    var s' := Next(s, Fire);
    assert s.main[0] in s.main && Dated(s.main[0], s.shots, s.tickets);
    forall x | x in s'.main ensures Dated(x, s'.shots, s'.tickets) && Overtaken(x, s'.shots, |s'.shots|) {
      FireOvertakes(s, x);
    }
  }

  /** What fires was before whatever still waits. */
  lemma FireOvertakes(s: State, x: Entry)
    requires Ordered(s) && s.main != [] && x in s.main[1..]
    ensures var shots := s.shots + [Shot(s.main[0], s.now)]; Dated(x, shots, s.tickets) && Overtaken(x, shots, |shots|)
  {
    var i :| 0 <= i < |s.main| - 1 && s.main[1..][i] == x;
    assert x == s.main[i + 1] && x in s.main && InOrder()(s.main[0], s.main[i + 1]);
  }

  /** Only some of the fields matter to the order. */
  lemma OrderedSame(s: State, s': State)
    requires Ordered(s) && s'.main == s.main && s'.shots == s.shots && s'.tickets == s.tickets && s.now <= s'.now
    ensures Ordered(s')
  {
  }

  lemma OrderedStep(s: State, step: Step)
    requires Ordered(s) && Enabled(s, step)
    ensures Ordered(Next(s, step))
  {
    hide Ordered, Enter, EnterAll, Filter;
    var s' := Next(s, step);
    match step
    case Fire => OrderedFire(s);
    case MoveLocked =>
      OrderedEnterAll(s, s.ts);
      OrderedSame(s.(main := EnterAll(s.main, s.ts, s.tickets, |s.shots|), tickets := s.tickets + |s.ts|), s');
    case Schedule(delay, kind, userdata) => OrderedEnter(s, Ev(Wrap64(s.now + delay), userdata, kind));
    case Unschedule(m) => OrderedFilter(s, m);
    case _ => OrderedSame(s, s');
  }

  lemma OrderedFilter(s: State, m: Match)
    requires Ordered(s)
    ensures Ordered(s.(main := Filter(s.main, Misses(m))))
  {
    FilterPairwise(s.main, Misses(m), InOrder());
    FilterMember(s.main, Misses(m));
  }

  // ---------------------------------------------------------------- the invariant

  ghost predicate Inv(s: State) {
    HandOff(s) && Accounted(s) && Ordered(s)
  }

  lemma InitInv(s: State)
    requires Init(s)
    ensures Inv(s)
  {
  }

  // ---------------------------------------------------------------- queue operations on values

  lemma ErasesEnter(q: seq<Entry>, e: Entry)
    ensures Evs(Enter(q, e)) == Insert(Evs(q), e.ev)
  {
    var p := Spot(Evs(q), e.ev.time);
    assert Evs(q[..p] + [e] + q[p..]) == Evs(q)[..p] + [e.ev] + Evs(q)[p..];
  }

  lemma {:induction false} ErasesEnterAll(q: seq<Entry>, es: seq<Item>, ticket: nat, since: nat)
    ensures Evs(EnterAll(q, es, ticket, since)) == InsertAll(Evs(q), Evs(es))
    decreases es
  {
    hide Enter, Insert;
    if es == [] {
      assert Evs(es) == [];
    } else {
      var e := Queued(es[0].ev, Stamp(ticket, since));
      ErasesEnter(q, e);
      ErasesEnterAll(Enter(q, e), es[1..], ticket + 1, since);
      assert Evs(es)[1..] == Evs(es[1..]);
    }
  }

  lemma {:induction false} ErasesFilter<T>(q: seq<Queued<T>>, m: Match)
    ensures Evs(Filter(q, Misses(m))) == Without(Evs(q), m)
  {
    if q != [] {
      ErasesFilter(q[1..], m);
      assert Evs(q)[1..] == Evs(q[1..]);
    }
  }

  /** Idle moves the clock by what was asked, or to the next event of the main queue if that is nearer. */
  lemma IdleWaits(s: State, max: S32)
    requires Enabled(s, Idle(max))
    ensures var want, c := if max > 0 then max else 1, Next(s, Idle(max)).now - s.now;
      if s.main == [] then c == want
      else
        var d := s.main[0].ev.time - s.now;
        && (want <= d <= S64_MAX ==> c == want) && (0 < d < want ==> c == d) && (S64_MIN <= d <= 0 ==> c == 0)
  {
    IdleCyclesAre(Erase(s), max);
    hide IdleCycles;
  }
}

/** Do events fire in nondecreasing due time? Not in every run of TimingRuns: exactly in which, what a step can
    check, and what callers can. */
module DueTimes {
  import opened Bytes
  import opened EventSpec
  import opened TimingRuns
  import opened TimingSteps

  ghost predicate DueOrder(shots: seq<Shot>) {
    forall i, j :: 0 <= i < j < |shots| ==> shots[i].entry.ev.time <= shots[j].entry.ev.time
  }

  /** When e came into the main queue, nothing due later had fired just before. */
  predicate OnTime(e: Entry, shots: seq<Shot>)
    requires e.note.since <= |shots|
  {
    e.note.since > 0 ==> shots[e.note.since - 1].entry.ev.time <= e.ev.time
  }

  /** The entries that a step puts in the main queue. */
  function Entered(s: State, step: Step): seq<Entry>
    requires Enabled(s, step)
  {
    match step
    case Schedule(delay, kind, userdata) =>
      [Queued(Ev(Wrap64(s.now + delay), userdata, kind), Stamp(s.tickets, |s.shots|))]
    case MoveLocked => seq(|s.ts|, j requires 0 <= j < |s.ts| => Queued(s.ts[j].ev, Stamp(s.tickets + j, |s.shots|)))
    case _ => []
  }

  /** What this step enters, of the events that fire in the end, is due no earlier than the event that
      fired last. */
  ghost predicate EntersOnTime(s: State, step: Step, shots: seq<Shot>)
    requires Enabled(s, step)
  {
    forall e, m :: e in Entered(s, step) && 0 <= m < |shots| && shots[m].entry == e && s.shots != [] ==>
      s.shots[|s.shots| - 1].entry.ev.time <= e.ev.time
  }

  /** Events fire in nondecreasing due time exactly when each step that puts events in the main queue
      puts them there no earlier than the last one fired. */
  lemma DueOrderIff(ss: seq<State>, steps: seq<Step>, k: nat)
    requires IsRun(ss, steps) && k < |ss|
    ensures DueOrder(ss[k].shots) <==> forall i :: 0 <= i < k ==> EntersOnTime(ss[i], steps[i], ss[k].shots)
  {
    hide Inv;
    var shots := ss[k].shots;
    if DueOrder(shots) {
      forall i | 0 <= i < k ensures EntersOnTime(ss[i], steps[i], shots) { OrderedEntersOnTime(ss, steps, i, k); }
    }
    if forall i :: 0 <= i < k ==> EntersOnTime(ss[i], steps[i], shots) {
      forall m | 0 <= m < |shots| ensures shots[m].entry.note.since <= m && OnTime(shots[m].entry, shots) {
        var i := Came(ss, steps, k, shots[m].entry);
        assert EntersOnTime(ss[i], steps[i], shots);
        FiredSince(ss, steps, k, m);
      }
      DueWhenOnTime(ss, steps, k);
    }
  }

  lemma FiredSince(ss: seq<State>, steps: seq<Step>, k: nat, m: nat)
    requires IsRun(ss, steps) && k < |ss| && m < |ss[k].shots|
    ensures ss[k].shots[m].entry.note.since <= m
  {
    RunInv(ss, steps, k);
  }

  lemma OrderedEntersOnTime(ss: seq<State>, steps: seq<Step>, i: nat, k: nat)
    requires IsRun(ss, steps) && i < k < |ss| && DueOrder(ss[k].shots)
    ensures EntersOnTime(ss[i], steps[i], ss[k].shots)
  {
    hide Inv;
    var shots := ss[k].shots;
    ShotsGrow(ss, steps, i, k);
    forall e, m | e in Entered(ss[i], steps[i]) && 0 <= m < |shots| && shots[m].entry == e && ss[i].shots != []
      ensures ss[i].shots[|ss[i].shots| - 1].entry.ev.time <= e.ev.time
    {
      FiredSince(ss, steps, k, m);
      assert e.note.since == |ss[i].shots|;
      assert shots[e.note.since - 1] == ss[i].shots[e.note.since - 1];
    }
  }

  lemma {:induction false} ShotsGrow(ss: seq<State>, steps: seq<Step>, i: nat, k: nat)
    requires IsRun(ss, steps) && i <= k < |ss|
    ensures ss[i].shots <= ss[k].shots
    decreases k
  {
    if i < k { ShotsGrow(ss, steps, i, k - 1); }
  }

  /** Whatever is in the main queue or has fired came in by an earlier step, after as many firings as it says. */
  lemma {:induction false} Came(ss: seq<State>, steps: seq<Step>, k: nat, e: Entry) returns (i: nat)
    requires IsRun(ss, steps) && k < |ss|
    requires e in ss[k].main || exists m :: 0 <= m < |ss[k].shots| && ss[k].shots[m].entry == e
    ensures i < k && e in Entered(ss[i], steps[i]) && e.note.since == |ss[i].shots| && ss[i].shots <= ss[k].shots
    decreases k
  {
    hide Entered, Inv, Next, Enabled;
    var s, step := ss[k - 1], steps[k - 1];
    ShotsGrow(ss, steps, k - 1, k);
    if e in s.main || exists m :: 0 <= m < |s.shots| && s.shots[m].entry == e {
      i := Came(ss, steps, k - 1, e);
    } else {
      i := k - 1;
      CameNow(s, step, e);
    }
  }

  lemma CameNow(s: State, step: Step, e: Entry)
    requires Enabled(s, step) && e !in s.main && !exists m :: 0 <= m < |s.shots| && s.shots[m].entry == e
    requires e in Next(s, step).main || exists m :: 0 <= m < |Next(s, step).shots| && Next(s, step).shots[m].entry == e
    ensures e in Entered(s, step) && e.note.since == |s.shots|
  {
    hide Enter, EnterAll, Filter;
    match step
    case Schedule(delay, kind, userdata) =>
      EnterMember(s.main, Entered(s, step)[0], e);
    case MoveLocked =>
      var j := EnterAllMember(s.main, s.ts, s.tickets, |s.shots|, e);
      assert Entered(s, step)[j] == e;
    case Unschedule(m) => FilterMember(s.main, Misses(m));
    case _ =>
  }

  /** The same on the log of what has fired. */
  lemma DueWhenOnTime(ss: seq<State>, steps: seq<Step>, k: nat)
    requires IsRun(ss, steps) && k < |ss| && AllOnTime(ss[k].shots)
    ensures DueOrder(ss[k].shots)
  {
    RunInv(ss, steps, k);
    var shots := ss[k].shots;
    forall i, j | 0 <= i < j < |shots| ensures shots[i].entry.ev.time <= shots[j].entry.ev.time {
      DueBetween(ss[k], i, j);
    }
  }

  /** What a caller can check at the step itself: nothing is entered that is due earlier than the event
      that fired last. */
  ghost predicate InTime(s: State, step: Step)
    requires Enabled(s, step)
  {
    forall e :: e in Entered(s, step) && s.shots != [] ==> s.shots[|s.shots| - 1].entry.ev.time <= e.ev.time
  }

  ghost predicate AllInTime(ss: seq<State>, steps: seq<Step>, n: nat)
    requires IsRun(ss, steps) && n <= |steps|
  {
    forall i :: 0 <= i < n ==> InTime(ss[i], steps[i])
  }

  /** A run of such steps fires in nondecreasing due time. */
  lemma InTimeKeepsOrder(ss: seq<State>, steps: seq<Step>, k: nat)
    requires IsRun(ss, steps) && k < |ss| && AllInTime(ss, steps, k)
    ensures DueOrder(ss[k].shots)
  {
    hide Entered, DueOrder;
    forall i | 0 <= i < k ensures EntersOnTime(ss[i], steps[i], ss[k].shots) { assert InTime(ss[i], steps[i]); }
    DueOrderIff(ss, steps, k);
  }

  /** The run goes on, and nothing more is entered. */
  ghost predicate GoesOn(ss: seq<State>, steps: seq<Step>, ss': seq<State>, steps': seq<Step>) {
    && IsRun(ss', steps') && ss <= ss' && steps <= steps'
    && forall i :: |steps| <= i < |steps'| ==> Entered(ss'[i], steps'[i]) == []
  }

  lemma GoOn(ss: seq<State>, steps: seq<Step>, ss1: seq<State>, steps1: seq<Step>, step: Step)
    returns (ss': seq<State>, steps': seq<Step>)
    requires GoesOn(ss, steps, ss1, steps1)
    requires var s := ss1[|steps1|]; Enabled(s, step) && Entered(s, step) == []
    ensures GoesOn(ss, steps, ss', steps') && |ss'| == |steps'| + 1 && ss'[|steps'|] == Next(ss1[|steps1|], step)
  {
    hide Next, Enabled, Entered, Init;
    ss', steps' := ss1 + [Next(ss1[|steps1|], step)], steps1 + [step];
  }

  /** After steps in time, the next one is in time exactly when the run fires in nondecreasing due time
      however it goes on without entering any more events. */
  lemma InTimeIff(ss: seq<State>, steps: seq<Step>)
    requires IsRun(ss, steps) && steps != [] && AllInTime(ss, steps, |steps| - 1)
    ensures InTime(ss[|steps| - 1], steps[|steps| - 1])
       <==> forall ss': seq<State>, steps': seq<Step> ::
              GoesOn(ss, steps, ss', steps') ==> DueOrder(ss'[|steps'|].shots)
  {
    hide Entered, DueOrder;
    var n := |steps| - 1;
    if InTime(ss[n], steps[n]) {
      forall ss': seq<State>, steps': seq<Step> | GoesOn(ss, steps, ss', steps') ensures DueOrder(ss'[|steps'|].shots) {
        forall i | 0 <= i < |steps'| ensures InTime(ss'[i], steps'[i]) {
          if i < |steps| { assert ss'[i] == ss[i] && steps'[i] == steps[i] && InTime(ss[i], steps[i]); }
        }
        InTimeKeepsOrder(ss', steps', |steps'|);
      }
    } else {
      var ss', steps' := FiresLate(ss, steps);
    }
  }

  /** An event entered too late is due, so that the next one to fire, that one or one before it, is out of
      order. */
  lemma FiresLate(ss: seq<State>, steps: seq<Step>) returns (ss': seq<State>, steps': seq<Step>)
    requires IsRun(ss, steps) && steps != [] && !InTime(ss[|steps| - 1], steps[|steps| - 1])
    ensures GoesOn(ss, steps, ss', steps') && |ss'| == |steps'| + 1 && !DueOrder(ss'[|steps'|].shots)
  {
    hide *;
    var n := |steps|;
    LastStep(ss, steps);
    RunInv(ss, steps, n);
    var e := EnteredLate(ss[n - 1], steps[n - 1]);
    InvOrdered(ss[n]);
    HeadNoLater(ss[n], e);
    ss', steps' := ToLoop(ss, steps);
    var s := ss'[|steps'|];
    FireEntersNone(s);
    ss', steps' := GoOn(ss, steps, ss', steps', Step.Fire);
    OutOfOrder(s.shots, ss'[|steps'|].shots);
  }

  lemma InvOrdered(s: State)
    requires Inv(s)
    ensures Ordered(s)
  {
  }

  lemma LastStep(ss: seq<State>, steps: seq<Step>)
    requires IsRun(ss, steps) && steps != []
    ensures var n := |steps| - 1;
      |ss| == n + 2 && Enabled(ss[n], steps[n]) && ss[n + 1] == Next(ss[n], steps[n]) && GoesOn(ss, steps, ss, steps)
  {
  }

  lemma FireEntersNone(s: State)
    requires s.cpu == Looping && s.main != [] && s.main[0].ev.time <= s.now
    ensures Enabled(s, Step.Fire) && Entered(s, Step.Fire) == []
    ensures Next(s, Step.Fire).shots == s.shots + [Shot(s.main[0], s.now)]
  {
  }

  lemma OutOfOrder(before: seq<Shot>, after: seq<Shot>)
    requires before != [] && |after| == |before| + 1 && before <= after
    requires after[|before|].entry.ev.time < before[|before| - 1].entry.ev.time
    ensures !DueOrder(after)
  {
  }

  /** To the firing loop. */
  lemma ToLoop(ss: seq<State>, steps: seq<Step>) returns (ss': seq<State>, steps': seq<Step>)
    requires GoesOn(ss, steps, ss, steps) && ss[|steps|].cpu in {Outside, InCallback, Looping}
    ensures GoesOn(ss, steps, ss', steps') && |ss'| == |steps'| + 1 && ss'[|steps'|] == ss[|steps|].(cpu := Looping)
  {
    ss', steps' := ss, steps;
    assert |ss| == |steps| + 1;
    hide IsRun;
    if ss[|steps|].cpu == Outside { ss', steps' := GoOn(ss, steps, ss, steps, CallFifo); }
    if ss[|steps|].cpu == InCallback { ss', steps' := GoOn(ss, steps, ss, steps, EndCallback); }
  }

  lemma EnteredLate(s: State, step: Step) returns (e: Entry)
    requires Enabled(s, step) && !InTime(s, step)
    ensures var s' := Next(s, step);
      && s'.shots == s.shots != [] && e in s'.main && e.ev.time < s.shots[|s.shots| - 1].entry.ev.time
      && s'.cpu in {Outside, InCallback, Looping}
  {
    hide Enter, EnterAll, Filter, Wrap64, IdleCycles, Erase, Evs;
    e :| e in Entered(s, step) && e.ev.time < s.shots[|s.shots| - 1].entry.ev.time;
    match step
    case Schedule(_, _, _) => EnterHas(s.main, e);
    case MoveLocked =>
      var j :| 0 <= j < |s.ts| && e == Entered(s, step)[j];
      EnterAllHas(s.main, s.ts, s.tickets, |s.shots|, j);
    case _ =>
  }

  lemma EnterHas(q: seq<Entry>, e: Entry)
    ensures e in Enter(q, e) && forall x :: x in q ==> x in Enter(q, e)
  {
    var p := Spot(Evs(q), e.ev.time);
    assert q == q[..p] + q[p..];
    assert Enter(q, e)[p] == e;
  }

  lemma {:induction false} EnterAllHas(q: seq<Entry>, es: seq<Item>, ticket: nat, since: nat, j: nat)
    requires j < |es|
    ensures Queued(es[j].ev, Stamp(ticket + j, since)) in EnterAll(q, es, ticket, since)
    decreases es
  {
    hide Enter;
    var first := Queued(es[0].ev, Stamp(ticket, since));
    EnterHas(q, first);
    if j == 0 {
      EnterAllKeeps(Enter(q, first), es[1..], ticket + 1, since, first);
    } else {
      EnterAllHas(Enter(q, first), es[1..], ticket + 1, since, j - 1);
    }
  }

  lemma {:induction false} EnterAllKeeps(q: seq<Entry>, es: seq<Item>, ticket: nat, since: nat, e: Entry)
    requires e in q
    ensures e in EnterAll(q, es, ticket, since)
    decreases es
  {
    hide Enter;
    if es != [] {
      var first := Queued(es[0].ev, Stamp(ticket, since));
      EnterHas(q, first);
      EnterAllKeeps(Enter(q, first), es[1..], ticket + 1, since, e);
    }
  }

  lemma HeadNoLater(s: State, e: Entry)
    requires Ordered(s) && e in s.main && s.shots != [] && e.ev.time < s.shots[|s.shots| - 1].entry.ev.time
    ensures s.main != [] && s.main[0].ev.time <= e.ev.time < s.shots[|s.shots| - 1].entry.ev.time
    ensures s.main[0].ev.time <= s.now
  {
    var i :| 0 <= i < |s.main| && s.main[i] == e;
    if i > 0 { assert InOrder()(s.main[0], s.main[i]); }
    var last := s.shots[|s.shots| - 1];
    assert last.entry.ev.time <= last.at <= s.now;
  }

  lemma DueNeighbours(s: State, j: nat)
    requires Ordered(s) && 0 < j < |s.shots|
    requires s.shots[j].entry.note.since <= j ==> OnTime(s.shots[j].entry, s.shots)
    ensures s.shots[j - 1].entry.ev.time <= s.shots[j].entry.ev.time
  {
    var e := s.shots[j].entry;
    assert Overtaken(e, s.shots, j);
    if e.note.since <= j - 1 { assert Before(s.shots[j - 1].entry, e); }
  }

  ghost predicate AllOnTime(shots: seq<Shot>) {
    forall i :: 0 <= i < |shots| ==> shots[i].entry.note.since <= i && OnTime(shots[i].entry, shots)
  }

  lemma {:induction false} DueBetween(s: State, i: nat, j: nat)
    requires Ordered(s) && i <= j < |s.shots| && AllOnTime(s.shots)
    ensures s.shots[i].entry.ev.time <= s.shots[j].entry.ev.time
  {
    hide Ordered;
    if i < j {
      DueBetween(s, i, j - 1);
      assert OnTime(s.shots[j].entry, s.shots);
      DueNeighbours(s, j);
    }
  }

  /** No negative delay, and no due time past the end of the clock. */
  predicate Tame(s: State, step: Step) {
    match step
    case Schedule(delay, _, _) => 0 <= delay && s.now + delay <= S64_MAX
    case Acquire(_, delay, _, _) => 0 <= delay
    case ReadClock(t) => Pc(s, t).Locked? ==> s.now + Pc(s, t).delay <= S64_MAX
    case _ => true
  }

  /** Tame, and the clock at rest while another thread is between reading it and raising the flag. */
  ghost predicate Calm(s: State, step: Step) {
    Tame(s, step) && (step.Advance? || step.Idle? ==> AtRest(s))
  }

  ghost predicate AtRest(s: State) {
    forall t :: t in s.others ==> !s.others[t].Timed? && s.others[t] != Linked
  }

  ghost predicate Punctual(s: State) {
    && 0 <= s.now
    && (forall k, x :: 0 <= k < |s.shots| && x in s.ts ==> s.shots[k].entry.ev.time <= x.ev.time)
    && (s.cpu in {Outside, Looping, InCallback} || (s.cpu == Ticked && !s.flag) ==>
          forall x :: x in s.ts ==> s.now <= x.ev.time)
    && (forall t :: t in s.others ==>
          && (s.others[t].Timed? ==> s.now <= s.others[t].ev.time)
          && (s.others[t].Locked? ==> 0 <= s.others[t].delay))
    && AllOnTime(s.shots)
    && (forall e :: e in s.main ==> e.note.since <= |s.shots| && OnTime(e, s.shots))
  }

  lemma PunctualTick(s: State, step: Step)
    requires Inv(s) && Punctual(s) && Enabled(s, step) && Calm(s, step) && (step.Advance? || step.Idle?)
    ensures Punctual(Next(s, step))
  {
    hide Accounted, Ordered, AllOnTime;
  }

  lemma EnterMember(q: seq<Entry>, e: Entry, x: Entry)
    requires x in Enter(q, e)
    ensures x in q || x == e
  {
  }

  lemma {:induction false} EnterAllMember(q: seq<Entry>, es: seq<Item>, ticket: nat, since: nat, e: Entry)
    returns (j: nat)
    requires e in EnterAll(q, es, ticket, since) && e !in q
    ensures j < |es| && e == Queued(es[j].ev, Stamp(ticket + j, since))
    decreases es
  {
    hide Enter;
    if es != [] {
      var first := Queued(es[0].ev, Stamp(ticket, since));
      if e in Enter(q, first) {
        EnterMember(q, first, e);
        j := 0;
      } else {
        j := EnterAllMember(Enter(q, first), es[1..], ticket + 1, since, e);
        j := j + 1;
      }
    }
  }

  lemma PunctualMove(s: State)
    requires Ordered(s) && Punctual(s) && Enabled(s, MoveLocked)
    ensures Punctual(Next(s, MoveLocked))
  {
    hide AllOnTime, EnterAll, Ordered;
    var s' := Next(s, MoveLocked);
    forall e | e in s'.main ensures e.note.since <= |s.shots| && OnTime(e, s.shots) {
      if e !in s.main {
        var j := EnterAllMember(s.main, s.ts, s.tickets, |s.shots|, e);
        assert s.ts[j] in s.ts;
      }
    }
  }

  /** One more firing changes nothing for what came in before. */
  lemma OnTimeStays(shots: seq<Shot>, shot: Shot)
    ensures forall e: Entry :: e.note.since <= |shots| && OnTime(e, shots) ==> OnTime(e, shots + [shot])
    ensures AllOnTime(shots) && shot.entry.note.since <= |shots| && OnTime(shot.entry, shots) ==>
      AllOnTime(shots + [shot])
  {
    var more := shots + [shot];
    if AllOnTime(shots) && shot.entry.note.since <= |shots| && OnTime(shot.entry, shots) {
      forall i | 0 <= i < |more| ensures more[i].entry.note.since <= i && OnTime(more[i].entry, more) {
        if i < |shots| { assert OnTime(shots[i].entry, shots); }
      }
    }
  }

  lemma PunctualFire(s: State)
    requires Ordered(s) && Punctual(s) && Enabled(s, Fire)
    ensures Punctual(Next(s, Fire))
  {
    hide OnTime, AllOnTime;
    var s' := Next(s, Fire);
    assert s.main[0] in s.main;
    OnTimeStays(s.shots, Shot(s.main[0], s.now));
    forall e | e in s'.main ensures e in s.main { assert s.main == [s.main[0]] + s'.main; }
  }

  lemma PunctualSchedule(s: State, delay: S64, kind: S32, userdata: U64)
    requires Ordered(s) && Punctual(s) && Enabled(s, Step.Schedule(delay, kind, userdata))
    requires 0 <= delay && s.now + delay <= S64_MAX
    ensures Punctual(Next(s, Step.Schedule(delay, kind, userdata)))
  {
    hide AllOnTime, Enter;
    var s' := Next(s, Step.Schedule(delay, kind, userdata));
    var e := Queued(Ev(Wrap64(s.now + delay), userdata, kind), Stamp(s.tickets, |s.shots|));
    forall x | x in s'.main ensures x.note.since <= |s.shots| && OnTime(x, s.shots) {
      EnterMember(s.main, e, x);
    }
  }

  lemma PunctualLess(s: State, s': State)
    requires Punctual(s)
    requires s' == s.(main := s'.main, ts := s'.ts, dropped := s'.dropped)
    requires (forall e :: e in s'.main ==> e in s.main) && forall x :: x in s'.ts ==> x in s.ts
    ensures Punctual(s')
  {
    hide AllOnTime;
  }

  lemma PunctualOther(s: State, step: Step)
    requires Ordered(s) && Punctual(s) && Enabled(s, step) && Calm(s, step)
    requires step.Acquire? || step.ReadClock? || step.Link? || step.SetFlag? || step.Release?
    ensures Punctual(Next(s, step))
  {
    hide AllOnTime, OnTime;
  }

  lemma PunctualStep(s: State, step: Step)
    requires Inv(s) && Punctual(s) && Enabled(s, step) && Calm(s, step)
    ensures Punctual(Next(s, step))
  {
    hide AllOnTime, OnTime, HandOff, Accounted, Ordered, Enter, EnterAll;
    match step
    case Advance => PunctualTick(s, step);
    case Idle(_) => PunctualTick(s, step);
    case MoveLocked => PunctualMove(s);
    case Fire => PunctualFire(s);
    case Schedule(delay, kind, userdata) => PunctualSchedule(s, delay, kind, userdata);
    case Unschedule(m) =>
      FilterMember(s.main, Misses(m));
      PunctualLess(s, Next(s, step));
    case UnscheduleTs(m) =>
      FilterMember(s.ts, Misses(m));
      PunctualLess(s, Next(s, step));
    case Acquire(_, _, _, _) => PunctualOther(s, step);
    case ReadClock(_) => PunctualOther(s, step);
    case Link(_) => PunctualOther(s, step);
    case SetFlag(_) => PunctualOther(s, step);
    case Release(_) => PunctualOther(s, step);
    case _ =>
  }

  lemma {:induction false} CalmPunctual(ss: seq<State>, steps: seq<Step>, k: nat)
    requires IsRun(ss, steps) && k < |ss| && forall i :: 0 <= i < |steps| ==> Calm(ss[i], steps[i])
    ensures Punctual(ss[k])
  {
    hide Punctual, Inv, Calm;
    if k == 0 {
      InitPunctual(ss[0]);
    } else {
      CalmPunctual(ss, steps, k - 1);
      RunInv(ss, steps, k - 1);
      PunctualStep(ss[k - 1], steps[k - 1]);
    }
  }

  lemma InitPunctual(s: State)
    requires Init(s)
    ensures Punctual(s)
  {
  }

  /** In a calm run events fire in nondecreasing due time. */
  lemma CalmRunsFireInOrder(ss: seq<State>, steps: seq<Step>, k: nat)
    requires IsRun(ss, steps) && k < |ss| && forall i :: 0 <= i < |steps| ==> Calm(ss[i], steps[i])
    ensures DueOrder(ss[k].shots)
  {
    hide Calm;
    CalmPunctual(ss, steps, k);
    DueWhenOnTime(ss, steps, k);
  }

  // ---------------------------------------------------------------- and out of order

  /** Some run of tame steps ends in s. */
  ghost predicate TamelyReached(s: State) {
    exists ss, steps :: IsRun(ss, steps) && ss[|steps|] == s && forall i :: 0 <= i < |steps| ==> Tame(ss[i], steps[i])
  }

  lemma Extend(s: State, step: Step) returns (s': State)
    requires TamelyReached(s) && Enabled(s, step) && Tame(s, step)
    ensures TamelyReached(s') && s' == Next(s, step)
  {
    hide Next, Enabled, Tame, Init;
    var ss, steps :| IsRun(ss, steps) && ss[|steps|] == s && forall i :: 0 <= i < |steps| ==> Tame(ss[i], steps[i]);
    s' := Next(s, step);
    var ss', steps' := ss + [s'], steps + [step];
    assert IsRun(ss', steps') && ss'[|steps'|] == s';
  }

  lemma InitReached(s: State)
    requires Init(s)
    ensures TamelyReached(s)
  {
    assert IsRun([s], []);
  }

  lemma EnterEmpty(e: Entry)
    ensures Enter([], e) == [e]
  {
  }

  lemma IdleToHead(s: State, max: S32)
    requires |s.main| == 1 && 0 < s.main[0].ev.time - s.now < max
    ensures IdleCycles(Erase(s), max) == s.main[0].ev.time - s.now
  {
  }

  lemma OneScheduled() returns (s: State)
    ensures TamelyReached(s)
    ensures s == State(0, false, false, Outside, map[], [Queued(Ev(5, 0, 0), Stamp(0, 0))], [], [], 1, [], [], [])
  {
    hide TamelyReached, Enter, Wrap64;
    s := State(0, false, false, Outside, map[], [], [], [], 0, [], [], []);
    InitReached(s);
    s := Extend(s, Step.Schedule(5, 0, 0));
    EnterEmpty(Queued(Ev(5, 0, 0), Stamp(0, 0)));
  }

  /** An event is due at 5, and another thread has read the clock at 0. */
  lemma LateHandOffSetUp() returns (s: State)
    ensures TamelyReached(s)
    ensures s.now == 0 && !s.flag && s.lock && s.cpu == Outside && s.others == map[0 := Timed(Ev(0, 0, 1))]
    ensures s.main == [Queued(Ev(5, 0, 0), Stamp(0, 0))] && s.ts == [] && s.shots == [] && s.tickets == 1
  {
    hide TamelyReached, Enter, Wrap64;
    s := OneScheduled();
    s := Extend(s, Acquire(0, 0, 1, 0));
    s := Extend(s, ReadClock(0));
  }

  /** Another thread reads the clock at 0; before it links its event in, the CPU thread idles to the
      event due at 5, sees no flag, and fires it. */
  lemma LateHandOffBegins() returns (s: State)
    ensures TamelyReached(s)
    ensures s.now == 5 && !s.flag && s.lock && s.cpu == Outside && s.others == map[0 := Timed(Ev(0, 0, 1))]
    ensures s.main == [] && s.ts == [] && |s.shots| == 1 && s.shots[0].entry.ev.time == 5
  {
    hide TamelyReached, Enter, IdleCycles, Erase;
    s := LateHandOffSetUp();
    IdleToHead(s, 10);
    s := Extend(s, Idle(10));
    s := Extend(s, LoadFlag);
    s := Extend(s, Step.Fire);
    s := Extend(s, EndCallback);
    s := Extend(s, Return);
  }

  /** Then the hand-off completes, and its event, due at 0, fires after the one due at 5: without the
      clock at rest, nonnegative delays are not enough. */
  lemma LateHandOff() returns (s: State)
    ensures TamelyReached(s) && !DueOrder(s.shots)
  {
    hide TamelyReached, Enter, EnterAll;
    s := LateHandOffBegins();
    s := Extend(s, Link(0));
    s := Extend(s, SetFlag(0));
    s := Extend(s, Release(0));
    s := Extend(s, Advance);
    s := Extend(s, LoadFlag);
    s := Extend(s, ClearFlag);
    MoveOne(s);
    s := Extend(s, MoveLocked);
    s := Extend(s, Step.Fire);
    assert s.shots[1].entry.ev.time < s.shots[0].entry.ev.time;
  }

  lemma MoveOne(s: State)
    requires s.main == [] && |s.ts| == 1
    ensures EnterAll(s.main, s.ts, s.tickets, |s.shots|) == [Queued(s.ts[0].ev, Stamp(s.tickets, |s.shots|))]
  {
    var e := Queued(s.ts[0].ev, Stamp(s.tickets, |s.shots|));
    EnterEmpty(e);
    assert EnterAll([e], s.ts[1..], s.tickets + 1, |s.shots|) == [e];
  }

  /** A nonnegative delay makes a due time that is not in the past exactly when the sum fits. */
  lemma DueInFuture(now: S64, delay: S64)
    requires 0 <= now && 0 <= delay
    ensures now <= Wrap64(now + delay) <==> now + delay <= S64_MAX
  {
  }
}

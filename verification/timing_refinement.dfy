/** The two views of the scheduler agree: where no other thread interferes, the fine steps of the CPU
    thread do what the operations of the scheduler class are specified to do. */
module TimingRefinement {
  import opened Bytes
  import opened EventSpec
  import T = TimingSteps

  // A step of a run does to queue, flag, clock and log what the scheduler's methods do.

  lemma ErasesSchedule(s: T.State, d: S64, k: S32, u: U64)
    requires T.Enabled(s, T.Step.Schedule(d, k, u))
    ensures T.Erase(T.Next(s, T.Step.Schedule(d, k, u))) == Obey(T.Erase(s), Request.Schedule(d, k, u))
  {
    hide T.Enter, Insert;
    T.ErasesEnter(s.main, T.Queued(Ev(Wrap64(s.now + d), u, k), T.Stamp(s.tickets, |s.shots|)));
  }

  lemma ErasesMove(s: T.State)
    requires T.Enabled(s, T.MoveLocked)
    ensures T.Erase(T.Next(s, T.MoveLocked)) == Move(T.Erase(s)).(flag := s.flag)
  {
    hide T.EnterAll, InsertAll;
    T.ErasesEnterAll(s.main, s.ts, s.tickets, |s.shots|);
    assert T.Erase(T.Next(s, T.MoveLocked)).ts == [];
  }

  lemma ErasesFire(s: T.State)
    requires T.Enabled(s, T.Step.Fire)
    ensures HeadDue(T.Erase(s)) && T.Erase(T.Next(s, T.Step.Fire)) == EventSpec.Fire(T.Erase(s), [])
  {
    var s' := T.Next(s, T.Step.Fire);
    assert T.Erase(s').main == T.Erase(s).main[1..];
    assert T.Erase(s').fired == T.Erase(s).fired + [EventSpec.Firing.Firing(T.Erase(s).main[0], s.now)];
  }

  /** The thread whose hand-off steps a callback takes when it hands an event off itself. */
  const SELF: nat := 0

  /** The CPU thread in a callback, with no other thread in an operation. */
  ghost predicate Alone(s: T.State) {
    s.cpu == T.InCallback && Quiet(s)
  }

  ghost predicate Quiet(s: T.State) {
    !s.lock && forall t :: t in s.others ==> s.others[t] == T.Away
  }

  /** What a callback's request is in steps. */
  ghost function Do(s: T.State, r: Request): (s': T.State)
    requires Alone(s)
    ensures Alone(s')
  {
    match r
    case Schedule(delay, kind, userdata) => T.Next(s, T.Step.Schedule(delay, kind, userdata))
    case ScheduleTs(delay, kind, userdata) => HandOff(s, delay, kind, userdata)
    case Remove(m) => T.Next(s, T.Unschedule(m))
    case RemoveTs(m) => T.Next(s, T.UnscheduleTs(m))
  }

  ghost function HandOff(s: T.State, delay: S64, kind: S32, userdata: U64): (s': T.State)
    requires Alone(s)
    ensures Alone(s')
  {
    TakenIs(s, delay, kind, userdata);
    FinishedIs(Taken(s, delay, kind, userdata));
    Finished(Taken(s, delay, kind, userdata))
  }

  /** With the lock taken and the clock read. */
  ghost function Taken(s: T.State, delay: S64, kind: S32, userdata: U64): T.State
    requires Alone(s)
  {
    T.Next(T.Next(s, T.Acquire(SELF, delay, kind, userdata)), T.ReadClock(SELF))
  }

  lemma TakenIs(s: T.State, delay: S64, kind: S32, userdata: U64)
    requires Alone(s)
    ensures var e := Ev(Wrap64(s.now + delay), userdata, kind);
            Taken(s, delay, kind, userdata) == s.(lock := true, others := s.others[SELF := T.Timed(e)])
  {
    hide Wrap64;
  }

  /** Linked in, the flag raised and the lock given back. */
  ghost function Finished(s: T.State): (s': T.State)
    requires T.Pc(s, SELF).Timed?
  {
    T.Next(T.Next(T.Next(s, T.Link(SELF)), T.SetFlag(SELF)), T.Release(SELF))
  }

  lemma FinishedIs(s: T.State)
    requires T.Pc(s, SELF).Timed?
    ensures var x := T.Queued(s.others[SELF].ev, |s.issued|);
            Finished(s) == s.(ts := s.ts + [x], issued := s.issued + [x], flag := true, lock := false,
                              others := s.others[SELF := T.Away])
  {
  }

  lemma ErasesHandOff(s: T.State, delay: S64, kind: S32, userdata: U64)
    requires Alone(s)
    ensures T.Erase(HandOff(s, delay, kind, userdata)) == Obey(T.Erase(s), ScheduleTs(delay, kind, userdata))
  {
    hide Wrap64, Taken, Finished;
    var e := Ev(Wrap64(s.now + delay), userdata, kind);
    TakenIs(s, delay, kind, userdata);
    FinishedIs(Taken(s, delay, kind, userdata));
    assert T.Evs(s.ts + [T.Queued(e, |s.issued|)]) == T.Evs(s.ts) + [e];
  }

  /** Each request, step by step, has the effect it is specified to have. */
  lemma ErasesDo(s: T.State, r: Request)
    requires Alone(s)
    ensures T.Erase(Do(s, r)) == Obey(T.Erase(s), r)
  {
    hide T.Enter, Insert, Without, T.Filter, Wrap64, HandOff;
    match r
    case Schedule(delay, kind, userdata) => ErasesSchedule(s, delay, kind, userdata);
    case ScheduleTs(delay, kind, userdata) => ErasesHandOff(s, delay, kind, userdata);
    case Remove(m) => T.ErasesFilter(s.main, m);
    case RemoveTs(m) => T.ErasesFilter(s.ts, m);
  }

  ghost function DoAll(s: T.State, rs: seq<Request>): (s': T.State)
    requires Alone(s)
    ensures Alone(s')
    decreases |rs|
  {
    if rs == [] then s else DoAll(Do(s, rs[0]), rs[1..])
  }

  lemma {:induction false} ErasesDoAll(s: T.State, rs: seq<Request>)
    requires Alone(s)
    ensures T.Erase(DoAll(s, rs)) == ObeyAll(T.Erase(s), rs)
    decreases |rs|
  {
    hide T.Erase, Obey, Do;
    if rs != [] {
      ErasesDo(s, rs[0]);
      ErasesDoAll(Do(s, rs[0]), rs[1..]);
    }
  }

  ghost predicate Firing(s: T.State) {
    s.cpu == T.Looping && Quiet(s)
  }

  /** One round: the head fires, its callback does its batch, and the loop goes on. */
  ghost function Round(s: T.State, batch: seq<Request>): (s': T.State)
    requires Firing(s) && T.Due(s)
    ensures Firing(s')
  {
    T.Next(DoAll(T.Next(s, T.Step.Fire), batch), T.EndCallback)
  }

  lemma ErasesRound(s: T.State, batch: seq<Request>)
    requires Firing(s) && T.Due(s)
    ensures HeadDue(T.Erase(s)) && T.Erase(Round(s, batch)) == Fire(T.Erase(s), batch)
  {
    hide DoAll, ObeyAll;
    var s1 := T.Next(s, T.Step.Fire);
    ErasesFire(s);
    ErasesDoAll(s1, batch);
    EraseIgnoresCpu(DoAll(s1, batch), T.Looping);
    FireIsObeyAll(T.Erase(s), batch);
  }

  lemma FireIsObeyAll(st: Sched, batch: seq<Request>)
    requires HeadDue(st)
    ensures Fire(st, batch) == ObeyAll(Fire(st, []), batch)
  {
  }

  lemma EraseIgnoresCpu(s: T.State, cpu: T.Cpu)
    ensures T.Erase(s.(cpu := cpu)) == T.Erase(s)
  {
  }

  /** The firing loop to its end. */
  ghost function Loop(s: T.State, script: seq<seq<Request>>): (s': T.State)
    requires Firing(s)
    ensures s'.cpu == T.Outside && Quiet(s')
    decreases |s.main| + Pending(script)
  {
    if !T.Due(s) then T.Next(s, T.Return)
    else
      RoundShrinks(s, script);
      Loop(Round(s, FirstBatch(script)), Rest(script))
  }

  lemma RoundShrinks(s: T.State, script: seq<seq<Request>>)
    requires Firing(s) && T.Due(s)
    ensures |Round(s, FirstBatch(script)).main| + Pending(Rest(script)) < |s.main| + Pending(script)
  {
    hide Round, Fire;
    ErasesRound(s, FirstBatch(script));
    FireShrinks(T.Erase(s), script);
  }

  lemma {:induction false} ErasesLoop(s: T.State, script: seq<seq<Request>>)
    requires Firing(s)
    ensures T.Erase(Loop(s, script)) == RunFifo(T.Erase(s), script)
    decreases |s.main| + Pending(script)
  {
    hide Round, Fire;
    if T.Due(s) {
      ErasesRound(s, FirstBatch(script));
      RoundShrinks(s, script);
      ErasesLoop(Round(s, FirstBatch(script)), Rest(script));
    } else {
      EraseIgnoresCpu(s, T.Outside);
    }
  }

  /** Everything from the moved clock to the end of the firing loop. */
  ghost function CatchUp(s: T.State, script: seq<seq<Request>>): (s': T.State)
    requires s.cpu == T.Ticked && Quiet(s)
    ensures s'.cpu == T.Outside && Quiet(s')
  {
    var s1 := T.Next(s, T.LoadFlag);
    if s.flag then Loop(T.Next(T.Next(s1, T.ClearFlag), T.MoveLocked), script) else Loop(s1, script)
  }

  /** Uninterrupted, the steps of the CPU thread after the clock has moved are the catch-up that Advance
      and Idle of the scheduler class are specified by, for every script of callbacks. */
  lemma UninterruptedCatchUp(s: T.State, script: seq<seq<Request>>)
    requires s.cpu == T.Ticked && Quiet(s)
    ensures T.Erase(CatchUp(s, script)) == Catchup(T.Erase(s), script)
  {
    hide Loop, RunFifo, T.EnterAll, InsertAll;
    var s1 := T.Next(s, T.LoadFlag);
    EraseIgnoresCpu(s, s1.cpu);
    if s.flag {
      var s2 := T.Next(s1, T.ClearFlag);
      var s3 := T.Next(s2, T.MoveLocked);
      ErasesMove(s2);
      assert T.Erase(s3) == Move(T.Erase(s));
      ErasesLoop(s3, script);
    } else {
      ErasesLoop(s1, script);
    }
  }

  /** So a whole Advance is one cycle and that catch-up, and a whole Idle its idle cycles and that catch-up. */
  lemma UninterruptedOperations(s: T.State, script: seq<seq<Request>>, maxIdle: S32)
    requires s.cpu == T.Outside && Quiet(s)
    ensures T.Enabled(s, T.Advance) ==>
              T.Erase(CatchUp(T.Next(s, T.Advance), script)) == Catchup(T.Erase(s).(now := s.now + 1), script)
    ensures T.Enabled(s, T.Idle(maxIdle)) ==>
              var c := IdleCycles(T.Erase(s), maxIdle);
              T.Erase(CatchUp(T.Next(s, T.Idle(maxIdle)), script)) == Catchup(T.Erase(s).(now := s.now + c), script)
  {
    hide CatchUp, Catchup, IdleCycles;
    if T.Enabled(s, T.Advance) { UninterruptedCatchUp(T.Next(s, T.Advance), script); }
    if T.Enabled(s, T.Idle(maxIdle)) { UninterruptedCatchUp(T.Next(s, T.Idle(maxIdle)), script); }
  }

  /** The steps of a direct call of MoveEvents. */
  ghost function MoveDirectly(s: T.State): T.State
    requires s.cpu == T.Outside && Quiet(s)
  {
    T.Next(T.Next(T.Next(s, T.CallMove), T.ClearFlag), T.MoveLocked)
  }

  /** And direct calls of MoveEvents and of the firing loop are those operations, back in guest code. */
  lemma UninterruptedCalls(s: T.State, script: seq<seq<Request>>)
    requires s.cpu == T.Outside && Quiet(s)
    ensures T.Erase(MoveDirectly(s)) == Move(T.Erase(s)) && MoveDirectly(s).cpu == T.Outside && Quiet(MoveDirectly(s))
    ensures T.Erase(Loop(T.Next(s, T.CallFifo), script)) == RunFifo(T.Erase(s), script)
  {
    hide Loop, RunFifo, T.EnterAll, InsertAll;
    var s2 := T.Next(T.Next(s, T.CallMove), T.ClearFlag);
    ErasesMove(s2);
    ErasesLoop(T.Next(s, T.CallFifo), script);
    EraseIgnoresCpu(s, T.Looping);
  }
}

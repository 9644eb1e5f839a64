/** Whole runs of QueueSteps: in every interleaving of pointer writes, the queues that the pointers make, and
    the callbacks that are called, are those of a run of TimingRuns. */
module QueueRuns {
  import opened Bytes
  import opened EventSpec
  import opened NodeLists
  import opened QueueSteps
  import opened Wrappers
  import P = PlacementSteps
  import R = TimingRuns
  import T = TimingSteps

  ghost predicate IsRun(cs: seq<State>, steps: seq<Step>) {
    && |cs| == |steps| + 1 && Init(cs[0])
    && forall i :: 0 <= i < |steps| ==> Enabled(cs[i], steps[i]) && cs[i + 1] == Next(cs[i], steps[i])
  }

  /** The steps of a run that show, in order. */
  ghost function Trace(cs: seq<State>, steps: seq<Step>, k: nat): seq<T.Step>
    requires IsRun(cs, steps) && k <= |steps|
  {
    if k == 0 then []
    else
      var shown := Shown(cs[k - 1], steps[k - 1]);
      Trace(cs, steps, k - 1) + if shown.Some? then [shown.value] else []
  }

  /** A run of TimingRuns with these steps ends in t. */
  ghost predicate Reaches(trace: seq<T.Step>, t: T.State) {
    exists ts :: R.IsRun(ts, trace) && ts[|trace|] == t
  }

  /** In every interleaving of pointer writes, the steps that show are a run of TimingRuns: it has called the
      same callbacks in the same order; when the CPU thread is between two operations, first leads through
      nodes that hold just its main queue; and when the lock is free, tsFirst through ones that hold just its
      thread-safe queue. */
  lemma RefinesTiming(cs: seq<State>, steps: seq<Step>, k: nat)
    requires IsRun(cs, steps) && k < |cs|
    ensures Reaches(Trace(cs, steps, k), cs[k].t)
    ensures cs[k].calls == Fired(cs[k].t)
    ensures var c, s := cs[k], cs[k].p;
      && (s.cpu == P.Rest ==>
            P.Follows(s.next, s.heads.main, s.view.main) && Pay(c.ev, s.view.main) == T.Evs(c.t.main))
      && (s.owner == P.Nobody ==>
            P.Follows(s.next, s.heads.ts, s.view.ts) && Pay(c.ev, s.view.ts) == T.Evs(c.t.ts)
              && s.tsLast == Last(s.view.ts))
  {
    hide *;
    var c := cs[k];
    RunAgrees(cs, steps, k);
    Parts(c);
    InvFollows(c.p);
    if c.p.cpu == P.Rest { AtRest(c); }
    if c.p.owner == P.Nobody {
      FreeLock(c);
      MainPayIs(c);
    }
  }

  /** So what holds in every run of TimingRuns holds of the nodes: first leads through them in due order, and no
      hand-off is left behind unless the flag says so or a move is about to take it. */
  lemma NodesInOrder(cs: seq<State>, steps: seq<Step>, k: nat)
    requires IsRun(cs, steps) && k < |cs|
    ensures cs[k].p.cpu == P.Rest ==> Sorted(Pay(cs[k].ev, cs[k].p.view.main))
    ensures cs[k].p.owner == P.Nobody && cs[k].p.view.ts != [] ==> cs[k].t.flag || cs[k].t.cpu.Cleared?
  {
    var c, trace := cs[k], Trace(cs, steps, k);
    hide *;
    RefinesTiming(cs, steps, k);
    RunAgrees(cs, steps, k);
    Parts(c);
    ReachedInv(trace, c.t);
    ReachedOrder(c.t);
    if c.p.owner == P.Nobody { FreeLock(c); }
    PayLength(c.ev, c.p.view.ts);
    EvsLength(c.t.ts);
  }

  lemma EvsLength<X>(q: seq<T.Queued<X>>)
    ensures |T.Evs(q)| == |q|
  {
  }

  lemma ReachedInv(trace: seq<T.Step>, t: T.State)
    requires Reaches(trace, t)
    ensures T.Inv(t)
  {
    hide T.Enabled, T.Next, T.Init, T.Inv;
    var ts :| R.IsRun(ts, trace) && ts[|trace|] == t;
    R.RunInv(ts, trace, |trace|);
  }

  lemma ReachedOrder(t: T.State)
    requires T.Inv(t)
    ensures T.LockHeld(t) && Sorted(T.Evs(t.main)) && (t.ts != [] && !t.lock ==> t.flag || t.cpu.Cleared?)
  {
    hide T.Accounted, T.Dated, T.Overtaken;
    forall i, j | 0 <= i < j < |t.main| ensures T.Evs(t.main)[i].time <= T.Evs(t.main)[j].time {
      assert T.InOrder()(t.main[i], t.main[j]);
    }
  }

  lemma InvFollows(s: P.State)
    requires P.Inv(s)
    ensures s.cpu == P.Rest ==> P.Follows(s.next, s.heads.main, s.view.main)
    ensures s.owner == P.Nobody ==> P.Follows(s.next, s.heads.ts, s.view.ts) && s.tsLast == Last(s.view.ts)
  {
  }

  lemma InitAgrees(c: State)
    requires Init(c)
    ensures Agree(c) && Reaches([], c.t)
  {
    P.InitInv(c.p);
    hide P.Inv;
    assert R.IsRun([c.t], []);
  }

  lemma ReachesMore(trace: seq<T.Step>, t: T.State, step: T.Step)
    requires Reaches(trace, t) && T.Enabled(t, step)
    ensures Reaches(trace + [step], T.Next(t, step))
  {
    hide T.Enabled, T.Next, T.Init;
    var ts :| R.IsRun(ts, trace) && ts[|trace|] == t;
    var more := ts + [T.Next(t, step)];
    assert R.IsRun(more, trace + [step]) && more[|trace| + 1] == T.Next(t, step);
  }

  lemma {:induction false} RunAgrees(cs: seq<State>, steps: seq<Step>, k: nat)
    requires IsRun(cs, steps) && k < |cs|
    ensures Agree(cs[k]) && Reaches(Trace(cs, steps, k), cs[k].t)
  {
    hide Agree, Reaches, Next, Enabled, Init, T.Inv, T.LockHeld;
    if k == 0 {
      InitAgrees(cs[0]);
    } else {
      var c, step := cs[k - 1], steps[k - 1];
      RunAgrees(cs, steps, k - 1);
      ReachedInv(Trace(cs, steps, k - 1), c.t);
      ReachedOrder(c.t);
      StepAgrees(c, step);
      TraceStep(c, step);
      var before := Trace(cs, steps, k - 1);
      if Shown(c, step).Some? {
        ReachesMore(before, c.t, Shown(c, step).value);
      } else {
        assert before + [] == before;
      }
    }
  }

  /** A step that does not show leaves TimingRuns where it is. */
  lemma TraceStep(c: State, step: Step)
    requires Enabled(c, step) && Refined(c, step)
    ensures if Shown(c, step).Some?
            then T.Enabled(c.t, Shown(c, step).value) && Next(c, step).t == T.Next(c.t, Shown(c, step).value)
            else Next(c, step).t == c.t
  {
    hide T.Enabled, T.Next, P.Enabled, P.Next;
  }

  // ---------------------------------------------------------------- a machine of its own

  /** The clock, the flag, the lock, and where the threads are. */
  predicate SameThreads(t: T.State, u: T.State) {
    t.now == u.now && t.flag == u.flag && t.lock == u.lock && t.cpu == u.cpu && t.others == u.others
  }

  /** No step looks at the queues of TimingRuns, or at its logs. */
  lemma QueuesUnread(c: State, t: T.State, step: Step)
    requires SameThreads(c.t, t)
    ensures Enabled(c.(t := t), step) <==> Enabled(c, step)
    ensures Enabled(c, step) ==>
      var n, n' := Next(c, step), Next(c.(t := t), step); n' == n.(t := n'.t) && SameThreads(n.t, n'.t)
  {
    EnabledUnread(c, t, step);
    hide Enabled, SameThreads, Next;
    if Enabled(c, step) { AllUnread(c, t, step); }
  }

  lemma AllUnread(c: State, t: T.State, step: Step)
    requires SameThreads(c.t, t) && Enabled(c, step) && Enabled(c.(t := t), step)
    ensures var n, n' := Next(c, step), Next(c.(t := t), step); n' == n.(t := n'.t) && SameThreads(n.t, n'.t)
  {
    hide Enabled, SameThreads;
    ShownUnread(c, t, step);
    TimingUnread(c, t, step);
    hide Shown, Timing, P.Next, P.Enabled, Wrap64;
  }

  lemma EnabledUnread(c: State, t: T.State, step: Step)
    requires SameThreads(c.t, t)
    ensures Enabled(c.(t := t), step) <==> Enabled(c, step)
  {
    hide P.Enabled, IdleCycles;
  }

  lemma ShownUnread(c: State, t: T.State, step: Step)
    requires SameThreads(c.t, t) && Enabled(c, step) && Enabled(c.(t := t), step)
    ensures Shown(c.(t := t), step) == Shown(c, step) && c.t.now == t.now && T.Pc(c.t, c.who) == T.Pc(t, c.who)
  {
    hide Enabled;
  }

  /** All but three steps of TimingRuns are possible whatever is in the queues. */
  lemma MayUnread(t: T.State, u: T.State, step: T.Step)
    requires SameThreads(t, u) && !step.Fire? && !step.Return? && !step.Idle?
    ensures T.Enabled(t, step) <==> T.Enabled(u, step)
  {
  }

  lemma NextUnread(t: T.State, u: T.State, step: T.Step)
    requires SameThreads(t, u) && T.Enabled(t, step) && T.Enabled(u, step) && !step.Idle?
    ensures SameThreads(T.Next(t, step), T.Next(u, step))
  {
    hide IdleCycles, Wrap64, T.Enter, T.EnterAll, T.Filter, T.Erase, T.Misses, T.HitBy, T.Due;
  }

  lemma TakingUnread(t: T.State, u: T.State, step: Option<T.Step>)
    requires SameThreads(t, u) && (step.Some? ==> !step.value.Return? && !step.value.Idle?)
    ensures if step == Some(T.Fire)
            then SameThreads(Taking(t, step).(cpu := T.InCallback), Taking(u, step).(cpu := T.InCallback))
            else SameThreads(Taking(t, step), Taking(u, step))
  {
    hide T.Enabled, T.Next;
    if step.Some? {
      var s := step.value;
      if !s.Fire? { MayUnread(t, u, s); }
      if T.Enabled(t, s) && T.Enabled(u, s) { NextUnread(t, u, s); }
      if s.Fire? && T.Enabled(t, s) { FireThreads(t); }
      if s.Fire? && T.Enabled(u, s) { FireThreads(u); }
    }
  }

  lemma FireThreads(t: T.State)
    requires T.Enabled(t, T.Step.Fire)
    ensures SameThreads(T.Next(t, T.Step.Fire), t.(cpu := T.InCallback))
  {
  }

  lemma ThreadsOf(t: T.State, u: T.State)
    requires SameThreads(t, u)
    ensures t.now == u.now && forall now, cpu :: SameThreads(t.(now := now, cpu := cpu), u.(now := now, cpu := cpu))
    ensures forall cpu :: SameThreads(t.(cpu := cpu), u.(cpu := cpu))
  {
  }

  lemma TimingUnread(c: State, t: T.State, step: Step)
    requires SameThreads(c.t, t) && Enabled(c, step) && Enabled(c.(t := t), step)
    ensures SameThreads(Timing(c, step), Timing(c.(t := t), step))
  {
    ShownUnread(c, t, step);
    hide Enabled, Taking, SameThreads;
    var shown := Shown(c, step);
    if shown.None? || (!shown.value.Return? && !shown.value.Idle?) { TakingUnread(c.t, t, shown); }
    ThreadsOf(c.t, t);
  }
}

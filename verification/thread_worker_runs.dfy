/** Whole runs of the worker pool: what is scheduled is accounted for, tasks run once, a wait returns when all
    are done, and every call returns. */
module ThreadWorkerRuns {
  import opened ThreadWorker

  ghost predicate IsRun(ss: seq<State>, steps: seq<Step>) {
    && |ss| == |steps| + 1
    && forall k :: 0 <= k < |steps| ==> Enabled(ss[k], steps[k]) && ss[k + 1] == Next(ss[k], steps[k])
  }

  ghost predicate Started(s: State) {
    Init(s) && |s.workers| > 0
  }

  lemma InitInv(s: State)
    requires Started(s)
    ensures Inv(s)
  {
    TotalZero(s.workers, BusyWeight());
  }

  lemma {:induction false} RunInv(ss: seq<State>, steps: seq<Step>, k: nat)
    requires IsRun(ss, steps) && Started(ss[0]) && k < |ss|
    ensures Inv(ss[k])
  {
    hide Inv, Started, Enabled, Next;
    if k == 0 {
      InitInv(ss[0]);
    } else {
      RunInv(ss, steps, k - 1);
      InvStep(ss[k - 1], steps[k - 1]);
    }
  }

  /** Whenever the lock is free, what was scheduled is queued, with a worker, or done. */
  lemma ScheduledIsAccountedFor(ss: seq<State>, steps: seq<Step>, k: nat)
    requires IsRun(ss, steps) && Started(ss[0]) && k < |ss| && ss[k].lock == Free
    ensures ss[k].scheduled == |ss[k].queue| + Busy(ss[k]) + ss[k].done
  {
    RunInv(ss, steps, k);
  }

  /** Tasks are started at most once each, and only tasks that were put on the queue. */
  lemma TasksRunOnce(ss: seq<State>, steps: seq<Step>, k: nat)
    requires IsRun(ss, steps) && Started(ss[0]) && k < |ss|
    ensures forall a, b :: 0 <= a < b < |ss[k].started| ==> ss[k].started[a] != ss[k].started[b]
    ensures forall t :: t in ss[k].started ==> t < ss[k].emplaced
    ensures ss[k].finished <= set t | t in ss[k].started
  {
    RunInv(ss, steps, k);
    var s := ss[k];
    forall t | t in s.started ensures t < s.emplaced {
      if SomeRuns(s.workers, t) {
        var i :| 0 <= i < |s.workers| && s.workers[i] == Running(t);
        assert TaskOf(s.workers[i]) == t;
      }
    }
  }

  /** A step takes the oldest task off the queue, or none. */
  lemma TakenStep(s: State, step: Step)
    requires Inv(s) && Enabled(s, step)
    ensures Taken(s) <= Taken(Next(s, step))
    ensures step.WorkerTest? && Next(s, step).workers[step.i].Popped? ==>
      Taken(Next(s, step)) == Taken(s) + 1 && Next(s, step).workers[step.i] == Popped(Taken(s))
  {
    hide LockOk, CountOk, OwnersOk, StartedOk, WaitersOk, AwakeOk;
    if step.WorkerTest? && s.queue != [] { assert s.queue[0] == Taken(s) + 0; }
  }

  lemma {:induction false} TakenGrows(ss: seq<State>, steps: seq<Step>, j: nat, k: nat)
    requires IsRun(ss, steps) && Started(ss[0]) && j <= k < |ss|
    ensures Taken(ss[j]) <= Taken(ss[k])
    decreases k
  {
    hide Inv, Started, Enabled, Next, Taken;
    if j < k {
      TakenGrows(ss, steps, j, k - 1);
      RunInv(ss, steps, k - 1);
      TakenStep(ss[k - 1], steps[k - 1]);
    }
  }

  /** First in, first out: of two tasks, the one taken off the queue first was put on it first. */
  lemma TakenInOrder(ss: seq<State>, steps: seq<Step>, j: nat, k: nat, a: nat, b: nat)
    requires IsRun(ss, steps) && Started(ss[0]) && j < k < |steps|
    requires steps[j] == WorkerTest(a) && steps[k] == WorkerTest(b)
    requires a < |ss[j + 1].workers| && ss[j + 1].workers[a].Popped?
    requires b < |ss[k + 1].workers| && ss[k + 1].workers[b].Popped?
    ensures ss[j + 1].workers[a].task < ss[k + 1].workers[b].task
  {
    hide Inv, Started, Enabled, Next, Taken;
    RunInv(ss, steps, j);
    RunInv(ss, steps, k);
    TakenStep(ss[j], steps[j]);
    TakenStep(ss[k], steps[k]);
    TakenGrows(ss, steps, j + 1, k);
  }

  lemma NobodyBusy(s: State)
    requires Inv(s) && Busy(s) == 0
    ensures forall t: nat :: t < Taken(s) ==> t in s.finished
  {
    hide Total;
    TotalZero(s.workers, BusyWeight());
    assert forall i :: 0 <= i < |s.workers| ==> BusyWeight()(s.workers[i]) == 0;
    assert forall i :: 0 <= i < |s.workers| ==> TaskOf(s.workers[i]) == -1;
  }

  /** A call of WaitForRequests returns only when every task scheduled by then has run. */
  lemma WaitReturnsWhenDone(ss: seq<State>, steps: seq<Step>, k: nat, i: nat)
    requires IsRun(ss, steps) && Started(ss[0]) && k < |steps| && steps[k] == WaitDecide(i)
    requires i < |ss[k + 1].waiters| && ss[k + 1].waiters[i] == Out
    ensures ss[k].queue == [] && Busy(ss[k]) == 0 && ss[k].done == ss[k].scheduled == ss[k].emplaced
    ensures forall t: nat :: t < ss[k].emplaced ==> t in ss[k].finished
  {
    RunInv(ss, steps, k);
    var s := ss[k];
    assert WaiterHasLock(s.waiters[i]);
    assert WaiterOk(s.waiters[i], s.done, s.scheduled, SomeTop(s.workers), Pending(s.workers));
    NobodyBusy(s);
  }

  /** A waiter asleep though its predicate holds is about to be woken: some worker is between counting its
      last task and looking at the queue. */
  lemma NoWakeUpLost(ss: seq<State>, steps: seq<Step>, k: nat, i: nat)
    requires IsRun(ss, steps) && Started(ss[0]) && k < |ss|
    requires i < |ss[k].waiters| && ss[k].waiters[i] == Sleeping && ss[k].done >= ss[k].scheduled
    ensures Pending(ss[k].workers)
  {
    RunInv(ss, steps, k);
    var s := ss[k];
    assert WaiterOk(s.waiters[i], s.done, s.scheduled, SomeTop(s.workers), Pending(s.workers));
  }

  /** Without workers the guarantee of WaitForRequests is lost: it returns with a task on the queue. */
  lemma NoWorkersNoWait() returns (ss: seq<State>, steps: seq<Step>)
    ensures IsRun(ss, steps) && Init(ss[0]) && |ss[0].workers| == 0
    ensures |steps| > 0 && steps[|steps| - 1] == WaitDecide(0) && ss[|steps|].waiters == [Out]
      && ss[|steps|].queue == [0]
  {
    hide IsRun;
    ss, steps := QueueWithoutWorkers();
    ss, steps := Extend(ss, steps, WaitCall(0), State(Free, [], [Unlocked], [Wanting], [0], 1, 1, 0, [], {}));
    ss, steps := Extend(ss, steps, WaitLock(0), State(OfWaiter(0), [], [Unlocked], [Loading], [0], 1, 1, 0, [], {}));
    ss, steps := Extend(ss, steps, WaitLoad(0), State(OfWaiter(0), [], [Unlocked], [Loaded(0)], [0], 1, 1, 0, [], {}));
    ss, steps := Extend(ss, steps, WaitDecide(0), State(Free, [], [Unlocked], [Out], [0], 1, 1, 0, [], {}));
  }

  lemma EnterWithoutWorkers() returns (ss: seq<State>, steps: seq<Step>)
    ensures IsRun(ss, steps) && |ss| == 3 && Init(ss[0]) && |ss[0].workers| == 0
    ensures |steps| == 2 && ss[2] == State(OfProducer(0), [], [Locked], [Out], [], 0, 0, 0, [], {})
  {
    ss, steps := [State(Free, [], [Away], [Out], [], 0, 0, 0, [], {})], [];
    assert IsRun(ss, steps);
    hide IsRun;
    ss, steps := Extend(ss, steps, QueueCall(0), State(Free, [], [Entering], [Out], [], 0, 0, 0, [], {}));
    ss, steps := Extend(ss, steps, QueueLock(0), State(OfProducer(0), [], [Locked], [Out], [], 0, 0, 0, [], {}));
  }

  lemma QueueWithoutWorkers() returns (ss: seq<State>, steps: seq<Step>)
    ensures IsRun(ss, steps) && |ss| == 6 && Init(ss[0]) && |ss[0].workers| == 0
    ensures |steps| == 5 && ss[5] == State(Free, [], [Unlocked], [Out], [0], 1, 1, 0, [], {})
  {
    hide IsRun;
    ss, steps := EnterWithoutWorkers();
    ss, steps := Extend(ss, steps, QueueEmplace(0), State(OfProducer(0), [], [Emplaced], [Out], [0], 1, 0, 0, [], {}));
    ss, steps := Extend(ss, steps, QueueCount(0), State(OfProducer(0), [], [Counted], [Out], [0], 1, 1, 0, [], {}));
    ss, steps := Extend(ss, steps, QueueUnlock(0), State(Free, [], [Unlocked], [Out], [0], 1, 1, 0, [], {}));
  }

  lemma Extend(ss: seq<State>, steps: seq<Step>, step: Step, to: State) returns (ss': seq<State>, steps': seq<Step>)
    requires IsRun(ss, steps) && Enabled(ss[|steps|], step) && Next(ss[|steps|], step) == to
    ensures IsRun(ss', steps') && steps' == steps + [step] && ss' == ss + [to]
  {
    hide Enabled, Next;
    ss', steps' := ss + [to], steps + [step];
  }

  // ---------------------------------------------------------------- everything ends

  /** Steps of calls already made: no new call, no spurious wake-up. */
  predicate Internal(step: Step) {
    !step.QueueCall? && !step.WaitCall? && !step.WorkerSpurious? && !step.WaitSpurious?
  }

  /** When nothing more can happen by itself, every task is done and every call has returned. */
  lemma RestMeansDone(s: State)
    requires Inv(s) && forall step :: Internal(step) ==> !Enabled(s, step)
    ensures AllAsleep(s.workers) && s.queue == [] && s.done == s.scheduled == s.emplaced
    ensures forall i :: 0 <= i < |s.producers| ==> s.producers[i] == Away
    ensures forall i :: 0 <= i < |s.waiters| ==> s.waiters[i] == Out
    ensures forall t: nat :: t < s.emplaced ==> t in s.finished
  {
    if s.lock != Free {
      var step := HolderGoesOn(s);
      assert false;
    }
    RestAsleep(s);
    RestAway(s);
    hide Total;
    TotalZero(s.workers, BusyWeight());
    NobodyBusy(s);
    forall i | 0 <= i < |s.waiters| ensures s.waiters[i] == Out {
      assert WaiterOk(s.waiters[i], s.done, s.scheduled, SomeTop(s.workers), Pending(s.workers));
      assert !Enabled(s, WaitLock(i));
    }
  }

  /** Whoever has the lock can go on. */
  lemma HolderGoesOn(s: State) returns (step: Step)
    requires LockOk(s) && s.lock != Free
    ensures Internal(step) && Enabled(s, step)
  {
    match s.lock
    case OfWorker(i) =>
      step := match s.workers[i]
              case Checking => WorkerCheck(i)
              case Testing => WorkerTest(i)
              case _ => WorkerUnlock(i);
    case OfProducer(i) =>
      step := match s.producers[i]
              case Locked => QueueEmplace(i)
              case Emplaced => QueueCount(i)
              case _ => QueueUnlock(i);
    case OfWaiter(i) =>
      step := match s.waiters[i] case Loading => WaitLoad(i) case _ => WaitDecide(i);
  }

  lemma RestAsleep(s: State)
    requires LockOk(s) && s.lock == Free && forall step :: Internal(step) ==> !Enabled(s, step)
    ensures AllAsleep(s.workers)
  {
    forall i | 0 <= i < |s.workers| ensures s.workers[i] == Asleep {
      assert !Enabled(s, WorkerLock(i)) && !Enabled(s, WorkerStart(i)) && !Enabled(s, WorkerFinish(i))
        && !Enabled(s, WorkerCount(i));
    }
  }

  lemma RestAway(s: State)
    requires LockOk(s) && s.lock == Free && |s.workers| > 0 && AllAsleep(s.workers)
    requires forall step :: Internal(step) ==> !Enabled(s, step)
    ensures forall i :: 0 <= i < |s.producers| ==> s.producers[i] == Away
  {
    forall i | 0 <= i < |s.producers| ensures s.producers[i] == Away {
      assert !Enabled(s, QueueLock(i)) && !Enabled(s, QueueNotify(i, 0));
    }
  }

  /** What is left to do: weights such that every internal step lowers the total. n is the number of waiters. */
  function WorkerWeight(n: nat): Worker -> nat {
    (w: Worker) => match w
      case Asleep => 0
      case Testing => 1
      case Woken => 2
      case Checking => 3 * n + 2
      case Top => 3 * n + 3
      case Ran => 3 * n + 4
      case Running(_) => 3 * n + 5
      case Holding(_) => 3 * n + 6
      case Popped(_) => 3 * n + 7
  }

  function ProducerWeight(n: nat): Producer -> nat {
    (p: Producer) => match p
      case Away => 0
      case Unlocked => 3
      case Counted => 4
      case Emplaced => 5
      case Locked => 3 * n + 13
      case Entering => 3 * n + 14
  }

  function WaiterWeight(): Waiter -> nat {
    (q: Waiter) => match q
      case Out => 0
      case Sleeping => 0
      case Loaded(_) => 1
      case Loading => 2
      case Wanting => 3
  }

  function QueueWeight(queue: seq<nat>, n: nat): nat {
    |queue| * (3 * n + 7)
  }

  function Work(s: State): nat {
    var n := |s.waiters|;
    Total(s.workers, WorkerWeight(n)) + Total(s.producers, ProducerWeight(n)) + Total(s.waiters, WaiterWeight())
    + QueueWeight(s.queue, n)
  }

  lemma {:induction false} WakeAllWeight(ws: seq<Waiter>)
    ensures Total(WakeAll(ws), WaiterWeight()) <= Total(ws, WaiterWeight()) + 3 * |ws|
  {
    if ws != [] {
      assert WakeAll(ws)[1..] == WakeAll(ws[1..]);
      WakeAllWeight(ws[1..]);
    }
  }

  lemma WorkerWorks(s: State, step: Step)
    requires OfAWorker(step) && WorkerCan(s, step) && Internal(step)
    ensures Work(WorkerNext(s, step)) < Work(s)
  {
    hide Total;
    var s' := WorkerNext(s, step);
    TotalUpdate(s.workers, step.i, s'.workers[step.i], WorkerWeight(|s.waiters|));
    WakeAllWeight(s.waiters);
  }

  lemma ProducerWorks(s: State, step: Step)
    requires OfAProducer(step) && ProducerCan(s, step) && Internal(step)
    ensures Work(ProducerNext(s, step)) < Work(s)
  {
    hide Total;
    var s' := ProducerNext(s, step);
    TotalUpdate(s.producers, step.i, s'.producers[step.i], ProducerWeight(|s.waiters|));
    if step.QueueNotify? && !NoneAsleep(s.workers) {
      TotalUpdate(s.workers, step.woken, Woken, WorkerWeight(|s.waiters|));
    }
  }

  lemma WaiterWorks(s: State, step: Step)
    requires !OfAWorker(step) && !OfAProducer(step) && WaiterCan(s, step) && Internal(step)
    ensures Work(WaiterNext(s, step)) < Work(s)
  {
    hide Total;
    var s' := WaiterNext(s, step);
    TotalUpdate(s.waiters, step.i, s'.waiters[step.i], WaiterWeight());
  }

  lemma StepWorks(s: State, step: Step)
    requires Enabled(s, step) && Internal(step)
    ensures Work(Next(s, step)) < Work(s)
  {
    hide Work;
    if OfAWorker(step) {
      WorkerWorks(s, step);
    } else if OfAProducer(step) {
      ProducerWorks(s, step);
    } else {
      WaiterWorks(s, step);
    }
  }

  /** With no new calls and no spurious wake-ups, no schedule goes on for more than Work steps; and where
      it cannot go on, every task has run and every caller of WaitForRequests and QueueWork has returned. */
  lemma {:induction false} EveryCallReturns(ss: seq<State>, steps: seq<Step>)
    requires IsRun(ss, steps) && Inv(ss[0]) && forall k :: 0 <= k < |steps| ==> Internal(steps[k])
    ensures |steps| + Work(ss[|steps|]) <= Work(ss[0])
    ensures (forall step :: Internal(step) ==> !Enabled(ss[|steps|], step)) ==>
              && ss[|steps|].done == ss[|steps|].scheduled
              && (forall t: nat :: t < ss[|steps|].emplaced ==> t in ss[|steps|].finished)
              && (forall i :: 0 <= i < |ss[|steps|].waiters| ==> ss[|steps|].waiters[i] == Out)
              && (forall i :: 0 <= i < |ss[|steps|].producers| ==> ss[|steps|].producers[i] == Away)
    decreases |steps|
  {
    hide Work, Inv, Enabled, Next;
    if steps == [] {
      if forall step :: Internal(step) ==> !Enabled(ss[0], step) { RestMeansDone(ss[0]); }
    } else {
      StepWorks(ss[0], steps[0]);
      InvStep(ss[0], steps[0]);
      var ss', steps' := ss[1..], steps[1..];
      assert IsRun(ss', steps');
      EveryCallReturns(ss', steps');
    }
  }
}

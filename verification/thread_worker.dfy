/** common/thread_worker.h: a queue of tasks, workers that run them and callers that wait for all of them,
    as a step system: every access to the lock, the queue, a counter or a condition variable is a step.
    No stop is requested. A task that calls QueueWork is one more producer. */
module ThreadWorker {

  /** Where a worker is in its loop. */
  datatype Worker =
    | Top                  // wants the lock at the head of the loop
    | Checking             // has the lock; has not looked at the queue
    | Testing              // has the lock; about to test the predicate of CondvarWait
    | Asleep
    | Woken                // wants the lock back inside CondvarWait
    | Popped(task: nat)    // has the lock
    | Holding(task: nat)
    | Running(task: nat)
    | Ran                  // has not counted the task yet

  /** Where a caller of QueueWork is. */
  datatype Producer =
    | Away
    | Entering             // wants the lock
    | Locked
    | Emplaced             // has the lock; has not counted the task yet
    | Counted              // has the lock
    | Unlocked             // has not notified yet

  /** Where a caller of WaitForRequests is. */
  datatype Waiter =
    | Out
    | Wanting              // wants the lock
    | Loading              // has the lock; about to load work_done
    | Loaded(seen: nat)    // has the lock
    | Sleeping

  datatype Lock = Free | OfWorker(i: nat) | OfProducer(i: nat) | OfWaiter(i: nat)

  /** Tasks are numbered as they are put on the queue. started and finished are for the statements only. */
  datatype State = State(
    lock: Lock, workers: seq<Worker>, producers: seq<Producer>, waiters: seq<Waiter>,
    queue: seq<nat>, emplaced: nat, scheduled: nat, done: nat, started: seq<nat>, finished: set<nat>)

  datatype Step =
    | WorkerLock(i: nat)
    | WorkerCheck(i: nat)
    | WorkerTest(i: nat)
    | WorkerUnlock(i: nat)
    | WorkerStart(i: nat)
    | WorkerFinish(i: nat)
    | WorkerCount(i: nat)
    | WorkerSpurious(i: nat)
    | QueueCall(i: nat)
    | QueueLock(i: nat)
    | QueueEmplace(i: nat)
    | QueueCount(i: nat)
    | QueueUnlock(i: nat)
    | QueueNotify(i: nat, woken: nat)
    | WaitCall(i: nat)
    | WaitLock(i: nat)
    | WaitLoad(i: nat)
    | WaitDecide(i: nat)
    | WaitSpurious(i: nat)

  predicate AllAsleep(ws: seq<Worker>) {
    forall i :: 0 <= i < |ws| ==> ws[i] == Asleep
  }

  predicate NoneAsleep(ws: seq<Worker>) {
    forall i :: 0 <= i < |ws| ==> ws[i] != Asleep
  }

  predicate OfAWorker(step: Step) {
    step.WorkerLock? || step.WorkerCheck? || step.WorkerTest? || step.WorkerUnlock? || step.WorkerStart?
    || step.WorkerFinish? || step.WorkerCount? || step.WorkerSpurious?
  }

  predicate OfAProducer(step: Step) {
    || step.QueueCall? || step.QueueLock? || step.QueueEmplace?
    || step.QueueCount? || step.QueueUnlock? || step.QueueNotify?
  }

  predicate WorkerCan(s: State, step: Step)
    requires OfAWorker(step)
  {
    && step.i < |s.workers|
    && var w := s.workers[step.i];
      match step
      case WorkerLock(_) => (w == Top || w == Woken) && s.lock == Free
      case WorkerCheck(_) => w == Checking
      case WorkerTest(_) => w == Testing
      case WorkerUnlock(_) => w.Popped?
      case WorkerStart(_) => w.Holding?
      case WorkerFinish(_) => w.Running?
      case WorkerCount(_) => w == Ran
      case WorkerSpurious(_) => w == Asleep
  }

  predicate ProducerCan(s: State, step: Step)
    requires OfAProducer(step)
  {
    && step.i < |s.producers|
    && var p := s.producers[step.i];
      match step
      case QueueCall(_) => p == Away
      case QueueLock(_) => p == Entering && s.lock == Free
      case QueueEmplace(_) => p == Locked
      case QueueCount(_) => p == Emplaced
      case QueueUnlock(_) => p == Counted
      case QueueNotify(_, woken) =>
        p == Unlocked && (NoneAsleep(s.workers) || (woken < |s.workers| && s.workers[woken] == Asleep))
  }

  predicate WaiterCan(s: State, step: Step)
    requires !OfAWorker(step) && !OfAProducer(step)
  {
    && step.i < |s.waiters|
    && var q := s.waiters[step.i];
      match step
      case WaitCall(_) => q == Out
      case WaitLock(_) => q == Wanting && s.lock == Free
      case WaitLoad(_) => q == Loading
      case WaitDecide(_) => q.Loaded?
      case WaitSpurious(_) => q == Sleeping
  }

  predicate Enabled(s: State, step: Step) {
    if OfAWorker(step) then WorkerCan(s, step)
    else if OfAProducer(step) then ProducerCan(s, step)
    else WaiterCan(s, step)
  }

  /** notify_all on the condition variable of the waiters. */
  function WakeAll(ws: seq<Waiter>): (r: seq<Waiter>)
    ensures |r| == |ws|
    ensures forall i :: 0 <= i < |ws| ==> r[i] == if ws[i] == Sleeping then Wanting else ws[i]
  {
    seq(|ws|, i requires 0 <= i < |ws| => if ws[i] == Sleeping then Wanting else ws[i])
  }

  function WorkerNext(s: State, step: Step): State
    requires OfAWorker(step) && WorkerCan(s, step)
  {
    var i, w := step.i, s.workers[step.i];
    match step
    case WorkerLock(_) => s.(lock := OfWorker(i), workers := s.workers[i := if w == Top then Checking else Testing])
    case WorkerCheck(_) =>
      s.(workers := s.workers[i := Testing], waiters := if s.queue == [] then WakeAll(s.waiters) else s.waiters)
    case WorkerTest(_) =>
      if s.queue == [] then s.(lock := Free, workers := s.workers[i := Asleep])
      else s.(workers := s.workers[i := Popped(s.queue[0])], queue := s.queue[1..])
    case WorkerUnlock(_) => s.(lock := Free, workers := s.workers[i := Holding(w.task)])
    case WorkerStart(_) => s.(workers := s.workers[i := Running(w.task)], started := s.started + [w.task])
    case WorkerFinish(_) => s.(workers := s.workers[i := Ran], finished := s.finished + {w.task})
    case WorkerCount(_) => s.(workers := s.workers[i := Top], done := s.done + 1)
    case WorkerSpurious(_) => s.(workers := s.workers[i := Woken])
  }

  function ProducerNext(s: State, step: Step): State
    requires OfAProducer(step) && ProducerCan(s, step)
  {
    var i := step.i;
    match step
    case QueueCall(_) => s.(producers := s.producers[i := Entering])
    case QueueLock(_) => s.(lock := OfProducer(i), producers := s.producers[i := Locked])
    case QueueEmplace(_) =>
      s.(producers := s.producers[i := Emplaced], queue := s.queue + [s.emplaced], emplaced := s.emplaced + 1)
    case QueueCount(_) => s.(producers := s.producers[i := Counted], scheduled := s.scheduled + 1)
    case QueueUnlock(_) => s.(lock := Free, producers := s.producers[i := Unlocked])
    case QueueNotify(_, woken) =>
      s.(producers := s.producers[i := Away],
         workers := if NoneAsleep(s.workers) then s.workers else s.workers[woken := Woken])
  }

  /** No worker has stopped, so the first half of the predicate asks whether there are no workers. */
  function WaiterNext(s: State, step: Step): State
    requires !OfAWorker(step) && !OfAProducer(step) && WaiterCan(s, step)
  {
    var i, q := step.i, s.waiters[step.i];
    match step
    case WaitCall(_) => s.(waiters := s.waiters[i := Wanting])
    case WaitLock(_) => s.(lock := OfWaiter(i), waiters := s.waiters[i := Loading])
    case WaitLoad(_) => s.(waiters := s.waiters[i := Loaded(s.done)])
    case WaitDecide(_) =>
      s.(lock := Free, waiters := s.waiters[i := if 0 >= |s.workers| || q.seen >= s.scheduled then Out else Sleeping])
    case WaitSpurious(_) => s.(waiters := s.waiters[i := Wanting])
  }

  function Next(s: State, step: Step): State
    requires Enabled(s, step)
  {
    if OfAWorker(step) then WorkerNext(s, step)
    else if OfAProducer(step) then ProducerNext(s, step)
    else WaiterNext(s, step)
  }

  ghost predicate Init(s: State) {
    && s.lock == Free && s.queue == [] && s.emplaced == s.scheduled == s.done == 0
    && s.started == [] && s.finished == {}
    && (forall i :: 0 <= i < |s.workers| ==> s.workers[i] == Top)
    && (forall i :: 0 <= i < |s.producers| ==> s.producers[i] == Away)
    && (forall i :: 0 <= i < |s.waiters| ==> s.waiters[i] == Out)
  }

  // ---------------------------------------------------------------- sums over threads

  function Total<T>(xs: seq<T>, f: T -> nat): nat {
    if xs == [] then 0 else f(xs[0]) + Total(xs[1..], f)
  }

  lemma {:induction false} TotalUpdate<T>(xs: seq<T>, i: nat, x: T, f: T -> nat)
    requires i < |xs|
    ensures Total(xs[i := x], f) == Total(xs, f) - f(xs[i]) + f(x)
  {
    if i == 0 {
      assert xs[i := x][1..] == xs[1..];
    } else {
      assert xs[i := x][1..] == xs[1..][i - 1 := x];
      TotalUpdate(xs[1..], i - 1, x, f);
    }
  }

  lemma {:induction false} TotalZero<T>(xs: seq<T>, f: T -> nat)
    ensures Total(xs, f) == 0 <==> forall i :: 0 <= i < |xs| ==> f(xs[i]) == 0
  {
    if xs != [] {
      TotalZero(xs[1..], f);
      assert forall i :: 0 < i < |xs| ==> xs[i] == xs[1..][i - 1];
    }
  }

  /** A task taken off the queue and not yet counted as done. */
  function BusyWeight(): Worker -> nat {
    (w: Worker) => if w.Popped? || w.Holding? || w.Running? || w.Ran? then 1 else 0
  }

  function Busy(s: State): nat {
    Total(s.workers, BusyWeight())
  }

  // ---------------------------------------------------------------- the invariant

  predicate WorkerHasLock(w: Worker) {
    w.Checking? || w.Testing? || w.Popped?
  }

  predicate ProducerHasLock(p: Producer) {
    p.Locked? || p.Emplaced? || p.Counted?
  }

  predicate WaiterHasLock(q: Waiter) {
    q.Loading? || q.Loaded?
  }

  ghost predicate LockOk(s: State) {
    && (forall i :: 0 <= i < |s.workers| ==> (WorkerHasLock(s.workers[i]) <==> s.lock == OfWorker(i)))
    && (forall i :: 0 <= i < |s.producers| ==> (ProducerHasLock(s.producers[i]) <==> s.lock == OfProducer(i)))
    && (forall i :: 0 <= i < |s.waiters| ==> (WaiterHasLock(s.waiters[i]) <==> s.lock == OfWaiter(i)))
    && (s.lock.OfWorker? ==> s.lock.i < |s.workers|)
    && (s.lock.OfProducer? ==> s.lock.i < |s.producers|)
    && (s.lock.OfWaiter? ==> s.lock.i < |s.waiters|)
  }

  /** A producer has put a task on the queue and not counted it. */
  predicate Uncounted(s: State) {
    s.lock.OfProducer? && s.lock.i < |s.producers| && s.producers[s.lock.i] == Emplaced
  }

  ghost predicate CountOk(s: State) {
    && s.done + Busy(s) + |s.queue| == s.emplaced
    && s.emplaced == s.scheduled + if Uncounted(s) then 1 else 0
  }

  /** The task a worker has taken and not finished, or -1. */
  function TaskOf(w: Worker): int {
    if w.Popped? || w.Holding? || w.Running? then w.task else -1
  }

  /** Tasks below this have left the queue. */
  function Taken(s: State): int {
    s.emplaced - |s.queue|
  }

  ghost predicate QueueOk(s: State) {
    Taken(s) >= 0 && forall k :: 0 <= k < |s.queue| ==> s.queue[k] == Taken(s) + k
  }

  /** Every task that left the queue is finished or has one worker. */
  ghost predicate OwnersOk(s: State) {
    && (forall t :: t in s.finished ==> t < Taken(s))
    && (forall i :: 0 <= i < |s.workers| ==> TaskOf(s.workers[i]) < Taken(s) && TaskOf(s.workers[i]) !in s.finished)
    && (forall i, j :: 0 <= i < j < |s.workers| && TaskOf(s.workers[i]) == TaskOf(s.workers[j]) ==>
          TaskOf(s.workers[i]) == -1)
    && (forall t: nat :: t < Taken(s) && t !in s.finished ==>
          exists i :: 0 <= i < |s.workers| && TaskOf(s.workers[i]) == t)
  }

  ghost predicate SomeRuns(ws: seq<Worker>, t: nat) {
    exists i :: 0 <= i < |ws| && ws[i] == Running(t)
  }

  /** No task was started twice, and those started are running or finished. */
  ghost predicate StartedOk(s: State) {
    && (forall a, b :: 0 <= a < b < |s.started| ==> s.started[a] != s.started[b])
    && (forall t :: t in s.started <==> t in s.finished || SomeRuns(s.workers, t))
  }

  /** Between counting a task and looking at the queue under the lock. */
  ghost predicate Pending(ws: seq<Worker>) {
    exists i :: 0 <= i < |ws| && (ws[i] == Top || ws[i] == Checking)
  }

  ghost predicate SomeTop(ws: seq<Worker>) {
    exists i :: 0 <= i < |ws| && ws[i] == Top
  }

  ghost predicate WaiterOk(q: Waiter, done: nat, scheduled: nat, top: bool, pending: bool) {
    && (q.Loaded? ==> q.seen <= done && (q.seen < done ==> top))
    && (q == Sleeping && done >= scheduled ==> pending)
  }

  ghost predicate WaitersOk(s: State) {
    forall i :: 0 <= i < |s.waiters| ==>
      WaiterOk(s.waiters[i], s.done, s.scheduled, SomeTop(s.workers), Pending(s.workers))
  }

  /** Between putting a task on the queue and notifying. */
  predicate BeforeNotify(p: Producer) {
    p == Emplaced || p == Counted || p == Unlocked
  }

  ghost predicate AwakeOk(s: State) {
    s.queue != [] && AllAsleep(s.workers) ==> exists i :: 0 <= i < |s.producers| && BeforeNotify(s.producers[i])
  }

  ghost predicate Inv(s: State) {
    && LockOk(s) && CountOk(s) && QueueOk(s) && OwnersOk(s) && StartedOk(s) && WaitersOk(s)
    && |s.workers| > 0 && AwakeOk(s)
  }

  lemma LockStep(s: State, step: Step)
    requires LockOk(s) && Enabled(s, step)
    ensures LockOk(Next(s, step))
  {
    hide LockOk;
    if OfAWorker(step) {
      LockWorker(s, step);
    } else if OfAProducer(step) {
      LockProducer(s, step);
    } else {
      LockWaiter(s, step);
    }
  }

  lemma LockWorker(s: State, step: Step)
    requires LockOk(s) && OfAWorker(step) && WorkerCan(s, step)
    ensures LockOk(WorkerNext(s, step))
  {
  }

  lemma LockProducer(s: State, step: Step)
    requires LockOk(s) && OfAProducer(step) && ProducerCan(s, step)
    ensures LockOk(ProducerNext(s, step))
  {
  }

  lemma LockWaiter(s: State, step: Step)
    requires LockOk(s) && !OfAWorker(step) && !OfAProducer(step) && WaiterCan(s, step)
    ensures LockOk(WaiterNext(s, step))
  {
  }

  lemma CountStep(s: State, step: Step)
    requires LockOk(s) && CountOk(s) && Enabled(s, step)
    ensures CountOk(Next(s, step))
  {
    hide Total;
    var s' := Next(s, step);
    if OfAWorker(step) {
      TotalUpdate(s.workers, step.i, s'.workers[step.i], BusyWeight());
    } else if step.QueueNotify? && !NoneAsleep(s.workers) {
      TotalUpdate(s.workers, step.woken, Woken, BusyWeight());
    }
  }

  lemma QueueStep(s: State, step: Step)
    requires QueueOk(s) && Enabled(s, step)
    ensures QueueOk(Next(s, step))
  {
  }

  lemma OwnersStep(s: State, step: Step)
    requires QueueOk(s) && 0 <= Taken(s) && OwnersOk(s) && Enabled(s, step)
    ensures OwnersOk(Next(s, step))
  {
    if step.WorkerTest? && s.queue != [] {
      PopOwners(s, step);
    } else if step.WorkerFinish? {
      FinishOwners(s, step.i);
    } else {
      SameTasks(s, step);
    }
  }

  lemma SameTasks(s: State, step: Step)
    requires OwnersOk(s) && Enabled(s, step) && !(step.WorkerTest? && s.queue != []) && !step.WorkerFinish?
    ensures OwnersOk(Next(s, step))
  {
    hide OwnersOk, Enabled, Next;
    TasksKept(s, step);
    KeptOwners(s, Next(s, step));
  }

  lemma TasksKept(s: State, step: Step)
    requires Enabled(s, step) && !(step.WorkerTest? && s.queue != []) && !step.WorkerFinish?
    ensures var s' := Next(s, step);
            && |s'.workers| == |s.workers| && Taken(s') == Taken(s) && s'.finished == s.finished
            && forall i :: 0 <= i < |s.workers| ==> TaskOf(s'.workers[i]) == TaskOf(s.workers[i])
  {
    var s' := Next(s, step);
    if OfAWorker(step) { assert TaskOf(s'.workers[step.i]) == TaskOf(s.workers[step.i]); }
  }

  lemma KeptOwners(s: State, s': State)
    requires OwnersOk(s)
    requires |s'.workers| == |s.workers| && Taken(s') == Taken(s) && s'.finished == s.finished
    requires forall i :: 0 <= i < |s.workers| ==> TaskOf(s'.workers[i]) == TaskOf(s.workers[i])
    ensures OwnersOk(s')
  {
    hide TaskOf;
  }

  lemma PopOwners(s: State, step: Step)
    requires QueueOk(s) && OwnersOk(s) && Enabled(s, step) && step.WorkerTest? && s.queue != []
    ensures OwnersOk(Next(s, step))
  {
    var s', task := Next(s, step), s.queue[0];
    assert Taken(s') == Taken(s) + 1 && task == Taken(s);
    assert TaskOf(s'.workers[step.i]) == task;
    forall t: nat | t < Taken(s') && t !in s'.finished
      ensures exists i :: 0 <= i < |s'.workers| && TaskOf(s'.workers[i]) == t
    {
      if t < task {
        var i :| 0 <= i < |s.workers| && TaskOf(s.workers[i]) == t;
        assert TaskOf(s'.workers[i]) == t;
      }
    }
  }

  lemma FinishOwners(s: State, i: nat)
    requires OwnersOk(s) && i < |s.workers| && s.workers[i].Running?
    ensures OwnersOk(s.(workers := s.workers[i := Ran], finished := s.finished + {s.workers[i].task}))
  {
    var s' := s.(workers := s.workers[i := Ran], finished := s.finished + {s.workers[i].task});
    assert TaskOf(s.workers[i]) == s.workers[i].task && TaskOf(s'.workers[i]) == -1;
    hide OwnersOk, TaskOf;
    FinishedOwners(s, s', i);
  }

  lemma FinishedOwners(s: State, s': State, i: nat)
    requires OwnersOk(s) && i < |s.workers| == |s'.workers| && Taken(s') == Taken(s)
    requires TaskOf(s.workers[i]) >= 0 && TaskOf(s'.workers[i]) == -1
    requires s'.finished == s.finished + {TaskOf(s.workers[i])}
    requires forall j :: 0 <= j < |s.workers| && j != i ==> s'.workers[j] == s.workers[j]
    ensures OwnersOk(s')
  {
    hide TaskOf, Taken;
    assert forall j :: 0 <= j < |s.workers| && j != i ==> TaskOf(s'.workers[j]) != TaskOf(s.workers[i]);
    forall t: nat | t < Taken(s') && t !in s'.finished
      ensures exists j :: 0 <= j < |s'.workers| && TaskOf(s'.workers[j]) == t
    {
      var j :| 0 <= j < |s.workers| && TaskOf(s.workers[j]) == t;
      assert TaskOf(s'.workers[j]) == t;
    }
  }

  lemma StartedStep(s: State, step: Step)
    requires OwnersOk(s) && StartedOk(s) && Enabled(s, step)
    ensures StartedOk(Next(s, step))
  {
    var s' := Next(s, step);
    if step.WorkerStart? {
      StartStarted(s, step);
    } else if step.WorkerFinish? {
      FinishStarted(s, step);
    } else {
      assert s'.started == s.started && s'.finished == s.finished;
      SameRunning(s, step);
    }
  }

  lemma SameRunning(s: State, step: Step)
    requires Enabled(s, step) && !step.WorkerStart? && !step.WorkerFinish?
    ensures forall t :: SomeRuns(s.workers, t) <==> SomeRuns(Next(s, step).workers, t)
  {
    var ws, ws' := s.workers, Next(s, step).workers;
    assert |ws'| == |ws| && forall i :: 0 <= i < |ws| && (ws[i].Running? || ws'[i].Running?) ==> ws'[i] == ws[i];
    SameSomeRuns(ws, ws');
  }

  lemma SameSomeRuns(ws: seq<Worker>, ws': seq<Worker>)
    requires |ws'| == |ws| && forall i :: 0 <= i < |ws| && (ws[i].Running? || ws'[i].Running?) ==> ws'[i] == ws[i]
    ensures forall t :: SomeRuns(ws, t) <==> SomeRuns(ws', t)
  {
    forall t ensures SomeRuns(ws, t) <==> SomeRuns(ws', t) {
      if SomeRuns(ws, t) {
        var i :| 0 <= i < |ws| && ws[i] == Running(t);
        assert ws'[i] == Running(t);
      }
      if SomeRuns(ws', t) {
        var i :| 0 <= i < |ws'| && ws'[i] == Running(t);
        assert ws[i] == Running(t);
      }
    }
  }

  lemma StartStarted(s: State, step: Step)
    requires OwnersOk(s) && StartedOk(s) && Enabled(s, step) && step.WorkerStart?
    ensures StartedOk(Next(s, step))
  {
    var s', task := Next(s, step), s.workers[step.i].task;
    assert TaskOf(s.workers[step.i]) == task;
    assert task !in s.started by {
      assert forall i :: 0 <= i < |s.workers| && i != step.i ==> TaskOf(s.workers[i]) != task;
    }
    assert s'.workers[step.i] == Running(task);
    forall t ensures SomeRuns(s'.workers, t) <==> SomeRuns(s.workers, t) || t == task {
      if SomeRuns(s.workers, t) {
        var i :| 0 <= i < |s.workers| && s.workers[i] == Running(t);
        assert s'.workers[i] == Running(t);
      }
    }
  }

  lemma FinishStarted(s: State, step: Step)
    requires OwnersOk(s) && StartedOk(s) && Enabled(s, step) && step.WorkerFinish?
    ensures StartedOk(Next(s, step))
  {
    var s', task := Next(s, step), s.workers[step.i].task;
    assert s.workers[step.i] == Running(task);
    forall t ensures SomeRuns(s'.workers, t) || t == task <==> SomeRuns(s.workers, t) {
      if SomeRuns(s.workers, t) && t != task {
        var i :| 0 <= i < |s.workers| && s.workers[i] == Running(t);
        assert s'.workers[i] == Running(t);
      }
    }
  }

  lemma WaitersStep(s: State, step: Step)
    requires LockOk(s) && CountOk(s) && WaitersOk(s) && Enabled(s, step)
    ensures WaitersOk(Next(s, step))
  {
    if step.WorkerCheck? {
      CheckWaiters(s, step);
    } else if step.WorkerLock? {
      LockedWaiters(s, step);
    } else {
      FreshKept(s, step);
      hide SomeTop, Pending, LockOk, CountOk;
    }
  }

  /** Only the worker itself ends its pending check. */
  lemma FreshKept(s: State, step: Step)
    requires Enabled(s, step) && !step.WorkerLock? && !step.WorkerCheck?
    ensures SomeTop(s.workers) || step.WorkerCount? ==> SomeTop(Next(s, step).workers)
    ensures Pending(s.workers) || step.WorkerCount? ==> Pending(Next(s, step).workers)
  {
    var ws, ws' := s.workers, Next(s, step).workers;
    assert |ws'| == |ws| && forall i :: 0 <= i < |ws| && (ws[i] == Top || ws[i] == Checking) ==> ws'[i] == ws[i];
    if SomeTop(ws) {
      var i :| 0 <= i < |ws| && ws[i] == Top;
      assert ws'[i] == Top;
    }
    if Pending(ws) {
      var i :| 0 <= i < |ws| && (ws[i] == Top || ws[i] == Checking);
      assert ws'[i] == ws[i];
    }
    if step.WorkerCount? { assert ws'[step.i] == Top; }
  }

  /** With the queue empty every waiter is woken; otherwise tasks are outstanding and none need be. */
  lemma CheckWaiters(s: State, step: Step)
    requires LockOk(s) && CountOk(s) && WaitersOk(s) && Enabled(s, step) && step.WorkerCheck?
    ensures WaitersOk(Next(s, step))
  {
    var s' := Next(s, step);
    assert s.lock == OfWorker(step.i);
    assert forall i :: 0 <= i < |s.waiters| ==> !s.waiters[i].Loaded?;
    assert s.queue == [] || s.done < s.scheduled;
  }

  lemma LockedWaiters(s: State, step: Step)
    requires LockOk(s) && WaitersOk(s) && Enabled(s, step) && step.WorkerLock?
    ensures WaitersOk(Next(s, step))
  {
    var s' := Next(s, step);
    assert forall i :: 0 <= i < |s.waiters| ==> !s.waiters[i].Loaded?;
    if Pending(s.workers) {
      var i :| 0 <= i < |s.workers| && (s.workers[i] == Top || s.workers[i] == Checking);
      assert s'.workers[i] == Top || s'.workers[i] == Checking;
    }
  }

  lemma AwakeStep(s: State, step: Step)
    requires |s.workers| > 0 && AwakeOk(s) && Enabled(s, step)
    ensures AwakeOk(Next(s, step))
  {
    var s' := Next(s, step);
    if step.QueueNotify? {
      var i := if NoneAsleep(s.workers) then 0 else step.woken;
      assert s'.workers[i] != Asleep;
    } else if OfAWorker(step) {
      assert s'.workers[step.i] != Asleep || s'.queue == [];
    } else if s'.queue != [] && AllAsleep(s'.workers) {
      if step.QueueEmplace? {
        assert BeforeNotify(s'.producers[step.i]);
      } else {
        var i :| 0 <= i < |s.producers| && BeforeNotify(s.producers[i]);
        assert BeforeNotify(s'.producers[i]);
      }
    }
  }

  lemma InvStep(s: State, step: Step)
    requires Inv(s) && Enabled(s, step)
    ensures Inv(Next(s, step))
  {
    LockStep(s, step);
    CountStep(s, step);
    QueueStep(s, step);
    OwnersStep(s, step);
    StartedStep(s, step);
    WaitersStep(s, step);
    AwakeStep(s, step);
  }
}

/** The two machines of the scheduler together: pointer writes on nodes that carry events, under the
    control of TimingSteps. Every write keeps the queues that the pointers make, and the callbacks that are
    called, in step with TimingSteps, where a move and a removal are single steps. */
module QueueSteps {
  import opened Bytes
  import opened EventSpec
  import opened NodeLists
  import opened Wrappers
  import P = PlacementSteps
  import T = TimingSteps

  /** What an operation is about. */
  datatype Job =
    | Idle
    | Scheduling(delay: S64, kind: S32, userdata: U64)
    | HandingOff
    | Removing(match_: Match)

  /** p are the pointers, ev the events in the nodes, calls the callbacks called. The clock, the flag, and
      where the threads are outside of the pointer work, are those of t; its queues are what ours are
      compared with. who is the thread that has the lock. */
  datatype State = State(
    p: P.State, ev: map<Event, Ev>, calls: seq<Ev>, job: Job, otherJob: Job, who: nat, t: T.State)

  datatype Step =
    | Control(step: T.Step)
    | Fire
    | EndCallback
    | StartSchedule(delay: S64, kind: S32, userdata: U64, node: Option<Event>)
    | StartUnschedule(match_: Match)
    | StartHandOff(t: nat, tDelay: S64, tKind: S32, tUserdata: U64)
    | TakeTs(tNode: Option<Event>)
    | ReadClock
    | SetFlag
    | StartUnscheduleTs(tMatch: Match)
    | Release
    | StartMove
    | Pointer(write: P.Step)

  /** The event in a node. */
  function EvOf(ev: map<Event, Ev>, e: Event?): Ev {
    if e != null && e in ev then ev[e] else Ev(0, 0, 0)
  }

  function Pay(ev: map<Event, Ev>, q: seq<Event>): (r: seq<Ev>)
    ensures |r| == |q| && forall i :: 0 <= i < |q| ==> r[i] == EvOf(ev, q[i])
  {
    seq(|q|, i requires 0 <= i < |q| => EvOf(ev, q[i]))
  }

  function JobOf(c: State, h: Home): Job { if h == Main then c.job else c.otherJob }

  /** All that Idle and the firing loop look at: the head of the main queue. */
  function HeadOnly(c: State): Sched {
    Sched(if c.p.heads.main == null then [] else [EvOf(c.ev, c.p.heads.main)], [], c.t.flag, c.t.now, [])
  }

  /** How a node is got. */
  function Getting(h: Home, node: Option<Event>): P.Step {
    if node.None? then P.Take(h) else P.TakeNew(h, node.value)
  }

  predicate AtWork(c: State) {
    c.p.cpu == P.Rest && (c.t.cpu == T.Outside || c.t.cpu == T.InCallback)
  }

  predicate ControlEnabled(c: State, step: T.Step) {
    match step
    case Idle(max) => c.t.cpu == T.Outside && c.t.now + IdleCycles(HeadOnly(c), max) <= S64_MAX
    case Return => c.t.cpu == T.Looping && !HeadDue(HeadOnly(c))
    case Advance => T.Enabled(c.t, step)
    case CallMove => T.Enabled(c.t, step)
    case CallFifo => T.Enabled(c.t, step)
    case LoadFlag => T.Enabled(c.t, step)
    case ClearFlag => T.Enabled(c.t, step)
    case _ => false
  }

  /** The walks stop and the removals take as the events in the nodes say. */
  predicate WriteEnabled(c: State, w: P.Step) {
    P.Enabled(c.p, w) &&
    match w
    case Seek => EvOf(c.ev, P.Behind(c.p, Main, c.p.cpu.prev)).time <= EvOf(c.ev, c.p.cpu.node).time
    case WriteNext(h) =>
      if h != Main then T.Pc(c.t, c.who).Timed?
      else
        var next := P.Behind(c.p, Main, c.p.cpu.prev);
        next == null || EvOf(c.ev, c.p.cpu.node).time < EvOf(c.ev, next).time
    case Begin(h) => h == Threadsafe && c.otherJob.Removing?
    case TakeHead(h) => JobOf(c, h).Removing? && JobOf(c, h).match_.Hits(EvOf(c.ev, c.p.heads.Of(h)))
    case StartSweep(h) => JobOf(c, h).Removing? && !JobOf(c, h).match_.Hits(EvOf(c.ev, c.p.heads.Of(h)))
    case SweepOn(h) =>
      JobOf(c, h).Removing? && !JobOf(c, h).match_.Hits(EvOf(c.ev, P.After(c.p, P.PcOf(c.p, h).prev)))
    case Unhang(h) =>
      JobOf(c, h).Removing? && JobOf(c, h).match_.Hits(EvOf(c.ev, P.After(c.p, P.PcOf(c.p, h).prev)))
    case Acquire => false
    case Release => false
    case Take(_) => false
    case TakeNew(_, _) => false
    case Pop => false
    case EndCallback => false
    case StartMove => false
    case _ => true
  }

  predicate Enabled(c: State, step: Step) {
    match step
    case Control(s) => c.p.cpu == P.Rest && ControlEnabled(c, s)
    case Fire => c.t.cpu == T.Looping && P.Enabled(c.p, P.Pop) && HeadDue(HeadOnly(c))
    case EndCallback => c.t.cpu == T.InCallback && P.Enabled(c.p, P.EndCallback)
    case StartSchedule(_, _, _, node) => AtWork(c) && P.Enabled(c.p, Getting(Main, node))
    case StartUnschedule(_) => AtWork(c)
    case StartHandOff(_, _, _, _) => P.Enabled(c.p, P.Acquire)
    case TakeTs(node) => T.Pc(c.t, c.who).Locked? && P.Enabled(c.p, Getting(Threadsafe, node))
    case ReadClock => T.Pc(c.t, c.who).Locked? && c.p.other.Seeking?
    case SetFlag => T.Pc(c.t, c.who) == T.Linked && c.p.other == P.Rest
    case StartUnscheduleTs(_) => P.Enabled(c.p, P.Acquire)
    case Release =>
      P.Enabled(c.p, P.Release) && (c.otherJob == Idle || (c.otherJob == HandingOff && T.Pc(c.t, c.who) == T.Signalled))
    case StartMove => c.t.cpu.Cleared? && P.Enabled(c.p, P.StartMove)
    case Pointer(w) => WriteEnabled(c, w)
  }

  /** The step of TimingSteps that this step is; a step without one does not show there. */
  ghost function Shown(c: State, step: Step): Option<T.Step>
    requires Enabled(c, step)
  {
    match step
    case Control(s) => Some(s)
    case Fire => Some(T.Fire)
    case EndCallback => Some(T.EndCallback)
    case StartUnschedule(m) => Some(T.Unschedule(m))
    case StartHandOff(t, delay, kind, userdata) => Some(T.Acquire(t, delay, kind, userdata))
    case ReadClock => Some(T.ReadClock(c.who))
    case SetFlag => Some(T.SetFlag(c.who))
    case StartUnscheduleTs(m) => Some(T.UnscheduleTs(m))
    case Release => if c.otherJob == HandingOff then Some(T.Release(c.who)) else None
    case StartMove => Some(T.MoveLocked)
    case Pointer(w) =>
      if w == P.Hang(Main) && c.p.cpu.from.Fresh? && c.job.Scheduling?
      then Some(T.Step.Schedule(c.job.delay, c.job.kind, c.job.userdata))
      else if w == P.Hang(Threadsafe) then Some(T.Link(c.who)) else None
    case _ => None
  }

  /** And its pointer write. */
  ghost function Write(c: State, step: Step): Option<P.Step> {
    match step
    case Fire => Some(P.Pop)
    case EndCallback => Some(P.EndCallback)
    case StartSchedule(_, _, _, node) => Some(Getting(Main, node))
    case StartUnschedule(_) => Some(P.Begin(Main))
    case StartHandOff(_, _, _, _) => Some(P.Acquire)
    case TakeTs(node) => Some(Getting(Threadsafe, node))
    case StartUnscheduleTs(_) => Some(P.Acquire)
    case Release => Some(P.Release)
    case StartMove => Some(P.StartMove)
    case Pointer(w) => Some(w)
    case _ => None
  }

  ghost function Taking(t: T.State, step: Option<T.Step>): T.State {
    if step.Some? && T.Enabled(t, step.value) then T.Next(t, step.value) else t
  }

  /** TimingSteps after the step. Its clock, and where its threads are, do not depend on its queues. */
  ghost function Timing(c: State, step: Step): T.State
    requires Enabled(c, step)
  {
    match step
    case Control(s) =>
      if s.Idle? then c.t.(now := c.t.now + IdleCycles(HeadOnly(c), s.maxIdle), cpu := T.Ticked)
      else if s.Return? then c.t.(cpu := T.Outside) else Taking(c.t, Some(s))
    case Fire => Taking(c.t, Some(T.Fire)).(cpu := T.InCallback)
    case _ => Taking(c.t, Shown(c, step))
  }

  /** The events in the nodes after the step. */
  ghost function Payloads(c: State, step: Step): map<Event, Ev>
    requires Enabled(c, step)
  {
    match step
    case StartSchedule(delay, kind, userdata, node) =>
      var ne: Event := if node.Some? then node.value else c.p.heads.pool;
      c.ev[ne := Ev(Wrap64(c.t.now + delay), userdata, kind)]
    case ReadClock =>
      var o := T.Pc(c.t, c.who);
      c.ev[c.p.other.node := Ev(Wrap64(c.t.now + o.delay), o.userdata, o.kind)]
    case _ => c.ev
  }

  ghost function Next(c: State, step: Step): State
    requires Enabled(c, step)
  {
    var w := Write(c, step);
    State(if w.Some? && P.Enabled(c.p, w.value) then P.Next(c.p, w.value) else c.p,
          Payloads(c, step),
          if step.Fire? then c.calls + [EvOf(c.ev, c.p.heads.main)] else c.calls,
          CpuJob(c, step), LockJob(c, step),
          if step.StartHandOff? then step.t else c.who,
          Timing(c, step))
  }

  ghost function CpuJob(c: State, step: Step): Job {
    match step
    case StartSchedule(delay, kind, userdata, _) => Scheduling(delay, kind, userdata)
    case StartUnschedule(m) => Removing(m)
    case Pointer(w) => if w == P.Hang(Main) || w == P.EndHeads(Main) || w == P.EndSweep(Main) then Idle else c.job
    case _ => c.job
  }

  ghost function LockJob(c: State, step: Step): Job {
    match step
    case StartHandOff(_, _, _, _) => HandingOff
    case StartUnscheduleTs(m) => Removing(m)
    case Release => Idle
    case Pointer(w) => if w == P.EndHeads(Threadsafe) || w == P.EndSweep(Threadsafe) then Idle else c.otherJob
    case _ => c.otherJob
  }

  predicate Init(c: State) {
    P.Init(c.p) && c.ev == map[] && c.calls == [] && c.job == Idle && c.otherJob == Idle && T.Init(c.t)
  }

  // ---------------------------------------------------------------- how the two belong together

  /** What a move has still to insert. */
  ghost function Rest(c: State): seq<Ev> {
    (if P.Carries(c.p.cpu) then [EvOf(c.ev, c.p.cpu.node)] else []) + Pay(c.ev, c.p.view.ts)
  }

  /** The queues of TimingSteps, where a move and a removal are over once they have begun. */
  ghost function MainPay(c: State): seq<Ev> {
    var pay := Pay(c.ev, c.p.view.main);
    if P.InMove(c.p.cpu) then InsertAll(pay, Rest(c))
    else if c.job.Removing? then Without(pay, c.job.match_) else pay
  }

  ghost function TsPay(c: State): seq<Ev> {
    var pay := Pay(c.ev, c.p.view.ts);
    if P.InMove(c.p.cpu) then [] else if c.otherJob.Removing? then Without(pay, c.otherJob.match_) else pay
  }

  /** In a removal. */
  predicate Sweeps(pc: P.Pc) {
    || pc.Heading? || pc.HeadOff? || pc.HeadLinked? || pc.HeadFreed? || pc.Sweeping? || pc.Unhung?
    || ((pc.Freeing? || pc.FreeLinked?) && pc.prev != null)
  }

  /** The node up to which a removal has looked. */
  function Swept(pc: P.Pc): Event? {
    if pc.Sweeping? || pc.Unhung? || pc.Freeing? || pc.FreeLinked? then pc.prev else null
  }

  ghost predicate CpuOk(job: Job, cpu: P.Pc, ev: map<Event, Ev>, t: T.State) {
    match job
    case Scheduling(delay, kind, userdata) =>
      && (cpu.Seeking? || cpu.Hanging?) && cpu.from.Fresh? && t.cpu in {T.Outside, T.InCallback}
      && EvOf(ev, cpu.node) == Ev(Wrap64(t.now + delay), userdata, kind)
    case Removing(_) => Sweeps(cpu) && t.cpu in {T.Outside, T.InCallback}
    case HandingOff => false
    case Idle => cpu == P.Rest || ((cpu.Freeing? || cpu.FreeLinked?) && cpu.prev == null) || P.InMove(cpu)
  }

  ghost predicate LockOk(job: Job, owner: P.Owner, other: P.Pc, ev: map<Event, Ev>, t: T.State, who: nat) {
    if owner != P.Another then !t.lock && job == Idle
    else match job
      case Idle => !t.lock && other == P.Rest
      case Removing(_) => !t.lock && (other == P.Rest || Sweeps(other))
      case Scheduling(_, _, _) => false
      case HandingOff => t.lock && HandOffOk(other, ev, T.Pc(t, who))
  }

  ghost predicate HandOffOk(other: P.Pc, ev: map<Event, Ev>, pc: T.Other) {
    match pc
    case Away => false
    case Locked(_, _, _) => other == P.Rest || other.Seeking?
    case Timed(e) => (other.Seeking? || other.Hanging?) && EvOf(ev, other.node) == e
    case Linked => other == P.Rest || other.Hung?
    case Signalled => other == P.Rest
  }

  /** The walk up to prev has passed no event that is later than node. */
  ghost predicate WalkedTo(ev: map<Event, Ev>, q: seq<Event>, node: Event, prev: Event?) {
    forall i :: 0 <= i < |q| && i < P.Spot(q, prev) ==> EvOf(ev, q[i]).time <= EvOf(ev, node).time
  }

  /** And it has stopped before the first one that is. */
  ghost predicate Stopped(ev: map<Event, Ev>, q: seq<Event>, node: Event, prev: Event?) {
    Spot(Pay(ev, q), EvOf(ev, node).time) == P.Spot(q, prev)
  }

  ghost predicate Walked(ev: map<Event, Ev>, q: seq<Event>, pc: P.Pc) {
    && (pc.Seeking? ==> WalkedTo(ev, q, pc.node, pc.prev))
    && (pc.Hanging? ==> Stopped(ev, q, pc.node, pc.prev))
  }

  /** A removal up to prev has passed no event that it looks for. */
  ghost predicate PassedTo(ev: map<Event, Ev>, q: seq<Event>, prev: Event?, m: Match) {
    forall i :: 0 <= i < |q| && i < P.Spot(q, prev) ==> !m.Hits(EvOf(ev, q[i]))
  }

  ghost predicate Passed(ev: map<Event, Ev>, q: seq<Event>, pc: P.Pc, job: Job) {
    job.Removing? ==> PassedTo(ev, q, Swept(pc), job.match_)
  }

  predicate Pays(pc: P.Pc) { pc.Paying? || pc.Paid? || pc.PaidLinked? }

  ghost predicate Agree(c: State) {
    && P.Inv(c.p)
    && T.Evs(c.t.main) == MainPay(c) && T.Evs(c.t.ts) == TsPay(c)
    && InStep(c)
    && c.calls == Fired(c.t)
  }

  /** Where the threads are, in both machines. */
  ghost predicate InStep(c: State) {
    && CpuOk(c.job, c.p.cpu, c.ev, c.t) && LockOk(c.otherJob, c.p.owner, c.p.other, c.ev, c.t, c.who)
    && Walked(c.ev, c.p.view.main, c.p.cpu)
    && Passed(c.ev, c.p.view.main, c.p.cpu, c.job) && Passed(c.ev, c.p.view.ts, c.p.other, c.otherJob)
    && (Pays(c.p.cpu) ==> c.p.view.ts == [])
  }

  ghost function Fired(t: T.State): seq<Ev> {
    seq(|t.shots|, i requires 0 <= i < |t.shots| => t.shots[i].entry.ev)
  }

  /** t takes the step that shows, if there is one. */
  ghost predicate Refined(c: State, step: Step)
    requires Enabled(c, step)
  {
    var shown := Shown(c, step);
    shown.Some? ==> T.Enabled(c.t, shown.value) && Next(c, step).t == T.Next(c.t, shown.value)
  }

  // ---------------------------------------------------------------- steps of the threads outside of the pointer work

  lemma AtRest(c: State)
    requires Agree(c) && c.p.cpu == P.Rest
    ensures c.job == Idle && T.Evs(c.t.main) == Pay(c.ev, c.p.view.main)
    ensures c.p.heads.main == At(c.p.view.main, 0)
    ensures HeadOnly(c).main == if c.t.main == [] then [] else [c.t.main[0].ev]
  {
    hide P.Sound, T.Evs;
    P.HeadIs(P.HeapOf(c.p));
    assert |T.Evs(c.t.main)| == |c.t.main|;
  }

  /** Clock, flag and CPU control do not matter to the pointers at rest. */
  lemma NewControl(c: State, t: T.State)
    requires Agree(c) && c.p.cpu == P.Rest
    requires t == c.t.(now := t.now, flag := t.flag, cpu := t.cpu)
    ensures Agree(c.(t := t))
  {
    AtRest(c);
    hide P.Inv, T.Evs, Pay, EvOf, WalkedTo, Stopped, PassedTo;
    var c' := c.(t := t);
  }

  lemma ControlNext(c: State, s: T.Step)
    requires Enabled(c, Control(s)) && (HeadDue(HeadOnly(c)) <==> T.Due(c.t))
    requires forall max :: IdleCycles(HeadOnly(c), max) == IdleCycles(T.Erase(c.t), max)
    ensures T.Enabled(c.t, s) && Next(c, Control(s)) == c.(t := T.Next(c.t, s)) && c.p.cpu == P.Rest
    ensures var t := T.Next(c.t, s); t == c.t.(now := t.now, flag := t.flag, cpu := t.cpu)
    ensures Refined(c, Control(s))
  {
    hide IdleCycles, T.Erase, HeadOnly, HeadDue, T.Due;
  }

  lemma ControlStep(c: State, s: T.Step)
    requires Agree(c) && Enabled(c, Control(s))
    ensures Agree(Next(c, Control(s))) && Refined(c, Control(s))
  {
    hide *;
    assert c.p.cpu == P.Rest by { AtWorkOf(c, s); }
    AtRest(c);
    SameHead(c);
    ControlNext(c, s);
    NewControl(c, T.Next(c.t, s));
  }

  lemma AtWorkOf(c: State, s: T.Step)
    requires Enabled(c, Control(s))
    ensures c.p.cpu == P.Rest
  {
  }

  /** Idle and the firing loop look at the head of the main queue only. */
  lemma SameHead(c: State)
    requires HeadOnly(c).main == if c.t.main == [] then [] else [c.t.main[0].ev]
    ensures HeadDue(HeadOnly(c)) <==> T.Due(c.t)
    ensures forall max :: IdleCycles(HeadOnly(c), max) == IdleCycles(T.Erase(c.t), max)
  {
    assert |T.Evs(c.t.main)| == |c.t.main| && (c.t.main != [] ==> T.Evs(c.t.main)[0] == c.t.main[0].ev);
  }

  // ---------------------------------------------------------------- pointer writes that leave both queues as they are

  predicate Still(w: P.Step) {
    !w.TakeHead? && !w.Hang? && !w.Unhang? && !w.Pop? && !w.Carry?
  }

  lemma StillLists(s: P.State, w: P.Step)
    requires P.Enabled(s, w) && Still(w)
    ensures P.Next(s, w).view.main == s.view.main && P.Next(s, w).view.ts == s.view.ts
  {
  }

  /** A write that does not show, and ends no operation. */
  predicate Plain(w: P.Step) {
    !w.Hang? && !w.EndHeads? && !w.EndSweep?
  }

  lemma Silent(c: State, h: Home, w: P.Step)
    requires Enabled(c, Pointer(w)) && (InMoving(w) || InLock(w) || Frees(h, w) || InWalk(h, w))
    ensures P.Enabled(c.p, w) && Plain(w) && Still(w)
  {
  }

  lemma PlainStep(c: State, w: P.Step)
    requires Agree(c) && Enabled(c, Pointer(w)) && Plain(w)
    ensures P.Enabled(c.p, w) && Next(c, Pointer(w)) == c.(p := P.Next(c.p, w)) && Refined(c, Pointer(w))
    ensures P.Inv(P.Next(c.p, w))
  {
    hide *;
    MayWrite(c, w);
    PlainNext(c, w);
    InvOf(c);
    P.InvStep(c.p, w);
  }

  lemma MayWrite(c: State, w: P.Step)
    requires Enabled(c, Pointer(w))
    ensures P.Enabled(c.p, w)
  {
    hide P.Enabled;
  }

  lemma PlainNext(c: State, w: P.Step)
    requires Enabled(c, Pointer(w)) && P.Enabled(c.p, w) && Plain(w)
    ensures Next(c, Pointer(w)) == c.(p := P.Next(c.p, w)) && Refined(c, Pointer(w))
  {
    hide Enabled, P.Enabled, P.Next, T.Enabled, T.Next;
  }

  /** The other parts of Agree are about what the queues are. */
  lemma StillAgree(c: State, p: P.State)
    requires Agree(c) && P.Inv(p) && p.view.main == c.p.view.main && p.view.ts == c.p.view.ts
    requires P.InMove(p.cpu) == P.InMove(c.p.cpu) && P.Carries(p.cpu) == P.Carries(c.p.cpu)
    requires P.Carries(p.cpu) ==> p.cpu.node == c.p.cpu.node
    requires InStep(c.(p := p))
    ensures Agree(c.(p := p))
  {
    hide P.Inv, T.Evs, Pay, InStep, InsertAll, Without;
  }

  predicate Frees(h: Home, w: P.Step) {
    w == P.LinkFree(h) || w == P.PushFree(h) || w == P.SetHead(h)
  }

  /** In FreeEvent, or about to set the head pointer after it. */
  predicate InFree(pc: P.Pc) {
    pc.HeadOff? || pc.HeadLinked? || pc.HeadFreed? || pc.Freeing? || pc.FreeLinked?
  }

  lemma FreeNext(s: P.State, h: Home, w: P.Step)
    requires P.Enabled(s, w) && Frees(h, w)
    ensures var s', pc, pc' := P.Next(s, w), P.PcOf(s, h), P.PcOf(P.Next(s, w), h);
      && Side(h) && s'.owner == s.owner && (h == Threadsafe ==> s.owner == P.Another)
      && (if h == Main then s'.other == s.other else s'.cpu == s.cpu)
      && InFree(pc) && Sweeps(pc') == Sweeps(pc) && Swept(pc') == Swept(pc)
      && (Sweeps(pc') || pc' == P.Rest || ((pc'.Freeing? || pc'.FreeLinked?) && pc'.prev == null))
    ensures var s' := P.Next(s, w);
      P.InMove(s'.cpu) == P.InMove(s.cpu) && P.Carries(s'.cpu) == P.Carries(s.cpu)
      && (P.Carries(s'.cpu) ==> s'.cpu.node == s.cpu.node)
  {
  }

  /** The writes of FreeEvent, and of the head pointer after it. */
  lemma FreeStep(c: State, h: Home, w: P.Step)
    requires Agree(c) && Enabled(c, Pointer(w)) && Frees(h, w)
    ensures Agree(Next(c, Pointer(w))) && Refined(c, Pointer(w))
  {
    hide *;
    Silent(c, h, w);
    PlainStep(c, w);
    StillLists(c.p, w);
    FreeNext(c.p, h, w);
    InStepOf(c);
    FreeInStep(c, P.Next(c.p, w), h);
    StillAgree(c, P.Next(c.p, w));
  }

  lemma InStepOf(c: State)
    requires Agree(c)
    ensures InStep(c)
  {
  }

  /** FreeEvent leaves everything but its own thread where it is. */
  lemma FreeInStep(c: State, p: P.State, h: Home)
    requires InStep(c) && Side(h) && p.view.main == c.p.view.main && p.view.ts == c.p.view.ts && p.owner == c.p.owner
    requires h == Threadsafe ==> p.owner == P.Another
    requires if h == Main then p.other == c.p.other else p.cpu == c.p.cpu
    requires var pc, pc' := P.PcOf(c.p, h), P.PcOf(p, h);
      && InFree(pc) && Sweeps(pc') == Sweeps(pc) && Swept(pc') == Swept(pc)
      && (Sweeps(pc') || pc' == P.Rest || ((pc'.Freeing? || pc'.FreeLinked?) && pc'.prev == null))
    ensures InStep(c.(p := p))
  {
    hide PassedTo, WalkedTo, Stopped, EvOf;
  }

  predicate InMoving(w: P.Step) {
    w.Pay? || w.LinkPaid? || w.PushPaid? || w.SetTsFirst? || w.ClearLast?
  }

  lemma MoveNext(s: P.State, w: P.Step)
    requires P.Enabled(s, w) && InMoving(w) && (s.cpu == P.Moving ==> s.heads.ts == At(s.view.ts, 0))
    ensures var s' := P.Next(s, w);
      && s'.owner == s.owner && s'.other == s.other && P.InMove(s.cpu) && P.InMove(s'.cpu)
      && !P.Carries(s.cpu) && !P.Carries(s'.cpu) && (Pays(s'.cpu) ==> Pays(s.cpu) || s.view.ts == [])
  {
  }

  lemma TsHead(s: P.State)
    requires P.Inv(s) && s.cpu == P.Moving
    ensures s.heads.ts == At(s.view.ts, 0)
  {
    hide P.Sound;
    P.HeadIs(P.HeapOf(s));
  }

  /** The writes of MoveEvents between the nodes that are moved. */
  lemma MoveStep(c: State, w: P.Step)
    requires Agree(c) && Enabled(c, Pointer(w)) && InMoving(w)
    ensures Agree(Next(c, Pointer(w))) && Refined(c, Pointer(w))
  {
    hide *;
    Silent(c, Main, w);
    PlainStep(c, w);
    StillLists(c.p, w);
    InvOf(c);
    if c.p.cpu == P.Moving { TsHead(c.p); }
    MoveNext(c.p, w);
    InStepOf(c);
    MoveInStep(c, P.Next(c.p, w));
    StillAgree(c, P.Next(c.p, w));
  }

  lemma InvOf(c: State)
    requires Agree(c)
    ensures P.Inv(c.p)
  {
  }

  lemma MoveInStep(c: State, p: P.State)
    requires InStep(c) && p.view.main == c.p.view.main && p.view.ts == c.p.view.ts && p.owner == c.p.owner
    requires p.other == c.p.other && P.InMove(c.p.cpu) && P.InMove(p.cpu) && !P.Carries(c.p.cpu) && !P.Carries(p.cpu)
    requires Pays(p.cpu) ==> Pays(c.p.cpu) || c.p.view.ts == []
    ensures InStep(c.(p := p))
  {
    hide PassedTo, WalkedTo, Stopped, EvOf;
  }

  predicate InLock(w: P.Step) {
    w.SetLast? || w.FixLast? || w == P.Begin(Threadsafe) || w == P.WriteNext(Threadsafe)
  }

  /** What these steps make of the holder's place. */
  predicate LockGoes(w: P.Step, pc: P.Pc, pc': P.Pc) {
    match w
    case SetLast => pc.Hung? && pc' == P.Rest
    case FixLast => pc.Unhung? && pc.prev != null && pc' == P.Freeing(pc.node, pc.prev)
    case Begin(_) => pc == P.Rest && pc' == P.Heading
    case WriteNext(_) => pc.Seeking? && pc' == P.Hanging(pc.node, pc.prev, pc.from)
    case _ => false
  }

  lemma LockNext(s: P.State, w: P.Step)
    requires P.Inv(s) && P.Enabled(s, w) && InLock(w)
    ensures var s' := P.Next(s, w);
      s.owner == s'.owner == P.Another && s'.cpu == s.cpu && LockGoes(w, s.other, s'.other)
  {
    hide P.Sound;
  }

  lemma LockInStep(c: State, p: P.State, w: P.Step)
    requires InStep(c) && p.view.main == c.p.view.main && p.view.ts == c.p.view.ts && p.cpu == c.p.cpu
    requires c.p.owner == p.owner == P.Another && LockGoes(w, c.p.other, p.other)
    requires w.Begin? ==> c.otherJob.Removing?
    requires w.WriteNext? ==> T.Pc(c.t, c.who).Timed?
    ensures InStep(c.(p := p))
  {
    hide WalkedTo, Stopped, EvOf;
    assert Swept(p.other) == null ==> P.Spot(c.p.view.ts, Swept(p.other)) == 0;
  }

  lemma LockMay(c: State, w: P.Step)
    requires Enabled(c, Pointer(w)) && InLock(w)
    ensures (w.Begin? ==> c.otherJob.Removing?) && (w.WriteNext? ==> T.Pc(c.t, c.who).Timed?)
  {
  }

  lemma LockStep(c: State, w: P.Step)
    requires Agree(c) && Enabled(c, Pointer(w)) && InLock(w)
    ensures Agree(Next(c, Pointer(w))) && Refined(c, Pointer(w))
  {
    hide *;
    Silent(c, Main, w);
    LockMay(c, w);
    PlainStep(c, w);
    StillLists(c.p, w);
    InvOf(c);
    LockNext(c.p, w);
    InStepOf(c);
    LockInStep(c, P.Next(c.p, w), w);
    StillAgree(c, P.Next(c.p, w));
  }

  // ---------------------------------------------------------------- walks

  lemma SpotIs(q: seq<Ev>, time: S64, p: nat)
    requires p <= |q| && (forall i :: 0 <= i < p ==> q[i].time <= time) && (p < |q| ==> time < q[p].time)
    ensures Spot(q, time) == p
  {
  }

  /** One more node has been passed. */
  lemma WalkedOn(ev: map<Event, Ev>, q: seq<Event>, node: Event, prev: Event?, k: nat)
    requires WalkedTo(ev, q, node, prev) && k == P.Spot(q, prev) < |q| && P.Place(q, q[k]) == k
    requires EvOf(ev, q[k]).time <= EvOf(ev, node).time
    ensures WalkedTo(ev, q, node, q[k])
  {
  }

  lemma PassedOn(ev: map<Event, Ev>, q: seq<Event>, prev: Event?, m: Match, k: nat)
    requires PassedTo(ev, q, prev, m) && k == P.Spot(q, prev) < |q| && P.Place(q, q[k]) == k
    requires !m.Hits(EvOf(ev, q[k]))
    ensures PassedTo(ev, q, q[k], m)
  {
  }

  lemma StopsHere(ev: map<Event, Ev>, q: seq<Event>, node: Event, prev: Event?)
    requires WalkedTo(ev, q, node, prev) && P.Spot(q, prev) <= |q|
    requires P.Spot(q, prev) < |q| ==> EvOf(ev, node).time < EvOf(ev, q[P.Spot(q, prev)]).time
    ensures Stopped(ev, q, node, prev)
  {
    SpotIs(Pay(ev, q), EvOf(ev, node).time, P.Spot(q, prev));
  }

  /** The walks of AddEventToQueue and of a removal. */
  predicate InWalk(h: Home, w: P.Step) {
    (h == Main && (w.Seek? || w == P.WriteNext(h))) || w == P.StartSweep(h) || w == P.SweepOn(h)
  }

  /** The walk goes on to the node at place k. */
  ghost predicate Passes(s: P.State, s': P.State, k: nat) {
    && s.cpu.Seeking? && k == P.Spot(s.view.main, s.cpu.prev) < |s.view.main|
    && P.Place(s.view.main, s.view.main[k]) == k && P.Behind(s, Main, s.cpu.prev) == s.view.main[k]
    && s' == s.(cpu := P.Seeking(s.cpu.node, s.view.main[k], s.cpu.from))
  }

  lemma SeekNext(s: P.State) returns (k: nat)
    requires P.Inv(s) && P.Enabled(s, P.Seek)
    ensures Passes(s, P.Next(s, P.Seek), k)
  {
    hide P.Sound, P.Place;
    P.Successor(P.HeapOf(s), Main, s.cpu.prev);
    k := P.Spot(s.view.main, s.cpu.prev);
  }

  lemma StopNext(s: P.State)
    requires P.Inv(s) && P.Enabled(s, P.WriteNext(Main))
    ensures var q, k, s' := s.view.main, P.Spot(s.view.main, s.cpu.prev), P.Next(s, P.WriteNext(Main));
      && k <= |q| && P.Behind(s, Main, s.cpu.prev) == At(q, k)
      && s' == s.(next := s'.next, cpu := P.Hanging(s.cpu.node, s.cpu.prev, s.cpu.from))
  {
    hide P.Sound, P.Place;
    P.Successor(P.HeapOf(s), Main, s.cpu.prev);
  }

  lemma SweepNext(s: P.State, h: Home, w: P.Step)
    requires P.Inv(s) && P.Enabled(s, w) && (w == P.StartSweep(h) || w == P.SweepOn(h))
    ensures Side(h) && Sweeps(P.PcOf(s, h)) && (h == Threadsafe ==> s.owner == P.Another)
    ensures var q, prev := s.view.Of(h), Swept(P.PcOf(s, h));
      var k := P.Spot(q, prev);
      && k < |q| && P.Place(q, q[k]) == k && (if w.StartSweep? then s.heads.Of(h) else P.After(s, prev)) == q[k]
      && P.Next(s, w) == P.Go(s, h, P.Sweeping(q[k]))
  {
    hide P.Sound, P.Place;
    P.Successor(P.HeapOf(s), h, Swept(P.PcOf(s, h)));
  }

  /** The CPU thread has gone on; the queues are as they were. */
  lemma CpuGoesOn(c: State, p: P.State)
    requires InStep(c) && p.view.main == c.p.view.main && p.view.ts == c.p.view.ts
    requires p.owner == c.p.owner && p.other == c.p.other
    requires CpuOk(c.job, p.cpu, c.ev, c.t) && Walked(c.ev, p.view.main, p.cpu)
      && Passed(c.ev, p.view.main, p.cpu, c.job)
    requires !Pays(p.cpu)
    ensures InStep(c.(p := p))
  {
    hide CpuOk, LockOk, Walked, Passed;
  }

  /** The threads are where they should be, with the node a move carries as it was. */
  ghost predicate WentOn(c: State, p: P.State) {
    && InStep(c.(p := p)) && P.InMove(p.cpu) == P.InMove(c.p.cpu) && P.Carries(p.cpu) == P.Carries(c.p.cpu)
    && (P.Carries(p.cpu) ==> p.cpu.node == c.p.cpu.node)
  }

  lemma SeekGoesOn(c: State, prev: Event)
    requires InStep(c) && c.p.cpu.Seeking? && WalkedTo(c.ev, c.p.view.main, c.p.cpu.node, prev)
    ensures var cpu := P.Seeking(c.p.cpu.node, prev, c.p.cpu.from);
      CpuOk(c.job, cpu, c.ev, c.t) && Walked(c.ev, c.p.view.main, cpu) && Passed(c.ev, c.p.view.main, cpu, c.job)
  {
    hide WalkedTo, EvOf, LockOk, PassedTo;
  }

  lemma StopGoesOn(c: State)
    requires InStep(c) && c.p.cpu.Seeking? && Stopped(c.ev, c.p.view.main, c.p.cpu.node, c.p.cpu.prev)
    ensures var cpu := P.Hanging(c.p.cpu.node, c.p.cpu.prev, c.p.cpu.from);
      CpuOk(c.job, cpu, c.ev, c.t) && Walked(c.ev, c.p.view.main, cpu) && Passed(c.ev, c.p.view.main, cpu, c.job)
  {
    hide Stopped, EvOf, LockOk, PassedTo;
  }

  lemma SeekGoes(c: State, p: P.State, k: nat)
    requires InStep(c) && c.p.cpu.Seeking? && k == P.Spot(c.p.view.main, c.p.cpu.prev) < |c.p.view.main|
    requires P.Place(c.p.view.main, c.p.view.main[k]) == k
    requires p == c.p.(cpu := P.Seeking(c.p.cpu.node, c.p.view.main[k], c.p.cpu.from))
    requires EvOf(c.ev, c.p.view.main[k]).time <= EvOf(c.ev, c.p.cpu.node).time
    ensures WentOn(c, p)
  {
    hide P.Spot, P.Place, EvOf, LockOk, Passed, Stopped;
    WalkedOn(c.ev, c.p.view.main, c.p.cpu.node, c.p.cpu.prev, k);
    hide WalkedTo, InStep;
    SeekGoesOn(c, c.p.view.main[k]);
    CpuGoesOn(c, p);
  }

  lemma StopGoes(c: State, p: P.State, k: nat)
    requires InStep(c) && c.p.cpu.Seeking? && k == P.Spot(c.p.view.main, c.p.cpu.prev) <= |c.p.view.main|
    requires p == c.p.(next := p.next, cpu := P.Hanging(c.p.cpu.node, c.p.cpu.prev, c.p.cpu.from))
    requires k < |c.p.view.main| ==> EvOf(c.ev, c.p.cpu.node).time < EvOf(c.ev, c.p.view.main[k]).time
    ensures WentOn(c, p)
  {
    hide P.Spot, EvOf, LockOk, Passed, WalkedTo, Stopped;
    StopsHere(c.ev, c.p.view.main, c.p.cpu.node, c.p.cpu.prev);
    hide InStep;
    StopGoesOn(c);
    CpuGoesOn(c, p);
  }

  lemma SweepGoes(c: State, h: Home, p: P.State, k: nat)
    requires InStep(c) && Side(h) && Sweeps(P.PcOf(c.p, h)) && (h == Threadsafe ==> c.p.owner == P.Another)
    requires k == P.Spot(c.p.view.Of(h), Swept(P.PcOf(c.p, h))) < |c.p.view.Of(h)|
    requires P.Place(c.p.view.Of(h), c.p.view.Of(h)[k]) == k
    requires p == P.Go(c.p, h, P.Sweeping(c.p.view.Of(h)[k]))
    requires JobOf(c, h).Removing? && !JobOf(c, h).match_.Hits(EvOf(c.ev, c.p.view.Of(h)[k]))
    ensures WentOn(c, p)
  {
    hide P.Spot, P.Place, EvOf, WalkedTo, Stopped;
    var q, prev := c.p.view.Of(h), Swept(P.PcOf(c.p, h));
    PassedOn(c.ev, q, prev, JobOf(c, h).match_, k);
    hide PassedTo;
  }

  lemma SeekGuard(c: State)
    requires Enabled(c, Pointer(P.Seek))
    ensures c.p.cpu.Seeking? && P.Enabled(c.p, P.Seek)
    ensures EvOf(c.ev, P.Behind(c.p, Main, c.p.cpu.prev)).time <= EvOf(c.ev, c.p.cpu.node).time
  {
  }

  lemma StopGuard(c: State)
    requires Enabled(c, Pointer(P.WriteNext(Main)))
    ensures c.p.cpu.Seeking? && P.Enabled(c.p, P.WriteNext(Main))
    ensures var next := P.Behind(c.p, Main, c.p.cpu.prev);
      next == null || EvOf(c.ev, c.p.cpu.node).time < EvOf(c.ev, next).time
  {
  }

  lemma SweepGuard(c: State, h: Home, w: P.Step)
    requires Enabled(c, Pointer(w)) && (w == P.StartSweep(h) || w == P.SweepOn(h))
    ensures P.Enabled(c.p, w) && JobOf(c, h).Removing?
    ensures var e := if w.StartSweep? then c.p.heads.Of(h) else P.After(c.p, Swept(P.PcOf(c.p, h)));
      !JobOf(c, h).match_.Hits(EvOf(c.ev, e))
  {
  }

  lemma WalkGoes(c: State, h: Home, w: P.Step)
    requires P.Inv(c.p) && InStep(c) && Enabled(c, Pointer(w)) && P.Enabled(c.p, w) && InWalk(h, w)
    ensures WentOn(c, P.Next(c.p, w))
  {
    hide P.Inv, P.Enabled, P.Next, P.Spot, P.Place, P.After, P.Behind;
    hide InStep, Enabled, WentOn, Sweeps, Swept, EvOf, JobOf;
    if w == P.Seek {
      SeekGuard(c);
      var k := SeekNext(c.p);
      SeekGoes(c, P.Next(c.p, w), k);
    } else if w == P.WriteNext(Main) {
      StopGuard(c);
      StopNext(c.p);
      StopGoes(c, P.Next(c.p, w), P.Spot(c.p.view.main, c.p.cpu.prev));
    } else {
      SweepGuard(c, h, w);
      SweepNext(c.p, h, w);
      SweepGoes(c, h, P.Next(c.p, w), P.Spot(c.p.view.Of(h), Swept(P.PcOf(c.p, h))));
    }
  }

  lemma WentOnIs(c: State, p: P.State)
    requires WentOn(c, p)
    ensures InStep(c.(p := p)) && P.InMove(p.cpu) == P.InMove(c.p.cpu) && P.Carries(p.cpu) == P.Carries(c.p.cpu)
    ensures P.Carries(p.cpu) ==> p.cpu.node == c.p.cpu.node
  {
  }

  lemma WalkStep(c: State, h: Home, w: P.Step)
    requires Agree(c) && Enabled(c, Pointer(w)) && InWalk(h, w)
    ensures Agree(Next(c, Pointer(w))) && Refined(c, Pointer(w))
  {
    hide *;
    Silent(c, h, w);
    PlainStep(c, w);
    StillLists(c.p, w);
    InvOf(c);
    InStepOf(c);
    WalkGoes(c, h, w);
    WentOnIs(c, P.Next(c.p, w));
    StillAgree(c, P.Next(c.p, w));
  }

  // ---------------------------------------------------------------- nodes go into and off the queues

  lemma PaySpliced(ev: map<Event, Ev>, q: seq<Event>, k: nat, e: Event)
    requires k <= |q|
    ensures Pay(ev, Spliced(q, k, e)) == Pay(ev, q)[..k] + [EvOf(ev, e)] + Pay(ev, q)[k..]
  {
  }

  lemma PayCut(ev: map<Event, Ev>, q: seq<Event>, k: nat)
    requires k < |q|
    ensures Pay(ev, Cut(q, k)) == Pay(ev, q)[..k] + Pay(ev, q)[k + 1..]
  {
  }

  /** Where the walk has stopped is where the event belongs. */
  lemma InsertedHere(ev: map<Event, Ev>, q: seq<Event>, node: Event, prev: Event?)
    requires Stopped(ev, q, node, prev) && P.Spot(q, prev) <= |q|
    ensures Pay(ev, Spliced(q, P.Spot(q, prev), node)) == Insert(Pay(ev, q), EvOf(ev, node))
  {
    PaySpliced(ev, q, P.Spot(q, prev), node);
    hide Pay, P.Spot, EvOf, Spliced;
  }

  /** Taking out an event that is looked for does not matter to what a removal leaves. */
  lemma CutHit(ev: map<Event, Ev>, q: seq<Event>, k: nat, m: Match)
    requires k < |q| && m.Hits(EvOf(ev, q[k]))
    ensures Without(Pay(ev, Cut(q, k)), m) == Without(Pay(ev, q), m)
  {
    PayCut(ev, q, k);
    var pay := Pay(ev, q);
    hide Pay, Cut, Match.Hits;
    assert pay == pay[..k] + pay[k..] && pay[k..][0] == pay[k] && pay[k..][1..] == pay[k + 1..];
    WithoutConcat(pay[..k], pay[k..], m);
    WithoutConcat(pay[..k], pay[k + 1..], m);
    WithoutFirst(pay[k..], m);
    hide Without;
  }

  /** The parts of Agree, and the queues of TimingSteps in the three modes of the CPU thread. */

  lemma Parts(c: State)
    ensures Agree(c) <==>
      && P.Inv(c.p) && T.Evs(c.t.main) == MainPay(c) && T.Evs(c.t.ts) == TsPay(c) && InStep(c) && c.calls == Fired(c.t)
  {
    hide P.Inv, MainPay, TsPay, InStep, T.Evs, Fired;
  }

  lemma Sides(c: State)
    ensures InStep(c) <==>
      && CpuOk(c.job, c.p.cpu, c.ev, c.t) && LockOk(c.otherJob, c.p.owner, c.p.other, c.ev, c.t, c.who)
      && Walked(c.ev, c.p.view.main, c.p.cpu)
      && Passed(c.ev, c.p.view.main, c.p.cpu, c.job) && Passed(c.ev, c.p.view.ts, c.p.other, c.otherJob)
      && (Pays(c.p.cpu) ==> c.p.view.ts == [])
  {
    hide CpuOk, LockOk, Walked, Passed;
  }

  lemma MainPayIs(c: State)
    ensures MainPay(c) ==
      if P.InMove(c.p.cpu) then InsertAll(Pay(c.ev, c.p.view.main), Rest(c))
      else if c.job.Removing? then Without(Pay(c.ev, c.p.view.main), c.job.match_) else Pay(c.ev, c.p.view.main)
    ensures TsPay(c) ==
      if P.InMove(c.p.cpu) then []
      else if c.otherJob.Removing? then Without(Pay(c.ev, c.p.view.ts), c.otherJob.match_) else Pay(c.ev, c.p.view.ts)
  {
    hide Pay, Rest, InsertAll, Without;
  }

  /** TimingSteps has scheduled an event. */
  lemma ScheduleNext(t: T.State, delay: S64, kind: S32, userdata: U64)
    requires T.Enabled(t, T.Step.Schedule(delay, kind, userdata))
    ensures var t' := T.Next(t, T.Step.Schedule(delay, kind, userdata));
      && t' == t.(main := t'.main, tickets := t'.tickets)
      && T.Evs(t'.main) == Insert(T.Evs(t.main), Ev(Wrap64(t.now + delay), userdata, kind))
  {
    hide T.Enter, Insert, Wrap64;
    T.ErasesEnter(t.main, T.Queued(Ev(Wrap64(t.now + delay), userdata, kind), T.Stamp(t.tickets, |t.shots|)));
  }

  lemma HangMainNext(s: P.State)
    requires P.Inv(s) && P.Enabled(s, P.Hang(Main))
    ensures var q, k, s' := s.view.main, P.Spot(s.view.main, s.cpu.prev), P.Next(s, P.Hang(Main));
      && s.cpu.Hanging? && k <= |q| && s'.view.main == Spliced(q, k, s.cpu.node) && s'.view.ts == s.view.ts
      && s'.owner == s.owner && s'.other == s.other
      && s'.cpu == if s.cpu.from.Queue? then P.Moved(s.cpu.from.next) else P.Rest
  {
    hide P.Sound, P.Place, Spliced;
  }

  /** What the CPU thread is about to hang in, and where. */
  lemma FreshJob(c: State)
    requires InStep(c) && c.p.cpu.Hanging? && c.p.cpu.from.Fresh?
    ensures c.job.Scheduling? && T.Enabled(c.t, T.Step.Schedule(c.job.delay, c.job.kind, c.job.userdata))
    ensures EvOf(c.ev, c.p.cpu.node) == Ev(Wrap64(c.t.now + c.job.delay), c.job.userdata, c.job.kind)
    ensures Stopped(c.ev, c.p.view.main, c.p.cpu.node, c.p.cpu.prev) && !P.InMove(c.p.cpu)
  {
    hide EvOf, Stopped, LockOk, Passed, Wrap64;
  }

  lemma HangFreshNext(c: State)
    requires Enabled(c, Pointer(P.Hang(Main))) && P.Enabled(c.p, P.Hang(Main)) && c.p.cpu.Hanging?
    requires c.p.cpu.from.Fresh? && c.job.Scheduling?
    requires T.Enabled(c.t, T.Step.Schedule(c.job.delay, c.job.kind, c.job.userdata))
    ensures Next(c, Pointer(P.Hang(Main))) ==
      c.(p := P.Next(c.p, P.Hang(Main)), job := Idle,
         t := T.Next(c.t, T.Step.Schedule(c.job.delay, c.job.kind, c.job.userdata)))
    ensures Refined(c, Pointer(P.Hang(Main)))
  {
    hide P.Enabled, P.Next, T.Enabled, T.Next;
  }

  /** Where nothing changes for the threads outside of the CPU thread's pointers, they are where they were. */
  lemma LockStays(c: State, c': State)
    requires InStep(c) && c'.p.view.ts == c.p.view.ts && c'.p.owner == c.p.owner && c'.p.other == c.p.other
    requires c'.ev == c.ev && c'.otherJob == c.otherJob && c'.who == c.who
    requires c'.t.lock == c.t.lock && c'.t.others == c.t.others
    ensures LockOk(c'.otherJob, c'.p.owner, c'.p.other, c'.ev, c'.t, c'.who)
    ensures Passed(c'.ev, c'.p.view.ts, c'.p.other, c'.otherJob)
  {
    hide CpuOk, Walked, Passed, EvOf;
  }

  lemma CpuRests(c: State)
    requires c.job == Idle
    requires c.p.cpu == P.Rest || c.p.cpu.Moved? || c.p.cpu == P.Moving || (c.p.cpu.Freeing? && c.p.cpu.prev == null)
    ensures CpuOk(c.job, c.p.cpu, c.ev, c.t) && Walked(c.ev, c.p.view.main, c.p.cpu)
    ensures Passed(c.ev, c.p.view.main, c.p.cpu, c.job) && !Pays(c.p.cpu)
  {
  }

  lemma HangGuard(c: State, h: Home)
    requires Enabled(c, Pointer(P.Hang(h)))
    ensures P.Enabled(c.p, P.Hang(h)) && P.PcOf(c.p, h).Hanging?
  {
  }

  lemma HangFresh(c: State)
    requires Agree(c) && Enabled(c, Pointer(P.Hang(Main))) && c.p.cpu.Hanging? && c.p.cpu.from.Fresh?
    ensures Agree(Next(c, Pointer(P.Hang(Main)))) && Refined(c, Pointer(P.Hang(Main)))
  {
    hide *;
    var c' := Next(c, Pointer(P.Hang(Main)));
    HangGuard(c, Main);
    Parts(c);
    FreshJob(c);
    P.InvStep(c.p, P.Hang(Main));
    HangMainNext(c.p);
    HangFreshNext(c);
    ScheduleNext(c.t, c.job.delay, c.job.kind, c.job.userdata);
    InsertedHere(c.ev, c.p.view.main, c.p.cpu.node, c.p.cpu.prev);
    LockStays(c, c');
    CpuRests(c');
    Sides(c');
    MainPayIs(c);
    MainPayIs(c');
    RestMoves(c'.p.cpu);
    SameShots(c.t, c'.t);
    Parts(c');
  }

  lemma RestMoves(pc: P.Pc)
    requires pc == P.Rest || (pc.Freeing? && pc.prev == null)
    ensures !P.InMove(pc)
  {
  }

  lemma SameShots(t: T.State, t': T.State)
    requires t'.shots == t.shots
    ensures Fired(t') == Fired(t)
  {
  }

  lemma CarriedJob(c: State)
    requires InStep(c) && c.p.cpu.Hanging? && c.p.cpu.from.Queue?
    ensures c.job == Idle && P.InMove(c.p.cpu) && Stopped(c.ev, c.p.view.main, c.p.cpu.node, c.p.cpu.prev)
  {
    hide EvOf, Stopped, LockOk, Passed, Wrap64;
  }

  lemma HangCarriedNext(c: State)
    requires Enabled(c, Pointer(P.Hang(Main))) && P.Enabled(c.p, P.Hang(Main)) && c.p.cpu.Hanging?
    requires c.p.cpu.from.Queue? && c.job == Idle
    ensures Next(c, Pointer(P.Hang(Main))) == c.(p := P.Next(c.p, P.Hang(Main))) && Refined(c, Pointer(P.Hang(Main)))
  {
    hide P.Enabled, P.Next, T.Enabled, T.Next;
  }

  /** A move that has hung in the node it carried has one event less to insert. */
  lemma RestShrinks(c: State, c': State)
    requires c.p.cpu.Hanging? && c.p.cpu.from.Queue? && c'.p.cpu.Moved? && c'.ev == c.ev && c'.p.view.ts == c.p.view.ts
    ensures P.InMove(c'.p.cpu)
    ensures forall q: seq<Ev> :: InsertAll(q, Rest(c)) == InsertAll(Insert(q, EvOf(c.ev, c.p.cpu.node)), Rest(c'))
  {
    hide Insert, Pay;
    var e := EvOf(c.ev, c.p.cpu.node);
    assert Rest(c) == [e] + Rest(c') && Rest(c)[1..] == Rest(c');
  }

  lemma HangCarried(c: State)
    requires Agree(c) && Enabled(c, Pointer(P.Hang(Main))) && c.p.cpu.Hanging? && c.p.cpu.from.Queue?
    ensures Agree(Next(c, Pointer(P.Hang(Main)))) && Refined(c, Pointer(P.Hang(Main)))
  {
    hide *;
    var c' := Next(c, Pointer(P.Hang(Main)));
    HangGuard(c, Main);
    Parts(c);
    CarriedJob(c);
    P.InvStep(c.p, P.Hang(Main));
    HangMainNext(c.p);
    HangCarriedNext(c);
    InsertedHere(c.ev, c.p.view.main, c.p.cpu.node, c.p.cpu.prev);
    RestShrinks(c, c');
    LockStays(c, c');
    CpuRests(c');
    Sides(c');
    MainPayIs(c);
    MainPayIs(c');
    Parts(c');
  }

  lemma HangTsNext(s: P.State)
    requires P.Inv(s) && P.Enabled(s, P.Hang(Threadsafe))
    ensures var s' := P.Next(s, P.Hang(Threadsafe));
      && s.other.Hanging? && s'.view.ts == s.view.ts + [s.other.node] && s'.view.main == s.view.main
      && s'.cpu == s.cpu && s.owner == s'.owner == P.Another && s'.other == P.Hung(s.other.node) && !P.InMove(s.cpu)
  {
    hide P.Sound, P.Place, P.PcOk;
    if s.view.ts != [] { P.LastPlace(P.HeapOf(s), s.view.ts); }
  }

  /** What the holder of the lock is about to hang in. */
  lemma LinkJob(c: State)
    requires InStep(c) && c.p.other.Hanging? && c.p.owner == P.Another
    ensures c.otherJob == HandingOff && c.t.lock && T.Pc(c.t, c.who) == T.Timed(EvOf(c.ev, c.p.other.node))
  {
    hide EvOf, Walked, Passed, CpuOk;
  }

  lemma LinkNext(t: T.State, who: nat)
    requires T.Pc(t, who).Timed?
    ensures T.Enabled(t, T.Link(who))
    ensures var t' := T.Next(t, T.Link(who));
      && t' == t.(ts := t'.ts, issued := t'.issued, others := t.others[who := T.Linked])
      && T.Evs(t'.ts) == T.Evs(t.ts) + [T.Pc(t, who).ev] && T.Pc(t', who) == T.Linked
  {
  }

  lemma HangTsIs(c: State)
    requires Enabled(c, Pointer(P.Hang(Threadsafe))) && P.Enabled(c.p, P.Hang(Threadsafe))
      && T.Enabled(c.t, T.Link(c.who))
    ensures Next(c, Pointer(P.Hang(Threadsafe)))
         == c.(p := P.Next(c.p, P.Hang(Threadsafe)), t := T.Next(c.t, T.Link(c.who)))
    ensures Refined(c, Pointer(P.Hang(Threadsafe)))
  {
    hide P.Enabled, P.Next, T.Enabled, T.Next;
  }

  /** The CPU thread is where it was. */
  lemma CpuStays(c: State, c': State)
    requires InStep(c) && c'.p.view.main == c.p.view.main && c'.p.cpu == c.p.cpu && c'.ev == c.ev && c'.job == c.job
    requires c'.t.now == c.t.now && c'.t.cpu == c.t.cpu
    ensures CpuOk(c'.job, c'.p.cpu, c'.ev, c'.t) && Walked(c'.ev, c'.p.view.main, c'.p.cpu)
    ensures Passed(c'.ev, c'.p.view.main, c'.p.cpu, c'.job)
  {
    hide LockOk, Walked, Passed, EvOf;
  }

  lemma HungOk(c: State)
    requires c.otherJob == HandingOff && c.t.lock && c.p.owner == P.Another && !P.InMove(c.p.cpu)
    requires c.p.other.Hung? && T.Pc(c.t, c.who) == T.Linked
    ensures LockOk(c.otherJob, c.p.owner, c.p.other, c.ev, c.t, c.who)
    ensures Passed(c.ev, c.p.view.ts, c.p.other, c.otherJob) && !Pays(c.p.cpu)
  {
  }

  lemma PayMore(ev: map<Event, Ev>, q: seq<Event>, e: Event)
    ensures Pay(ev, q + [e]) == Pay(ev, q) + [EvOf(ev, e)]
  {
  }

  lemma HangTs(c: State)
    requires Agree(c) && Enabled(c, Pointer(P.Hang(Threadsafe)))
    ensures Agree(Next(c, Pointer(P.Hang(Threadsafe)))) && Refined(c, Pointer(P.Hang(Threadsafe)))
  {
    hide *;
    var c' := Next(c, Pointer(P.Hang(Threadsafe)));
    HangGuard(c, Threadsafe);
    Parts(c);
    P.InvStep(c.p, P.Hang(Threadsafe));
    HangTsNext(c.p);
    LinkJob(c);
    LinkNext(c.t, c.who);
    HangTsIs(c);
    CpuStays(c, c');
    HungOk(c');
    Sides(c');
    PayMore(c.ev, c.p.view.ts, c.p.other.node);
    MainPayIs(c);
    MainPayIs(c');
    SameShots(c.t, c'.t);
    Parts(c');
  }

  /** A removal takes the node at place k of its queue out. */
  ghost predicate TakesOut(s: P.State, s': P.State, h: Home, k: nat) {
    && Side(h) && k < |s.view.Of(h)| && s'.view.Of(h) == Cut(s.view.Of(h), k)
    && s'.view.Of(P.OtherSide(h)) == s.view.Of(P.OtherSide(h)) && s'.owner == s.owner
    && P.PcOf(s', P.OtherSide(h)) == P.PcOf(s, P.OtherSide(h))
    && Sweeps(P.PcOf(s, h)) && Sweeps(P.PcOf(s', h)) && Swept(P.PcOf(s', h)) == Swept(P.PcOf(s, h))
    && k == P.Spot(s.view.Of(h), Swept(P.PcOf(s, h))) == P.Spot(s'.view.Of(h), Swept(P.PcOf(s, h)))
    && (h == Threadsafe ==> s.owner == P.Another && !P.InMove(s.cpu))
  }

  lemma TakeHeadNext(s: P.State, h: Home)
    requires P.Inv(s) && P.Enabled(s, P.TakeHead(h))
    ensures var q, k := s.view.Of(h), P.Spot(s.view.Of(h), Swept(P.PcOf(s, h)));
      TakesOut(s, P.Next(s, P.TakeHead(h)), h, k) && k < |q| && s.heads.Of(h) == q[k]
  {
    hide P.Sound, P.Off, P.PcOk, P.LastOk;
    P.HeadIs(P.HeapOf(s));
    P.OffFirst(P.HeapOf(s), h);
  }

  lemma UnhangNext(s: P.State, h: Home)
    requires P.Inv(s) && P.Enabled(s, P.Unhang(h))
    ensures var q, k := s.view.Of(h), P.Spot(s.view.Of(h), Swept(P.PcOf(s, h)));
      TakesOut(s, P.Next(s, P.Unhang(h)), h, k) && k < |q| && P.After(s, Swept(P.PcOf(s, h))) == q[k]
  {
    hide P.Sound, P.Place, P.Off, P.LastOk;
    var q, prev: Event := s.view.Of(h), P.PcOf(s, h).prev;
    P.Successor(P.HeapOf(s), h, prev);
    OffAt(s, h, P.Spot(q, prev));
    SpotBefore(s, h, prev);
  }

  lemma OffAt(s: P.State, h: Home, k: nat)
    requires Side(h) && k < |s.view.Of(h)| && P.Place(s.view.Of(h), s.view.Of(h)[k]) == k
    ensures var w := P.Off(s.view, h, s.view.Of(h)[k]);
      w.Of(h) == Cut(s.view.Of(h), k) && w.Of(P.OtherSide(h)) == s.view.Of(P.OtherSide(h))
  {
  }

  /** Taking out what comes behind prev does not move prev. */
  lemma SpotBefore(s: P.State, h: Home, prev: Event)
    requires P.Inv(s) && Side(h) && prev in s.view.Of(h) && P.Spot(s.view.Of(h), prev) < |s.view.Of(h)|
    ensures var k := P.Spot(s.view.Of(h), prev); P.Spot(Cut(s.view.Of(h), k), prev) == k
  {
    hide P.Sound, P.PcOk, P.LastOk;
    P.SoundPlaced(P.HeapOf(s));
    PlacedDistinct(s.view, h);
    var q, k := s.view.Of(h), P.Spot(s.view.Of(h), prev);
    var r := Cut(q, k);
    assert r[k - 1] == prev;
    assert r[P.Place(r, prev)] == q[if P.Place(r, prev) < k then P.Place(r, prev) else P.Place(r, prev) + 1];
  }

  lemma TakeGuard(c: State, h: Home, w: P.Step)
    requires Enabled(c, Pointer(w)) && (w == P.TakeHead(h) || w == P.Unhang(h))
    ensures P.Enabled(c.p, w) && JobOf(c, h).Removing? && Plain(w)
    ensures var e := if w.TakeHead? then c.p.heads.Of(h) else P.After(c.p, Swept(P.PcOf(c.p, h)));
      JobOf(c, h).match_.Hits(EvOf(c.ev, e))
  {
  }

  lemma TakenOut(c: State, p: P.State, h: Home, k: nat)
    requires InStep(c) && TakesOut(c.p, p, h, k) && JobOf(c, h).Removing?
    ensures InStep(c.(p := p))
  {
    hide P.Spot, EvOf, WalkedTo, Stopped;
  }

  lemma TakenPays(c: State, p: P.State, h: Home, k: nat)
    requires TakesOut(c.p, p, h, k) && JobOf(c, h).Removing?
    requires JobOf(c, h).match_.Hits(EvOf(c.ev, c.p.view.Of(h)[k]))
    ensures MainPay(c.(p := p)) == MainPay(c) && TsPay(c.(p := p)) == TsPay(c)
  {
    hide P.Spot, EvOf, Cut, Pay, Without, Match.Hits;
    CutHit(c.ev, c.p.view.Of(h), k, JobOf(c, h).match_);
  }

  lemma TakeStep(c: State, h: Home, w: P.Step)
    requires Agree(c) && Enabled(c, Pointer(w)) && (w == P.TakeHead(h) || w == P.Unhang(h))
    ensures Agree(Next(c, Pointer(w))) && Refined(c, Pointer(w))
  {
    hide *;
    TakeGuard(c, h, w);
    PlainStep(c, w);
    var p, k := P.Next(c.p, w), P.Spot(c.p.view.Of(h), Swept(P.PcOf(c.p, h)));
    Parts(c);
    if w == P.TakeHead(h) { TakeHeadNext(c.p, h); } else { UnhangNext(c.p, h); }
    TakenOut(c, p, h, k);
    TakenPays(c, p, h, k);
    Parts(c.(p := p));
  }

  // ---------------------------------------------------------------- the end of a removal

  predicate Ends(h: Home, w: P.Step) {
    w == P.EndHeads(h) || w == P.EndSweep(h)
  }

  /** Side h comes to rest; nothing else changes but tsLast. */
  ghost predicate ComesToRest(s: P.State, s': P.State, h: Home) {
    && (h == Main || h == Threadsafe) && s'.view == s.view && s'.owner == s.owner
    && P.PcOf(s', P.OtherSide(h)) == P.PcOf(s, P.OtherSide(h)) && P.PcOf(s', h) == P.Rest
    && (P.PcOf(s, h).Heading? || P.PcOf(s, h).Sweeping?) && (h == Threadsafe ==> s.owner == P.Another)
  }

  lemma EndNext(s: P.State, h: Home, w: P.Step)
    requires P.Enabled(s, w) && Ends(h, w)
    ensures ComesToRest(s, P.Next(s, w), h)
  {
  }

  lemma EndPlace(s: P.State, h: Home, w: P.Step)
    requires P.Inv(s) && P.Enabled(s, w) && Ends(h, w)
    ensures h == Threadsafe ==> !P.InMove(s.cpu)
    ensures P.Spot(s.view.Of(h), Swept(P.PcOf(s, h))) == |s.view.Of(h)|
  {
    hide P.Sound, P.Place, P.LastOk, P.Hands;
    P.Successor(P.HeapOf(s), h, Swept(P.PcOf(s, h)));
  }

  lemma RestIs(s: P.State, s': P.State, h: Home)
    requires ComesToRest(s, s', h)
    ensures (h == Main || h == Threadsafe) && s'.view == s.view && s'.owner == s.owner
    ensures P.PcOf(s', P.OtherSide(h)) == P.PcOf(s, P.OtherSide(h)) && P.PcOf(s', h) == P.Rest
    ensures (P.PcOf(s, h).Heading? || P.PcOf(s, h).Sweeping?) && (h == Threadsafe ==> s.owner == P.Another)
  {
  }

  lemma {:induction false} NoHits(q: seq<Ev>, m: Match)
    requires forall i :: 0 <= i < |q| ==> !m.Hits(q[i])
    ensures Without(q, m) == q
  {
    if q != [] { NoHits(q[1..], m); }
  }

  /** A removal that has come to the end has left what it should. */
  lemma AllPassed(ev: map<Event, Ev>, q: seq<Event>, prev: Event?, m: Match)
    requires PassedTo(ev, q, prev, m) && P.Spot(q, prev) == |q|
    ensures Without(Pay(ev, q), m) == Pay(ev, q)
  {
    NoHits(Pay(ev, q), m);
  }

  lemma EndIs(c: State, h: Home, w: P.Step)
    requires Enabled(c, Pointer(w)) && Ends(h, w) && Side(h)
    ensures P.Enabled(c.p, w) && Refined(c, Pointer(w))
    ensures Next(c, Pointer(w)) == if h == Main then c.(p := P.Next(c.p, w), job := Idle)
                                   else c.(p := P.Next(c.p, w), otherJob := Idle)
  {
    hide P.Next, T.Enabled, T.Next;
  }

  lemma EndJob(c: State, h: Home)
    requires InStep(c) && Side(h) && (P.PcOf(c.p, h).Heading? || P.PcOf(c.p, h).Sweeping?)
    requires h == Threadsafe ==> c.p.owner == P.Another
    ensures JobOf(c, h).Removing? && PassedTo(c.ev, c.p.view.Of(h), Swept(P.PcOf(c.p, h)), JobOf(c, h).match_)
    ensures if h == Main then !P.InMove(c.p.cpu) else !c.t.lock
  {
    hide PassedTo, WalkedTo, Stopped, EvOf;
  }

  lemma Ended(c: State, c': State, h: Home)
    requires InStep(c) && Side(h) && P.PcOf(c'.p, h) == P.Rest && c'.p.view == c.p.view && c'.p.owner == c.p.owner
    requires P.PcOf(c'.p, P.OtherSide(h)) == P.PcOf(c.p, P.OtherSide(h)) && JobOf(c', h) == Idle
    requires if h == Main then c'.otherJob == c.otherJob else c'.job == c.job && c'.p.owner == P.Another && !c'.t.lock
    requires c'.ev == c.ev && c'.t == c.t && c'.who == c.who
    ensures InStep(c')
  {
    hide PassedTo, WalkedTo, Stopped, EvOf;
  }

  lemma EndedPays(c: State, c': State, h: Home)
    requires Side(h) && c'.p.view == c.p.view && JobOf(c, h).Removing? && JobOf(c', h) == Idle && c'.ev == c.ev
    requires if h == Main then c'.otherJob == c.otherJob else c'.job == c.job
    requires !P.InMove(c.p.cpu) && !P.InMove(c'.p.cpu)
    requires Without(Pay(c.ev, c.p.view.Of(h)), JobOf(c, h).match_) == Pay(c.ev, c.p.view.Of(h))
    ensures MainPay(c') == MainPay(c) && TsPay(c') == TsPay(c)
  {
    hide Pay, Without;
  }

  lemma EndStep(c: State, h: Home, w: P.Step)
    requires Agree(c) && Enabled(c, Pointer(w)) && Ends(h, w) && Side(h)
    ensures Agree(Next(c, Pointer(w))) && Refined(c, Pointer(w))
  {
    hide *;
    var c' := Next(c, Pointer(w));
    EndIs(c, h, w);
    Parts(c);
    P.InvStep(c.p, w);
    EndNext(c.p, h, w);
    RestIs(c.p, P.Next(c.p, w), h);
    EndPlace(c.p, h, w);
    EndJob(c, h);
    AllPassed(c.ev, c.p.view.Of(h), Swept(P.PcOf(c.p, h)), JobOf(c, h).match_);
    EndRests(c, c', h);
    Ended(c, c', h);
    EndedPays(c, c', h);
    Parts(c');
  }

  lemma EndRests(c: State, c': State, h: Home)
    requires Side(h) && P.PcOf(c'.p, h) == P.Rest && P.PcOf(c'.p, P.OtherSide(h)) == P.PcOf(c.p, P.OtherSide(h))
    requires c' == if h == Main then c.(p := c'.p, job := Idle) else c.(p := c'.p, otherJob := Idle)
    requires !P.InMove(c.p.cpu)
    ensures !P.InMove(c'.p.cpu) && JobOf(c', h) == Idle
  {
  }

  // ---------------------------------------------------------------- firing

  lemma PopNext(s: P.State)
    requires P.Inv(s) && P.Enabled(s, P.Pop)
    ensures var s' := P.Next(s, P.Pop);
      && s.view.main != [] && s.view.main[0] == s.heads.main && s'.view.main == Cut(s.view.main, 0)
      && s'.view.ts == s.view.ts && s'.owner == s.owner && s'.other == s.other && s'.cpu == s.cpu == P.Rest
  {
    hide P.Sound, P.Off, P.PcOk, P.LastOk;
    P.HeadIs(P.HeapOf(s));
    P.OffFirst(P.HeapOf(s), Main);
  }

  lemma FireNext(t: T.State)
    requires t.cpu == T.Looping && T.Due(t)
    ensures T.Enabled(t, T.Step.Fire) && t.main != []
    ensures var t' := T.Next(t, T.Step.Fire);
      && t' == t.(main := t'.main, shots := t'.shots, cpu := T.InCallback)
      && T.Evs(t'.main) == T.Evs(t.main)[1..] && Fired(t') == Fired(t) + [T.Evs(t.main)[0]]
  {
  }

  lemma FireIs(c: State)
    requires Enabled(c, Fire) && T.Enabled(c.t, T.Step.Fire) && T.Next(c.t, T.Step.Fire).cpu == T.InCallback
    ensures P.Enabled(c.p, P.Pop) && Refined(c, Fire)
    ensures Next(c, Fire) ==
      c.(p := P.Next(c.p, P.Pop), calls := c.calls + [EvOf(c.ev, c.p.heads.main)], t := T.Next(c.t, T.Step.Fire))
  {
    hide P.Next, T.Enabled, T.Next, HeadOnly, HeadDue;
  }

  lemma FireGuard(c: State)
    requires Enabled(c, Fire)
    ensures c.t.cpu == T.Looping && c.p.cpu == P.Rest && HeadDue(HeadOnly(c)) && P.Enabled(c.p, P.Pop)
  {
    hide HeadDue, HeadOnly;
  }

  lemma PayHead(ev: map<Event, Ev>, q: seq<Event>)
    requires q != []
    ensures Pay(ev, q)[0] == EvOf(ev, q[0]) && Pay(ev, Cut(q, 0)) == Pay(ev, q)[1..]
  {
  }

  lemma FireStep(c: State)
    requires Agree(c) && Enabled(c, Fire)
    ensures Agree(Next(c, Fire)) && Refined(c, Fire)
  {
    hide *;
    var c' := Next(c, Fire);
    FireGuard(c);
    Parts(c);
    AtRest(c);
    SameHead(c);
    FireNext(c.t);
    FireIs(c);
    P.InvStep(c.p, P.Pop);
    PopNext(c.p);
    PayHead(c.ev, c.p.view.main);
    LockStays(c, c');
    CpuRests(c');
    Sides(c');
    RestMoves(c.p.cpu);
    MainPayIs(c);
    MainPayIs(c');
    Parts(c');
  }

  lemma CallbackIs(c: State)
    requires Enabled(c, EndCallback)
    ensures P.Enabled(c.p, P.EndCallback) && T.Enabled(c.t, T.EndCallback) && Refined(c, EndCallback)
      && c.p.cpu == P.Rest
    ensures var p := P.Next(c.p, P.EndCallback);
      && Next(c, EndCallback) == c.(p := p, t := c.t.(cpu := T.Looping))
      && p.view == c.p.view && p.owner == c.p.owner && p.other == c.p.other && p.cpu.Freeing? && p.cpu.prev == null
  {
  }

  lemma CallbackStep(c: State)
    requires Agree(c) && Enabled(c, EndCallback)
    ensures Agree(Next(c, EndCallback)) && Refined(c, EndCallback)
  {
    hide *;
    var c' := Next(c, EndCallback);
    CallbackIs(c);
    Parts(c);
    AtRest(c);
    P.InvStep(c.p, P.EndCallback);
    LockStays(c, c');
    CpuRests(c');
    Sides(c');
    RestMoves(c.p.cpu);
    RestMoves(c'.p.cpu);
    MainPayIs(c);
    MainPayIs(c');
    SameShots(c.t, c'.t);
    Parts(c');
  }

  // ---------------------------------------------------------------- a node is got and filled in

  /** The node that GetNewEvent or GetNewTsEvent gives. */
  function Got(s: P.State, h: Home, node: Option<Event>): Event? {
    if node.Some? then node.value else s.heads.Of(PoolOf(h))
  }

  lemma GotIs(s: P.State, h: Home, node: Option<Event>)
    requires P.Enabled(s, Getting(h, node))
    ensures Got(s, h, node) != null && P.PcOf(s, h) == P.Rest && Side(h)
    ensures var s' := P.Next(s, Getting(h, node));
      && P.PcOf(s', h) == P.Seeking(Got(s, h, node), null, P.Fresh)
      && P.PcOf(s', P.OtherSide(h)) == P.PcOf(s, P.OtherSide(h))
      && s'.view.main == s.view.main && s'.view.ts == s.view.ts && s'.owner == s.owner
  {
  }

  /** The node a thread is about to fill in is on no queue, and not the one another thread has in hand. */
  lemma InHand(s: P.State, h: Home)
    requires P.Inv(s) && Side(h) && P.PcOf(s, h).Seeking?
    ensures var e := P.PcOf(s, h).node;
      e !in s.view.main && e !in s.view.ts && e !in P.NodeOf(P.PcOf(s, P.OtherSide(h)))
  {
    hide P.Inv;
    P.NodeHeld(s, h);
    var e := P.PcOf(s, h).node;
    assert e !in s.view.Of(Main) && e !in s.view.Of(Threadsafe);
  }

  lemma GetNext(s: P.State, h: Home, node: Option<Event>) returns (ne: Event)
    requires P.Inv(s) && P.Enabled(s, Getting(h, node))
    ensures ne == Got(s, h, node) && P.PcOf(s, h) == P.Rest
    ensures var s' := P.Next(s, Getting(h, node));
      && P.PcOf(s', h) == P.Seeking(ne, null, P.Fresh) && P.PcOf(s', P.OtherSide(h)) == P.PcOf(s, P.OtherSide(h))
      && s'.view.main == s.view.main && s'.view.ts == s.view.ts && s'.owner == s.owner && P.Inv(s')
      && ne !in s.view.main && ne !in s.view.ts && ne !in P.NodeOf(P.PcOf(s, P.OtherSide(h)))
  {
    hide *;
    GotIs(s, h, node);
    ne := Got(s, h, node);
    P.InvStep(s, Getting(h, node));
    InHand(P.Next(s, Getting(h, node)), h);
  }

  // What another event in a node that is on no queue leaves as it is.

  lemma PayFrame(ev: map<Event, Ev>, ne: Event, x: Ev, q: seq<Event>)
    requires ne !in q
    ensures Pay(ev[ne := x], q) == Pay(ev, q)
  {
  }

  lemma PassedFrame(ev: map<Event, Ev>, ne: Event, x: Ev, q: seq<Event>, pc: P.Pc, job: Job)
    requires ne !in q && Passed(ev, q, pc, job)
    ensures Passed(ev[ne := x], q, pc, job)
  {
    hide P.Spot;
  }

  lemma WalkedFrame(ev: map<Event, Ev>, ne: Event, x: Ev, q: seq<Event>, pc: P.Pc)
    requires ne !in q && ne !in P.NodeOf(pc) && Walked(ev, q, pc)
    ensures Walked(ev[ne := x], q, pc)
  {
    PayFrame(ev, ne, x, q);
    hide P.Spot, Pay;
  }

  lemma CpuFrame(job: Job, cpu: P.Pc, ev: map<Event, Ev>, t: T.State, ne: Event, x: Ev)
    requires CpuOk(job, cpu, ev, t) && ne !in P.NodeOf(cpu)
    ensures CpuOk(job, cpu, ev[ne := x], t)
  {
  }

  lemma LockFrame(job: Job, owner: P.Owner, other: P.Pc, ev: map<Event, Ev>, t: T.State, who: nat, ne: Event, x: Ev)
    requires LockOk(job, owner, other, ev, t, who) && ne !in P.NodeOf(other)
    ensures LockOk(job, owner, other, ev[ne := x], t, who)
  {
  }

  lemma BothPcs(s: P.State)
    ensures P.PcOf(s, Main) == s.cpu && P.PcOf(s, Threadsafe) == s.other
    ensures P.OtherSide(Main) == Threadsafe && P.OtherSide(Threadsafe) == Main
  {
  }

  lemma ScheduleIs(c: State, delay: S64, kind: S32, userdata: U64, node: Option<Event>)
    requires Enabled(c, StartSchedule(delay, kind, userdata, node))
    ensures P.Enabled(c.p, Getting(Main, node)) && AtWork(c) && Got(c.p, Main, node) != null
    ensures var ne: Event := Got(c.p, Main, node);
      Next(c, StartSchedule(delay, kind, userdata, node))
      == c.(p := P.Next(c.p, Getting(Main, node)), ev := c.ev[ne := Ev(Wrap64(c.t.now + delay), userdata, kind)],
            job := Scheduling(delay, kind, userdata))
    ensures Refined(c, StartSchedule(delay, kind, userdata, node))
  {
    hide P.Next, T.Next, T.Enabled, Wrap64;
  }

  lemma AtWorkIs(c: State)
    requires AtWork(c)
    ensures c.p.cpu == P.Rest && c.t.cpu in {T.Outside, T.InCallback}
  {
  }

  lemma SchedulingOk(c: State, ne: Event, ev: map<Event, Ev>)
    requires c.job.Scheduling? && c.p.cpu == P.Seeking(ne, null, P.Fresh) && c.t.cpu in {T.Outside, T.InCallback}
    requires c.ev == ev[ne := Ev(Wrap64(c.t.now + c.job.delay), c.job.userdata, c.job.kind)]
    ensures CpuOk(c.job, c.p.cpu, c.ev, c.t) && Walked(c.ev, c.p.view.main, c.p.cpu)
    ensures Passed(c.ev, c.p.view.main, c.p.cpu, c.job) && !Pays(c.p.cpu) && !P.InMove(c.p.cpu)
  {
    hide Wrap64;
  }

  lemma ScheduleStep(c: State, delay: S64, kind: S32, userdata: U64, node: Option<Event>)
    requires Agree(c) && Enabled(c, StartSchedule(delay, kind, userdata, node))
    ensures var step := StartSchedule(delay, kind, userdata, node); Agree(Next(c, step)) && Refined(c, step)
  {
    hide *;
    var c' := Next(c, StartSchedule(delay, kind, userdata, node));
    var x := Ev(Wrap64(c.t.now + delay), userdata, kind);
    ScheduleIs(c, delay, kind, userdata, node);
    AtWorkIs(c);
    Parts(c);
    AtRest(c);
    BothPcs(c.p);
    BothPcs(c'.p);
    var ne := GetNext(c.p, Main, node);
    SchedulingOk(c', ne, c.ev);
    Sides(c);
    LockFrame(c.otherJob, c.p.owner, c.p.other, c.ev, c.t, c.who, ne, x);
    PassedFrame(c.ev, ne, x, c.p.view.ts, c.p.other, c.otherJob);
    Sides(c');
    PayFrame(c.ev, ne, x, c.p.view.main);
    PayFrame(c.ev, ne, x, c.p.view.ts);
    RestMoves(c.p.cpu);
    MainPayIs(c);
    MainPayIs(c');
    Parts(c');
  }

  // ---------------------------------------------------------------- a removal begins

  lemma UnscheduleNext(t: T.State, m: Match)
    requires t.cpu in {T.Outside, T.InCallback}
    ensures T.Enabled(t, T.Unschedule(m))
    ensures var t' := T.Next(t, T.Unschedule(m));
      t' == t.(main := t'.main) && T.Evs(t'.main) == Without(T.Evs(t.main), m)
  {
    T.ErasesFilter(t.main, m);
    hide T.Filter, Without, T.Evs;
  }

  lemma UnscheduleIs(c: State, m: Match)
    requires Enabled(c, StartUnschedule(m)) && T.Enabled(c.t, T.Unschedule(m))
    ensures AtWork(c) && P.Enabled(c.p, P.Begin(Main)) && P.Next(c.p, P.Begin(Main)) == c.p.(cpu := P.Heading)
    ensures Next(c, StartUnschedule(m))
         == c.(p := c.p.(cpu := P.Heading), job := Removing(m), t := T.Next(c.t, T.Unschedule(m)))
    ensures Refined(c, StartUnschedule(m))
  {
    hide T.Enabled, T.Next;
  }

  lemma UnscheduleGuard(c: State, m: Match)
    requires Enabled(c, StartUnschedule(m))
    ensures AtWork(c)
  {
  }

  lemma RemovingOk(c: State)
    requires c.job.Removing? && c.p.cpu == P.Heading && c.t.cpu in {T.Outside, T.InCallback}
    ensures CpuOk(c.job, c.p.cpu, c.ev, c.t) && Walked(c.ev, c.p.view.main, c.p.cpu)
    ensures Passed(c.ev, c.p.view.main, c.p.cpu, c.job) && !Pays(c.p.cpu) && !P.InMove(c.p.cpu)
  {
  }

  lemma UnscheduleStep(c: State, m: Match)
    requires Agree(c) && Enabled(c, StartUnschedule(m))
    ensures Agree(Next(c, StartUnschedule(m))) && Refined(c, StartUnschedule(m))
  {
    hide *;
    var c' := Next(c, StartUnschedule(m));
    UnscheduleGuard(c, m);
    AtWorkIs(c);
    UnscheduleNext(c.t, m);
    UnscheduleIs(c, m);
    Parts(c);
    AtRest(c);
    P.InvStep(c.p, P.Begin(Main));
    RemovingOk(c');
    LockStays(c, c');
    Sides(c');
    RestMoves(c.p.cpu);
    MainPayIs(c);
    MainPayIs(c');
    SameShots(c.t, c'.t);
    Parts(c');
  }

  // ---------------------------------------------------------------- with the lock

  /** The lock is free. */
  lemma FreeLock(c: State)
    requires P.Inv(c.p) && InStep(c) && c.p.owner == P.Nobody
    ensures !c.t.lock && c.otherJob == Idle && c.p.other == P.Rest && !P.InMove(c.p.cpu)
  {
    hide P.Sound, P.PcOk, P.LastOk, P.Hands, CpuOk, Walked, Passed;
  }

  lemma AcquireIs(p: P.State)
    requires P.Enabled(p, P.Acquire)
    ensures p.owner == P.Nobody && P.Next(p, P.Acquire) == p.(owner := P.Another)
  {
  }

  lemma HandOffNext(t: T.State, who: nat, delay: S64, kind: S32, userdata: U64)
    requires T.LockHeld(t) && !t.lock
    ensures T.Enabled(t, T.Acquire(who, delay, kind, userdata))
    ensures var t' := T.Next(t, T.Acquire(who, delay, kind, userdata));
      t' == t.(lock := true, others := t'.others) && T.Pc(t', who) == T.Locked(delay, kind, userdata)
  {
  }

  lemma HandOffIs(c: State, who: nat, delay: S64, kind: S32, userdata: U64)
    requires Enabled(c, StartHandOff(who, delay, kind, userdata))
      && T.Enabled(c.t, T.Acquire(who, delay, kind, userdata))
    ensures P.Enabled(c.p, P.Acquire)
    ensures Next(c, StartHandOff(who, delay, kind, userdata))
         == c.(p := P.Next(c.p, P.Acquire), otherJob := HandingOff, who := who,
               t := T.Next(c.t, T.Acquire(who, delay, kind, userdata)))
    ensures Refined(c, StartHandOff(who, delay, kind, userdata))
  {
    hide P.Next, P.Enabled, T.Enabled, T.Next;
  }

  lemma OffGuard(c: State, step: Step)
    requires Enabled(c, step) && (step.StartHandOff? || step.StartUnscheduleTs?)
    ensures P.Enabled(c.p, P.Acquire)
  {
    hide P.Enabled;
  }

  lemma LockedOk(c: State)
    requires c.p.owner == P.Another && c.p.other == P.Rest && !P.InMove(c.p.cpu)
    requires if c.otherJob == HandingOff then c.t.lock && T.Pc(c.t, c.who).Locked?
             else c.otherJob.Removing? && !c.t.lock
    ensures LockOk(c.otherJob, c.p.owner, c.p.other, c.ev, c.t, c.who)
    ensures Passed(c.ev, c.p.view.ts, c.p.other, c.otherJob) && !Pays(c.p.cpu)
  {
  }

  lemma HandOffStep(c: State, who: nat, delay: S64, kind: S32, userdata: U64)
    requires Agree(c) && T.LockHeld(c.t) && Enabled(c, StartHandOff(who, delay, kind, userdata))
    ensures var step := StartHandOff(who, delay, kind, userdata); Agree(Next(c, step)) && Refined(c, step)
  {
    hide *;
    var c' := Next(c, StartHandOff(who, delay, kind, userdata));
    OffGuard(c, StartHandOff(who, delay, kind, userdata));
    AcquireIs(c.p);
    Parts(c);
    FreeLock(c);
    HandOffNext(c.t, who, delay, kind, userdata);
    HandOffIs(c, who, delay, kind, userdata);
    P.InvStep(c.p, P.Acquire);
    CpuStays(c, c');
    LockedOk(c');
    Sides(c');
    MainPayIs(c);
    MainPayIs(c');
    SameShots(c.t, c'.t);
    Parts(c');
  }

  lemma UnscheduleTsNext(t: T.State, m: Match)
    requires !t.lock
    ensures T.Enabled(t, T.UnscheduleTs(m))
    ensures var t' := T.Next(t, T.UnscheduleTs(m));
      t' == t.(ts := t'.ts, dropped := t'.dropped) && T.Evs(t'.ts) == Without(T.Evs(t.ts), m)
  {
    T.ErasesFilter(t.ts, m);
    hide T.Filter, Without, T.Evs;
  }

  lemma UnscheduleTsIs(c: State, m: Match)
    requires Enabled(c, StartUnscheduleTs(m)) && T.Enabled(c.t, T.UnscheduleTs(m))
    ensures Next(c, StartUnscheduleTs(m))
         == c.(p := P.Next(c.p, P.Acquire), otherJob := Removing(m), t := T.Next(c.t, T.UnscheduleTs(m)))
    ensures Refined(c, StartUnscheduleTs(m))
  {
    hide P.Next, P.Enabled, T.Enabled, T.Next;
  }

  lemma UnscheduleTsStep(c: State, m: Match)
    requires Agree(c) && Enabled(c, StartUnscheduleTs(m))
    ensures Agree(Next(c, StartUnscheduleTs(m))) && Refined(c, StartUnscheduleTs(m))
  {
    hide *;
    var c' := Next(c, StartUnscheduleTs(m));
    OffGuard(c, StartUnscheduleTs(m));
    AcquireIs(c.p);
    Parts(c);
    FreeLock(c);
    UnscheduleTsNext(c.t, m);
    UnscheduleTsIs(c, m);
    P.InvStep(c.p, P.Acquire);
    CpuStays(c, c');
    LockedOk(c');
    Sides(c');
    MainPayIs(c);
    MainPayIs(c');
    SameShots(c.t, c'.t);
    Parts(c');
  }

  /** The thread in ScheduleEvent_Threadsafe has the lock. */
  lemma HasLock(c: State)
    requires T.LockHeld(c.t) && T.Pc(c.t, c.who) != T.Away && InStep(c)
    ensures c.t.lock && c.p.owner == P.Another && c.otherJob == HandingOff
  {
    hide CpuOk, Walked, Passed;
  }

  lemma NotInMove(s: P.State)
    requires P.Inv(s) && s.owner == P.Another
    ensures !P.InMove(s.cpu) && !Pays(s.cpu)
  {
    hide P.Sound, P.PcOk, P.LastOk, P.Hands;
  }

  lemma TakeTsIs(c: State, node: Option<Event>)
    requires Enabled(c, TakeTs(node))
    ensures P.Enabled(c.p, Getting(Threadsafe, node)) && T.Pc(c.t, c.who).Locked?
    ensures Next(c, TakeTs(node)) == c.(p := P.Next(c.p, Getting(Threadsafe, node))) && Refined(c, TakeTs(node))
  {
    hide P.Next, P.Enabled, T.Enabled, T.Next;
  }

  lemma TakenOk(c: State)
    requires c.otherJob == HandingOff && c.t.lock && c.p.owner == P.Another
    requires c.p.other.Seeking? && T.Pc(c.t, c.who).Locked?
    ensures LockOk(c.otherJob, c.p.owner, c.p.other, c.ev, c.t, c.who)
    ensures Passed(c.ev, c.p.view.ts, c.p.other, c.otherJob)
  {
  }

  lemma TakeTsStep(c: State, node: Option<Event>)
    requires Agree(c) && T.LockHeld(c.t) && Enabled(c, TakeTs(node))
    ensures Agree(Next(c, TakeTs(node))) && Refined(c, TakeTs(node))
  {
    hide *;
    var c' := Next(c, TakeTs(node));
    TakeTsIs(c, node);
    Parts(c);
    HasLock(c);
    NotInMove(c.p);
    BothPcs(c.p);
    BothPcs(c'.p);
    var ne := GetNext(c.p, Threadsafe, node);
    CpuStays(c, c');
    TakenOk(c');
    Sides(c');
    MainPayIs(c);
    MainPayIs(c');
    Parts(c');
  }

  lemma ReadNext(t: T.State, who: nat)
    requires T.Pc(t, who).Locked?
    ensures T.Enabled(t, T.Step.ReadClock(who))
    ensures var t', o := T.Next(t, T.Step.ReadClock(who)), T.Pc(t, who);
      t' == t.(others := t'.others) && T.Pc(t', who) == T.Timed(Ev(Wrap64(t.now + o.delay), o.userdata, o.kind))
  {
    hide Wrap64;
  }

  lemma ReadIs(c: State)
    requires Enabled(c, ReadClock)
    ensures T.Pc(c.t, c.who).Locked? && c.p.other.Seeking?
    ensures T.Enabled(c.t, T.Step.ReadClock(c.who)) ==> Refined(c, ReadClock)
    ensures var o := T.Pc(c.t, c.who);
      T.Enabled(c.t, T.Step.ReadClock(c.who)) ==>
        Next(c, ReadClock) == c.(ev := c.ev[c.p.other.node := Ev(Wrap64(c.t.now + o.delay), o.userdata, o.kind)],
                                 t := T.Next(c.t, T.Step.ReadClock(c.who)))
  {
    hide P.Next, P.Enabled, T.Enabled, T.Next, Wrap64;
  }

  lemma ReadOk(c: State, ev: map<Event, Ev>, x: Ev)
    requires c.otherJob == HandingOff && c.t.lock && c.p.owner == P.Another
    requires c.p.other.Seeking? && c.ev == ev[c.p.other.node := x] && T.Pc(c.t, c.who) == T.Timed(x)
    ensures LockOk(c.otherJob, c.p.owner, c.p.other, c.ev, c.t, c.who)
    ensures Passed(c.ev, c.p.view.ts, c.p.other, c.otherJob)
  {
  }

  lemma ReadStep(c: State)
    requires Agree(c) && T.LockHeld(c.t) && Enabled(c, ReadClock)
    ensures Agree(Next(c, ReadClock)) && Refined(c, ReadClock)
  {
    hide *;
    var c' := Next(c, ReadClock);
    ReadIs(c);
    ReadNext(c.t, c.who);
    Parts(c);
    Sides(c);
    HasLock(c);
    NotInMove(c.p);
    BothPcs(c.p);
    InHand(c.p, Threadsafe) by { SideTs(); }
    var ne, x := c.p.other.node, T.Pc(c'.t, c.who).ev;
    CpuFrame(c.job, c.p.cpu, c.ev, c.t, ne, x);
    CpuSame(c.job, c.p.cpu, c'.ev, c.t, c'.t);
    WalkedFrame(c.ev, ne, x, c.p.view.main, c.p.cpu);
    PassedFrame(c.ev, ne, x, c.p.view.main, c.p.cpu, c.job);
    ReadOk(c', c.ev, x);
    Sides(c');
    PayFrame(c.ev, ne, x, c.p.view.main);
    PayFrame(c.ev, ne, x, c.p.view.ts);
    MainPayIs(c);
    MainPayIs(c');
    SameShots(c.t, c'.t);
    Parts(c');
  }

  lemma SideTs()
    ensures Side(Threadsafe)
  {
  }

  lemma CpuSame(job: Job, cpu: P.Pc, ev: map<Event, Ev>, t: T.State, t': T.State)
    requires CpuOk(job, cpu, ev, t) && t'.now == t.now && t'.cpu == t.cpu
    ensures CpuOk(job, cpu, ev, t')
  {
  }

  lemma FlagNext(t: T.State, who: nat)
    requires T.Pc(t, who) == T.Linked
    ensures T.Enabled(t, T.Step.SetFlag(who))
    ensures var t' := T.Next(t, T.Step.SetFlag(who));
      t' == t.(flag := true, others := t'.others) && T.Pc(t', who) == T.Signalled
  {
  }

  lemma FlagIs(c: State)
    requires Enabled(c, SetFlag)
    ensures T.Pc(c.t, c.who) == T.Linked && c.p.other == P.Rest
    ensures T.Enabled(c.t, T.Step.SetFlag(c.who)) ==>
      Refined(c, SetFlag) && Next(c, SetFlag) == c.(t := T.Next(c.t, T.Step.SetFlag(c.who)))
  {
    hide P.Next, P.Enabled, T.Enabled, T.Next;
  }

  lemma FlagOk(c: State)
    requires c.otherJob == HandingOff && c.t.lock && c.p.owner == P.Another
    requires c.p.other == P.Rest && T.Pc(c.t, c.who) == T.Signalled
    ensures LockOk(c.otherJob, c.p.owner, c.p.other, c.ev, c.t, c.who)
    ensures Passed(c.ev, c.p.view.ts, c.p.other, c.otherJob)
  {
  }

  lemma FlagStep(c: State)
    requires Agree(c) && T.LockHeld(c.t) && Enabled(c, SetFlag)
    ensures Agree(Next(c, SetFlag)) && Refined(c, SetFlag)
  {
    hide *;
    var c' := Next(c, SetFlag);
    FlagIs(c);
    FlagNext(c.t, c.who);
    Parts(c);
    HasLock(c);
    NotInMove(c.p);
    CpuStays(c, c');
    FlagOk(c');
    Sides(c');
    MainPayIs(c);
    MainPayIs(c');
    SameShots(c.t, c'.t);
    Parts(c');
  }

  lemma ReleaseNext(t: T.State, who: nat)
    requires T.Pc(t, who) == T.Signalled
    ensures T.Enabled(t, T.Step.Release(who))
    ensures var t' := T.Next(t, T.Step.Release(who)); t' == t.(lock := false, others := t'.others)
  {
  }

  lemma ReleaseIs(c: State)
    requires Enabled(c, Release)
    ensures P.Enabled(c.p, P.Release) && c.p.owner == P.Another && c.p.other == P.Rest
    ensures P.Next(c.p, P.Release) == c.p.(owner := P.Nobody)
    ensures c.otherJob == Idle || (c.otherJob == HandingOff && T.Pc(c.t, c.who) == T.Signalled)
    ensures c.otherJob == Idle ==> Refined(c, Release) && Next(c, Release) == c.(p := P.Next(c.p, P.Release))
    ensures c.otherJob == HandingOff && T.Enabled(c.t, T.Step.Release(c.who)) ==>
      Refined(c, Release)
      && Next(c, Release) == c.(p := P.Next(c.p, P.Release), otherJob := Idle, t := T.Next(c.t, T.Step.Release(c.who)))
  {
    hide T.Enabled, T.Next;
  }

  lemma ReleasedOk(c: State)
    requires c.otherJob == Idle && !c.t.lock && c.p.owner == P.Nobody
    ensures LockOk(c.otherJob, c.p.owner, c.p.other, c.ev, c.t, c.who)
    ensures Passed(c.ev, c.p.view.ts, c.p.other, c.otherJob)
  {
  }

  lemma IdleLock(c: State)
    requires InStep(c) && c.otherJob == Idle
    ensures !c.t.lock
  {
    hide CpuOk, Walked, Passed;
  }

  lemma ReleaseStep(c: State)
    requires Agree(c) && Enabled(c, Release)
    ensures Agree(Next(c, Release)) && Refined(c, Release)
  {
    hide *;
    var c' := Next(c, Release);
    ReleaseIs(c);
    Parts(c);
    if c.otherJob == Idle { IdleLock(c); } else { ReleaseNext(c.t, c.who); }
    NotInMove(c.p);
    P.InvStep(c.p, P.Release);
    CpuStays(c, c');
    ReleasedOk(c');
    Sides(c');
    MainPayIs(c);
    MainPayIs(c');
    SameShots(c.t, c'.t);
    Parts(c');
  }

  // ---------------------------------------------------------------- moving

  lemma MoveLockedNext(t: T.State)
    requires t.cpu.Cleared? && !t.lock
    ensures T.Enabled(t, T.MoveLocked)
    ensures var t' := T.Next(t, T.MoveLocked);
      && t' == t.(main := t'.main, ts := [], tickets := t'.tickets, moved := t'.moved, cpu := t'.cpu)
      && T.Evs(t'.main) == InsertAll(T.Evs(t.main), T.Evs(t.ts)) && T.Evs(t'.ts) == []
  {
    T.ErasesEnterAll(t.main, t.ts, t.tickets, |t.shots|);
    hide T.EnterAll, InsertAll;
  }

  lemma StartMoveIs(c: State)
    requires Enabled(c, StartMove)
    ensures P.Enabled(c.p, P.StartMove) && c.t.cpu.Cleared? && c.p.cpu == P.Rest && c.p.owner == P.Nobody
    ensures P.Next(c.p, P.StartMove) == c.p.(owner := P.Cpu, cpu := P.Moving)
    ensures T.Enabled(c.t, T.MoveLocked) ==>
      Refined(c, StartMove) && Next(c, StartMove) == c.(p := P.Next(c.p, P.StartMove), t := T.Next(c.t, T.MoveLocked))
  {
    hide T.Enabled, T.Next;
  }

  lemma MovingIs(c: State)
    requires c.p.cpu == P.Moving
    ensures P.InMove(c.p.cpu) && Rest(c) == Pay(c.ev, c.p.view.ts)
  {
  }

  lemma CpuLockOk(c: State)
    requires c.otherJob == Idle && !c.t.lock && c.p.owner == P.Cpu
    ensures LockOk(c.otherJob, c.p.owner, c.p.other, c.ev, c.t, c.who)
    ensures Passed(c.ev, c.p.view.ts, c.p.other, c.otherJob)
  {
  }

  lemma StartMoveStep(c: State)
    requires Agree(c) && Enabled(c, StartMove)
    ensures Agree(Next(c, StartMove)) && Refined(c, StartMove)
  {
    hide *;
    var c' := Next(c, StartMove);
    StartMoveIs(c);
    Parts(c);
    AtRest(c);
    FreeLock(c);
    MoveLockedNext(c.t);
    P.InvStep(c.p, P.StartMove);
    CpuRests(c');
    CpuLockOk(c');
    Sides(c');
    MainPayIs(c);
    MainPayIs(c');
    MovingIs(c');
    SameShots(c.t, c'.t);
    Parts(c');
  }

  lemma CarryNext(s: P.State)
    requires P.Inv(s) && P.Enabled(s, P.Carry)
    ensures var s', q := P.Next(s, P.Carry), s.view.ts;
      && q != [] && s'.view.ts == Cut(q, 0) && s'.view.main == s.view.main && s.owner == s'.owner == P.Cpu
      && s.cpu == P.Moving && s'.other == s.other && s'.cpu.Seeking? && s'.cpu.node == q[0] && s'.cpu.prev == null
      && s'.cpu.from.Queue?
  {
    hide P.Sound, P.Off, P.PcOk, P.LastOk;
    P.HeadIs(P.HeapOf(s));
    P.OffFirst(P.HeapOf(s), Threadsafe);
  }

  /** While the CPU thread moves, no other thread is in an operation with the lock. */
  lemma InMoveLock(c: State)
    requires P.Inv(c.p) && InStep(c) && P.InMove(c.p.cpu)
    ensures c.job == Idle && c.otherJob == Idle && !c.t.lock && c.p.owner == P.Cpu
  {
    hide P.Sound, P.PcOk, P.LastOk, P.Hands, Walked, Passed, EvOf;
  }

  lemma CarriedOk(c: State)
    requires c.job == Idle && c.p.cpu.Seeking? && c.p.cpu.prev == null && c.p.cpu.from.Queue?
    ensures CpuOk(c.job, c.p.cpu, c.ev, c.t) && Walked(c.ev, c.p.view.main, c.p.cpu)
    ensures Passed(c.ev, c.p.view.main, c.p.cpu, c.job) && !Pays(c.p.cpu) && P.InMove(c.p.cpu)
    ensures Rest(c) == [EvOf(c.ev, c.p.cpu.node)] + Pay(c.ev, c.p.view.ts)
  {
  }

  lemma PlainGuard(c: State, w: P.Step)
    requires Enabled(c, Pointer(w)) && (w == P.Carry || w == P.EndMove)
    ensures Plain(w) && P.Enabled(c.p, w)
  {
  }

  lemma CarryStep(c: State)
    requires Agree(c) && Enabled(c, Pointer(P.Carry))
    ensures Agree(Next(c, Pointer(P.Carry))) && Refined(c, Pointer(P.Carry))
  {
    hide *;
    var c' := Next(c, Pointer(P.Carry));
    PlainGuard(c, P.Carry);
    PlainStep(c, P.Carry);
    Parts(c);
    CarryNext(c.p);
    MovingIs(c);
    InMoveLock(c);
    CarriedOk(c');
    CpuLockOk(c');
    Sides(c');
    PayHead(c.ev, c.p.view.ts);
    MainPayIs(c);
    MainPayIs(c');
    HeadTail(Pay(c.ev, c.p.view.ts));
    PayLength(c.ev, c.p.view.ts);
    Parts(c');
  }

  lemma PayLength(ev: map<Event, Ev>, q: seq<Event>)
    ensures |Pay(ev, q)| == |q|
  {
  }

  lemma HeadTail<X>(q: seq<X>)
    ensures q != [] ==> q == [q[0]] + q[1..]
  {
  }

  lemma EndMoveIs(p: P.State)
    requires P.Enabled(p, P.EndMove)
    ensures p.cpu == P.Paying && P.Next(p, P.EndMove) == p.(owner := P.Nobody, cpu := P.Rest)
  {
  }

  lemma PaidUp(c: State)
    requires InStep(c) && c.p.cpu == P.Paying
    ensures c.p.view.ts == [] && P.InMove(c.p.cpu)
    ensures Rest(c) == [] && Pay(c.ev, c.p.view.ts) == []
    ensures forall q: seq<Ev> :: InsertAll(q, Rest(c)) == q
  {
  }

  lemma EndMoveStep(c: State)
    requires Agree(c) && Enabled(c, Pointer(P.EndMove))
    ensures Agree(Next(c, Pointer(P.EndMove))) && Refined(c, Pointer(P.EndMove))
  {
    hide *;
    var c' := Next(c, Pointer(P.EndMove));
    PlainGuard(c, P.EndMove);
    PlainStep(c, P.EndMove);
    EndMoveIs(c.p);
    Parts(c);
    PaidUp(c);
    InMoveLock(c);
    CpuRests(c');
    ReleasedOk(c');
    Sides(c');
    RestMoves(c'.p.cpu);
    MainPayIs(c);
    MainPayIs(c');
    Parts(c');
  }

  // ---------------------------------------------------------------- every step

  lemma PointerSide(c: State, w: P.Step)
    requires Enabled(c, Pointer(w))
    ensures w.Hang? ==> Side(w.h) && P.PcOf(c.p, w.h).Hanging?
    ensures w.EndHeads? || w.EndSweep? || w.WriteNext? ==> Side(w.h)
    ensures w.Begin? ==> w.h == Threadsafe
    ensures !w.Acquire? && !w.Release? && !w.Take? && !w.TakeNew? && !w.Pop? && !w.EndCallback? && !w.StartMove?
  {
  }

  lemma HangStep(c: State, h: Home)
    requires Agree(c) && Enabled(c, Pointer(P.Hang(h))) && Side(h)
    ensures Agree(Next(c, Pointer(P.Hang(h)))) && Refined(c, Pointer(P.Hang(h)))
  {
    hide Agree, Refined, Next, Enabled;
    HangGuard(c, h);
    if h == Threadsafe {
      HangTs(c);
    } else if c.p.cpu.from.Fresh? {
      HangFresh(c);
    } else {
      HangCarried(c);
    }
  }

  lemma PointerStep(c: State, w: P.Step)
    requires Agree(c) && Enabled(c, Pointer(w))
    ensures Agree(Next(c, Pointer(w))) && Refined(c, Pointer(w))
  {
    hide Agree, Refined, Next, Enabled;
    PointerSide(c, w);
    if w.Hang? {
      HangStep(c, w.h);
    } else if w.Carry? {
      CarryStep(c);
    } else if w.EndMove? {
      EndMoveStep(c);
    } else if w.TakeHead? || w.Unhang? {
      TakeStep(c, w.h, w);
    } else if w.EndHeads? || w.EndSweep? {
      EndStep(c, w.h, w);
    } else if w.LinkFree? || w.PushFree? || w.SetHead? {
      FreeStep(c, w.h, w);
    } else if w.Seek? || w == P.WriteNext(Main) {
      WalkStep(c, Main, w);
    } else if w.StartSweep? || w.SweepOn? {
      WalkStep(c, w.h, w);
    } else if InMoving(w) {
      MoveStep(c, w);
    } else {
      LockStep(c, w);
    }
  }

  lemma StepAgrees(c: State, step: Step)
    requires Agree(c) && T.LockHeld(c.t) && Enabled(c, step)
    ensures Agree(Next(c, step)) && Refined(c, step)
  {
    hide Agree, Refined, Next, Enabled, T.LockHeld;
    match step
    case Control(s) => ControlStep(c, s);
    case Fire => FireStep(c);
    case EndCallback => CallbackStep(c);
    case StartSchedule(delay, kind, userdata, node) => ScheduleStep(c, delay, kind, userdata, node);
    case StartUnschedule(m) => UnscheduleStep(c, m);
    case StartHandOff(t, delay, kind, userdata) => HandOffStep(c, t, delay, kind, userdata);
    case TakeTs(node) => TakeTsStep(c, node);
    case ReadClock => ReadStep(c);
    case SetFlag => FlagStep(c);
    case StartUnscheduleTs(m) => UnscheduleTsStep(c, m);
    case Release => ReleaseStep(c);
    case StartMove => StartMoveStep(c);
    case Pointer(w) => PointerStep(c, w);
  }
}

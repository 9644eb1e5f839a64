/** Whole runs of TimingSteps: no hand-off is left behind, each is taken once, and events fire in turn. */
module TimingRuns {
  import opened EventSpec
  import opened TimingSteps

  /** A run: states joined by enabled steps. */
  ghost predicate IsRun(ss: seq<State>, steps: seq<Step>) {
    && |ss| == |steps| + 1 && Init(ss[0])
    && forall i :: 0 <= i < |steps| ==> Enabled(ss[i], steps[i]) && ss[i + 1] == Next(ss[i], steps[i])
  }

  lemma {:induction false} RunInv(ss: seq<State>, steps: seq<Step>, k: nat)
    requires IsRun(ss, steps) && k < |ss|
    ensures Inv(ss[k])
  {
    hide HandOff, Accounted, Ordered;
    if k == 0 {
      InitInv(ss[0]);
    } else {
      RunInv(ss, steps, k - 1);
      HandOffStep(ss[k - 1], steps[k - 1]);
      AccountedStep(ss[k - 1], steps[k - 1]);
      OrderedStep(ss[k - 1], steps[k - 1]);
    }
  }

  /** No event is stranded: a waiting hand-off has the flag up whenever the lock is free and the CPU
      thread is not between clearing the flag and taking the lock. */
  lemma NoHandOffStranded(ss: seq<State>, steps: seq<Step>, k: nat)
    requires IsRun(ss, steps) && k < |ss| && !ss[k].lock && !ss[k].cpu.Cleared? && ss[k].ts != []
    ensures ss[k].flag
  {
    RunInv(ss, steps, k);
  }

  /** Each hand-off is, once, either moved to the main queue or waiting or unscheduled, and those
      moved were moved in the order they were handed off. */
  lemma HandedOffOnce(ss: seq<State>, steps: seq<Step>, k: nat, id: nat)
    requires IsRun(ss, steps) && k < |ss| && id < |ss[k].issued|
    ensures var s, x := ss[k], ss[k].issued[id];
      && x.note == id
      && multiset(s.moved)[x] + multiset(s.ts)[x] + multiset(s.dropped)[x] == 1
    ensures Pairwise(ss[k].moved, Earlier())
  {
    RunInv(ss, steps, k);
    var s := ss[k];
    NumberedOnce(s.issued, id);
    forall i, j | 0 <= i < j < |s.moved| ensures Earlier()(s.moved[i], s.moved[j]) {
      assert (s.moved + s.ts)[i] == s.moved[i] && (s.moved + s.ts)[j] == s.moved[j];
    }
  }

  lemma {:induction false} NumberedOnce(q: seq<Item>, i: nat)
    requires Numbered(q) && i < |q|
    ensures multiset(q)[q[i]] == 1
  {
    var n := |q| - 1;
    var front := q[..n];
    assert q == front + [q[n]];
    if i < n {
      NumberedOnce(front, i);
    } else {
      assert forall x :: x in front ==> x != q[n];
      assert q[n] !in multiset(front);
    }
  }

  /** Never early; and events due at the same time fire in the order they came into the main queue. */
  lemma FiresInTurn(ss: seq<State>, steps: seq<Step>, k: nat)
    requires IsRun(ss, steps) && k < |ss|
    ensures forall i :: 0 <= i < |ss[k].shots| ==> ss[k].shots[i].entry.ev.time <= ss[k].shots[i].at
    ensures forall i, j | 0 <= i < j < |ss[k].shots| && ss[k].shots[i].entry.ev.time == ss[k].shots[j].entry.ev.time ::
              ss[k].shots[i].entry.note.ticket < ss[k].shots[j].entry.note.ticket
  {
    RunInv(ss, steps, k);
    var shots := ss[k].shots;
    forall i, j | 0 <= i < j < |shots| && shots[i].entry.ev.time == shots[j].entry.ev.time
      ensures shots[i].entry.note.ticket < shots[j].entry.note.ticket
    {
      var e := shots[j].entry;
      assert Dated(e, shots, ss[k].tickets) && Overtaken(e, shots, j);
      if e.note.since <= i { assert Before(shots[i].entry, e); }
    }
  }

  /** The int that a callback is told is how many cycles late it is, and so not negative, exactly when
      that is below 2^31. */
  lemma LateIff(ss: seq<State>, steps: seq<Step>, k: nat, i: nat)
    requires IsRun(ss, steps) && k < |ss| && i < |ss[k].shots|
    ensures var f := Erase(ss[k]).fired[i]; 0 <= f.Late() == f.at - f.ev.time <==> f.at - f.ev.time < 0x8000_0000
  {
    FiresInTurn(ss, steps, k);
  }

  /** When the firing loop ends, nothing in the main queue is due. */
  lemma NothingDueOnReturn(ss: seq<State>, steps: seq<Step>, k: nat)
    requires IsRun(ss, steps) && k < |ss| && Enabled(ss[k], Return)
    ensures forall e :: e in ss[k].main ==> ss[k].now < e.ev.time
  {
    RunInv(ss, steps, k);
    var q := ss[k].main;
    forall e | e in q ensures ss[k].now < e.ev.time {
      var i :| 0 <= i < |q| && q[i] == e;
      assert i == 0 || InOrder()(q[0], q[i]);
    }
  }
}

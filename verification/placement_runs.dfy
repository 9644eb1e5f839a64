/** Whole runs of PlacementSteps: each node is in one place, and the pointers lead through the lists. */
module PlacementRuns {
  import opened NodeLists
  import opened PlacementSteps

  ghost predicate IsRun(ss: seq<State>, steps: seq<Step>) {
    && |ss| == |steps| + 1 && Init(ss[0])
    && forall i :: 0 <= i < |steps| ==> Enabled(ss[i], steps[i]) && ss[i + 1] == Next(ss[i], steps[i])
  }

  /** How often a node is somewhere: on the four lists, and in the hands of the threads. */
  function Times(s: State, e: Event): nat {
    var v := s.view;
    multiset(v.main + v.ts + v.pool + v.tsPool + Hands(s))[e]
  }

  /** However the writes of the two sides interleave, each node there is is in one place, once, and no
      other node is anywhere. */
  lemma OnePlace(ss: seq<State>, steps: seq<Step>, k: nat, e: Event)
    requires IsRun(ss, steps) && k < |ss|
    ensures Times(ss[k], e) == if e in ss[k].next then 1 else 0
  {
    hide Inv;
    var s := ss[k];
    var v := s.view;
    RunInv(ss, steps, k);
    InvPlaced(s);
    Once(v.homes, v.main, Main, e);
    Once(v.homes, v.ts, Threadsafe, e);
    Once(v.homes, v.pool, Pool, e);
    Once(v.homes, v.tsPool, TsPool, e);
    Once(v.homes, Hands(s), Held, e);
  }

  /** The pointers bear it out: whenever the CPU thread is between two operations, first and eventPool lead
      through the main queue and its pool; and whenever the lock is free, tsFirst and eventTsPool through the
      thread-safe ones, with tsLast the last node. */
  lemma PointersFollow(ss: seq<State>, steps: seq<Step>, k: nat)
    requires IsRun(ss, steps) && k < |ss|
    ensures var s := ss[k];
      && (s.cpu == Rest ==> Follows(s.next, s.heads.main, s.view.main) && Follows(s.next, s.heads.pool, s.view.pool))
      && (s.owner == Nobody ==> Follows(s.next, s.heads.ts, s.view.ts) && Follows(s.next, s.heads.tsPool, s.view.tsPool)
                                && s.tsLast == Last(s.view.ts))
  {
    RunInv(ss, steps, k);
  }

  lemma {:induction false} RunInv(ss: seq<State>, steps: seq<Step>, k: nat)
    requires IsRun(ss, steps) && k < |ss|
    ensures Inv(ss[k])
  {
    hide Inv, Next;
    if k == 0 {
      InitInv(ss[0]);
    } else {
      RunInv(ss, steps, k - 1);
      InvStep(ss[k - 1], steps[k - 1]);
    }
  }

  lemma Once(homes: Homes, q: seq<Event>, h: Home, e: Event)
    requires Holds(homes, q, h)
    ensures multiset(q)[e] == if e in homes && homes[e] == h then 1 else 0
  {
    if e in q {
      var i :| 0 <= i < |q| && q[i] == e;
      assert q == q[..i] + [e] + q[i + 1..];
      assert e !in q[..i] && e !in q[i + 1..];
    }
  }
}

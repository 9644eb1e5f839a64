/** common/thread_queue_list.h: thread ids queued at 128 priority levels. Levels ever used are chained from
    better to worse; each is an array with room at both ends. A pointer to a level is its number here. */
module ThreadQueueList {

  const NUM_QUEUES: nat := 128
  const INITIAL_CAPACITY: nat := 32

  type Id = int

  /** A Queue pointer: NULL, a level, or the end of the chain. */
  datatype Link = Null | At(level: nat) | Invalid

  // ---------------------------------------------------------------- the chain, on values

  /** link leads to the first prepared level after this one. */
  ghost predicate Follows(nexts: seq<Link>, link: Link, after: int)
    requires -1 <= after
  {
    match link
    case Null => false
    case At(j) => after < j < |nexts| && nexts[j] != Null && forall k :: after < k < j ==> nexts[k] == Null
    case Invalid => forall k :: after < k < |nexts| ==> nexts[k] == Null
  }

  ghost predicate Linked(nexts: seq<Link>, first: Link) {
    Follows(nexts, first, -1) && forall p :: 0 <= p < |nexts| && nexts[p] != Null ==> Follows(nexts, nexts[p], p)
  }

  /** The levels met on the way from a link to the end. */
  ghost function Visits(nexts: seq<Link>, link: Link, after: int): (r: seq<nat>)
    requires -1 <= after
    requires Follows(nexts, link, after)
      && forall p :: 0 <= p < |nexts| && nexts[p] != Null ==> Follows(nexts, nexts[p], p)
    decreases |nexts| - after
  {
    if link == Invalid then [] else [link.level] + Visits(nexts, nexts[link.level], link.level)
  }

  lemma {:induction false} VisitsFrom(nexts: seq<Link>, link: Link, after: int)
    requires -1 <= after
    requires Follows(nexts, link, after)
      && forall p :: 0 <= p < |nexts| && nexts[p] != Null ==> Follows(nexts, nexts[p], p)
    ensures var r := Visits(nexts, link, after);
            && (forall p :: p in r <==> after < p < |nexts| && nexts[p] != Null)
            && (forall a, b :: 0 <= a < b < |r| ==> r[a] < r[b])
    decreases |nexts| - after
  {
    if link != Invalid {
      VisitsFrom(nexts, nexts[link.level], link.level);
      var r, rest := Visits(nexts, link, after), Visits(nexts, nexts[link.level], link.level);
      forall a, b | 0 <= a < b < |r| ensures r[a] < r[b] {
        assert rest[b - 1] in rest && r[b] == rest[b - 1];
        if a > 0 { assert r[a] == rest[a - 1]; }
      }
    }
  }

  /** The chain from first visits exactly the prepared levels, in increasing priority number. */
  lemma ChainVisitsPrepared(nexts: seq<Link>, first: Link)
    requires Linked(nexts, first)
    ensures var r := Visits(nexts, first, -1);
            && (forall p :: p in r <==> 0 <= p < |nexts| && nexts[p] != Null)
            && (forall a, b :: 0 <= a < b < |r| ==> r[a] < r[b])
  {
    VisitsFrom(nexts, first, -1);
  }

  /** Linking a level behind the nearest prepared one before it. */
  lemma ChainAfter(nexts: seq<Link>, first: Link, i: nat, p: nat)
    requires Linked(nexts, first) && i < p < |nexts| && nexts[p] == Null && nexts[i] != Null
    requires forall k :: i < k < p ==> nexts[k] == Null
    ensures Linked(nexts[p := nexts[i]][i := At(p)], first)
  {
    var nexts' := nexts[p := nexts[i]][i := At(p)];
    assert forall k :: 0 <= k < |nexts| && k != p ==> (nexts'[k] == Null <==> nexts[k] == Null);
    assert Follows(nexts, nexts[i], i);
    forall q | 0 <= q < |nexts'| && nexts'[q] != Null ensures Follows(nexts', nexts'[q], q) {
      if q != i && q != p { assert Follows(nexts, nexts[q], q); }
    }
  }

  /** Linking a level before all prepared ones. */
  lemma ChainFirst(nexts: seq<Link>, first: Link, p: nat)
    requires Linked(nexts, first) && p < |nexts| && nexts[p] == Null && forall k :: 0 <= k < p ==> nexts[k] == Null
    ensures Linked(nexts[p := first], At(p))
  {
    forall q | 0 <= q < |nexts| && (q == p || nexts[q] != Null)
      ensures Follows(nexts[p := first], if q == p then first else nexts[q], q)
    {
      FollowsBehind(nexts, first, p, if q == p then first else nexts[q], q);
    }
    hide Follows;
  }

  /** A level new before all the others is behind none of them. */
  lemma FollowsBehind(nexts: seq<Link>, first: Link, p: nat, link: Link, q: nat)
    requires p < |nexts| && q < |nexts| && nexts[p] == Null && forall k :: 0 <= k < p ==> nexts[k] == Null
    requires if q == p then link == first && Follows(nexts, first, -1) else nexts[q] != Null && Follows(nexts, link, q)
    ensures Follows(nexts[p := first], link, q)
  {
  }

  // ---------------------------------------------------------------- operations, on values

  /** The best level with anything in it that is better than below, or below. */
  ghost function Best(m: map<nat, seq<Id>>, from: nat, below: nat): (r: nat)
    ensures from <= below ==> from <= r <= below
    decreases below - from
  {
    if from >= below || (from in m && m[from] != []) then from else Best(m, from + 1, below)
  }

  lemma {:induction false} BestIs(m: map<nat, seq<Id>>, from: nat, below: nat)
    requires from <= below
    ensures Best(m, from, below) < below ==> Best(m, from, below) in m && m[Best(m, from, below)] != []
    ensures forall p :: from <= p < Best(m, from, below) ==> p !in m || m[p] == []
    decreases below - from
  {
    if !(from >= below || (from in m && m[from] != [])) { BestIs(m, from + 1, below); }
  }

  lemma {:induction false} BestAt(m: map<nat, seq<Id>>, from: nat, p: nat, below: nat)
    requires from <= p <= below && (p < below ==> p in m && m[p] != [])
    requires forall k :: from <= k < p ==> k !in m || m[k] == []
    ensures Best(m, from, below) == p
    decreases p - from
  {
    if from < p { BestAt(m, from + 1, p, below); }
  }

  /** What a pop leaves of the map, and what it returns: 0 when there is nothing. */
  ghost function Popped(m: map<nat, seq<Id>>, below: nat): (map<nat, seq<Id>>, Id) {
    var p := Best(m, 0, below);
    BestIs(m, 0, below);
    if p < below then (m[p := m[p][1..]], m[p][0]) else (m, 0)
  }

  /** No level below this one has a thread. */
  ghost predicate NoneBelow(m: map<nat, seq<Id>>, below: nat) {
    forall p: nat :: p < below && p in m ==> m[p] == []
  }

  /** A pop returns 0 and leaves all as it is when there is nothing, and takes the front of the first level
      that has something otherwise. */
  lemma PoppedIs(m: map<nat, seq<Id>>, below: nat, p: nat)
    ensures NoneBelow(m, below) ==> Popped(m, below) == (m, 0)
    ensures p < below && NoneBelow(m, p) && p in m && m[p] != [] ==> Popped(m, below) == (m[p := m[p][1..]], m[p][0])
  {
    if NoneBelow(m, below) { BestAt(m, 0, below, below); }
    if p < below && NoneBelow(m, p) && p in m && m[p] != [] { BestAt(m, 0, p, below); }
  }

  /** s without the first x. */
  function WithoutFirst(s: seq<Id>, x: Id): seq<Id> {
    if s == [] then [] else if s[0] == x then s[1..] else [s[0]] + WithoutFirst(s[1..], x)
  }

  lemma {:induction false} WithoutFirstAt(s: seq<Id>, x: Id, k: nat)
    requires k < |s| && s[k] == x && x !in s[..k]
    ensures WithoutFirst(s, x) == s[..k] + s[k + 1..]
  {
    if k > 0 {
      assert s[0] == s[..k][0];
      assert s[..k][1..] == s[1..][..k - 1];
      WithoutFirstAt(s[1..], x, k - 1);
    }
  }

  lemma {:induction false} WithoutFirstNone(s: seq<Id>, x: Id)
    requires x !in s
    ensures WithoutFirst(s, x) == s
  {
    if s != [] { WithoutFirstNone(s[1..], x); }
  }

  function Rotated(s: seq<Id>): seq<Id> {
    if |s| > 1 then s[1..] + [s[0]] else s
  }

  function RotatedBy(s: seq<Id>, n: nat): (r: seq<Id>)
    ensures |r| == |s|
    decreases n
  {
    if n == 0 then s else RotatedBy(Rotated(s), n - 1)
  }

  lemma {:induction false} RotatedBySplit(s: seq<Id>, t: seq<Id>)
    ensures RotatedBy(s + t, |s|) == t + s
  {
    if s == [] {
      assert s + t == t == t + s;
    } else {
      assert Rotated(s + t) == s[1..] + (t + [s[0]]);
      RotatedBySplit(s[1..], t + [s[0]]);
      assert t + [s[0]] + s[1..] == t + s;
    }
  }

  /** Rotating a level once for each thread in it gives every thread its turn and restores the order. */
  lemma RotationIsFair(s: seq<Id>, k: nat)
    requires k < |s|
    ensures RotatedBy(s, k)[..1] == [s[k]] && RotatedBy(s, |s|) == s
  {
    assert s[..k] + s[k..] == s;
    RotatedBySplit(s[..k], s[k..]);
    assert s + [] == s;
    RotatedBySplit(s, []);
  }

  // ---------------------------------------------------------------- one level

  class Queue {
    var next: Link
    var first: int
    var end: int
    var data: array?<Id>
    var capacity: int

    constructor ()
      ensures Unused()
    {
      next, first, end, data, capacity := Null, 0, 0, null, 0;
    }

    /** free, and all fields zero. */
    method Reset()
      modifies this
      ensures Unused()
    {
      next, first, end, data, capacity := Null, 0, 0, null, 0;
    }

    /** malloc, and the ids will start in the middle. */
    method Allocate(size: nat)
      modifies this`first, this`end, this`data, this`capacity
      ensures Ready() && Contents() == [] && fresh(data) && capacity >= size
    {
      var rounded := INITIAL_CAPACITY;
      while rounded < size
        invariant rounded >= INITIAL_CAPACITY
      {
        rounded := rounded * 2;
      }
      data := new Id[rounded];
      capacity := rounded;
      first := rounded / 2;
      end := rounded / 2;
    }

    ghost predicate Unused()
      reads this
    {
      next == Null && data == null && first == end == capacity == 0
    }

    /** As a method may leave it before rebalancing. */
    ghost predicate Usable()
      reads `first, `end, `data, `capacity
    {
      data != null && INITIAL_CAPACITY <= capacity == data.Length && 0 <= first <= end <= capacity
    }

    /** Room at both ends. */
    ghost predicate Ready()
      reads `first, `end, `data, `capacity
    {
      Usable() && 0 < first && end < capacity
    }

    ghost function Contents(): seq<Id>
      reads `first, `end, `data, `capacity, data
    {
      if Usable() then data[first..end] else []
    }

    method Rebalance()
      requires Usable()
      modifies this`first, this`end, this`data, this`capacity, data
      ensures Ready() && Contents() == old(Contents())
      ensures data == old(data) || fresh(data)
    {
      var size := end - first;
      if size >= capacity - 2 { Grow(); }
      var newFirst := (capacity - size) / 2;
      if newFirst != first { Shift(newFirst); }
    }

    /** realloc to twice the capacity. */
    method Grow()
      requires Usable()
      modifies this`data, this`capacity
      ensures Usable() && Contents() == old(Contents()) && fresh(data) && capacity == 2 * old(capacity)
    {
      var newData := new Id[2 * capacity];
      forall i | 0 <= i < capacity { newData[i] := data[i]; }
      capacity := capacity * 2;
      data := newData;
    }

    /** memmove to another place in the array. */
    method Shift(newFirst: int)
      requires Usable() && 0 <= newFirst <= newFirst + (end - first) <= capacity
      modifies this`first, this`end, data
      ensures Usable() && Contents() == old(Contents()) && first == newFirst && end == newFirst + old(end - first)
    {
      var size := end - first;
      forall i | 0 <= i < size { data[newFirst + i] := data[first + i]; }
      first := newFirst;
      end := newFirst + size;
    }

    method PushFront(threadID: Id)
      requires Ready()
      modifies this`first, this`end, this`data, this`capacity, data
      ensures Ready() && Contents() == [threadID] + old(Contents())
      ensures data == old(data) || fresh(data)
    {
      first := first - 1;
      data[first] := threadID;
      assert Contents() == [threadID] + old(Contents());
      if first == 0 { Rebalance(); }
    }

    method PushBack(threadID: Id)
      requires Ready()
      modifies this`first, this`end, this`data, this`capacity, data
      ensures Ready() && Contents() == old(Contents()) + [threadID]
      ensures data == old(data) || fresh(data)
    {
      data[end] := threadID;
      end := end + 1;
      assert Contents() == old(Contents()) + [threadID];
      if end == capacity { Rebalance(); }
    }

    method PopFront() returns (threadID: Id)
      requires Ready() && Contents() != []
      modifies this`first
      ensures Ready() && old(Contents()) == [threadID] + Contents()
    {
      threadID := data[first];
      first := first + 1;
    }

    method Rotate()
      requires Unused() || Ready()
      modifies this`first, this`end, this`data, this`capacity, data
      ensures old(Unused()) ==> Unused()
      ensures old(Ready()) ==> Ready()
      ensures Contents() == Rotated(old(Contents()))
      ensures data == old(data) || fresh(data)
    {
      if end - first > 1 {
        data[end] := data[first];
        end, first := end + 1, first + 1;
        assert Contents() == Rotated(old(Contents()));
        if end == capacity { Rebalance(); }
      }
    }

    method Remove(threadID: Id)
      requires Unused() || Ready()
      modifies this`end, data
      ensures old(Unused()) ==> Unused()
      ensures old(Ready()) ==> Ready()
      ensures Contents() == WithoutFirst(old(Contents()), threadID)
    {
      hide WithoutFirst;
      ghost var was := Contents();
      for i := first to end
        invariant i <= end && unchanged(this) && (data != null ==> unchanged(data))
        invariant forall k :: 0 <= k < i - first ==> was[k] != threadID
      {
        assert was[i - first] == data[i];
        if data[i] == threadID {
          WithoutFirstAt(was, threadID, i - first);
          RemoveAt(i);
          return;
        }
      }
      WithoutFirstNone(was, threadID);
    }

    method RemoveAt(i: int)
      requires Ready() && first <= i < end
      modifies this`end, data
      ensures Ready()
      ensures Contents() == old(Contents())[..i - first] + old(Contents())[i - first + 1..]
    {
      end := end - 1;
      var remaining := end - i;
      if remaining > 0 {
        forall k | i <= k < i + remaining { data[k] := data[k + 1]; }
      }
      ghost var was, now := old(Contents()), Contents();
      assert forall k :: i <= k < end ==> data[k] == old(data[k + 1]);
      ClosedUp(was, now, i - first);
    }
  }

  /** The id at place i is gone, and those behind it have moved up. */
  lemma ClosedUp(q: seq<int>, r: seq<int>, i: nat)
    requires i < |q| == |r| + 1
    requires forall k :: 0 <= k < i ==> r[k] == q[k]
    requires forall k :: i <= k < |r| ==> r[k] == q[k + 1]
    ensures r == q[..i] + q[i + 1..]
  {
  }

  // ---------------------------------------------------------------- the list of levels

  class ThreadQueueList {
    const queues: seq<Queue>
    var first: Link

    ghost function Nexts(): (r: seq<Link>)
      reads queues
      ensures |r| == |queues|
      ensures forall i :: 0 <= i < |queues| ==> r[i] == queues[i].next
    {
      seq(|queues|, i requires 0 <= i < |queues| reads queues => queues[i].next)
    }

    ghost predicate Separate()
      reads queues
    {
      forall i, j :: 0 <= i < j < |queues| ==>
        queues[i] != queues[j] && (queues[i].data != null ==> queues[i].data != queues[j].data)
    }

    ghost predicate Levelled()
      reads queues
    {
      forall i :: 0 <= i < |queues| ==> if queues[i].next == Null then queues[i].Unused() else queues[i].Ready()
    }

    ghost predicate Valid()
      reads this, queues
    {
      |queues| == NUM_QUEUES && Separate() && Levelled() && Linked(Nexts(), first)
    }

    /** The prepared levels with the threads in them. */
    ghost function Levels(): map<nat, seq<Id>>
      reads queues, set i | 0 <= i < |queues| && queues[i].data != null :: queues[i].data
    {
      map p: nat | p < |queues| && queues[p].next != Null :: queues[p].Contents()
    }

    constructor ()
      ensures Valid() && Levels() == map[] && |queues| == 128
      ensures fresh(queues)
    {
      var qs: seq<Queue> := [];
      for i := 0 to NUM_QUEUES
        invariant |qs| == i && fresh(qs)
        invariant forall a, b :: 0 <= a < b < i ==> qs[a] != qs[b]
        invariant forall a :: 0 <= a < i ==> qs[a].Unused()
      {
        var q := new Queue();
        qs := qs + [q];
      }
      queues := qs;
      first := Invalid;
    }

    lemma LevelIs(i: nat)
      requires Valid() && i < NUM_QUEUES
      ensures queues[i].data != null <==> i in Levels()
      ensures 0 <= queues[i].first <= queues[i].end
      ensures i in Levels() ==>
        queues[i].end <= queues[i].data.Length && Levels()[i] == queues[i].data[queues[i].first..queues[i].end]
    {
    }

    lemma ValidLength()
      requires Valid()
      ensures |queues| == NUM_QUEUES
    {
    }

    lemma LevelsBelow()
      requires Valid()
      ensures forall p :: p in Levels() ==> 0 <= p < NUM_QUEUES
    {
    }

    lemma StartIs()
      requires Valid()
      ensures Follows(Nexts(), first, -1)
    {
    }

    /** One link further along the chain. */
    lemma StepIs(cur: Link, after: int)
      requires Valid() && -1 <= after && cur.At? && Follows(Nexts(), cur, after)
      ensures after < cur.level < NUM_QUEUES && cur.level in Levels()
      ensures forall p: nat :: after < p < cur.level ==> p !in Levels()
      ensures Follows(Nexts(), queues[cur.level].next, cur.level)
    {
    }

    lemma NotNull(cur: Link, after: int)
      requires -1 <= after && Follows(Nexts(), cur, after)
      ensures cur != Null
    {
    }

    lemma EndIs(after: int)
      requires Valid() && -1 <= after && Follows(Nexts(), Invalid, after)
      ensures forall p: nat :: after < p ==> p !in Levels()
    {
    }

    /** The level of a thread, or -1. */
    method Contains(uid: Id) returns (level: int)
      requires Valid()
      ensures level == -1 ==> forall p :: p in Levels() ==> uid !in Levels()[p]
      ensures level != -1 ==> 0 <= level && level in Levels() && uid in Levels()[level]
      ensures level != -1 ==> forall p :: 0 <= p < level && p in Levels() ==> uid !in Levels()[p]
    {
      hide Valid, Levels;
      assert |queues| == NUM_QUEUES by { ValidLength(); }
      for i := 0 to NUM_QUEUES
        invariant forall p :: 0 <= p < i && p in Levels() ==> uid !in Levels()[p]
      {
        LevelIs(i);
        if queues[i].data != null {
          var cur := queues[i];
          for j := cur.first to cur.end
            invariant uid !in cur.data[cur.first..j]
          {
            if cur.data[j] == uid {
              assert cur.data[cur.first..cur.end][j - cur.first] == uid;
              return i;
            }
            assert cur.data[cur.first..j + 1] == cur.data[cur.first..j] + [cur.data[j]];
          }
        }
      }
      assert forall p :: p in Levels() ==> 0 <= p < NUM_QUEUES by { LevelsBelow(); }
      level := -1;
    }

    /** Takes the front of the best level that has one, or returns 0. */
    method PopFirst() returns (threadID: Id)
      requires Valid()
      modifies queues
      ensures Valid()
      ensures (Levels(), threadID) == Popped(old(Levels()), NUM_QUEUES)
    {
      hide Valid, Levels, Follows, Nexts;
      StartIs();
      var cur := first;
      ghost var after: int := -1;
      while cur != Invalid
        invariant -1 <= after && Follows(Nexts(), cur, after) && unchanged(queues)
        invariant forall p: nat :: p <= after && p in Levels() ==> Levels()[p] == []
        decreases NUM_QUEUES - after
      {
        ValidLength();
        NotNull(cur, after);
        StepIs(cur, after);
        LevelIs(cur.level);
        var queue := queues[cur.level];
        if queue.end - queue.first > 0 {
          BestAt(Levels(), 0, cur.level, NUM_QUEUES);
          threadID := PopAt(cur.level);
          return;
        }
        after, cur := cur.level, queue.next;
      }
      EndIs(after);
      BestAt(Levels(), 0, NUM_QUEUES, NUM_QUEUES);
      threadID := 0;
    }

    /** Takes the front of the best level that has one among those better than priority, or returns 0. */
    method PopFirstBetter(priority: nat) returns (threadID: Id)
      requires Valid() && priority < NUM_QUEUES
      modifies queues
      ensures Valid()
      ensures (Levels(), threadID) == Popped(old(Levels()), priority)
    {
      hide Valid, Levels, Follows, Nexts;
      StartIs();
      var cur := first;
      ghost var after: int := -1;
      while cur.At? && cur.level < priority
        invariant -1 <= after < priority && Follows(Nexts(), cur, after) && unchanged(queues)
        invariant forall p: nat :: p <= after && p in Levels() ==> Levels()[p] == []
        decreases NUM_QUEUES - after
      {
        ValidLength();
        NotNull(cur, after);
        StepIs(cur, after);
        LevelIs(cur.level);
        var queue := queues[cur.level];
        if queue.end - queue.first > 0 {
          BestAt(Levels(), 0, cur.level, priority);
          threadID := PopAt(cur.level);
          return;
        }
        after, cur := cur.level, queue.next;
      }
      if cur.At? { StepIs(cur, after); } else { NotNull(cur, after); EndIs(after); }
      BestAt(Levels(), 0, priority, priority);
      threadID := 0;
    }

    method PopAt(priority: nat) returns (threadID: Id)
      requires Valid() && priority in Levels() && Levels()[priority] != []
      modifies queues[priority]
      ensures Valid()
      ensures threadID == old(Levels())[priority][0]
      ensures Levels() == old(Levels())[priority := old(Levels())[priority][1..]]
    {
      hide Queue.Contents, Queue.Ready, Queue.Unused, Linked;
      threadID := queues[priority].PopFront();
      assert Nexts() == old(Nexts());
    }

    method PushFront(priority: nat, threadID: Id)
      requires Valid() && priority in Levels()
      modifies queues[priority], queues[priority].data
      ensures Valid()
      ensures Levels() == old(Levels())[priority := [threadID] + old(Levels())[priority]]
    {
      hide Queue.Contents, Queue.Ready, Queue.Unused, Linked;
      queues[priority].PushFront(threadID);
      assert Nexts() == old(Nexts());
    }

    method PushBack(priority: nat, threadID: Id)
      requires Valid() && priority in Levels()
      modifies queues[priority], queues[priority].data
      ensures Valid()
      ensures Levels() == old(Levels())[priority := old(Levels())[priority] + [threadID]]
    {
      hide Queue.Contents, Queue.Ready, Queue.Unused, Linked;
      queues[priority].PushBack(threadID);
      assert Nexts() == old(Nexts());
    }

    method Remove(priority: nat, threadID: Id)
      requires Valid() && priority < NUM_QUEUES
      modifies queues[priority], queues[priority].data
      ensures Valid()
      ensures Levels() == if priority !in old(Levels()) then old(Levels())
                          else old(Levels())[priority := WithoutFirst(old(Levels())[priority], threadID)]
    {
      hide Queue.Contents, Queue.Ready, Queue.Unused, Linked;
      queues[priority].Remove(threadID);
      assert Nexts() == old(Nexts());
    }

    method Rotate(priority: nat)
      requires Valid() && priority < NUM_QUEUES
      modifies queues[priority], queues[priority].data
      ensures Valid()
      ensures Levels() == if priority !in old(Levels()) then old(Levels())
                          else old(Levels())[priority := Rotated(old(Levels())[priority])]
    {
      hide Queue.Contents, Queue.Ready, Queue.Unused, Linked;
      queues[priority].Rotate();
      assert Nexts() == old(Nexts());
    }

    method Empty(priority: nat) returns (empty: bool)
      requires Valid() && priority < NUM_QUEUES
      ensures empty <==> priority !in Levels() || Levels()[priority] == []
    {
      empty := queues[priority].first == queues[priority].end;
    }

    method Clear()
      requires Valid()
      modifies this, queues
      ensures Valid() && Levels() == map[]
    {
      hide Queue.Contents, Queue.Ready, Linked;
      for i := 0 to NUM_QUEUES
        invariant Separate() && forall j :: 0 <= j < i ==> queues[j].Unused()
      {
        queues[i].Reset();
      }
      first := Invalid;
      NoLevels();
    }

    lemma NoLevels()
      requires |queues| == NUM_QUEUES && first == Invalid && forall j :: 0 <= j < NUM_QUEUES ==> queues[j].next == Null
      ensures Linked(Nexts(), first) && Levels() == map[]
    {
    }

    method Prepare(priority: nat)
      requires Valid() && priority < NUM_QUEUES
      modifies this, queues
      ensures Valid()
      ensures Levels() == if priority in old(Levels()) then old(Levels()) else old(Levels())[priority := []]
    {
      if queues[priority].next == Null { Link(priority, INITIAL_CAPACITY); }
    }

    /** Everything but the chain knows of the new level. */
    ghost predicate Allocated(p: nat)
      reads this, queues
    {
      && |queues| == NUM_QUEUES && Separate() && Linked(Nexts(), first)
      && p < NUM_QUEUES && queues[p].next == Null && queues[p].Ready()
      && forall i :: 0 <= i < |queues| && i != p ==>
           if queues[i].next == Null then queues[i].Unused() else queues[i].Ready()
    }

    method Link(priority: nat, size: nat)
      requires Valid() && priority < NUM_QUEUES && priority !in Levels()
      modifies this, queues
      ensures Valid()
      ensures Levels() == old(Levels())[priority := []]
      ensures queues[priority].capacity >= size
    {
      hide Queue.Contents, Queue.Ready, Queue.Unused, Linked;
      var cur := queues[priority];
      cur.Allocate(size);
      assert Nexts() == old(Nexts());
      ghost var levels := Levels();
      assert levels == old(Levels());
      for i := priority downto 0
        invariant unchanged(this) && Allocated(priority) && Levels() == levels
        invariant queues[priority].Contents() == [] && queues[priority].capacity >= size
        invariant forall k :: i <= k < priority ==> queues[k].next == Null
      {
        if queues[i].next != Null {
          LinkAfter(i, priority, queues[i], cur);
          return;
        }
      }
      LinkFirst(priority, cur);
    }

    method LinkAfter(i: nat, p: nat, before: Queue, cur: Queue)
      requires Allocated(p) && i < p && before == queues[i] && cur == queues[p] && queues[p].Contents() == []
        && queues[i].next != Null
      requires forall k :: i < k < p ==> queues[k].next == Null
      modifies cur`next, before`next
      ensures Valid() && Levels() == old(Levels())[p := []]
    {
      hide Queue.Contents, Queue.Ready, Queue.Unused, Linked, Follows;
      ChainAfter(Nexts(), first, i, p);
      cur.next := before.next;
      before.next := At(p);
      assert Nexts() == old(Nexts())[p := old(Nexts())[i]][i := At(p)];
      assert forall k :: 0 <= k < |queues| ==>
        && queues[k].Contents() == old(queues[k].Contents())
        && (k != p ==> (queues[k].next == Null <==> old(queues[k].next) == Null));
    }

    method LinkFirst(p: nat, cur: Queue)
      requires Allocated(p) && cur == queues[p] && queues[p].Contents() == []
      requires forall k :: 0 <= k < p ==> queues[k].next == Null
      modifies this`first, cur`next
      ensures Valid() && Levels() == old(Levels())[p := []]
    {
      hide Queue.Contents, Queue.Ready, Queue.Unused, Linked, Follows;
      ChainFirst(Nexts(), first, p);
      FirstNotNull(Nexts(), first);
      cur.next := first;
      first := At(p);
      assert Nexts() == old(Nexts())[p := old(first)];
    }
  }

  lemma FirstNotNull(nexts: seq<Link>, first: Link)
    requires Linked(nexts, first)
    ensures first != Null
  {
  }
}

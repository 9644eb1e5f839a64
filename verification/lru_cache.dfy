/** common/static_lru_cache.h: a fixed array of slots given out to the most recently requested keys. */
module LruCache {
  import opened Seqs

  // ---------------------------------------------------------------- recency

  function Minus<K(==)>(s: seq<K>, gone: set<K>): seq<K> {
    if s == [] then [] else (if s[0] in gone then [] else [s[0]]) + Minus(s[1..], gone)
  }

  /** The distinct keys requested, most recent first. */
  function Recent<K(==)>(history: seq<K>): seq<K> {
    if history == [] then []
    else [history[|history| - 1]] + Minus(Recent(history[..|history| - 1]), {history[|history| - 1]})
  }

  function Elements<K(==)>(s: seq<K>): set<K> {
    set x | x in s
  }

  lemma {:induction false} MinusHas<K>(s: seq<K>, gone: set<K>)
    ensures forall x :: x in Minus(s, gone) <==> x in s && x !in gone
    ensures Distinct(s) ==> Distinct(Minus(s, gone))
  {
    if s != [] {
      MinusHas(s[1..], gone);
      assert s == [s[0]] + s[1..];
      if Distinct(s) {
        assert forall x :: x in s[1..] ==> x != s[0];
      }
    }
  }

  lemma {:induction false} MinusConcat<K>(a: seq<K>, b: seq<K>, gone: set<K>)
    ensures Minus(a + b, gone) == Minus(a, gone) + Minus(b, gone)
  {
    if a == [] {
      assert a + b == b;
    } else {
      assert (a + b)[1..] == a[1..] + b;
      MinusConcat(a[1..], b, gone);
    }
  }

  lemma {:induction false} MinusMinus<K>(s: seq<K>, a: set<K>, b: set<K>)
    ensures Minus(Minus(s, a), b) == Minus(s, a + b)
  {
    if s != [] {
      MinusMinus(s[1..], a, b);
      if s[0] !in a { assert ([s[0]] + Minus(s[1..], a))[1..] == Minus(s[1..], a); }
      assert [] + Minus(s[1..], a) == Minus(s[1..], a) && [] + Minus(s[1..], a + b) == Minus(s[1..], a + b);
    }
  }

  lemma {:induction false} MinusNone<K>(s: seq<K>, gone: set<K>)
    requires forall x :: x in s ==> x !in gone
    ensures Minus(s, gone) == s
  {
    if s != [] { MinusNone(s[1..], gone); }
  }

  lemma {:induction false} RecentIs<K>(h: seq<K>)
    ensures Distinct(Recent(h)) && forall x :: x in Recent(h) <==> x in h
  {
    if h != [] {
      var init, last := h[..|h| - 1], h[|h| - 1];
      RecentIs(init);
      MinusHas(Recent(init), {last});
      assert h == init + [last];
    }
  }

  lemma {:induction false} RecentConcat<K>(a: seq<K>, b: seq<K>)
    ensures Recent(a + b) == Recent(b) + Minus(Recent(a), Elements(b))
  {
    if b == [] {
      assert a + b == a;
      MinusNone(Recent(a), Elements(b));
    } else {
      var init, last := b[..|b| - 1], b[|b| - 1];
      assert (a + b)[..|a + b| - 1] == a + init;
      RecentConcat(a, init);
      MinusConcat(Recent(init), Minus(Recent(a), Elements(init)), {last});
      MinusMinus(Recent(a), Elements(init), {last});
      assert b == init + [last];
      assert Elements(b) == Elements(init) + {last};
    }
  }

  lemma {:induction false} DistinctCount<K>(s: seq<K>)
    requires Distinct(s)
    ensures |Elements(s)| == |s|
  {
    if s != [] {
      DistinctCount(s[1..]);
      assert s == [s[0]] + s[1..];
      assert Elements(s) == {s[0]} + Elements(s[1..]);
    }
  }

  /** A key is among the n most recent exactly when fewer than n other keys were requested after its last request. */
  lemma AmongMostRecent<K>(before: seq<K>, key: K, after: seq<K>, n: nat)
    requires key !in after
    ensures var r := Recent(before + [key] + after);
            key in r[..if |r| < n then |r| else n] <==> |Elements(after)| < n
  {
    var r := Recent(before + [key] + after);
    RecentConcat(before + [key], after);
    RecentConcat(before, [key]);
    RecentIs(after);
    assert Recent([key]) == [key];
    var tail := Minus(Recent(before), Elements([key]));
    MinusConcat([key], tail, Elements(after));
    assert Minus([key], Elements(after)) == [key];
    assert r == Recent(after) + [key] + Minus(tail, Elements(after));
    DistinctCount(Recent(after));
    assert Elements(Recent(after)) == Elements(after);
    RecentIs(before + [key] + after);
    assert r[|Recent(after)|] == key;
  }

  // ---------------------------------------------------------------- the cache

  function Keys<K>(list: seq<(K, nat)>): (r: seq<K>)
    ensures |r| == |list|
    ensures forall i :: 0 <= i < |list| ==> r[i] == list[i].0
  {
    seq(|list|, i requires 0 <= i < |list| => list[i].0)
  }

  ghost predicate DistinctSlots<K>(list: seq<(K, nat)>) {
    && (forall i :: 0 <= i < |list| ==> list[i].1 < |list|)
    && (forall i, j :: 0 <= i < j < |list| ==> list[i].1 != list[j].1)
  }

  ghost function UpTo(n: nat): (r: set<nat>)
    ensures |r| == n && forall s: nat :: s in r <==> s < n
  {
    if n == 0 then {} else UpTo(n - 1) + {n - 1}
  }

  function Slots<K>(list: seq<(K, nat)>): (r: seq<nat>)
    ensures |r| == |list|
    ensures forall i :: 0 <= i < |list| ==> r[i] == list[i].1
  {
    seq(|list|, i requires 0 <= i < |list| => list[i].1)
  }

  /** Distinct and below the size, the slots in use are exactly 0 to size - 1. */
  lemma SlotsAreAll<K>(list: seq<(K, nat)>)
    requires DistinctSlots(list)
    ensures Elements(Slots(list)) == UpTo(|list|)
  {
    DistinctCount(Slots(list));
    SubsetOfSameSize(Elements(Slots(list)), UpTo(|list|));
  }

  lemma SubsetOfSameSize<T>(a: set<T>, b: set<T>)
    requires a <= b && |a| == |b|
    ensures a == b
  {
    assert |b - a| == |b| - |a|;
  }

  function Take<K>(s: seq<K>, n: nat): seq<K> {
    if |s| < n then s else s[..n]
  }

  lemma Missed<K>(h: seq<K>, key: K, size: nat)
    requires size > 0 && key !in Take(Recent(h), size)
    ensures var r := Recent(h);
            Take(Recent(h + [key]), size) == [key] + if |r| < size then r else r[..size - 1]
  {
    var r := Recent(h);
    assert (h + [key])[..|h|] == h;
    if |r| < size {
      MinusNone(r, {key});
    } else {
      assert r == r[..size] + r[size..];
      MinusConcat(r[..size], r[size..], {key});
      MinusNone(r[..size], {key});
    }
  }

  lemma Hit<K>(h: seq<K>, key: K, size: nat, i: nat)
    requires i < |Take(Recent(h), size)| && Take(Recent(h), size)[i] == key
    ensures var t := Take(Recent(h), size);
            Take(Recent(h + [key]), size) == [key] + t[..i] + t[i + 1..]
  {
    var r := Recent(h);
    assert (h + [key])[..|h|] == h;
    RecentIs(h);
    MinusAt(r, i);
    hide Minus;
    TakeMoved(r, i, key, size);
  }

  lemma TakeMoved<K>(r: seq<K>, i: nat, key: K, size: nat)
    requires i < |Take(r, size)|
    ensures Take([key] + (r[..i] + r[i + 1..]), size) == [key] + Take(r, size)[..i] + Take(r, size)[i + 1..]
  {
  }

  lemma {:induction false} MinusAt<K>(s: seq<K>, i: nat)
    requires Distinct(s) && i < |s|
    ensures Minus(s, {s[i]}) == s[..i] + s[i + 1..]
  {
    if i == 0 {
      MinusNone(s[1..], {s[0]});
    } else {
      MinusAt(s[1..], i - 1);
      assert s[..i] + s[i + 1..] == [s[0]] + (s[1..][..i - 1] + s[1..][i..]);
    }
  }

  /** Every key in the list has the slot it was given. */
  ghost predicate AsGiven<K>(list: seq<(K, nat)>, given: map<K, nat>) {
    forall i :: 0 <= i < |list| ==> list[i].0 in given && given[list[i].0] == list[i].1
  }

  class StaticLRUCache<K(==)> {
    const capacity: nat
    var list: seq<(K, nat)>
    // The requests since the last clear, and the slot that each key was last given on a miss.
    ghost var history: seq<K>
    ghost var given: map<K, nat>

    ghost predicate Valid()
      reads this
    {
      && capacity > 0
      && Keys(list) == Take(Recent(history), capacity)
      && DistinctSlots(list)
      && AsGiven(list, given)
    }

    constructor (capacity: nat)
      requires capacity > 0
      ensures Valid() && this.capacity == capacity && history == [] && list == []
    {
      this.capacity := capacity;
      list, history, given := [], [], map[];
    }

    /** The place of a key in the list, or its end. */
    method Find(key: K) returns (i: nat)
      ensures i <= |list|
      ensures i < |list| ==> list[i].0 == key
      ensures forall j :: 0 <= j < i ==> list[j].0 != key
    {
      i := 0;
      while i < |list| && list[i].0 != key
        invariant i <= |list|
        invariant forall j :: 0 <= j < i ==> list[j].0 != key
      {
        i := i + 1;
      }
    }

    method Evict() returns (evicted: nat)
      requires list != []
      modifies this`list
      ensures list == old(list)[..|old(list)| - 1] && evicted == old(list)[|old(list)| - 1].1
    {
      evicted := list[|list| - 1].1;
      list := list[..|list| - 1];
    }

    /** The miss branch of request. */
    method Insert(key: K) returns (slot: nat)
      requires Valid() && forall i :: 0 <= i < |list| ==> list[i].0 != key
      modifies this`list, this`given
      ensures slot < capacity && given == old(given)[key := slot]
      ensures key !in Take(Recent(history), capacity) && Keys(list) == Take(Recent(history + [key]), capacity)
      ensures DistinctSlots(list) && AsGiven(list, given)
    {
      hide Recent, Minus;
      Missed(history, key, capacity);
      slot := |list|;
      if slot >= capacity {
        slot := Evict();
      }
      list := [(key, slot)] + list;
      given := given[key := slot];
    }

    /** The hit branch of request. */
    method MoveToFront(i: nat) returns (slot: nat)
      requires Valid() && i < |list|
      modifies this`list
      ensures slot == old(list)[i].1 < capacity
      ensures old(list)[i].0 in Take(Recent(history), capacity)
      ensures Keys(list) == Take(Recent(history + [old(list)[i].0]), capacity)
      ensures DistinctSlots(list) && AsGiven(list, given)
    {
      hide Recent, Minus;
      assert Keys(list)[i] == list[i].0;
      Hit(history, list[i].0, capacity, i);
      if i != 0 {
        var backup := list[i];
        list := list[..i] + list[i + 1..];
        list := [backup] + list;
      }
      slot := list[0].1;
    }

    /** Hits exactly the most recently requested keys, and then returns the slot that the key's last miss
        returned; a miss returns a slot that no other key in the cache has. */
    method Request(key: K) returns (hit: bool, slot: nat)
      requires Valid()
      modifies this
      ensures Valid() && history == old(history) + [key] && slot < capacity
      ensures var r := Recent(old(history)); hit <==> key in r[..if |r| < capacity then |r| else capacity]
      ensures given == if hit then old(given) else old(given)[key := slot]
      ensures hit ==> key in old(given) && slot == old(given)[key]
    {
      hide Recent, Minus;
      var i := Find(key);
      hit := i < |list|;
      if i == |list| {
        slot := Insert(key);
      } else {
        slot := MoveToFront(i);
      }
      history := history + [key];
    }

    method Clear()
      requires Valid()
      modifies this
      ensures Valid() && history == [] && list == []
    {
      list, history, given := [], [], map[];
    }
  }
}

/** common/ring_buffer.h: the single-producer single-consumer ring. First the object with its methods
    run one at a time, then the two threads with every load, copy and store a step of its own. A slot
    (granularity elements) is one value. */
module RingBuffer {

  import opened Arith

  const WORD: nat := 0x1_0000_0000_0000_0000

  type Word = x: nat | x < WORD

  /** Addition and subtraction on a 64-bit size_t. */
  function Add(a: nat, b: nat): Word {
    (a + b) % WORD
  }

  function Sub(a: nat, b: nat): Word {
    (a - b) % WORD
  }

  function Min(a: nat, b: nat): nat {
    if a < b then a else b
  }

  /** What the static_asserts admit, without 0, by which the code would divide. */
  predicate Sensible(capacity: nat) {
    PowerOfTwo(capacity) && 0 < capacity < WORD / 2
  }

  /** Why capacity must be a power of two: indices that wrap at 2^64 still count slots modulo capacity. */
  lemma WrapKeepsSlot(x: nat, capacity: nat)
    requires Sensible(capacity)
    ensures (x % WORD) % capacity == x % capacity
  {
    Pow2Values();
    var q := PowerDivides(capacity, 64);
    ModMod(x, q, capacity);
  }

  /** The free count the producer computes and the filled count the consumer computes, exactly. */
  lemma CountsExact(written: nat, read: nat, capacity: nat)
    requires Sensible(capacity) && read <= written <= read + capacity
    ensures Sub(written % WORD, read % WORD) == written - read
    ensures Sub(Add(capacity, read % WORD), written % WORD) == capacity - (written - read)
  {
    SubWraps(written, read);
    SubWraps(capacity + read, written);
    AddWraps(read, capacity);
  }

  lemma SubWraps(a: nat, b: nat)
    ensures Sub(a % WORD, b % WORD) == (a - b) % WORD
  {
    var d, e := a / WORD, b / WORD;
    assert a == d * WORD + a % WORD && b == e * WORD + b % WORD;
    ModShift(a % WORD - b % WORD, d - e, WORD);
  }

  lemma AddWraps(index: nat, n: nat)
    ensures Add(index % WORD, n) == (index + n) % WORD
  {
    assert index == (index / WORD) * WORD + index % WORD;
    ModShift(index % WORD + n, index / WORD, WORD);
  }

  /** The slot of the array that is the k-th of n, from pos on and then from the start. */
  function Slot(pos: nat, capacity: nat, n: nat, k: nat): nat
    requires pos < capacity && k < n
  {
    if k < Min(capacity - pos, n) then pos + k else k - Min(capacity - pos, n)
  }

  lemma SlotIs(index: nat, capacity: nat, n: nat, k: nat)
    requires Sensible(capacity) && k < n <= capacity
    ensures Slot((index % WORD) % capacity, capacity, n, k) == (index + k) % capacity
  {
    WrapKeepsSlot(index, capacity);
    var pos := index % capacity;
    var d := index / capacity;
    if pos + k < capacity {
      DivModIs(index + k, capacity, d, pos + k);
    } else {
      assert index + k == (d + 1) * capacity + (pos + k - capacity);
      DivModIs(index + k, capacity, d + 1, pos + k - capacity);
    }
  }

  /** Slots of different indices differ as long as less than a capacity lies between them. */
  lemma SlotsApart(a: nat, b: nat, capacity: nat)
    requires a < b < a + capacity
    ensures a % capacity != b % capacity
  {
    if a % capacity == b % capacity {
      var d, e := a / capacity, b / capacity;
      assert a == d * capacity + a % capacity && b == e * capacity + b % capacity;
      MulMinus(e, d, capacity);
      if e - d >= 1 { MulAtLeast(e - d, capacity); } else { MulNotPositive(e - d, capacity); }
    }
  }

  // ---------------------------------------------------------------- the object

  /** The ring holds these values from slot number from on. */
  ghost predicate Holds<T>(data: seq<T>, from: nat, contents: seq<T>) {
    && 0 < |data|
    && forall i {:trigger contents[i]} :: 0 <= i < |contents| ==> data[(from + i) % |data|] == contents[i]
  }

  /** What the two memcpy calls of Push do to the array. */
  ghost predicate CopiedIn<T>(was: seq<T>, now: seq<T>, pos: nat, slots: seq<T>, n: nat)
    requires pos < |was| && n <= |slots|
  {
    var first := Min(|was| - pos, n);
    && |now| == |was|
    && forall j :: 0 <= j < |was| ==>
         now[j] == if pos <= j < pos + first then slots[j - pos] else if j < n - first then slots[first + j] else was[j]
  }

  lemma NotCopied<T>(was: seq<T>, now: seq<T>, index: nat, slots: seq<T>, n: nat, other: nat)
    requires Sensible(|was|) && n <= |was| && n <= |slots|
    requires CopiedIn(was, now, (index % WORD) % |was|, slots, n)
    requires other < index && index + n <= other + |was|
    ensures now[other % |was|] == was[other % |was|]
  {
    var capacity := |was|;
    var pos, j := (index % WORD) % capacity, other % capacity;
    var first := Min(capacity - pos, n);
    var k := if pos <= j < pos + first then j - pos else first + j;
    if k < n && (pos <= j < pos + first || j < n - first) {
      SlotIs(index, capacity, n, k);
      SlotsApart(other, index + k, capacity);
    }
  }

  lemma Copied<T>(was: seq<T>, now: seq<T>, index: nat, slots: seq<T>, n: nat, k: nat)
    requires Sensible(|was|) && k < n <= |was| && n <= |slots|
    requires CopiedIn(was, now, (index % WORD) % |was|, slots, n)
    ensures now[(index + k) % |was|] == slots[k]
  {
    SlotIs(index, |was|, n, k);
  }

  lemma PushHolds<T>(was: seq<T>, now: seq<T>, read: nat, contents: seq<T>, slots: seq<T>, n: nat)
    requires Sensible(|was|) && |contents| + n <= |was| && n <= |slots|
    requires Holds(was, read, contents)
    requires CopiedIn(was, now, ((read + |contents|) % WORD) % |was|, slots, n)
    ensures Holds(now, read, contents + slots[..n])
  {
    var all := contents + slots[..n];
    var index := read + |contents|;
    forall i {:trigger all[i]} | 0 <= i < |all| ensures now[(read + i) % |was|] == all[i] {
      if i < |contents| {
        NotCopied(was, now, index, slots, n, read + i);
        assert contents[i] == all[i];
      } else {
        Copied(was, now, index, slots, n, i - |contents|);
      }
    }
  }

  lemma PopHolds<T>(data: seq<T>, read: nat, contents: seq<T>, n: nat)
    requires Holds(data, read, contents) && n <= |contents|
    ensures Holds(data, read + n, contents[n..])
  {
    var rest := contents[n..];
    forall i {:trigger rest[i]} | 0 <= i < |rest| ensures data[(read + n + i) % |data|] == rest[i] {
      assert contents[n + i] == rest[i];
    }
  }

  /** What the two memcpy calls of Pop read. */
  lemma PopReads<T>(data: seq<T>, read: nat, contents: seq<T>, n: nat)
    requires Sensible(|data|) && Holds(data, read, contents) && n <= |contents| <= |data|
    ensures var pos := (read % WORD) % |data|;
            var first := Min(|data| - pos, n);
            data[pos..pos + first] + data[..n - first] == contents[..n]
  {
    var pos := (read % WORD) % |data|;
    var first := Min(|data| - pos, n);
    var output := data[pos..pos + first] + data[..n - first];
    forall k | 0 <= k < n ensures output[k] == contents[k] {
      SlotIs(read, |data|, n, k);
    }
  }

  class RingBuffer<T(0)> {
    const capacity: nat
    const data: array<T>
    var readIndex: Word
    var writeIndex: Word
    // What is in the buffer, and how many slots have ever been pushed and popped.
    ghost var contents: seq<T>
    ghost var written: nat
    ghost var read: nat

    ghost predicate Valid()
      reads this, data
    {
      && Sensible(capacity) && data.Length == capacity
      && readIndex == read % WORD && writeIndex == written % WORD
      && written == read + |contents| && |contents| <= capacity
      && Holds(data[..], read, contents)
    }

    constructor (capacity: nat)
      requires Sensible(capacity)
      ensures Valid() && this.capacity == capacity && contents == [] && fresh(data)
    {
      this.capacity := capacity;
      data := new T[capacity];
      readIndex, writeIndex := 0, 0;
      contents, written, read := [], 0, 0;
    }

    /** Pushes as many slots as fit. */
    method Push(newSlots: seq<T>) returns (pushCount: nat)
      requires Valid()
      modifies this`writeIndex, this`contents, this`written, data
      ensures Valid()
      ensures pushCount == Min(|newSlots|, capacity - |old(contents)|)
      ensures contents == old(contents) + newSlots[..pushCount]
    {
      hide Holds, CopiedIn, Sensible;
      SensibleWord(capacity);
      var slotsFree := Sub(Add(capacity, readIndex), writeIndex);
      CountsExact(written, read, capacity);
      pushCount := Min(|newSlots|, slotsFree);
      CopyIn(writeIndex % capacity, newSlots, pushCount);
      PushHolds(old(data[..]), data[..], read, contents, newSlots, pushCount);
      AddWraps(written, pushCount);
      writeIndex := Add(writeIndex, pushCount);
      written := written + pushCount;
      contents := contents + newSlots[..pushCount];
    }

    method CopyIn(pos: nat, slots: seq<T>, n: nat)
      requires pos < data.Length && n <= |slots| && n <= data.Length
      modifies data
      ensures CopiedIn(old(data[..]), data[..], pos, slots, n)
    {
      var firstCopy := Min(data.Length - pos, n);
      forall k | 0 <= k < firstCopy { data[pos + k] := slots[k]; }
      forall k | 0 <= k < n - firstCopy { data[k] := slots[firstCopy + k]; }
    }

    /** Pops as many slots as there are, at most maxSlots. */
    method Pop(maxSlots: nat) returns (output: seq<T>)
      requires Valid()
      modifies this`readIndex, this`contents, this`read
      ensures Valid()
      ensures |output| == Min(|old(contents)|, maxSlots)
      ensures old(contents) == output + contents
    {
      hide Holds, Sensible, Add, Sub;
      SensibleWord(capacity);
      var slotsFilled := Sub(writeIndex, readIndex);
      CountsExact(written, read, capacity);
      var popCount := Min(slotsFilled, maxSlots);
      var pos := readIndex % capacity;
      var firstCopy := Min(capacity - pos, popCount);
      output := data[pos..pos + firstCopy] + data[..popCount - firstCopy];
      PopReads(data[..], read, contents, popCount);
      assert data[..][pos..pos + firstCopy] + data[..][..popCount - firstCopy] == output;
      AddWraps(read, popCount);
      PopHolds(data[..], read, contents, popCount);
      readIndex := Add(readIndex, popCount);
      read := read + popCount;
      contents := contents[popCount..];
    }

    method Size() returns (n: nat)
      requires Valid()
      ensures n == |contents|
    {
      CountsExact(written, read, capacity);
      n := Sub(writeIndex, readIndex);
    }
  }

  lemma SensibleWord(capacity: nat)
    requires Sensible(capacity)
    ensures 0 < capacity < WORD / 2
  {
  }

  // ---------------------------------------------------------------- the two threads

  /** Where the producer is in Push, with its local variables. */
  datatype Producer<T> =
    | Idle
    | WroteLoaded(slots: seq<T>, w: Word)
    | Copying(slots: seq<T>, w: Word, n: nat, k: nat)

  /** Where the consumer is in Pop. */
  datatype Consumer<T> =
    | Waiting
    | ReadLoaded(max: nat, r: Word)
    | Taking(r: Word, n: nat, out: seq<T>)

  /** pushed and popped are what finished calls have pushed and popped so far. */
  datatype State<T> = State(
    capacity: nat, data: seq<T>, read: Word, write: Word, p: Producer<T>, c: Consumer<T>,
    pushed: seq<T>, popped: seq<T>)

  datatype Step<T> =
    | BeginPush(slots: seq<T>)  // and load the write index
    | LoadRead                  // and compute the counts
    | CopyIn
    | StoreWrite
    | BeginPop(max: nat)        // and load the read index
    | LoadWrite
    | CopyOut
    | StoreRead

  ghost predicate Enabled<T>(s: State<T>, step: Step<T>) {
    match step
    case BeginPush(_) => s.p.Idle?
    case LoadRead => s.p.WroteLoaded?
    case CopyIn => s.p.Copying? && s.p.k < s.p.n && 0 < s.capacity && s.p.n <= |s.p.slots|
                   && Slot(s.p.w % s.capacity, s.capacity, s.p.n, s.p.k) < |s.data|
    case StoreWrite => s.p.Copying? && s.p.k == s.p.n <= |s.p.slots|
    case BeginPop(_) => s.c.Waiting?
    case LoadWrite => s.c.ReadLoaded?
    case CopyOut => s.c.Taking? && |s.c.out| < s.c.n && 0 < s.capacity
                    && Slot(s.c.r % s.capacity, s.capacity, s.c.n, |s.c.out|) < |s.data|
    case StoreRead => s.c.Taking? && |s.c.out| == s.c.n
  }

  ghost function Next<T>(s: State<T>, step: Step<T>): State<T>
    requires Enabled(s, step)
  {
    match step
    case BeginPush(slots) => s.(p := WroteLoaded(slots, s.write))
    case LoadRead =>
      s.(p := Copying(s.p.slots, s.p.w, Min(|s.p.slots|, Sub(Add(s.capacity, s.read), s.p.w)), 0))
    case CopyIn =>
      s.(data := s.data[Slot(s.p.w % s.capacity, s.capacity, s.p.n, s.p.k) := s.p.slots[s.p.k]],
         p := s.p.(k := s.p.k + 1))
    case StoreWrite =>
      s.(write := Add(s.p.w, s.p.n), pushed := s.pushed + s.p.slots[..s.p.n], p := Idle)
    case BeginPop(max) => s.(c := ReadLoaded(max, s.read))
    case LoadWrite => s.(c := Taking(s.c.r, Min(Sub(s.write, s.c.r), s.c.max), []))
    case CopyOut =>
      s.(c := s.c.(out := s.c.out + [s.data[Slot(s.c.r % s.capacity, s.capacity, s.c.n, |s.c.out|)]]))
    case StoreRead => s.(read := Add(s.c.r, s.c.n), popped := s.popped + s.c.out, c := Waiting)
  }

  ghost predicate Init<T>(s: State<T>) {
    && Sensible(s.capacity) && |s.data| == s.capacity && s.read == 0 && s.write == 0
    && s.p.Idle? && s.c.Waiting? && s.pushed == [] && s.popped == []
  }

  /** The indices count what was pushed and popped, modulo 2^64, and never come apart by more than
      the capacity. */
  ghost predicate Counted<T>(s: State<T>) {
    && Sensible(s.capacity) && |s.data| == s.capacity
    && s.write == |s.pushed| % WORD && s.read == |s.popped| % WORD
    && |s.popped| <= |s.pushed| <= |s.popped| + s.capacity
    && s.popped == s.pushed[..|s.popped|]
  }

  ghost predicate ProducerOk<T>(s: State<T>)
    requires 0 < s.capacity == |s.data|
  {
    match s.p
    case Idle => true
    case WroteLoaded(_, w) => w == s.write
    case Copying(slots, w, n, k) =>
      && w == s.write && k <= n <= |slots| && |s.pushed| + n <= |s.popped| + s.capacity
      && forall j {:trigger slots[j]} :: 0 <= j < k ==> s.data[(|s.pushed| + j) % s.capacity] == slots[j]
  }

  ghost predicate ConsumerOk<T>(s: State<T>) {
    match s.c
    case Waiting => true
    case ReadLoaded(_, r) => r == s.read
    case Taking(r, n, out) =>
      && r == s.read && |out| <= n && |s.popped| + n <= |s.pushed|
      && out == s.pushed[|s.popped|..|s.popped| + |out|]
  }

  ghost predicate Stored<T>(s: State<T>)
    requires 0 < s.capacity == |s.data|
  {
    forall i {:trigger s.pushed[i]} :: |s.popped| <= i < |s.pushed| ==> s.data[i % s.capacity] == s.pushed[i]
  }

  ghost predicate Inv<T>(s: State<T>) {
    Counted(s) && Stored(s) && ProducerOk(s) && ConsumerOk(s)
  }

  lemma InvCopyIn<T>(s: State<T>)
    requires Inv(s) && Enabled(s, CopyIn)
    ensures Inv(Next(s, CopyIn))
  {
    var w, k := |s.pushed|, s.p.k;
    var s', slots := Next(s, CopyIn), s.p.slots;
    SlotIs(w, s.capacity, s.p.n, k);
    hide Slot, Sensible;
    forall i {:trigger s.pushed[i]} | |s.popped| <= i < w ensures s'.data[i % s.capacity] == s.pushed[i] {
      SlotsApart(i, w + k, s.capacity);
    }
    forall j {:trigger slots[j]} | 0 <= j <= k ensures s'.data[(w + j) % s.capacity] == slots[j] {
      if j < k { SlotsApart(w + j, w + k, s.capacity); }
    }
  }

  lemma InvStoreWrite<T>(s: State<T>)
    requires Inv(s) && Enabled(s, StoreWrite)
    ensures Inv(Next(s, StoreWrite))
  {
    var s' := Next(s, StoreWrite);
    AddWraps(|s.pushed|, s.p.n);
    forall i {:trigger s'.pushed[i]} | |s'.popped| <= i < |s'.pushed| ensures s'.data[i % s.capacity] == s'.pushed[i] {
      if i >= |s.pushed| {
        assert s'.pushed[i] == s.p.slots[i - |s.pushed|];
      } else {
        assert s'.pushed[i] == s.pushed[i];
      }
    }
  }

  lemma InvCopyOut<T>(s: State<T>)
    requires Inv(s) && Enabled(s, CopyOut)
    ensures Inv(Next(s, CopyOut))
  {
    var r, k := |s.popped|, |s.c.out|;
    SlotIs(r, s.capacity, s.c.n, k);
    assert s.data[(r + k) % s.capacity] == s.pushed[r + k];
    assert s.pushed[r..r + k + 1] == s.pushed[r..r + k] + [s.pushed[r + k]];
  }

  lemma InvStoreRead<T>(s: State<T>)
    requires Inv(s) && Enabled(s, StoreRead)
    ensures Inv(Next(s, StoreRead))
  {
    var s' := Next(s, StoreRead);
    AddWraps(|s.popped|, s.c.n);
    assert s'.popped == s.pushed[..|s'.popped|];
  }

  lemma InvStep<T>(s: State<T>, step: Step<T>)
    requires Inv(s) && Enabled(s, step)
    ensures Inv(Next(s, step))
  {
    CountsExact(|s.pushed|, |s.popped|, s.capacity);
    match step
    case CopyIn => InvCopyIn(s);
    case StoreWrite => InvStoreWrite(s);
    case CopyOut => InvCopyOut(s);
    case StoreRead => InvStoreRead(s);
    case _ =>
  }

  ghost predicate IsRun<T>(ss: seq<State<T>>, steps: seq<Step<T>>) {
    && |ss| == |steps| + 1 && Init(ss[0])
    && forall i :: 0 <= i < |steps| ==> Enabled(ss[i], steps[i]) && ss[i + 1] == Next(ss[i], steps[i])
  }

  lemma {:induction false} RunInv<T>(ss: seq<State<T>>, steps: seq<Step<T>>, k: nat)
    requires IsRun(ss, steps) && k < |ss|
    ensures Inv(ss[k])
  {
    hide Inv;
    if k == 0 {
      InitInv(ss[0]);
    } else {
      RunInv(ss, steps, k - 1);
      InvStep(ss[k - 1], steps[k - 1]);
    }
  }

  lemma InitInv<T>(s: State<T>)
    requires Init(s)
    ensures Inv(s)
  {
  }

  /** In every interleaving, what has been popped is what was pushed first, in order; and the indices,
      wrapped or not, say exactly how many slots are in between, never more than the capacity. */
  lemma PoppedIsPrefixOfPushed<T>(ss: seq<State<T>>, steps: seq<Step<T>>, k: nat)
    requires IsRun(ss, steps) && k < |ss|
    ensures ss[k].popped <= ss[k].pushed
    ensures Sub(ss[k].write, ss[k].read) == |ss[k].pushed| - |ss[k].popped| <= ss[k].capacity
    ensures ss[k].c.Taking? ==> ss[k].popped + ss[k].c.out <= ss[k].pushed
    ensures ss[k].p.Copying? ==> |ss[k].pushed| + ss[k].p.n <= |ss[k].popped| + ss[k].capacity
  {
    RunInv(ss, steps, k);
    CountsExact(|ss[k].pushed|, |ss[k].popped|, ss[k].capacity);
  }

  /** In every interleaving, with both copies in progress, no slot is on both sides. */
  lemma CopiesApart<T>(ss: seq<State<T>>, steps: seq<Step<T>>, k: nat, i: nat, j: nat)
    requires IsRun(ss, steps) && k < |ss| && ss[k].p.Copying? && ss[k].c.Taking? && i < ss[k].p.n && j < ss[k].c.n
    ensures ss[k].capacity > 0
    ensures Slot(ss[k].p.w % ss[k].capacity, ss[k].capacity, ss[k].p.n, i)
         != Slot(ss[k].c.r % ss[k].capacity, ss[k].capacity, ss[k].c.n, j)
  {
    RunInv(ss, steps, k);
    var s := ss[k];
    SlotIs(|s.pushed|, s.capacity, s.p.n, i);
    SlotIs(|s.popped|, s.capacity, s.c.n, j);
    SlotsApart(|s.popped| + j, |s.pushed| + i, s.capacity);
  }

  /** In every interleaving, either side can go on: no copy leaves the array, and no call blocks. */
  lemma NeitherBlocks<T>(ss: seq<State<T>>, steps: seq<Step<T>>, k: nat)
    requires IsRun(ss, steps) && k < |ss|
    ensures exists step ::
      Enabled(ss[k], step) && (step.BeginPush? || step.LoadRead? || step.CopyIn? || step.StoreWrite?)
    ensures exists step ::
      Enabled(ss[k], step) && (step.BeginPop? || step.LoadWrite? || step.CopyOut? || step.StoreRead?)
  {
    RunInv(ss, steps, k);
    var s := ss[k];
    var mine: Step<T> := match s.p
      case Idle => BeginPush([])
      case WroteLoaded(_, _) => LoadRead
      case Copying(_, _, n, i) => if i < n then CopyIn else StoreWrite;
    var yours: Step<T> := match s.c
      case Waiting => BeginPop(0)
      case ReadLoaded(_, _) => LoadWrite
      case Taking(_, n, out) => if |out| < n then CopyOut else StoreRead;
    if s.p.Copying? && s.p.k < s.p.n { SlotIs(|s.pushed|, s.capacity, s.p.n, s.p.k); }
    if s.c.Taking? && |s.c.out| < s.c.n { SlotIs(|s.popped|, s.capacity, s.c.n, |s.c.out|); }
    assert Enabled(s, mine) && Enabled(s, yours);
  }

  // ---------------------------------------------------------------- whole calls

  /** The producer has neither begun a call, nor computed a count, nor ended a call in these steps. */
  ghost predicate NoPush<T>(steps: seq<Step<T>>, from: nat, upTo: nat) {
    forall m :: from <= m < upTo && m < |steps| ==>
      !steps[m].BeginPush? && !steps[m].LoadRead? && !steps[m].StoreWrite?
  }

  ghost predicate NoPop<T>(steps: seq<Step<T>>, from: nat, upTo: nat) {
    forall m :: from <= m < upTo && m < |steps| ==>
      !steps[m].BeginPop? && !steps[m].LoadWrite? && !steps[m].StoreRead?
  }

  /** But for the copying done so far. */
  ghost predicate SamePush<T>(p: Producer<T>, p': Producer<T>) {
    match p
    case Copying(slots, w, n, _) => p'.Copying? && p'.slots == slots && p'.w == w && p'.n == n
    case _ => p' == p
  }

  ghost predicate SamePop<T>(c: Consumer<T>, c': Consumer<T>) {
    match c
    case Taking(r, n, _) => c'.Taking? && c'.r == r && c'.n == n
    case _ => c' == c
  }

  lemma {:induction false} ProducerStays<T>(ss: seq<State<T>>, steps: seq<Step<T>>, from: nat, upTo: nat)
    requires IsRun(ss, steps) && from <= upTo <= |steps| && NoPush(steps, from, upTo)
    ensures ss[upTo].pushed == ss[from].pushed && ss[upTo].capacity == ss[from].capacity
    ensures SamePush(ss[from].p, ss[upTo].p)
    decreases upTo
  {
    if from < upTo {
      ProducerStays(ss, steps, from, upTo - 1);
      var s, step := ss[upTo - 1], steps[upTo - 1];
      assert Enabled(s, step) && ss[upTo] == Next(s, step);
    }
  }

  lemma {:induction false} ConsumerStays<T>(ss: seq<State<T>>, steps: seq<Step<T>>, from: nat, upTo: nat)
    requires IsRun(ss, steps) && from <= upTo <= |steps| && NoPop(steps, from, upTo)
    ensures ss[upTo].popped == ss[from].popped && ss[from].pushed <= ss[upTo].pushed
    ensures SamePop(ss[from].c, ss[upTo].c)
    decreases upTo
  {
    if from < upTo {
      ConsumerStays(ss, steps, from, upTo - 1);
      var s, step := ss[upTo - 1], steps[upTo - 1];
      assert Enabled(s, step) && ss[upTo] == Next(s, step);
    }
  }

  /** A call of Push that loads the write index at i and the read index at j pushes, when it stores at k, as
      many slots as there is room for at j, whatever the consumer does meanwhile. */
  lemma PushTakesWhatFits<T>(ss: seq<State<T>>, steps: seq<Step<T>>, i: nat, j: nat, k: nat, slots: seq<T>)
    requires IsRun(ss, steps) && i < j < k < |steps|
    requires steps[i] == BeginPush(slots) && steps[j] == LoadRead && steps[k] == StoreWrite
    requires NoPush(steps, i + 1, j) && NoPush(steps, j + 1, k)
    ensures var room := ss[j].capacity - (|ss[i].pushed| - |ss[j].popped|);
      0 <= room && ss[k + 1].pushed == ss[i].pushed + slots[..if |slots| < room then |slots| else room]
  {
    ProducerStays(ss, steps, i + 1, j);
    ProducerStays(ss, steps, j + 1, k);
    RunInv(ss, steps, j);
    CountsExact(|ss[j].pushed|, |ss[j].popped|, ss[j].capacity);
    assert Enabled(ss[i], steps[i]) && ss[i + 1] == Next(ss[i], steps[i]);
    assert Enabled(ss[j], steps[j]) && ss[j + 1] == Next(ss[j], steps[j]);
    assert Enabled(ss[k], steps[k]) && ss[k + 1] == Next(ss[k], steps[k]);
  }

  /** A call of Pop that loads the read index at i and the write index at j has popped, when it stores at k, as
      many of the slots pushed by j as were wanted, whatever the producer does meanwhile. */
  lemma PopTakesWhatIsThere<T>(ss: seq<State<T>>, steps: seq<Step<T>>, i: nat, j: nat, k: nat, max: nat)
    requires IsRun(ss, steps) && i < j < k < |steps|
    requires steps[i] == BeginPop(max) && steps[j] == LoadWrite && steps[k] == StoreRead
    requires NoPop(steps, i + 1, j) && NoPop(steps, j + 1, k)
    ensures var there := |ss[j].pushed| - |ss[i].popped|;
      0 <= there
      && ss[k + 1].popped == ss[j].pushed[..|ss[i].popped| + if there < max then there else max]
      && ss[i].popped <= ss[k + 1].popped
  {
    ConsumerStays(ss, steps, i + 1, j);
    ConsumerStays(ss, steps, j + 1, k);
    RunInv(ss, steps, j);
    RunInv(ss, steps, k + 1);
    CountsExact(|ss[j].pushed|, |ss[j].popped|, ss[j].capacity);
    assert Enabled(ss[i], steps[i]) && ss[i + 1] == Next(ss[i], steps[i]);
    assert Enabled(ss[j], steps[j]) && ss[j + 1] == Next(ss[j], steps[j]);
    assert Enabled(ss[k], steps[k]) && ss[k + 1] == Next(ss[k], steps[k]);
  }
}

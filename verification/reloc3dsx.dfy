/** The 3DSX relocation engine of core/loader.cpp: three segments placed one after the other, and tables of
    (skip, patch) pairs that walk each segment word by word. */
module Reloc3dsx {
  import opened Arith
  import opened Bytes
  import opened Seqs
  import opened Wrappers

  const WORD: nat := 0x1_0000_0000
  const BASE: U32 := 0x0010_0000
  const CHUNK: nat := 512

  type U16 = x: int | 0 <= x < 0x1_0000

  datatype Reloc = Reloc(skip: U16, patch: U16)

  function Wrap(x: int): U32 {
    x % WORD
  }

  function Sub(x: U32, y: U32): U32 {
    Wrap(x as int - y as int)
  }

  // ---------------------------------------------------------------- layout and addresses

  /** (size + 0xFFF) & ~0xFFF on 32 bits. */
  function SegSize(size: U32): U32 {
    Wrap(size + 0xFFF) - Wrap(size + 0xFFF) % 0x1000
  }

  /** The overflow check is exact, and what passes it is rounded up to pages. */
  lemma SegSizeIs(size: U32)
    ensures SegSize(size) < size <==> size > 0xFFFF_F000
    ensures size <= 0xFFFF_F000 ==> SegSize(size) % 0x1000 == 0 && size <= SegSize(size) < size + 0x1000
  {
  }

  datatype LoadInfo = LoadInfo(addr0: U32, addr1: U32, addr2: U32, offset0: U32, offset1: U32)

  /** seg_addrs and offsets, for segments of these sizes. */
  function Layout(size0: U32, size1: U32): LoadInfo {
    LoadInfo(BASE, Wrap(BASE + size0), Wrap(Wrap(BASE + size0) + size1), size0, Wrap(size0 + size1))
  }

  function Translate(addr: U32, info: LoadInfo): U32 {
    if addr < info.offset0 then Wrap(info.addr0 + addr)
    else if addr < info.offset1 then Wrap(Wrap(info.addr1 + addr) - info.offset0)
    else Wrap(Wrap(info.addr2 + addr) - info.offset1)
  }

  lemma WrapAdd(x: int, y: int)
    ensures Wrap(Wrap(x) + y) == Wrap(x + y)
  {
    ModShift(Wrap(x) + y, x / WORD, WORD);
    assert x == (x / WORD) * WORD + x % WORD;
  }

  lemma WrapSub(x: int, y: int)
    ensures Wrap(x - Wrap(y)) == Wrap(x - y)
  {
    ModShift(x - y, y / WORD, WORD);
    assert y == (y / WORD) * WORD + y % WORD;
  }

  /** The segments follow each other, so every address translates to itself plus the base, whichever
      segment it is taken for, and also where the second offset has wrapped. */
  lemma TranslateAddsBase(addr: U32, size0: U32, size1: U32)
    ensures Translate(addr, Layout(size0, size1)) == Wrap(BASE + addr)
  {
    hide Wrap;
    var a: int, s0: int, s1: int := addr, size0, size1;
    WrapAdd(BASE + s0, a);
    WrapAdd(BASE + s0 + a, -s0);
    WrapAdd(BASE + s0, s1);
    WrapAdd(BASE + s0 + s1, a);
    WrapAdd(BASE + s0 + s1 + a, -(Wrap(s0 + s1) as int));
    WrapSub(BASE + s0 + s1 + a, s0 + s1);
    WrapSmall(size0);
  }

  lemma WrapSmall(x: U32)
    ensures Wrap(x) == x
  {
  }

  // ---------------------------------------------------------------- what a table does

  /** Whether the table accepts the word: its top four bits. */
  predicate Relocatable(table: nat, word: U32) {
    word / 0x1000_0000 <= table
  }

  /** What the table makes of a word at this place in the image. */
  function Patched(table: nat, word: U32, at: nat, info: LoadInfo): U32 {
    var addr := Translate(word % 0x1000_0000, info);
    var relative := Sub(addr, Wrap(BASE + 4 * at));
    if table == 0 then addr
    else if word / 0x1000_0000 == 0 then relative
    else relative % 0x8000_0000
  }

  /** Absolute words become base plus offset; relative ones target minus their own address. */
  lemma PatchedIs(table: nat, word: U32, at: nat, size0: U32, size1: U32)
    requires table < 2 && Relocatable(table, word)
    ensures var r := Patched(table, word, at, Layout(size0, size1));
            && (table == 0 ==> r == 0x10_0000 + word % 0x1000_0000)
            && (table == 1 && word < 0x1000_0000 ==> r == (word - 4 * at) % WORD)
            && (table == 1 && word >= 0x1000_0000 ==> r == (word % 0x1000_0000 - 4 * at) % 0x8000_0000)
  {
    var low: int, here: int := word % 0x1000_0000, BASE + 4 * at;
    TranslateAddsBase(low, size0, size1);
    WrapSmall(BASE + low);
    WrapSub(BASE + low, here);
    ModMod(low - 4 * at, 2, 0x8000_0000);
  }

  /** Entry by entry, skip words are left alone and patch words are relocated, from pos on. */
  predicate Declared(entries: seq<Reloc>, pos: nat, w: nat) {
    entries != [] &&
    var first := pos + entries[0].skip;
    first <= w < first + entries[0].patch || Declared(entries[1..], first + entries[0].patch, w)
  }

  /** Where the walk over entries ends. */
  function After(entries: seq<Reloc>, pos: nat): (r: nat)
    ensures r >= pos
  {
    if entries == [] then pos else After(entries[1..], pos + entries[0].skip + entries[0].patch)
  }

  /** How many words the first n entries walk over. */
  function Span(entries: seq<Reloc>, n: nat): nat
    requires n <= |entries|
  {
    if n == 0 then 0 else Span(entries, n - 1) + entries[n - 1].skip + entries[n - 1].patch
  }

  lemma {:induction false} SpanTail(entries: seq<Reloc>, n: nat)
    requires n < |entries|
    ensures Span(entries, n + 1) == entries[0].skip + entries[0].patch + Span(entries[1..], n)
  {
    if n > 0 { SpanTail(entries, n - 1); }
  }

  /** The word is one of the patch words of entry i, behind its skip words and all the words before. */
  predicate PatchOf(entries: seq<Reloc>, pos: nat, i: nat, w: nat)
    requires i < |entries|
  {
    var first := pos + Span(entries, i) + entries[i].skip;
    first <= w < first + entries[i].patch
  }

  lemma {:induction false} DeclaredIff(entries: seq<Reloc>, pos: nat, w: nat)
    ensures Declared(entries, pos, w) <==> exists i :: 0 <= i < |entries| && PatchOf(entries, pos, i, w)
  {
    if entries != [] {
      var rest, pos' := entries[1..], pos + entries[0].skip + entries[0].patch;
      DeclaredIff(rest, pos', w);
      forall i | 0 <= i < |rest| ensures PatchOf(entries, pos, i + 1, w) <==> PatchOf(rest, pos', i, w) {
        SpanTail(entries, i);
      }
      if Declared(rest, pos', w) {
        var i :| 0 <= i < |rest| && PatchOf(rest, pos', i, w);
        assert PatchOf(entries, pos, i + 1, w);
      }
      if i :| 0 < i < |entries| && PatchOf(entries, pos, i, w) {
        assert PatchOf(rest, pos', i - 1, w) <==> PatchOf(entries, pos, i - 1 + 1, w);
      }
      assert PatchOf(entries, pos, 0, w) <==> pos + entries[0].skip <= w < pos + entries[0].skip + entries[0].patch;
    }
  }

  lemma {:induction false} DeclaredBetween(entries: seq<Reloc>, pos: nat, w: nat)
    requires Declared(entries, pos, w)
    ensures pos <= w < After(entries, pos)
  {
    var first := pos + entries[0].skip;
    if !(first <= w < first + entries[0].patch) { DeclaredBetween(entries[1..], first + entries[0].patch, w); }
  }

  lemma {:induction false} DeclaredConcat(a: seq<Reloc>, b: seq<Reloc>, pos: nat, w: nat)
    ensures After(a + b, pos) == After(b, After(a, pos))
    ensures Declared(a + b, pos, w) <==> Declared(a, pos, w) || Declared(b, After(a, pos), w)
  {
    if a == [] {
      assert a + b == b;
    } else {
      assert (a + b)[1..] == a[1..] + b;
      DeclaredConcat(a[1..], b, pos + a[0].skip + a[0].patch, w);
    }
  }

  /** What a table makes of the image: each declared word in the segment is patched once, the others stay. */
  ghost predicate TableDone(was: seq<U32>, now: seq<U32>, entries: seq<Reloc>, start: nat, end: nat, table: nat,
                            info: LoadInfo)
  {
    |now| == |was| && forall w :: 0 <= w < |was| ==>
      now[w] == if start <= w < end && Declared(entries, start, w) then Patched(table, was[w], w, info) else was[w]
  }

  ghost predicate TableFits(image: seq<U32>, entries: seq<Reloc>, start: nat, end: nat, table: nat) {
    forall w :: start <= w < end && w < |image| && Declared(entries, start, w) ==> Relocatable(table, image[w])
  }

  // ---------------------------------------------------------------- the walk

  /** The innermost loop: the patches of one entry, up to the end of the segment. */
  method PatchWords(image: array<U32>, pos: nat, end: nat, patch: U16, table: nat, info: LoadInfo)
    returns (ok: bool, p: nat)
    requires end <= image.Length && table < 2
    modifies image
    ensures ok ==> p == if pos >= end then pos else if pos + patch <= end then pos + patch else end
    ensures ok <==> forall w :: pos <= w < pos + patch && w < end ==> Relocatable(table, old(image[w]))
    ensures forall w :: 0 <= w < pos && w < image.Length ==> image[w] == old(image[w])
    ensures forall w :: 0 <= w < image.Length && (w >= pos + patch || w >= end) ==> image[w] == old(image[w])
    ensures ok ==> forall w :: pos <= w < pos + patch && w < end ==> image[w] == Patched(table, old(image[w]), w, info)
  {
    p := pos;
    var patches: int := patch;
    while patches > 0 && p < end
      invariant patches >= 0 && p + patches == pos + patch
      invariant p <= end || p == pos
      invariant forall w :: 0 <= w < image.Length && !(pos <= w < p) ==> image[w] == old(image[w])
      invariant forall w :: pos <= w < p ==>
        Relocatable(table, old(image[w])) && image[w] == Patched(table, old(image[w]), w, info)
      decreases patches
    {
      var inAddr := Wrap(BASE + 4 * p);
      var original := image[p];
      var subtype := original / 0x1000_0000;
      var addr := Translate(original % 0x1000_0000, info);
      if table == 0 {
        if subtype != 0 {
          return false, p;
        }
        image[p] := addr;
      } else {
        var relative := Sub(addr, inAddr);
        if subtype == 0 {
          image[p] := relative;
        } else if subtype == 1 {
          image[p] := relative % 0x8000_0000;
        } else {
          return false, p;
        }
      }
      p := p + 1;
      patches := patches - 1;
    }
    return true, p;
  }

  lemma OneDeclared(e: Reloc, pos: nat, w: nat)
    ensures Declared([e], pos, w) <==> pos + e.skip <= w < pos + e.skip + e.patch
    ensures After([e], pos) == pos + e.skip + e.patch
  {
    assert [e][1..] == [];
  }

  /** Where the walk is after entries that would end at after: exact inside the segment. */
  predicate At(pos: nat, after: nat, end: nat) {
    if after < end then pos == after else pos >= end
  }

  /** Two stretches of a table one after the other are the whole of it. */
  lemma TableConcat(was: seq<U32>, mid: seq<U32>, now: seq<U32>, a: seq<Reloc>, b: seq<Reloc>,
                    start: nat, pos: nat, end: nat, table: nat, info: LoadInfo)
    requires end <= |was| && At(pos, After(a, start), end)
    requires TableDone(was, mid, a, start, end, table, info) && TableDone(mid, now, b, pos, end, table, info)
    ensures TableDone(was, now, a + b, start, end, table, info)
  {
    forall w | 0 <= w < |was| ensures now[w] ==
      if start <= w < end && Declared(a + b, start, w) then Patched(table, was[w], w, info) else was[w]
    {
      if w < end { SplitDeclared(a, b, start, pos, end, w); }
    }
  }

  /** Below the end of the segment, a word is declared by one stretch or the other, never by both. */
  lemma SplitDeclared(a: seq<Reloc>, b: seq<Reloc>, start: nat, pos: nat, end: nat, w: nat)
    requires At(pos, After(a, start), end) && w < end
    ensures Declared(a + b, start, w) <==> Declared(a, start, w) || (pos <= w && Declared(b, pos, w))
    ensures !(Declared(a, start, w) && Declared(b, pos, w))
    ensures Declared(b, pos, w) ==> start <= w
  {
    DeclaredConcat(a, b, start, w);
    if Declared(a, start, w) { DeclaredBetween(a, start, w); }
    if Declared(b, pos, w) { DeclaredBetween(b, pos, w); }
    if Declared(b, After(a, start), w) { DeclaredBetween(b, After(a, start), w); }
  }

  lemma FitsConcat(was: seq<U32>, mid: seq<U32>, a: seq<Reloc>, b: seq<Reloc>,
                   start: nat, pos: nat, end: nat, table: nat, info: LoadInfo)
    requires end <= |was| && At(pos, After(a, start), end)
    requires TableDone(was, mid, a, start, end, table, info)
    ensures TableFits(was, a + b, start, end, table)
      <==> TableFits(was, a, start, end, table) && TableFits(mid, b, pos, end, table)
  {
    forall w: nat | w < end
      ensures Declared(a + b, start, w) <==> Declared(a, start, w) || (pos <= w && Declared(b, pos, w))
      ensures Declared(b, pos, w) ==> start <= w && mid[w] == was[w]
    {
      SplitDeclared(a, b, start, pos, end, w);
    }
  }

  lemma FitsPrefix(was: seq<U32>, mid: seq<U32>, a: seq<Reloc>, b: seq<Reloc>,
                   start: nat, pos: nat, end: nat, table: nat, info: LoadInfo)
    requires end <= |was| && At(pos, After(a, start), end) && pos >= end
    requires TableDone(was, mid, a, start, end, table, info) && TableFits(was, a, start, end, table)
    ensures TableDone(was, mid, a + b, start, end, table, info) && TableFits(was, a + b, start, end, table)
    ensures At(pos, After(a + b, start), end)
  {
    DeclaredConcat(a, b, start, 0);
    forall w: nat | w < end ensures Declared(a + b, start, w) <==> Declared(a, start, w) {
      SplitDeclared(a, b, start, pos, end, w);
    }
  }

  /** One entry. */
  method RelocateEntry(image: array<U32>, e: Reloc, start: nat, end: nat, table: nat, info: LoadInfo)
    returns (ok: bool, pos: nat)
    requires end <= image.Length && table < 2 && start < end
    modifies image
    ensures ok <==> TableFits(old(image[..]), [e], start, end, table)
    ensures ok ==> TableDone(old(image[..]), image[..], [e], start, end, table, info) && At(pos, After([e], start), end)
  {
    forall w: nat ensures Declared([e], start, w) <==> start + e.skip <= w < start + e.skip + e.patch {
      OneDeclared(e, start, w);
    }
    OneDeclared(e, start, 0);
    hide Declared, Patched, Relocatable;
    ok, pos := PatchWords(image, start + e.skip, end, e.patch, table, info);
  }

  /** The loop over one chunk of entries. */
  method RelocateChunk(image: array<U32>, chunk: seq<Reloc>, start: nat, end: nat, table: nat, info: LoadInfo)
    returns (ok: bool, pos: nat)
    requires end <= image.Length && table < 2
    modifies image
    ensures ok <==> TableFits(old(image[..]), chunk, start, end, table)
    ensures ok ==>
      TableDone(old(image[..]), image[..], chunk, start, end, table, info) && At(pos, After(chunk, start), end)
  {
    ghost var was := image[..];
    pos := start;
    var i := 0;
    while i < |chunk| && pos < end
      invariant i <= |chunk| && TableDone(was, image[..], chunk[..i], start, end, table, info)
      invariant TableFits(was, chunk[..i], start, end, table) && At(pos, After(chunk[..i], start), end)
    {
      hide TableDone, TableFits, After, Declared;
      ghost var mid, here := image[..], pos;
      ok, pos := RelocateEntry(image, chunk[i], pos, end, table, info);
      FitsConcat(was, mid, chunk[..i], [chunk[i]], start, here, end, table, info);
      assert chunk[..i + 1] == chunk[..i] + [chunk[i]];
      if !ok {
        NotFits(was, chunk[..i + 1], chunk[i + 1..], start, end, table);
        assert chunk[..i + 1] + chunk[i + 1..] == chunk;
        return;
      }
      TableConcat(was, mid, image[..], chunk[..i], [chunk[i]], start, here, end, table, info);
      DeclaredConcat(chunk[..i], [chunk[i]], start, 0);
      i := i + 1;
    }
    ok := true;
    assert chunk[..i] + chunk[i..] == chunk;
    if i == |chunk| {
      assert chunk[..i] == chunk;
    } else {
      FitsPrefix(was, image[..], chunk[..i], chunk[i..], start, pos, end, table, info);
    }
  }

  lemma NotFits(image: seq<U32>, a: seq<Reloc>, b: seq<Reloc>, start: nat, end: nat, table: nat)
    requires !TableFits(image, a, start, end, table)
    ensures !TableFits(image, a + b, start, end, table)
  {
    var w :| start <= w < end && w < |image| && Declared(a, start, w) && !Relocatable(table, image[w]);
    DeclaredConcat(a, b, start, w);
  }

  // ---------------------------------------------------------------- whole tables

  /** reloc_count entries can be read from here; a file position may be past the end. */
  predicate Available(file: seq<Reloc>, at: nat, count: nat) {
    count == 0 || at + count <= |file|
  }

  function Entries(file: seq<Reloc>, at: nat, count: nat): seq<Reloc> {
    if count > 0 && at + count <= |file| then file[at..at + count] else []
  }

  /** One chunk, after the entries done. */
  method RelocateNext(image: array<U32>, chunk: seq<Reloc>, pos: nat, end: nat, table: nat, info: LoadInfo,
                      ghost was: seq<U32>, ghost done: seq<Reloc>, ghost start: nat)
    returns (ok: bool, pos': nat)
    requires end <= image.Length == |was| && table < 2
    requires TableDone(was, image[..], done, start, end, table, info)
    requires TableFits(was, done, start, end, table) && At(pos, After(done, start), end)
    modifies image
    ensures ok <==> TableFits(was, done + chunk, start, end, table)
    ensures ok ==> TableDone(was, image[..], done + chunk, start, end, table, info)
    ensures ok ==> At(pos', After(done + chunk, start), end)
  {
    hide TableDone, TableFits, After, At;
    ghost var mid := image[..];
    ok, pos' := RelocateChunk(image, chunk, pos, end, table, info);
    FitsConcat(was, mid, done, chunk, start, pos, end, table, info);
    if ok {
      TableConcat(was, mid, image[..], done, chunk, start, pos, end, table, info);
      AfterConcat(done, chunk, start, pos, pos', end);
    }
  }

  lemma AfterConcat(a: seq<Reloc>, b: seq<Reloc>, start: nat, pos: nat, pos': nat, end: nat)
    requires At(pos, After(a, start), end) && At(pos', After(b, pos), end)
    ensures At(pos', After(a + b, start), end)
  {
    DeclaredConcat(a, b, start, 0);
  }

  /** The while loop over chunks of at most 512 entries. The chunks do not show in the result. */
  method RelocateTable(image: array<U32>, file: seq<Reloc>, at: nat, count: nat, start: nat, end: nat, table: nat,
                       info: LoadInfo)
    returns (ok: bool)
    requires end <= image.Length && table < 2
    modifies image
    ensures ok <==> Available(file, at, count) && TableFits(old(image[..]), Entries(file, at, count), start, end, table)
    ensures ok ==> TableDone(old(image[..]), image[..], Entries(file, at, count), start, end, table, info)
  {
    ghost var was := image[..];
    var relocCount, here, pos := count, at, start;
    ghost var done: seq<Reloc> := [];
    while relocCount > 0
      invariant 0 <= relocCount <= count && here == at + (count - relocCount) && |done| == count - relocCount
      invariant relocCount < count ==> here <= |file| && done == file[at..here]
      invariant relocCount == count ==> done == []
      invariant TableDone(was, image[..], done, start, end, table, info)
      invariant TableFits(was, done, start, end, table) && At(pos, After(done, start), end)
    {
      hide TableDone, TableFits, After, At;
      var chunk := if relocCount < CHUNK then relocCount else CHUNK;
      relocCount := relocCount - chunk;
      if here + chunk > |file| {
        return false;
      }
      var relocBuffer := file[here..here + chunk];
      Joined(file, at, here, here + chunk);
      here := here + chunk;
      ok, pos := RelocateNext(image, relocBuffer, pos, end, table, info, was, done, start);
      if !ok {
        if Available(file, at, count) {
          NotFits(was, done + relocBuffer, file[here..at + count], start, end, table);
          Joined(file, at, here, at + count);
        }
        return;
      }
      done := done + relocBuffer;
    }
    assert done == Entries(file, at, count);
    ok := true;
  }

  /** A program being loaded: page-aligned segment sizes, per segment the lengths of its tables, and the
      entries that follow the segments in the file. */
  datatype Program = Program(sizes: seq<U32>, tables: nat, counts: seq<seq<U32>>, file: seq<Reloc>) {
    ghost predicate Ok() {
      && |sizes| == 3 && |counts| == 3
      && forall s :: 0 <= s < 3 ==> sizes[s] % 0x1000 == 0 && |counts[s]| == tables
    }

    function SegStart(seg: nat): nat
      requires |sizes| == 3 && seg <= 3
    {
      if seg == 0 then 0 else SegStart(seg - 1) + sizes[seg - 1] / 4
    }

    function Info(): LoadInfo
      requires |sizes| == 3
    {
      Layout(sizes[0], sizes[1])
    }

    /** How many entries come before a table. */
    function TableAt(seg: nat, table: nat): nat
      requires Ok() && seg < 3 && table <= tables
      decreases seg, table
    {
      if table > 0 then TableAt(seg, table - 1) + counts[seg][table - 1]
      else if seg > 0 then TableAt(seg - 1, tables)
      else 0
    }

    function TableEntries(seg: nat, table: nat): seq<Reloc>
      requires Ok() && seg < 3 && table < tables
    {
      Entries(file, TableAt(seg, table), counts[seg][table])
    }

    /** What the word at w is after both tables of its segment. */
    ghost function FinalWord(word: U32, seg: nat, w: nat): U32
      requires Ok() && seg < 3
    {
      var absolute :=
        if tables > 0 && Declared(TableEntries(seg, 0), SegStart(seg), w) then Patched(0, word, w, Info()) else word;
      if tables > 1 && Declared(TableEntries(seg, 1), SegStart(seg), w) then Patched(1, absolute, w, Info())
      else absolute
    }
  }

  ghost function Relocated(was: seq<U32>, entries: seq<Reloc>, start: nat, end: nat, table: nat,
                           info: LoadInfo): (r: seq<U32>)
    ensures TableDone(was, r, entries, start, end, table, info)
  {
    seq(|was|, w requires 0 <= w < |was| =>
      if start <= w < end && Declared(entries, start, w) then Patched(table, was[w], w, info) else was[w])
  }

  lemma DoneIsRelocated(was: seq<U32>, now: seq<U32>, entries: seq<Reloc>, start: nat, end: nat, table: nat,
                        info: LoadInfo)
    requires TableDone(was, now, entries, start, end, table, info)
    ensures now == Relocated(was, entries, start, end, table, info)
  {
  }

  /** The image after the tables from (seg, table) on, or that loading fails. */
  ghost function Run(p: Program, image: seq<U32>, seg: nat, table: nat): (r: Option<seq<U32>>)
    requires p.Ok() && seg <= 3 && table <= p.tables && |image| == p.SegStart(3)
    ensures r.Some? ==> |r.value| == |image|
    decreases 3 - seg, p.tables - table
  {
    if seg == 3 then Some(image)
    else if table == p.tables then Run(p, image, seg + 1, 0)
    else if table >= 2 then Run(p, image, seg, table + 1)
    else
      var start, end := p.SegStart(seg), p.SegStart(seg + 1);
      if Available(p.file, p.TableAt(seg, table), p.counts[seg][table])
        && TableFits(image, p.TableEntries(seg, table), start, end, table)
      then Run(p, Relocated(image, p.TableEntries(seg, table), start, end, table, p.Info()), seg, table + 1)
      else None
  }

  /** The loops over segments and tables. */
  method Relocate(image: array<U32>, p: Program) returns (ok: bool)
    requires p.Ok() && image.Length == p.SegStart(3)
    modifies image
    ensures ok <==> Run(p, old(image[..]), 0, 0).Some?
    ensures ok ==> Some(image[..]) == Run(p, old(image[..]), 0, 0)
    ensures ok <==> TablesThere(p) && WordsGood(p, old(image[..]))
  {
    LoadsIff(p, image[..]);
    hide TablesThere, WordsGood;
    ghost var all := Run(p, image[..], 0, 0);
    var at: nat := 0;
    for seg := 0 to 3
      invariant Run(p, image[..], seg, 0) == all
      invariant at == if seg == 0 then 0 else p.TableAt(seg - 1, p.tables)
    {
      for table := 0 to p.tables
        invariant Run(p, image[..], seg, table) == all && at == p.TableAt(seg, table)
      {
        var relocCount := p.counts[seg][table];
        if table < 2 {
          ghost var was := image[..];
          SegmentInside(p, seg);
          ok := RelocateTable(image, p.file, at, relocCount, p.SegStart(seg), p.SegStart(seg + 1), table, p.Info());
          if !ok {
            return;
          }
          DoneIsRelocated(was, image[..], p.TableEntries(seg, table),
                          p.SegStart(seg), p.SegStart(seg + 1), table, p.Info());
        }
        at := at + relocCount;
      }
    }
    ok := true;
  }

  lemma SegmentInside(p: Program, seg: nat)
    requires p.Ok() && seg < 3
    ensures p.SegStart(seg) <= p.SegStart(seg + 1) <= p.SegStart(3)
  {
  }

  /** What the word at w of segment s still has to go through from (seg, table) on. */
  ghost function StillToDo(p: Program, word: U32, seg: nat, table: nat, s: nat, w: nat): U32
    requires p.Ok() && s < 3
  {
    if seg < s || (seg == s && table == 0) then p.FinalWord(word, s, w)
    else if seg == s && table == 1 && p.tables > 1 && Declared(p.TableEntries(s, 1), p.SegStart(s), w)
    then Patched(1, word, w, p.Info())
    else word
  }

  lemma {:induction false} RunDoes(p: Program, image: seq<U32>, seg: nat, table: nat, s: nat, w: nat)
    requires p.Ok() && seg <= 3 && table <= p.tables && |image| == p.SegStart(3) && s < 3
    requires p.SegStart(s) <= w < p.SegStart(s + 1) && w < |image|
    requires Run(p, image, seg, table).Some?
    ensures Run(p, image, seg, table).value[w] == StillToDo(p, image[w], seg, table, s, w)
    decreases 3 - seg, p.tables - table
  {
    hide Declared, Patched, Available, TableFits, Relocated, StillToDo, Program.Info, Program.TableEntries;
    SegmentInside(p, s);
    if seg == 3 {
      NothingToDo(p, image[w], seg, table, s, w);
    } else if table == p.tables {
      NothingToDo(p, image[w], seg, table, s, w);
      RunDoes(p, image, seg + 1, 0, s, w);
    } else if table >= 2 {
      NothingToDo(p, image[w], seg, table, s, w);
      RunDoes(p, image, seg, table + 1, s, w);
    } else {
      SegmentInside(p, seg);
      var image' := Relocated(image, p.TableEntries(seg, table), p.SegStart(seg), p.SegStart(seg + 1), table, p.Info());
      TableDoes(p, image, seg, table, s, w);
      RunDoes(p, image', seg, table + 1, s, w);
    }
  }

  /** Going on to the next segment, or past a table that is not used, does nothing. */
  lemma NothingToDo(p: Program, word: U32, seg: nat, table: nat, s: nat, w: nat)
    requires p.Ok() && s < 3 && seg <= 3 && table <= p.tables && (seg == 3 || table == p.tables || table >= 2)
    ensures seg == 3 ==> StillToDo(p, word, seg, table, s, w) == word
    ensures seg < 3 && table == p.tables ==>
      StillToDo(p, word, seg, table, s, w) == StillToDo(p, word, seg + 1, 0, s, w)
    ensures 2 <= table < p.tables ==> StillToDo(p, word, seg, table, s, w) == StillToDo(p, word, seg, table + 1, s, w)
  {
    hide Declared, Patched, Program.Info, Program.TableEntries, Program.SegStart;
  }

  /** One table does to the word what was the next thing to be done to it. */
  lemma TableDoes(p: Program, image: seq<U32>, seg: nat, table: nat, s: nat, w: nat)
    requires p.Ok() && seg < 3 && table < p.tables && table < 2 && |image| == p.SegStart(3) && s < 3
    requires p.SegStart(s) <= w < p.SegStart(s + 1) && w < |image|
    requires p.SegStart(seg + 1) <= |image|
    ensures var after :=
              Relocated(image, p.TableEntries(seg, table), p.SegStart(seg), p.SegStart(seg + 1), table, p.Info());
            && |after| == |image|
            && StillToDo(p, after[w], seg, table + 1, s, w) == StillToDo(p, image[w], seg, table, s, w)
  {
    if seg != s { OtherSegment(p, seg, s, w); }
    hide Declared, Patched, Program.Info, Program.TableEntries, Program.SegStart;
  }

  lemma OtherSegment(p: Program, seg: nat, s: nat, w: nat)
    requires p.Ok() && seg < 3 && s < 3 && seg != s && p.SegStart(s) <= w < p.SegStart(s + 1)
    ensures !(p.SegStart(seg) <= w < p.SegStart(seg + 1))
  {
  }

  /** A loaded image: each word has been through the absolute table and then the relative table of its own
      segment, at most once each, where they declare it; every other word is as it was in the file. */
  lemma LoadedWords(p: Program, image: seq<U32>, s: nat, w: nat)
    requires p.Ok() && |image| == p.SegStart(3) && s < 3 && p.SegStart(s) <= w < p.SegStart(s + 1)
    requires Run(p, image, 0, 0).Some?
    ensures w < |image| && Run(p, image, 0, 0).value[w] == p.FinalWord(image[w], s, w)
  {
    SegmentInside(p, s);
    RunDoes(p, image, 0, 0, s, w);
  }

  /** In numbers: a word only the absolute table declares becomes base plus its low 28 bits; one only the
      relative table declares becomes its target minus its own address; and one that both declare goes through
      the relative one as the absolute one has left it. */
  lemma LoadedValues(p: Program, image: seq<U32>, s: nat, w: nat)
    requires p.Ok() && |image| == p.SegStart(3) && s < 3 && p.SegStart(s) <= w < p.SegStart(s + 1) && p.tables >= 2
    requires Run(p, image, 0, 0).Some?
    ensures var r := Run(p, image, 0, 0).value[w];
            var absolute := Declared(p.TableEntries(s, 0), p.SegStart(s), w);
            var relative := Declared(p.TableEntries(s, 1), p.SegStart(s), w);
            && (absolute && !relative && image[w] < 0x1000_0000 ==> r == 0x10_0000 + image[w])
            && (!absolute && relative && image[w] < 0x1000_0000 ==> r == (image[w] - 4 * w) % WORD)
            && (!absolute && relative && 0x1000_0000 <= image[w] < 0x2000_0000 ==>
                  r == (image[w] - 0x1000_0000 - 4 * w) % 0x8000_0000)
            && (!absolute && !relative ==> r == image[w])
            && (absolute && relative && image[w] < 0xFF0_0000 ==> r == (0x10_0000 + image[w] - 4 * w) % WORD)
            && (absolute && relative && 0xFF0_0000 <= image[w] < 0x1000_0000 ==>
                  r == (image[w] - 0xFF0_0000 - 4 * w) % 0x8000_0000)
  {
    LoadedWords(p, image, s, w);
    hide Run, Program.SegStart, Program.TableEntries, Program.FinalWord;
    FinalValue(p, image[w], s, w);
  }

  lemma FinalValue(p: Program, word: U32, s: nat, w: nat)
    requires p.Ok() && s < 3 && p.tables >= 2
    ensures var r := p.FinalWord(word, s, w);
            var absolute := Declared(p.TableEntries(s, 0), p.SegStart(s), w);
            var relative := Declared(p.TableEntries(s, 1), p.SegStart(s), w);
            && (absolute && !relative && word < 0x1000_0000 ==> r == 0x10_0000 + word)
            && (!absolute && relative && word < 0x1000_0000 ==> r == (word - 4 * w) % WORD)
            && (!absolute && relative && 0x1000_0000 <= word < 0x2000_0000 ==>
                  r == (word - 0x1000_0000 - 4 * w) % 0x8000_0000)
            && (!absolute && !relative ==> r == word)
            && (absolute && relative && word < 0xFF0_0000 ==> r == (0x10_0000 + word - 4 * w) % WORD)
            && (absolute && relative && 0xFF0_0000 <= word < 0x1000_0000 ==>
                  r == (word - 0xFF0_0000 - 4 * w) % 0x8000_0000)
  {
    hide Declared, Patched, Layout, Program.SegStart, Program.TableEntries;
    AbsoluteIs(word, w, p.Info());
    RelativeIs(word, w, p.Info());
    if word < 0x1000_0000 { RelativeIs(0x10_0000 + word, w, p.Info()); }
  }

  lemma AbsoluteIs(word: U32, w: nat, info: LoadInfo)
    requires exists size0, size1 :: info == Layout(size0, size1)
    ensures word < 0x1000_0000 ==> Patched(0, word, w, info) == 0x10_0000 + word
  {
    var size0, size1 :| info == Layout(size0, size1);
    if word < 0x1000_0000 { PatchedIs(0, word, w, size0, size1); }
  }

  lemma RelativeIs(word: U32, w: nat, info: LoadInfo)
    requires exists size0, size1 :: info == Layout(size0, size1)
    ensures word < 0x1000_0000 ==> Patched(1, word, w, info) == (word - 4 * w) % WORD
    ensures 0x1000_0000 <= word < 0x2000_0000 ==>
      Patched(1, word, w, info) == (word - 0x1000_0000 - 4 * w) % 0x8000_0000
  {
    var size0, size1 :| info == Layout(size0, size1);
    if word < 0x2000_0000 { PatchedIs(1, word, w, size0, size1); }
  }

  // ---------------------------------------------------------------- which programs load

  /** The first two tables of each segment end in the file, unless they are empty. */
  predicate TablesThere(p: Program)
    requires p.Ok()
  {
    forall seg, table :: 0 <= seg < 3 && 0 <= table < 2 && table < p.tables && p.counts[seg][table] > 0 ==>
      p.TableAt(seg, table) + p.counts[seg][table] <= |p.file|
  }

  /** A word that the absolute table declares has 0 in its top four bits; one that only the relative table
      declares 0 or 1. */
  predicate WordGood(p: Program, word: U32, seg: nat, w: nat)
    requires p.Ok() && seg < 3
  {
    var absolute := p.tables > 0 && Declared(p.TableEntries(seg, 0), p.SegStart(seg), w);
    var relative := p.tables > 1 && Declared(p.TableEntries(seg, 1), p.SegStart(seg), w);
    (absolute ==> word < 0x1000_0000) && (relative && !absolute ==> word < 0x2000_0000)
  }

  predicate WordsGood(p: Program, image: seq<U32>)
    requires p.Ok()
  {
    forall seg, w :: 0 <= seg < 3 && p.SegStart(seg) <= w < p.SegStart(seg + 1) && w < |image| ==>
      WordGood(p, image[w], seg, w)
  }

  /** What is still asked of the word at w of segment s from (seg, table) on. */
  predicate StillGood(p: Program, word: U32, seg: nat, table: nat, s: nat, w: nat)
    requires p.Ok() && s < 3
  {
    if seg < s || (seg == s && table == 0) then WordGood(p, word, s, w)
    else if seg == s && table == 1 && p.tables > 1 && Declared(p.TableEntries(s, 1), p.SegStart(s), w)
    then word < 0x2000_0000
    else true
  }

  predicate StillThere(p: Program, seg: nat, table: nat)
    requires p.Ok()
  {
    forall s, t :: 0 <= s < 3 && 0 <= t < 2 && t < p.tables && (seg < s || (seg == s && table <= t))
                   && p.counts[s][t] > 0 ==>
      p.TableAt(s, t) + p.counts[s][t] <= |p.file|
  }

  predicate AllStillGood(p: Program, image: seq<U32>, seg: nat, table: nat)
    requires p.Ok()
  {
    forall s, w :: 0 <= s < 3 && p.SegStart(s) <= w < p.SegStart(s + 1) && w < |image| ==>
      StillGood(p, image[w], seg, table, s, w)
  }

  lemma {:induction false} RunIff(p: Program, image: seq<U32>, seg: nat, table: nat)
    requires p.Ok() && seg <= 3 && table <= p.tables && |image| == p.SegStart(3)
    ensures Run(p, image, seg, table).Some? <==> StillThere(p, seg, table) && AllStillGood(p, image, seg, table)
    decreases 3 - seg, p.tables - table
  {
    hide StillThere, AllStillGood, TableFits, Program.Info, Program.TableEntries, Program.TableAt, Program.SegStart;
    if seg == 3 {
      NothingLeft(p, image, table);
    } else if table == p.tables || table >= 2 {
      NoTable(p, image, seg, table);
      if table == p.tables { RunIff(p, image, seg + 1, 0); } else { RunIff(p, image, seg, table + 1); }
    } else {
      SegmentInside(p, seg);
      var start, end := p.SegStart(seg), p.SegStart(seg + 1);
      var image' := Relocated(image, p.TableEntries(seg, table), start, end, table, p.Info());
      RunIff(p, image', seg, table + 1);
      TableThere(p, seg, table);
      TableGood(p, image, image', seg, table);
    }
  }

  lemma NothingLeft(p: Program, image: seq<U32>, table: nat)
    requires p.Ok()
    ensures StillThere(p, 3, table) && AllStillGood(p, image, 3, table)
  {
  }

  lemma NoTable(p: Program, image: seq<U32>, seg: nat, table: nat)
    requires p.Ok() && seg < 3 && table <= p.tables
    ensures table == p.tables ==> (StillThere(p, seg, table) <==> StillThere(p, seg + 1, 0))
    ensures table == p.tables ==> (AllStillGood(p, image, seg, table) <==> AllStillGood(p, image, seg + 1, 0))
    ensures table >= 2 ==> (StillThere(p, seg, table) <==> StillThere(p, seg, table + 1))
    ensures table >= 2 ==> (AllStillGood(p, image, seg, table) <==> AllStillGood(p, image, seg, table + 1))
  {
    hide Declared, Program.SegStart, Program.TableAt, Program.TableEntries;
    forall word: U32, s: nat, w: nat | s < 3
      ensures table == p.tables ==> (StillGood(p, word, seg, table, s, w) <==> StillGood(p, word, seg + 1, 0, s, w))
      ensures table >= 2 ==> (StillGood(p, word, seg, table, s, w) <==> StillGood(p, word, seg, table + 1, s, w))
    {
    }
    hide StillGood;
  }

  lemma TableThere(p: Program, seg: nat, table: nat)
    requires p.Ok() && seg < 3 && table < 2 && table < p.tables
    ensures StillThere(p, seg, table) <==>
      Available(p.file, p.TableAt(seg, table), p.counts[seg][table]) && StillThere(p, seg, table + 1)
  {
    hide Program.TableAt;
  }

  lemma TableGood(p: Program, image: seq<U32>, image': seq<U32>, seg: nat, table: nat)
    requires p.Ok() && seg < 3 && table < 2 && table < p.tables && |image'| == |image| == p.SegStart(3)
    requires p.SegStart(seg) <= p.SegStart(seg + 1) <= p.SegStart(3)
    requires image' ==
      Relocated(image, p.TableEntries(seg, table), p.SegStart(seg), p.SegStart(seg + 1), table, p.Info())
    ensures AllStillGood(p, image, seg, table) <==>
      TableFits(image, p.TableEntries(seg, table), p.SegStart(seg), p.SegStart(seg + 1), table)
      && AllStillGood(p, image', seg, table + 1)
  {
    forall s: nat, w: nat | s < 3 && p.SegStart(s) <= w < p.SegStart(s + 1) && w < |image|
      ensures s != seg ==>
        (StillGood(p, image[w], seg, table, s, w) <==> StillGood(p, image'[w], seg, table + 1, s, w))
      ensures s == seg ==> (StillGood(p, image[w], seg, table, s, w) <==>
        (Declared(p.TableEntries(seg, table), p.SegStart(seg), w) ==> Relocatable(table, image[w]))
        && StillGood(p, image'[w], seg, table + 1, s, w))
    {
      if s == seg { WordStep(p, image[w], image'[w], seg, table, w); } else { OtherSegment(p, seg, s, w); }
    }
    hide StillGood, Declared, Relocatable, Program.SegStart, Program.TableEntries, Relocated;
  }

  /** One word of the segment, and one of its tables. */
  lemma WordStep(p: Program, word: U32, word': U32, seg: nat, table: nat, w: nat)
    requires p.Ok() && seg < 3 && table < 2 && table < p.tables
    requires var declared := Declared(p.TableEntries(seg, table), p.SegStart(seg), w);
      word' == if declared then Patched(table, word, w, p.Info()) else word
    ensures StillGood(p, word, seg, table, seg, w) <==>
      (Declared(p.TableEntries(seg, table), p.SegStart(seg), w) ==> Relocatable(table, word))
      && StillGood(p, word', seg, table + 1, seg, w)
  {
    hide Declared, Patched, Layout, Program.SegStart, Program.TableEntries;
    if Relocatable(table, word) { PatchedIs(table, word, w, p.sizes[0], p.sizes[1]); }
  }

  /** A program loads exactly when its tables are in its file and the words they declare are good. */
  lemma LoadsIff(p: Program, image: seq<U32>)
    requires p.Ok() && |image| == p.SegStart(3)
    ensures Run(p, image, 0, 0).Some? <==> TablesThere(p) && WordsGood(p, image)
  {
    RunIff(p, image, 0, 0);
    hide WordGood, Program.SegStart, Program.TableAt, Run;
  }

  /** Where segments and tables lie, for two tables a segment: the tables of a segment follow those of the
      segments before it, absolute before relative. */
  lemma Places(p: Program)
    requires p.Ok()
    ensures p.SegStart(0) == 0 && p.SegStart(1) == p.sizes[0] / 4
    ensures p.SegStart(2) == p.sizes[0] / 4 + p.sizes[1] / 4
    ensures p.SegStart(3) == p.sizes[0] / 4 + p.sizes[1] / 4 + p.sizes[2] / 4
    ensures p.tables == 2 ==>
      var c00: int, c01: int, c10: int := p.counts[0][0], p.counts[0][1], p.counts[1][0];
      var c11: int, c20: int := p.counts[1][1], p.counts[2][0];
      && p.TableAt(0, 0) == 0 && p.TableAt(0, 1) == c00 && p.TableAt(1, 0) == c00 + c01
      && p.TableAt(1, 1) == c00 + c01 + c10 && p.TableAt(2, 0) == c00 + c01 + c10 + c11
      && p.TableAt(2, 1) == c00 + c01 + c10 + c11 + c20
  {
    if p.tables == 2 {
      assert p.TableAt(0, 2) == p.TableAt(0, 1) + p.counts[0][1];
      assert p.TableAt(1, 2) == p.TableAt(1, 1) + p.counts[1][1];
    }
  }

  /** The entries of a table that is in the file are the stretch of it there. */
  lemma EntriesThere(p: Program, seg: nat, table: nat, k: nat)
    requires p.Ok() && seg < 3 && table < 2 && table < p.tables && TablesThere(p) && k < p.counts[seg][table]
    ensures |p.TableEntries(seg, table)| == p.counts[seg][table] && p.TableAt(seg, table) + k < |p.file|
    ensures p.TableEntries(seg, table)[k] == p.file[p.TableAt(seg, table) + k]
  {
    hide Program.TableAt;
  }
}

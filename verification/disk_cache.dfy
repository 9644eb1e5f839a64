/** common/linear_disk_cache.h over a byte sequence: a header, then numbered entries that are only appended. */
module DiskCache {
  import opened Arith
  import opened Bytes
  import opened Seqs
  import opened Wrappers

  /** count is the number of elements of the value; the rest is bytes. */
  datatype Entry = Entry(count: U32, key: seq<Byte>, value: seq<Byte>)

  datatype Taken = Taken(entry: Entry, next: nat)

  /** What a cache is instantiated with: its header and the sizes of a key and of an element. */
  datatype Format = Format(header: seq<Byte>, keySize: nat, elementSize: nat) {
    predicate Ok() {
      elementSize >= 1
    }

    predicate Fits(e: Entry) {
      |e.key| == keySize && |e.value| == e.count * elementSize
    }

    predicate AllFit(es: seq<Entry>) {
      forall k :: 0 <= k < |es| ==> Fits(es[k])
    }

    // ---------------------------------------------------------------- writing

    function EntryBytes(e: Entry, number: U32): seq<Byte> {
      ToLE(e.count, 4) + e.key + e.value + ToLE(number, 4)
    }

    /** The file after these appends. */
    function FileOf(es: seq<Entry>): seq<Byte> {
      if es == [] then header else FileOf(es[..|es| - 1]) + EntryBytes(es[|es| - 1], Number(|es|))
    }

    /** The number of the k-th entry, counted from 1 in 32 bits. */
    static function Number(k: nat): U32 {
      k % 0x1_0000_0000
    }

    // ---------------------------------------------------------------- reading

    /** The entry at a position, if it is whole and follows n others. */
    function Take(file: seq<Byte>, at: nat, n: nat): (r: Option<Taken>)
      ensures r.Some? ==> at < r.value.next <= |file|
    {
      if at + 4 > |file| then None
      else
        var count := FromLE(file[at..at + 4]);
        var key, value, number := at + 4, at + 4 + keySize, at + 4 + keySize + count * elementSize;
        if at + 4 + count > |file| || number + 4 > |file| || FromLE(file[number..number + 4]) != Number(n + 1) then None
        else
          Widths();
          Some(Taken(Entry(count, file[key..value], file[value..number]), number + 4))
    }

    /** The entries handed to the reader from a position on, n having been handed over before. */
    function ReadFrom(file: seq<Byte>, at: nat, n: nat): seq<Entry>
      decreases |file| - at
    {
      match Take(file, at, n)
      case None => []
      case Some(t) => [t.entry] + ReadFrom(file, t.next, n + 1)
    }

    predicate HeaderOk(file: seq<Byte>) {
      |header| <= |file| && file[..|header|] == header
    }

    function Read(file: seq<Byte>): seq<Entry> {
      if HeaderOk(file) then ReadFrom(file, |header|, 0) else []
    }

    // ---------------------------------------------------------------- what reading gives

    lemma {:induction false} FileGrows(es: seq<Entry>, m: nat)
      requires m <= |es|
      ensures |FileOf(es[..m])| <= |FileOf(es)| && FileOf(es)[..|FileOf(es[..m])|] == FileOf(es[..m])
      ensures m < |es| ==> |FileOf(es[..m])| < |FileOf(es)|
      decreases |es| - m
    {
      if m == |es| {
        assert es[..m] == es;
      } else {
        var init := es[..|es| - 1];
        FileGrows(init, m);
        assert init[..m] == es[..m];
        assert FileOf(es)[..|FileOf(init)|] == FileOf(init);
      }
    }

    /** Where entry m of a file lies. */
    lemma EntryAt(es: seq<Entry>, m: nat)
      requires m < |es|
      ensures var at, next := |FileOf(es[..m])|, |FileOf(es[..m + 1])|;
              at <= next <= |FileOf(es)| && FileOf(es)[at..next] == EntryBytes(es[m], Number(m + 1))
    {
      FileGrows(es, m);
      FileGrows(es, m + 1);
      assert es[..m + 1][..m] == es[..m];
      var f, at, next := FileOf(es), |FileOf(es[..m])|, |FileOf(es[..m + 1])|;
      assert f[..next] == FileOf(es[..m]) + EntryBytes(es[m], Number(m + 1));
      assert f[at..next] == f[..next][at..];
    }

    /** Where the parts of an entry lie. */
    lemma PartsAt(file: seq<Byte>, at: nat, e: Entry, number: U32)
      requires Fits(e) && at + |EntryBytes(e, number)| <= |file|
        && file[at..at + |EntryBytes(e, number)|] == EntryBytes(e, number)
      ensures var key, value, num := at + 4, at + 4 + keySize, at + 4 + keySize + e.count * elementSize;
              && num + 4 == at + |EntryBytes(e, number)|
              && FromLE(file[at..at + 4]) == e.count && file[key..value] == e.key && file[value..num] == e.value
              && FromLE(file[num..num + 4]) == number
    {
      Widths();
      FromToLE(e.count, 4);
      FromToLE(number, 4);
      hide ToLE, FromLE;
      Pieces(file, at, ToLE(e.count, 4), e.key, e.value, ToLE(number, 4));
    }

    /** A whole entry is taken. */
    lemma TakeWhole(file: seq<Byte>, at: nat, e: Entry, n: nat)
      requires Ok() && Fits(e) && at + |EntryBytes(e, Number(n + 1))| <= |file|
      requires file[at..at + |EntryBytes(e, Number(n + 1))|] == EntryBytes(e, Number(n + 1))
      ensures Take(file, at, n) == Some(Taken(e, at + |EntryBytes(e, Number(n + 1))|))
    {
      PartsAt(file, at, e, Number(n + 1));
      CountBelow(e.count);
      hide EntryBytes, Number, FromLE;
    }

    lemma CountBelow(count: nat)
      requires Ok()
      ensures count <= count * elementSize
    {
    }

    /** A cut entry is not. */
    lemma TakeCut(whole: seq<Byte>, cut: nat, at: nat, e: Entry, n: nat)
      requires Fits(e) && at + |EntryBytes(e, Number(n + 1))| <= |whole|
      requires whole[at..at + |EntryBytes(e, Number(n + 1))|] == EntryBytes(e, Number(n + 1))
      requires at <= cut < at + |EntryBytes(e, Number(n + 1))|
      ensures Take(whole[..cut], at, n) == None
    {
      PartsAt(whole, at, e, Number(n + 1));
      if at + 4 <= cut {
        assert whole[..cut][at..at + 4] == whole[at..at + 4];
      }
    }

    lemma TakeIs(file: seq<Byte>, at: nat, n: nat)
      requires Take(file, at, n).Some?
      ensures var t := Take(file, at, n).value;
              var key, value, number := at + 4, at + 4 + keySize, at + 4 + keySize + t.entry.count * elementSize;
              && key <= value <= number && t.next == number + 4 <= |file| && Fits(t.entry)
              && t.entry.count == FromLE(file[at..key]) && t.entry.key == file[key..value]
              && t.entry.value == file[value..number]
              && FromLE(file[number..t.next]) == Number(n + 1)
    {
    }

    /** Whatever is taken is there in the file, byte for byte. */
    lemma TakeWrites(file: seq<Byte>, at: nat, n: nat)
      requires Take(file, at, n).Some?
      ensures var t := Take(file, at, n).value;
              Fits(t.entry) && t.next <= |file| && file[at..t.next] == EntryBytes(t.entry, Number(n + 1))
    {
      hide FromLE, ToLE, Take, Fits, Number;
      TakeIs(file, at, n);
      var t := Take(file, at, n).value;
      var key, value, number := at + 4, at + 4 + keySize, at + 4 + keySize + t.entry.count * elementSize;
      ToFromLE(file[at..key]);
      ToFromLE(file[number..number + 4]);
      Joined(file, at, key, value);
      Joined(file, at, value, number);
      Joined(file, at, number, t.next);
    }

    lemma OneAppended(es: seq<Entry>, e: Entry)
      ensures FileOf(es + [e]) == FileOf(es) + EntryBytes(e, Number(|es| + 1))
    {
      assert (es + [e])[..|es|] == es;
    }

    /** What an append adds, byte by byte: the count, the key, the value, and the number of the entry. */
    lemma AppendedBytes(es: seq<Entry>, e: Entry)
      ensures var c, n := e.count as int, (|es| + 1) % 0x1_0000_0000;
              FileOf(es + [e]) == FileOf(es)
                + [c % 256, c / 0x100 % 256, c / 0x1_0000 % 256, c / 0x100_0000 % 256] + e.key + e.value
                + [n % 256, n / 0x100 % 256, n / 0x1_0000 % 256, n / 0x100_0000 % 256]
      ensures FileOf([]) == header
    {
      OneAppended(es, e);
      BytesOfFour(e.count);
      BytesOfFour(Number(|es| + 1));
      hide ToLE;
    }

    /** When an entry is taken, and what is taken, by the bytes there: its count, and so the size of its value,
        and its number. */
    lemma TakenIff(file: seq<Byte>, at: nat, n: nat, count: U32, size: nat)
      requires Ok() && at + 4 <= |file| && size == count * elementSize
      requires count == (file[at] as int) + 0x100 * (file[at + 1] as int) + 0x1_0000 * (file[at + 2] as int)
                        + 0x100_0000 * (file[at + 3] as int)
      ensures var t, value, number := Take(file, at, n), at + 4 + keySize, at + 4 + keySize + size;
              if number + 4 > |file| then t == None
              else
                var m := (file[number] as int) + 0x100 * (file[number + 1] as int)
                         + 0x1_0000 * (file[number + 2] as int) + 0x100_0000 * (file[number + 3] as int);
                t == if m == (n + 1) % 0x1_0000_0000
                     then Some(Taken(Entry(count, file[at + 4..value], file[value..number]), number + 4)) else None
    {
      FourBytes(file[at..at + 4]);
      CountBelow(count);
      var number := at + 4 + keySize + size;
      if number + 4 <= |file| { FourBytes(file[number..number + 4]); }
      hide FromLE;
    }

    lemma NoneTaken(file: seq<Byte>, at: nat, n: nat)
      requires at + 4 > |file|
      ensures Take(file, at, n) == None
    {
    }

    static lemma NumberNext(n: nat)
      ensures (Number(n) + 1) % 0x1_0000_0000 == Number(n + 1)
    {
      assert n == (n / 0x1_0000_0000) * 0x1_0000_0000 + n % 0x1_0000_0000;
      ModShift(n % 0x1_0000_0000 + 1, n / 0x1_0000_0000, 0x1_0000_0000);
    }

    /** How many entries of the file are whole in its first cut bytes. */
    function WholeIn(es: seq<Entry>, cut: nat): (m: nat)
      ensures m <= |es|
    {
      if es == [] || |FileOf(es)| <= cut then |es| else WholeIn(es[..|es| - 1], cut)
    }

    lemma {:induction false} WholeInIs(es: seq<Entry>, cut: nat)
      requires |header| <= cut
      ensures var m := WholeIn(es, cut); |FileOf(es[..m])| <= cut && (m < |es| ==> cut < |FileOf(es[..m + 1])|)
    {
      assert es[..|es|] == es;
      if es != [] && |FileOf(es)| > cut {
        var init := es[..|es| - 1];
        WholeInIs(init, cut);
        var m := WholeIn(es, cut);
        assert init[..m] == es[..m];
        if m < |init| { assert init[..m + 1] == es[..m + 1]; }
      }
    }

    lemma {:induction false} ReadsFrom(es: seq<Entry>, cut: nat, m: nat)
      requires Ok() && AllFit(es) && |header| <= cut <= |FileOf(es)| && m <= WholeIn(es, cut)
      ensures |FileOf(es[..m])| <= cut
      ensures ReadFrom(FileOf(es)[..cut], |FileOf(es[..m])|, m) == es[m..WholeIn(es, cut)]
      decreases |es| - m
    {
      hide EntryBytes, Take, FileOf, WholeIn;
      WholeInIs(es, cut);
      var whole, w := FileOf(es), WholeIn(es, cut);
      var file, at := whole[..cut], |FileOf(es[..m])|;
      FileGrows(es[..w], m);
      assert es[..w][..m] == es[..m];
      if m < |es| {
        EntryAt(es, m);
        OneMore(es, m);
        if m < w {
          FileGrows(es[..w], m + 1);
          assert es[..w][..m + 1] == es[..m + 1];
          assert file[at..|FileOf(es[..m + 1])|] == whole[at..|FileOf(es[..m + 1])|];
          TakeWhole(file, at, es[m], m);
          ReadsFrom(es, cut, m + 1);
        } else {
          TakeCut(whole, cut, at, es[m], m);
        }
      } else {
        assert es[..m] == es && cut == |whole|;
        NoneTaken(file, at, m);
      }
    }

    lemma OneMore(es: seq<Entry>, m: nat)
      requires m < |es|
      ensures |FileOf(es[..m + 1])| == |FileOf(es[..m])| + |EntryBytes(es[m], Number(m + 1))|
    {
      assert es[..m + 1][..m] == es[..m];
    }

    lemma HeaderFirst(es: seq<Entry>)
      ensures HeaderOk(FileOf(es))
    {
      FileGrows(es, 0);
      assert es[..0] == [];
    }

    /** Opening any truncation of a file gives the entries that are whole in it, in order; opening the file
        itself gives them all. */
    lemma TruncationReadsPrefix(es: seq<Entry>, cut: nat)
      requires Ok() && AllFit(es) && cut <= |FileOf(es)|
      ensures Read(FileOf(es)[..cut]) == if cut < |header| then [] else es[..WholeIn(es, cut)]
      ensures Read(FileOf(es)[..cut]) <= es
      ensures cut == |FileOf(es)| ==> Read(FileOf(es)[..cut]) == es
    {
      FileGrows(es, 0);
      assert es[..0] == [];
      if cut >= |header| {
        var whole := FileOf(es);
        assert whole[..cut][..|header|] == whole[..|header|];
        ReadsFrom(es, cut, 0);
        if cut == |whole| { assert WholeIn(es, cut) == |es|; }
      }
    }
  }

  // ---------------------------------------------------------------- the cache

  class LinearDiskCache {
    const format: Format
    var file: seq<Byte>
    var pos: nat
    var numEntries: U32

    constructor (format: Format, file: seq<Byte>)
      ensures this.format == format && this.file == file
    {
      this.format, this.file, pos, numEntries := format, file, 0, 0;
    }

    /** The file is what WriteHeader and these appends made, and the stream stands at its end. */
    ghost predicate Holds(es: seq<Entry>)
      reads this
    {
      && format.Ok() && format.AllFit(es)
      && file == format.FileOf(es) && pos == |file| && numEntries == Format.Number(|es|)
    }

    /** fstream::read: all of it, or as far as the file goes and a failed stream. */
    method ReadBytes(n: nat) returns (ok: bool, bytes: seq<Byte>)
      requires pos <= |file|
      modifies this`pos
      ensures ok <==> old(pos) + n <= |file|
      ensures pos == if ok then old(pos) + n else |file|
      ensures ok ==> bytes == file[old(pos)..pos]
    {
      if pos + n <= |file| {
        ok, bytes := true, file[pos..pos + n];
        pos := pos + n;
      } else {
        ok, bytes := false, [];
        pos := |file|;
      }
    }

    /** One turn of the read loop. */
    method ReadEntry(lastPos: nat) returns (entry: Option<Entry>)
      requires pos == lastPos <= |file|
      modifies this`pos
      ensures lastPos <= pos <= |file|
      ensures var t := format.Take(file, lastPos, numEntries);
              if t.None? then entry.None? else entry == Some(t.value.entry) && pos == t.value.next
    {
      hide FromLE;
      Widths();
      var ok, bytes := ReadBytes(4);
      if !ok {
        return None;
      }
      var count := FromLE(bytes);
      var nextExtent := lastPos + 4 + count;
      if nextExtent > |file| {
        return None;
      }
      var key, value, number;
      ok, key := ReadBytes(format.keySize);
      if ok {
        ok, value := ReadBytes(count * format.elementSize);
        if ok {
          ok, number := ReadBytes(4);
          if ok && FromLE(number) == (numEntries + 1) % 0x1_0000_0000 {
            return Some(Entry(count, key, value));
          }
        }
      }
      return None;
    }

    /** Hands the entries of the file to the reader, or starts the file afresh when its header is not ours.
        Nothing is handed over that is not in the file, in the same order, from the header on. */
    method OpenAndRead() returns (seen: seq<Entry>, count: U32)
      modifies this
      ensures seen == format.Read(old(file)) && count == numEntries == Format.Number(|seen|)
      ensures file == if format.HeaderOk(old(file)) then old(file) else format.header
      ensures format.AllFit(seen) && |format.FileOf(seen)| <= pos <= |file|
      ensures file[..|format.FileOf(seen)|] == format.FileOf(seen)
    {
      hide Format.EntryBytes, Format.Take, Format.ReadFrom, Format.FileOf, Format.AllFit, Format.Number;
      numEntries, pos, seen := 0, 0, [];
      NothingAppended(format);
      var ok, bytes := ReadBytes(|format.header|);
      if !(ok && bytes == format.header) {
        file := format.header;
        pos := |file|;
        return seen, 0;
      }
      var lastPos := pos;
      ghost var whole := format.Read(file);
      hide Format.Read, Format.HeaderOk;
      while true
        invariant pos == lastPos <= |file| && file == old(file)
        invariant numEntries == Format.Number(|seen|)
        invariant |seen| <= |whole| && seen == whole[..|seen|]
          && whole[|seen|..] == format.ReadFrom(file, lastPos, |seen|)
        invariant format.AllFit(seen) && file[..lastPos] == format.FileOf(seen)
        decreases |file| - lastPos
      {
        SameNumber(format, file, lastPos, |seen|);
        ReadsOn(format, file, lastPos, |seen|);
        var entry := ReadEntry(lastPos);
        if entry.None? {
          break;
        }
        Extends(format, file, lastPos, seen);
        HeadTail(whole, |seen|, entry.value, format.ReadFrom(file, pos, |seen| + 1));
        seen := seen + [entry.value];
        numEntries := (numEntries + 1) % 0x1_0000_0000;
        lastPos := pos;
      }
      count := numEntries;
    }

    method Append(e: Entry, ghost es: seq<Entry>)
      requires Holds(es) && format.Fits(e)
      modifies this
      ensures Holds(es + [e])
    {
      hide Format.EntryBytes, Format.FileOf, Format.Fits;
      Format.NumberNext(|es|);
      format.OneAppended(es, e);
      numEntries := (numEntries + 1) % 0x1_0000_0000;
      file := file + format.EntryBytes(e, numEntries);
      pos := |file|;
    }

    /** Closing the cache and opening it again reads back every append of every session so far, and the next
        append goes on where the last one stopped. */
    method Reopen(ghost es: seq<Entry>) returns (seen: seq<Entry>)
      requires Holds(es)
      modifies this
      ensures seen == es && Holds(es)
    {
      format.TruncationReadsPrefix(es, |file|);
      format.HeaderFirst(es);
      assert file[..|file|] == file;
      var count;
      seen, count := OpenAndRead();
    }
  }

  lemma NothingAppended(format: Format)
    ensures format.FileOf([]) == format.header && format.AllFit([]) && Format.Number(0) == 0
  {
  }

  lemma Extends(format: Format, file: seq<Byte>, at: nat, seen: seq<Entry>)
    requires at <= |file| && format.AllFit(seen) && file[..at] == format.FileOf(seen)
      && format.Take(file, at, |seen|).Some?
    ensures var t := format.Take(file, at, |seen|).value;
            && t.next <= |file| && format.AllFit(seen + [t.entry]) && file[..t.next] == format.FileOf(seen + [t.entry])
            && (Format.Number(|seen|) + 1) % 0x1_0000_0000 == Format.Number(|seen + [t.entry]|)
  {
    hide Format.EntryBytes, Format.Take, Format.FileOf, Format.Fits;
    var t := format.Take(file, at, |seen|).value;
    format.TakeWrites(file, at, |seen|);
    format.OneAppended(seen, t.entry);
    Format.NumberNext(|seen|);
    Joined(file, 0, at, t.next);
  }

  lemma ReadsOn(format: Format, file: seq<Byte>, at: nat, n: nat)
    ensures var t := format.Take(file, at, n);
            format.ReadFrom(file, at, n)
              == if t.None? then [] else [t.value.entry] + format.ReadFrom(file, t.value.next, n + 1)
  {
  }

  /** Counting in 32 bits makes no difference to what is taken. */
  lemma SameNumber(format: Format, file: seq<Byte>, at: nat, n: nat)
    ensures format.Take(file, at, Format.Number(n)) == format.Take(file, at, n)
  {
    Format.NumberNext(n);
    Format.NumberNext(Format.Number(n));
  }
}

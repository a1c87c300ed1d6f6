/** The log writer and reader. */
module Log {
  import opened Wrappers
  import opened Coding
  import opened LogFormat

  // ----- Files that end between physical records -----

  /** Bytes of the unfinished block at the end of the file. */
  function Tail(file: seq<Byte>): (r: seq<Byte>)
    ensures |r| < BLOCK && |r| == |file| % BLOCK
  {
    file[|file| - |file| % BLOCK..]
  }

  /** A block that has been filled with whole records so far. */
  ghost predicate Whole(crc: Checksum, buf: seq<Byte>) {
    buf == [] || (Accepts(crc, buf) && Whole(crc, buf[HEADER + LengthOf(buf)..]))
  }

  lemma AcceptsPhysical(crc: Checksum, kind: Byte, data: seq<Byte>, more: seq<Byte>)
    requires kind != 0 && |data| < 0x1_0000
    ensures var buf := Physical(crc, kind, data) + more;
            Accepts(crc, buf) && LengthOf(buf) == |data| && Data(buf) == data && buf[6] == kind
  {
    hide Word, Fixed;
    var buf := Physical(crc, kind, data) + more;
    Powers();
    WordOfFixed(|data|, 2);
    var sum, len := Fixed(crc([kind] + data), 4), Fixed(|data|, 2);
    assert buf == sum + (len + ([kind] + (data + more)));
    assert buf[..4] == sum && buf[4..6] == len && buf[6] == kind;
    assert buf[HEADER..HEADER + |data|] == data;
  }

  /** What comes behind the front record. */
  ghost function Behind(buf: seq<Byte>): seq<Byte>
    requires |buf| >= HEADER && HEADER + LengthOf(buf) <= |buf|
  {
    buf[HEADER + LengthOf(buf)..]
  }

  lemma Unfold(crc: Checksum, buf: seq<Byte>)
    requires Accepts(crc, buf)
    ensures ParseBlock(crc, buf) == [Fragment(buf[6], Data(buf))] + ParseBlock(crc, Behind(buf))
    ensures Whole(crc, buf) <==> Whole(crc, Behind(buf))
    ensures |Behind(buf)| < |buf|
  {
    hide Data;
  }

  lemma {:induction false} WholeAppend(crc: Checksum, a: seq<Byte>, b: seq<Byte>)
    requires Whole(crc, a)
    ensures ParseBlock(crc, a + b) == ParseBlock(crc, a) + ParseBlock(crc, b)
    ensures Whole(crc, b) ==> Whole(crc, a + b)
    decreases |a|
  {
    if a == [] {
      assert a + b == b;
      EmptyEvents(crc);
    } else {
      assert Accepts(crc, a);
      hide Accepts, LengthOf, Data, ParseBlock, Whole, Behind;
      FrontRecord(crc, a, b);
      Unfold(crc, a);
      Unfold(crc, a + b);
      WholeAppend(crc, Behind(a), b);
      assert [Fragment(a[6], Data(a))] + (ParseBlock(crc, Behind(a)) + ParseBlock(crc, b))
          == ([Fragment(a[6], Data(a))] + ParseBlock(crc, Behind(a))) + ParseBlock(crc, b);
    }
  }

  lemma FrontRecord(crc: Checksum, a: seq<Byte>, b: seq<Byte>)
    requires Accepts(crc, a)
    ensures |a| >= HEADER && Accepts(crc, a + b) && LengthOf(a + b) == LengthOf(a) && Data(a + b) == Data(a)
    ensures (a + b)[6] == a[6] && HEADER + LengthOf(a) <= |a|
    ensures Behind(a + b) == Behind(a) + b
  {
    hide Word, Fixed;
    var n := HEADER + LengthOf(a);
    assert a[..n] == (a + b)[..n];
    SameRecord(crc, a, a + b);
  }

  /** More bytes in the unfinished block change only that block. */
  lemma EventsExtend(crc: Checksum, file: seq<Byte>, more: seq<Byte>)
    requires |Tail(file)| + |more| <= BLOCK && Whole(crc, Tail(file))
    ensures Events(crc, file + more) == Events(crc, file) + ParseBlock(crc, more)
  {
    hide ParseBlock, Events, Whole;
    var n := |file| - |file| % BLOCK;
    var done, tail := file[..n], Tail(file);
    assert n % BLOCK == 0;
    assert file == done + tail && file + more == done + (tail + more);
    EventsConcat(crc, done, tail);
    EventsConcat(crc, done, tail + more);
    EventsOfBlock(crc, tail);
    EventsOfBlock(crc, tail + more);
    WholeAppend(crc, tail, more);
    assert Events(crc, done) + (ParseBlock(crc, tail) + ParseBlock(crc, more))
        == (Events(crc, done) + ParseBlock(crc, tail)) + ParseBlock(crc, more);
  }

  lemma TailExtend(file: seq<Byte>, more: seq<Byte>)
    requires |Tail(file)| + |more| <= BLOCK
    ensures Tail(file + more) == if |Tail(file)| + |more| == BLOCK then [] else Tail(file) + more
  {
    var n := |file| - |file| % BLOCK;
    var f := file + more;
    if |Tail(file)| + |more| == BLOCK {
      assert |f| == n + BLOCK && |f| % BLOCK == 0;
    } else {
      assert |f| - n < BLOCK && n % BLOCK == 0;
      assert |f| % BLOCK == |f| - n;
      assert f[n..] == file[n..] + more;
    }
  }

  // ----- The writer -----

  /** The reader's view of a file that ends between physical records. */
  ghost function Seen(crc: Checksum, file: seq<Byte>): Outcome {
    Assemble(Events(crc, file), Outside)
  }

  lemma EndlessMore(es: seq<Event>, e: Event)
    requires ToEnd(es) == es && !IsEnd(e)
    ensures ToEnd(es + [e]) == es + [e]
  {
    ToEndConcat(es, [e]);
    assert [e][1..] == [];
  }

  class Writer {
    const crc: Checksum
    var dest: seq<Byte>
    var blockOffset: nat

    /** Every record added so far. */
    ghost var records: seq<seq<Byte>>

    ghost predicate Valid()
      reads this
    {
      && blockOffset <= BLOCK && |dest| % BLOCK == blockOffset % BLOCK
      && Whole(crc, Tail(dest)) && Endless(crc, dest)
    }

    /** A reader of the file gets exactly the records added. */
    ghost predicate Settled()
      reads this
    {
      Seen(crc, dest) == Outcome(records, Outside)
    }

    constructor (crc: Checksum)
      ensures Valid() && Settled() && this.crc == crc && dest == [] && records == []
    {
      this.crc, dest, blockOffset, records := crc, [], 0, [];
      EmptyEvents(crc);
    }

    method EmitPhysicalRecord(kind: Byte, data: seq<Byte>)
      requires Valid() && 0 < kind < END && blockOffset < BLOCK && blockOffset + HEADER + |data| <= BLOCK
      modifies this
      ensures Valid() && dest == old(dest) + Physical(crc, kind, data)
      ensures blockOffset == old(blockOffset) + HEADER + |data| && records == old(records)
      ensures Events(crc, dest) == old(Events(crc, dest)) + [Fragment(kind, data)]
    {
      hide Events, ParseBlock, Physical, Accepts, Tail;
      var r := Physical(crc, kind, data);
      PhysicalAlone(crc, kind, data);
      EventsExtend(crc, dest, r);
      EndlessMore(Events(crc, dest), Fragment(kind, data));
      TailExtend(dest, r);
      WholeAppend(crc, Tail(dest), r);
      WholeNothing(crc);
      dest := dest + r;
      blockOffset := blockOffset + HEADER + |data|;
    }

    /** The rest of a block too short for a header is filled with zeros. */
    method SwitchBlock()
      requires Valid() && BLOCK - blockOffset < HEADER
      modifies this
      ensures Valid() && blockOffset == 0 && records == old(records)
      ensures Events(crc, dest) == old(Events(crc, dest))
      ensures dest == old(dest) + Zeros(BLOCK - old(blockOffset))
    {
      hide Events, Tail, Accepts;
      var zeros := Zeros(BLOCK - blockOffset);
      if blockOffset == BLOCK {
        assert dest + zeros == dest;
      } else {
        EventsExtend(crc, dest, zeros);
        TailExtend(dest, zeros);
        WholeNothing(crc);
        assert Events(crc, dest) + [] == Events(crc, dest);
      }
      dest, blockOffset := dest + zeros, 0;
    }

    /** What a reader sees after `sent` bytes of `data` have gone out. */
    ghost function During(data: seq<Byte>, sent: nat, begin: bool): Outcome
      requires sent <= |data|
      reads this
    {
      if begin then Outcome(records, Outside)
      else if sent < |data| then Outcome(records, Inside(data[..sent]))
      else Outcome(records + [data], Outside)
    }

    /** `AddRecord`: one fragment per block until the record is out; an empty record still gets one.  No block but the
        first and the last is filled with anything but a header and data. */
    method AddRecord(data: seq<Byte>) returns (ghost fragments: nat)
      requires Valid() && Settled()
      modifies this
      ensures Valid() && Settled() && records == old(records) + [data]
      ensures old(dest) <= dest && fragments >= 1 && (fragments - 2) * (BLOCK - HEADER) <= |data|
      ensures |dest| - |old(dest)| <= |data| + HEADER * fragments + HEADER - 1
    {
      hide Events, Whole, Physical, Assemble;
      var sent, begin := 0, true;
      fragments := 0;
      while begin || sent < |data|
        invariant Valid() && records == old(records) && sent <= |data| && (begin ==> sent == 0)
        invariant !begin && sent < |data| ==> blockOffset == BLOCK && (fragments - 1) * (BLOCK - HEADER) <= sent
        invariant begin == (fragments == 0) && (!begin ==> (fragments - 2) * (BLOCK - HEADER) <= |data|)
        invariant old(dest) <= dest
        invariant |dest| - |old(dest)| <= sent + HEADER * fragments + if begin then 0 else HEADER - 1
        invariant Seen(crc, dest) == During(data, sent, begin)
        decreases |data| - sent, begin
      {
        if BLOCK - blockOffset < HEADER {
          SwitchBlock();
        }
        var avail := BLOCK - blockOffset - HEADER;
        var n := if |data| - sent < avail then |data| - sent else avail;
        var end := |data| - sent == n;
        var kind := if begin && end then FULL else if begin then FIRST else if end then LAST else MIDDLE;
        ghost var es := Events(crc, dest);
        EmitPhysicalRecord(kind, data[sent..sent + n]);
        OneMoreEvent(es, Fragment(kind, data[sent..sent + n]));
        assert data[..sent] + data[sent..sent + n] == data[..sent + n];
        assert data[0..|data|] == data && data[..|data|] == data;
        sent, begin, fragments := sent + n, false, fragments + 1;
      }
      records := records + [data];
    }
  }

  lemma OneMoreEvent(es: seq<Event>, e: Event)
    ensures var x := Assemble(es, Outside);
            var r := React(e, x.scratch);
            Assemble(es + [e], Outside) == Outcome(x.records + r.records, r.scratch)
  {
    hide React;
    AssembleConcat(es, [e], Outside);
    assert [e][1..] == [];
    var r := React(e, Assemble(es, Outside).scratch);
    assert r.records + [] == r.records;
  }

  // ----- Preallocated space -----

  ghost predicate AllBad(es: seq<Event>) {
    forall i | 0 <= i < |es| :: es[i] == Bad
  }

  lemma {:induction false} BadsAddNothing(es: seq<Event>, s: Scratch)
    requires AllBad(es)
    ensures Assemble(es, s).records == []
    decreases |es|
  {
    if es != [] { BadsAddNothing(es[1..], Outside); }
  }

  lemma {:induction false} BadsHaveNoEnd(es: seq<Event>)
    requires AllBad(es)
    ensures ToEnd(es) == es
    decreases |es|
  {
    if es != [] {
      BadsHaveNoEnd(es[1..]);
      assert es == [es[0]] + es[1..];
    }
  }

  lemma ZerosAreBad(crc: Checksum, n: nat)
    ensures AllBad(ParseBlock(crc, Zeros(n)))
  {
    hide Fixed;
    if n >= HEADER {
      var z := Zeros(n);
      assert z[4..6] == [0, 0];
      assert Word([0, 0]) == 0 + 256 * Word([0, 0][1..]);
      assert [0, 0][1..] == [0];
      assert Word([0]) == 0 + 256 * Word([0][1..]);
      assert LengthOf(z) == 0 && z[6] == 0;
    }
  }

  lemma {:induction false} ZerosConcat(a: nat, b: nat)
    ensures Zeros(a) + Zeros(b) == Zeros(a + b)
  {
  }

  /** Zeros behind the last record, as many as there may be, change nothing. */
  lemma {:induction false} ZeroTailIgnored(crc: Checksum, file: seq<Byte>, k: nat)
    requires Whole(crc, Tail(file))
    ensures ReadAll(crc, file + Zeros(k)) == ReadAll(crc, file)
    decreases k
  {
    hide Whole, Tail, Events, ParseBlock, Assemble, Zeros, ToEnd;
    var room := BLOCK - |Tail(file)|;
    var n := if k <= room then k else room;
    EventsExtend(crc, file, Zeros(n));
    ZerosAreBad(crc, n);
    var es, bad := Events(crc, file), ParseBlock(crc, Zeros(n));
    ToEndConcat(es, bad);
    BadsHaveNoEnd(bad);
    AssembleConcat(es, bad, Outside);
    var x := Assemble(es, Outside);
    BadsAddNothing(bad, x.scratch);
    assert x.records + [] == x.records;
    if k > room {
      TailExtend(file, Zeros(n));
      WholeNothing(crc);
      ZeroTailIgnored(crc, file + Zeros(n), k - n);
      ZerosConcat(n, k - n);
      assert file + Zeros(n) + Zeros(k - n) == file + (Zeros(n) + Zeros(k - n));
    }
  }

  function Zeros(n: nat): (r: seq<Byte>)
    ensures |r| == n && forall i | 0 <= i < n :: r[i] == 0
  {
    if n == 0 then [] else [0] + Zeros(n - 1)
  }

  lemma WholeNothing(crc: Checksum)
    ensures Whole(crc, [])
  {
  }

  lemma PhysicalAlone(crc: Checksum, kind: Byte, data: seq<Byte>)
    requires kind != 0 && |data| < 0x1_0000
    ensures Whole(crc, Physical(crc, kind, data))
    ensures ParseBlock(crc, Physical(crc, kind, data)) == [Fragment(kind, data)]
  {
    hide Accepts, LengthOf, Data;
    var r := Physical(crc, kind, data);
    AcceptsPhysical(crc, kind, data, []);
    assert r + [] == r;
    assert r[HEADER + |data|..] == [];
  }

  /** A file with one whole record that the reader never gets: behind a record of the end mark's type. */
  lemma EndMarkHides(crc: Checksum, data: seq<Byte>)
    requires |data| <= BLOCK - 2 * HEADER
    ensures var file := Physical(crc, END, []) + Physical(crc, FULL, data);
            ReadAll(crc, file) == [] && Assemble(Events(crc, file), Outside).records == [data]
  {
    hide ParseBlock, Physical, Whole;
    var a, b := Physical(crc, END, []), Physical(crc, FULL, data);
    PhysicalAlone(crc, END, []);
    PhysicalAlone(crc, FULL, data);
    WholeAppend(crc, a, b);
    EventsOfBlock(crc, a + b);
    EndThenFull(data);
  }

  lemma EndThenFull(data: seq<Byte>)
    ensures var es := [Fragment(END, [])] + [Fragment(FULL, data)];
            ToEnd(es) == [] && Assemble(es, Outside).records == [data]
  {
    var es := [Fragment(END, [])] + [Fragment(FULL, data)];
    assert es[1..] == [Fragment(FULL, data)] && es[1..][1..] == [];
    assert Assemble(es[1..], Outside) == Outcome([data], Outside);
  }

  // ----- The reader -----

  /** The records a reader still returns. */
  ghost function Coming(es: seq<Event>, s: Scratch): seq<seq<Byte>> {
    Assemble(ToEnd(es), s).records
  }

  lemma ComingNext(e: Event, es: seq<Event>, s: Scratch)
    requires !IsEnd(e)
    ensures Coming([e] + es, s) == React(e, s).records + Coming(es, React(e, s).scratch)
  {
    assert ([e] + es)[1..] == es;
    assert ([e] + ToEnd(es))[1..] == ToEnd(es);
  }

  class Reader {
    const crc: Checksum
    const file: seq<Byte>
    var position: nat
    var buffer: seq<Byte>
    var eof: bool

    ghost predicate Valid()
      reads this
    {
      position <= |file| && |buffer| <= BLOCK
    }

    /** The physical reads still to come. */
    ghost function Pending(): seq<Event>
      requires Valid()
      reads this
    {
      ParseBlock(crc, buffer) + if eof then [] else Events(crc, file[position..])
    }

    constructor (crc: Checksum, file: seq<Byte>)
      ensures Valid() && this.crc == crc && this.file == file && Pending() == Events(crc, file)
    {
      this.crc, this.file, position, buffer, eof := crc, file, 0, [], false;
      new;
      assert file[0..] == file;
    }

    /** One more block, or what is left. */
    method Refill()
      requires Valid() && |buffer| < HEADER && !eof
      modifies this
      ensures Valid() && Pending() == old(Pending())
      ensures eof || position == old(position) + BLOCK
      ensures old(position) <= position
    {
      hide Accepts, Data, LengthOf;
      var rest := file[position..];
      var n := if |rest| < BLOCK then |rest| else BLOCK;
      buffer := rest[..n];
      eof := n < BLOCK;
      assert rest[n..] == file[position + n..];
      assert n < BLOCK ==> rest[..n] == rest;
      position := position + n;
    }

    /** `ReadPhysicalRecord`; nothing at the end of the file. */
    method ReadPhysicalRecord() returns (r: Option<Event>)
      requires Valid()
      modifies this
      ensures Valid()
      ensures r.None? ==> old(Pending()) == [] && Pending() == []
      ensures r.Some? ==> old(Pending()) == [r.value] + Pending()
    {
      hide Data, LengthOf, Events;
      while |buffer| < HEADER
        invariant Valid() && Pending() == old(Pending())
        decreases !eof, |file| - position
      {
        if eof {
          buffer := [];
          return None;
        }
        Refill();
      }
      if !Accepts(crc, buffer) {
        buffer := [];
        return Some(Bad);
      }
      r := Some(Fragment(buffer[6], Data(buffer)));
      var rest := buffer[HEADER + LengthOf(buffer)..];
      Unfold(crc, buffer);
      buffer := rest;
    }

    /** `ReadRecord`: the next logical record, or nothing at the end of the file. */
    method ReadRecord() returns (r: Option<seq<Byte>>)
      requires Valid()
      modifies this
      ensures Valid()
      ensures r.None? ==> Coming(old(Pending()), Outside) == []
      ensures r.Some? ==> Coming(old(Pending()), Outside) == [r.value] + Coming(Pending(), Outside)
      ensures |Pending()| < |old(Pending())| || r.None?
    {
      hide Events, ParseBlock, Pending;
      var scratch := Outside;
      while true
        invariant Valid() && Coming(Pending(), scratch) == Coming(old(Pending()), Outside)
        invariant |Pending()| <= |old(Pending())|
        decreases |Pending()|
      {
        ghost var was := Pending();
        var e := ReadPhysicalRecord();
        if e.None? || IsEnd(e.value) {
          return None;
        }
        ComingNext(e.value, Pending(), scratch);
        var out := React(e.value, scratch);
        if out.records != [] {
          ReactOne(e.value, scratch);
          return Some(out.records[0]);
        }
        assert [] + Coming(Pending(), out.scratch) == Coming(Pending(), out.scratch);
        scratch := out.scratch;
      }
    }
  }

  lemma ReactOne(e: Event, s: Scratch)
    ensures |React(e, s).records| <= 1
    ensures React(e, s).records != [] ==> React(e, s).scratch == Outside
  {
  }

  /** Read a file to its end. */
  method ReadFile(crc: Checksum, file: seq<Byte>) returns (records: seq<seq<Byte>>)
    ensures records == ReadAll(crc, file)
  {
    hide Events, ParseBlock, Assemble, ToEnd;
    var reader := new Reader(crc, file);
    records := [];
    assert [] + ReadAll(crc, file) == ReadAll(crc, file);
    while true
      invariant reader.Valid() && reader.crc == crc
      invariant records + Coming(reader.Pending(), Outside) == ReadAll(crc, file)
      decreases |reader.Pending()|
    {
      ghost var was := Coming(reader.Pending(), Outside);
      var r := reader.ReadRecord();
      if r.None? {
        return;
      }
      ghost var later := Coming(reader.Pending(), Outside);
      assert records + ([r.value] + later) == (records + [r.value]) + later;
      records := records + [r.value];
    }
  }

  /** Write records, read them back: exactly those records, whatever their sizes. */
  method RoundTrip(crc: Checksum, records: seq<seq<Byte>>) returns (result: seq<seq<Byte>>)
    ensures result == records
  {
    hide Events, Assemble, Whole, ToEnd;
    var w := new Writer(crc);
    for i := 0 to |records|
      invariant fresh(w) && w.Valid() && w.Settled() && w.records == records[..i] && w.crc == crc
    {
      ghost var n := w.AddRecord(records[i]);
    }
    result := ReadFile(crc, w.dest);
    assert records[..|records|] == records;
  }
}

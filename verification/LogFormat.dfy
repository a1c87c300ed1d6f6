/** The log file format: physical records inside 32 KB blocks, and the logical records they
    assemble to.  The checksum is any function of the type byte and the payload. */
module LogFormat {
  import opened Coding

  const BLOCK: nat := 32768
  const HEADER: nat := 7

  const FULL: Byte := 1
  const FIRST: Byte := 2
  const MIDDLE: Byte := 3
  const LAST: Byte := 4

  /** `kEof`: the reader's mark for the end of the file, and a possible type byte. */
  const END: Byte := 5

  type Checksum = seq<Byte> -> nat

  /** What one physical read yields. */
  datatype Event = Fragment(kind: Byte, data: seq<Byte>) | Bad

  // ----- Physical records -----

  function Physical(crc: Checksum, kind: Byte, data: seq<Byte>): (r: seq<Byte>)
    ensures |r| == HEADER + |data|
  {
    Fixed(crc([kind] + data), 4) + Fixed(|data|, 2) + [kind] + data
  }

  /** Length field of the record at the front of `buf`. */
  function LengthOf(buf: seq<Byte>): nat
    requires |buf| >= HEADER
  {
    Word(buf[4..6])
  }

  function Data(buf: seq<Byte>): seq<Byte>
    requires |buf| >= HEADER && HEADER + LengthOf(buf) <= |buf|
  {
    buf[HEADER..HEADER + LengthOf(buf)]
  }

  /** The record at the front of `buf` is whole, not preallocated space, and passes its check. */
  predicate Accepts(crc: Checksum, buf: seq<Byte>) {
    && |buf| >= HEADER && HEADER + LengthOf(buf) <= |buf|
    && !(buf[6] == 0 && LengthOf(buf) == 0)
    && buf[..4] == Fixed(crc([buf[6]] + Data(buf)), 4)
  }

  /** A block, or what there is of the last one: after a bad record the rest is dropped. */
  function ParseBlock(crc: Checksum, buf: seq<Byte>): seq<Event> {
    if |buf| < HEADER then []
    else if !Accepts(crc, buf) then [Bad]
    else [Fragment(buf[6], Data(buf))] + ParseBlock(crc, buf[HEADER + LengthOf(buf)..])
  }

  function Events(crc: Checksum, file: seq<Byte>): seq<Event> {
    if |file| < BLOCK then ParseBlock(crc, file)
    else ParseBlock(crc, file[..BLOCK]) + Events(crc, file[BLOCK..])
  }

  // ----- Logical records -----

  /** Between records, or inside one with the data so far. */
  datatype Scratch = Outside | Inside(data: seq<Byte>)

  datatype Outcome = Outcome(records: seq<seq<Byte>>, scratch: Scratch)

  /** `ReadRecord`'s reaction to one physical read that is not the end: a record, or a new scratch state.
      A type byte of 6, `kBadRecord`, does what any unknown type does. */
  function React(e: Event, s: Scratch): Outcome {
    match e
    case Bad => Outcome([], Outside)
    case Fragment(kind, data) =>
      if kind == FULL then Outcome([data], Outside)
      else if kind == FIRST then Outcome([], Inside(data))
      else if kind == MIDDLE then Outcome([], if s.Inside? then Inside(s.data + data) else Outside)
      else if kind == LAST then (if s.Inside? then Outcome([s.data + data], Outside) else Outcome([], Outside))
      else Outcome([], Outside)
  }

  function Assemble(es: seq<Event>, s: Scratch): Outcome {
    if es == [] then Outcome([], s)
    else
      var now := React(es[0], s);
      var later := Assemble(es[1..], now.scratch);
      Outcome(now.records + later.records, later.scratch)
  }

  predicate IsEnd(e: Event) {
    e.Fragment? && e.kind == END
  }

  /** What is read before a record that looks like the end of the file. */
  function ToEnd(es: seq<Event>): (r: seq<Event>)
    ensures r <= es
  {
    if es == [] || IsEnd(es[0]) then [] else [es[0]] + ToEnd(es[1..])
  }

  /** Everything a reader gets out of a file. */
  function ReadAll(crc: Checksum, file: seq<Byte>): seq<seq<Byte>> {
    Assemble(ToEnd(Events(crc, file)), Outside).records
  }

  /** No record of the file looks like its end. */
  ghost predicate Endless(crc: Checksum, file: seq<Byte>) {
    ToEnd(Events(crc, file)) == Events(crc, file)
  }

  lemma {:induction false} ToEndConcat(a: seq<Event>, b: seq<Event>)
    ensures ToEnd(a + b) == if ToEnd(a) == a then a + ToEnd(b) else ToEnd(a)
    decreases |a|
  {
    if a == [] {
      assert a + b == b;
    } else {
      assert (a + b)[1..] == a[1..] + b;
      if !IsEnd(a[0]) {
        ToEndConcat(a[1..], b);
        assert a == [a[0]] + a[1..];
        assert ToEnd(a) == a <==> ToEnd(a[1..]) == a[1..] by {
          assert ([a[0]] + ToEnd(a[1..]))[1..] == ToEnd(a[1..]);
        }
      }
    }
  }

  lemma {:induction false} AssembleConcat(a: seq<Event>, b: seq<Event>, s: Scratch)
    ensures var x := Assemble(a, s);
            var y := Assemble(b, x.scratch);
            Assemble(a + b, s) == Outcome(x.records + y.records, y.scratch)
    decreases |a|
  {
    hide React;
    if a == [] {
      assert a + b == b;
      var y := Assemble(b, s);
      assert [] + y.records == y.records;
    } else {
      var now := React(a[0], s);
      AssembleConcat(a[1..], b, now.scratch);
      assert (a + b)[1..] == a[1..] + b;
      var x, y := Assemble(a[1..], now.scratch), Assemble(b, Assemble(a, s).scratch);
      assert now.records + (x.records + y.records) == (now.records + x.records) + y.records;
    }
  }

  // ----- The end mark -----

  lemma {:induction false} StopsAtEnd(es: seq<Event>)
    requires |ToEnd(es)| < |es|
    ensures IsEnd(es[|ToEnd(es)|])
  {
    if !IsEnd(es[0]) { StopsAtEnd(es[1..]); }
  }

  /** A reader that reads past an end mark goes on as from the start of a file. */
  lemma EndAddsNothing(e: Event, s: Scratch)
    requires IsEnd(e)
    ensures React(e, s) == Outcome([], Outside)
  {
  }

  /** The reader gets every record of the file, if and only if no record looks like its end or none is
      complete behind the first that does. */
  lemma ReadsEverythingIff(crc: Checksum, file: seq<Byte>)
    ensures var es := Events(crc, file);
            var n := |ToEnd(es)|;
            && (ReadAll(crc, file) == Assemble(es, Outside).records <==>
                n == |es| || Assemble(es[n + 1..], Outside).records == [])
  {
    hide React, Events;
    var es := Events(crc, file);
    var n := |ToEnd(es)|;
    assert es == es[..n] + es[n..] && es[..n] == ToEnd(es);
    if n < |es| {
      StopsAtEnd(es);
      AssembleConcat(es[..n], es[n..], Outside);
      assert es[n..][1..] == es[n + 1..];
      EndAddsNothing(es[n], Assemble(es[..n], Outside).scratch);
      var front, back := Assemble(es[..n], Outside).records, Assemble(es[n + 1..], Outside).records;
      assert [] + back == back;
      assert front + back == front <==> back == [];
    } else {
      assert es[..n] == es;
    }
  }

  // ----- Blocks -----

  lemma {:induction false} EventsConcat(crc: Checksum, a: seq<Byte>, b: seq<Byte>)
    requires |a| % BLOCK == 0
    ensures Events(crc, a + b) == Events(crc, a) + Events(crc, b)
    decreases |a|
  {
    hide ParseBlock;
    if a == [] {
      assert a + b == b;
      EmptyEvents(crc);
    } else {
      assert (a + b)[..BLOCK] == a[..BLOCK] && (a + b)[BLOCK..] == a[BLOCK..] + b;
      EventsConcat(crc, a[BLOCK..], b);
      assert ParseBlock(crc, a[..BLOCK]) + (Events(crc, a[BLOCK..]) + Events(crc, b))
          == (ParseBlock(crc, a[..BLOCK]) + Events(crc, a[BLOCK..])) + Events(crc, b);
    }
  }

  lemma EmptyEvents(crc: Checksum)
    ensures Events(crc, []) == [] && ParseBlock(crc, []) == []
  {
  }

  /** A block's worth of bytes, full or not. */
  lemma EventsOfBlock(crc: Checksum, buf: seq<Byte>)
    requires |buf| <= BLOCK
    ensures Events(crc, buf) == ParseBlock(crc, buf)
  {
    hide ParseBlock;
    if |buf| == BLOCK {
      assert buf[..BLOCK] == buf && buf[BLOCK..] == [];
      EmptyEvents(crc);
    }
  }

  // ----- Truncation -----

  /** `got` is the start of `all`, possibly followed by one bad read. */
  ghost predicate CutShort(got: seq<Event>, all: seq<Event>) {
    got <= all || (|got| > 0 && got[|got| - 1] == Bad && got[..|got| - 1] <= all)
  }

  lemma {:induction false} CutBlock(crc: Checksum, buf: seq<Byte>, n: nat)
    requires n <= |buf|
    ensures CutShort(ParseBlock(crc, buf[..n]), ParseBlock(crc, buf))
    decreases n
  {
    hide Accepts, LengthOf, Data;
    var cut := buf[..n];
    if n >= HEADER && Accepts(crc, cut) {
      CutRecord(crc, buf, n);
      var size := HEADER + LengthOf(buf);
      CutBlock(crc, buf[size..], n - size);
      CutShortMore(Fragment(buf[6], Data(buf)), ParseBlock(crc, cut[size..]), ParseBlock(crc, buf[size..]));
    }
  }

  lemma CutRecord(crc: Checksum, buf: seq<Byte>, n: nat)
    requires HEADER <= n <= |buf| && Accepts(crc, buf[..n])
    ensures Accepts(crc, buf) && buf[..n][6] == buf[6] && Data(buf[..n]) == Data(buf)
    ensures var size := HEADER + LengthOf(buf);
            LengthOf(buf[..n]) == LengthOf(buf) && size <= n && buf[..n][size..] == buf[size..][..n - size]
  {
    hide Word, Fixed;
    var size := HEADER + LengthOf(buf[..n]);
    SliceOfSlice(buf, 0, n, 0, size);
    assert buf[..n] == buf[0..n];
    SameRecord(crc, buf[..n], buf);
    SliceOfSlice(buf, 0, n, size, n);
    SliceOfSlice(buf, size, |buf|, 0, n - size);
    assert buf[size..] == buf[size..|buf|];
  }

  /** Acceptance looks at the bytes of one record only. */
  lemma SameRecord(crc: Checksum, a: seq<Byte>, b: seq<Byte>)
    requires Accepts(crc, a)
    requires HEADER + LengthOf(a) <= |b| && a[..HEADER + LengthOf(a)] == b[..HEADER + LengthOf(a)]
    ensures Accepts(crc, b) && LengthOf(b) == LengthOf(a) && Data(b) == Data(a) && b[6] == a[6]
  {
    hide Word, Fixed;
    var n := HEADER + LengthOf(a);
    assert a[4..6] == a[..n][4..6] && b[4..6] == b[..n][4..6];
    assert a[..4] == a[..n][..4] && b[..4] == b[..n][..4];
    assert a[6] == a[..n][6] && b[6] == b[..n][6];
    assert a[HEADER..n] == a[..n][HEADER..] && b[HEADER..n] == b[..n][HEADER..];
  }

  lemma CutShortMore(e: Event, got: seq<Event>, all: seq<Event>)
    requires CutShort(got, all)
    ensures CutShort([e] + got, [e] + all)
  {
    if !(got <= all) {
      assert ([e] + got)[..|got|] == [e] + got[..|got| - 1];
    }
  }

  lemma CutShortAfter(front: seq<Event>, got: seq<Event>, all: seq<Event>)
    requires CutShort(got, all)
    ensures CutShort(front + got, front + all)
  {
    if !(got <= all) {
      var n := |front + got| - 1;
      assert (front + got)[..n] == front + got[..|got| - 1];
    }
  }

  lemma {:induction false} CutFile(crc: Checksum, file: seq<Byte>, n: nat)
    requires n <= |file|
    ensures CutShort(Events(crc, file[..n]), Events(crc, file))
    decreases |file|
  {
    hide ParseBlock;
    var cut := file[..n];
    if |file| < BLOCK {
      CutBlock(crc, file, n);
    } else if n < BLOCK {
      assert cut == file[..BLOCK][..n];
      CutBlock(crc, file[..BLOCK], n);
      CutShortLonger(ParseBlock(crc, cut), ParseBlock(crc, file[..BLOCK]), Events(crc, file[BLOCK..]));
    } else {
      assert cut[..BLOCK] == file[..BLOCK] && cut[BLOCK..] == file[BLOCK..][..n - BLOCK];
      CutFile(crc, file[BLOCK..], n - BLOCK);
      CutShortAfter(ParseBlock(crc, file[..BLOCK]), Events(crc, cut[BLOCK..]), Events(crc, file[BLOCK..]));
    }
  }

  lemma CutShortLonger(got: seq<Event>, all: seq<Event>, more: seq<Event>)
    requires CutShort(got, all)
    ensures CutShort(got, all + more)
  {
  }

  lemma AssemblePrefix(got: seq<Event>, all: seq<Event>, s: Scratch)
    requires got <= all
    ensures Assemble(got, s).records <= Assemble(all, s).records
  {
    assert all == got + all[|got|..];
    AssembleConcat(got, all[|got|..], s);
  }

  /** Stopping at the end mark keeps a cut a cut. */
  lemma CutToEnd(got: seq<Event>, all: seq<Event>)
    requires CutShort(got, all)
    ensures CutShort(ToEnd(got), ToEnd(all))
  {
    hide ToEnd;
    if got <= all {
      ToEndPrefix(got, all);
    } else {
      var m := |got| - 1;
      assert got == got[..m] + [Bad];
      ToEndPrefix(got[..m], all);
      ToEndConcat(got[..m], [Bad]);
      BadIsNoEnd();
      EndsBad(ToEnd(got[..m]));
    }
  }

  lemma ToEndPrefix(a: seq<Event>, b: seq<Event>)
    requires a <= b
    ensures ToEnd(a) <= ToEnd(b)
  {
    hide ToEnd;
    assert b == a + b[|a|..];
    ToEndConcat(a, b[|a|..]);
  }

  lemma EndsBad(es: seq<Event>)
    ensures var r := es + [Bad]; r[|r| - 1] == Bad && r[..|r| - 1] == es
  {
  }

  lemma BadIsNoEnd()
    ensures ToEnd([Bad]) == [Bad]
  {
    assert [Bad][1..] == [];
  }

  /** Cutting a file anywhere loses records from the end and nothing else. */
  lemma TruncationKeepsPrefix(crc: Checksum, file: seq<Byte>, n: nat)
    requires n <= |file|
    ensures ReadAll(crc, file[..n]) <= ReadAll(crc, file)
  {
    hide Events, Assemble, ToEnd;
    CutFile(crc, file, n);
    CutToEnd(Events(crc, file[..n]), Events(crc, file));
    var got, all := ToEnd(Events(crc, file[..n])), ToEnd(Events(crc, file));
    if got <= all {
      AssemblePrefix(got, all, Outside);
    } else {
      var m := |got| - 1;
      AssemblePrefix(got[..m], all, Outside);
      assert got == got[..m] + [Bad];
      AssembleConcat(got[..m], [Bad], Outside);
      BadAddsNothing(Assemble(got[..m], Outside).scratch);
    }
  }

  lemma BadAddsNothing(s: Scratch)
    ensures Assemble([Bad], s) == Outcome([], Outside)
  {
    assert [Bad][1..] == [];
  }

  // ----- Damage -----

  /** `es` with some stretches lost, each marked by a bad read; the end may be lost silently. */
  ghost predicate Damaged(es: seq<Event>, got: seq<Event>)
    decreases |es| + |got|
  {
    || got == []
    || (es != [] && got[0] == es[0] && Damaged(es[1..], got[1..]))
    || (got[0] == Bad && exists k :: 0 <= k <= |es| && Damaged(es[k..], got[1..]))
  }

  /** The same records in the same order, some missing. */
  ghost predicate Subsequence(a: seq<seq<Byte>>, b: seq<seq<Byte>>)
    decreases |b|
  {
    || a == []
    || (b != [] && ((a[0] == b[0] && Subsequence(a[1..], b[1..])) || Subsequence(a, b[1..])))
  }

  lemma {:induction false} SubsequenceSkip(a: seq<seq<Byte>>, front: seq<seq<Byte>>, b: seq<seq<Byte>>)
    requires Subsequence(a, b)
    ensures Subsequence(a, front + b)
    decreases |front|
  {
    if front == [] {
      assert front + b == b;
    } else {
      SubsequenceSkip(a, front[1..], b);
      assert (front + b)[1..] == front[1..] + b;
    }
  }

  lemma SubsequenceBoth(x: seq<seq<Byte>>, a: seq<seq<Byte>>, b: seq<seq<Byte>>)
    requires |x| <= 1 && Subsequence(a, b)
    ensures Subsequence(x + a, x + b)
  {
    if x == [] {
      assert x + a == a && x + b == b;
    } else {
      assert (x + a)[1..] == a && (x + b)[1..] == b;
    }
  }

  /** A reader that lost track is between records; otherwise it agrees with the undamaged one. */
  ghost predicate Follows(s': Scratch, s: Scratch) {
    s' == s || s' == Outside
  }

  lemma ReactFollows(e: Event, s: Scratch, s': Scratch)
    requires Follows(s', s)
    ensures Follows(React(e, s').scratch, React(e, s).scratch) && |React(e, s).records| <= 1
    ensures React(e, s').records == React(e, s).records || React(e, s').records == []
  {
  }

  /** Damage that is noticed loses whole records; nothing is ever assembled from two. */
  lemma {:induction false} DamagedIsSubsequence(es: seq<Event>, got: seq<Event>, s: Scratch, s': Scratch)
    requires Damaged(es, got) && Follows(s', s)
    ensures Subsequence(Assemble(got, s').records, Assemble(es, s).records)
    decreases |es| + |got|
  {
    hide React, Subsequence;
    if got == [] {
      NoneIsSubsequence(Assemble(es, s).records);
    } else if es != [] && got[0] == es[0] && Damaged(es[1..], got[1..]) {
      var e := es[0];
      ReactFollows(e, s, s');
      var x, x' := React(e, s), React(e, s');
      DamagedIsSubsequence(es[1..], got[1..], x.scratch, x'.scratch);
      var a, b := Assemble(got[1..], x'.scratch).records, Assemble(es[1..], x.scratch).records;
      if x'.records == x.records {
        SubsequenceBoth(x.records, a, b);
      } else {
        assert x'.records + a == a;
        SubsequenceSkip(a, x.records, b);
      }
    } else {
      var k :| 0 <= k <= |es| && Damaged(es[k..], got[1..]);
      assert es == es[..k] + es[k..];
      AssembleConcat(es[..k], es[k..], s);
      BadReacts(s');
      DamagedIsSubsequence(es[k..], got[1..], Assemble(es[..k], s).scratch, Outside);
      var a := Assemble(got[1..], Outside).records;
      assert [] + a == a;
      SubsequenceSkip(a, Assemble(es[..k], s).records, Assemble(es[k..], Assemble(es[..k], s).scratch).records);
    }
  }

  lemma NoneIsSubsequence(b: seq<seq<Byte>>)
    ensures Subsequence([], b)
  {
  }

  lemma BadReacts(s: Scratch)
    ensures React(Bad, s) == Outcome([], Outside)
  {
  }

  ghost predicate SameBytes(a: seq<Byte>, b: seq<Byte>, p: nat, n: nat) {
    p + n <= |a| && p + n <= |b| && a[p..p + n] == b[p..p + n]
  }

  /** Every record the reader accepts in the damaged block is the one written there, from the front of
      the block to where it gives up. */
  ghost predicate BlockDetected(crc: Checksum, old': seq<Byte>, new': seq<Byte>)
    decreases |new'|
  {
    && |new'| == |old'|
    && (Accepts(crc, new') ==>
          var n := HEADER + LengthOf(new');
          SameBytes(old', new', 0, n) && BlockDetected(crc, old'[n..], new'[n..]))
  }

  /** The same, block by block. */
  ghost predicate Detected(crc: Checksum, old': seq<Byte>, new': seq<Byte>)
    decreases |new'|
  {
    && |new'| == |old'|
    && if |new'| < BLOCK then BlockDetected(crc, old', new')
       else BlockDetected(crc, old'[..BLOCK], new'[..BLOCK]) && Detected(crc, old'[BLOCK..], new'[BLOCK..])
  }

  /** `got` is all of `all`, or its start followed by one bad read. */
  ghost predicate Marked(got: seq<Event>, all: seq<Event>) {
    got == all || (|got| > 0 && got[|got| - 1] == Bad && got[..|got| - 1] <= all)
  }

  lemma MarkedMore(e: Event, got: seq<Event>, all: seq<Event>)
    requires Marked(got, all)
    ensures Marked([e] + got, [e] + all)
  {
    if got != all {
      assert ([e] + got)[..|got|] == [e] + got[..|got| - 1];
    }
  }

  lemma {:induction false} DamagedBlock(crc: Checksum, a: seq<Byte>, b: seq<Byte>)
    requires BlockDetected(crc, a, b)
    ensures Marked(ParseBlock(crc, b), ParseBlock(crc, a))
    decreases |a|
  {
    hide Accepts, LengthOf, Data;
    if |b| >= HEADER && Accepts(crc, b) {
      DetectedRecord(crc, a, b);
      var n := HEADER + LengthOf(b);
      DamagedBlock(crc, a[n..], b[n..]);
      MarkedMore(Fragment(b[6], Data(b)), ParseBlock(crc, b[n..]), ParseBlock(crc, a[n..]));
    }
  }

  lemma DetectedRecord(crc: Checksum, a: seq<Byte>, b: seq<Byte>)
    requires BlockDetected(crc, a, b) && |b| >= HEADER && Accepts(crc, b)
    ensures Accepts(crc, a) && LengthOf(a) == LengthOf(b) && Data(a) == Data(b) && a[6] == b[6]
    ensures HEADER + LengthOf(b) <= |a|
  {
    hide Word, Fixed;
    var n := HEADER + LengthOf(b);
    assert b[..n] == b[0..n] && a[0..n] == a[..n];
    SameRecord(crc, b, a);
  }

  /** Whatever is damaged, as long as no damaged record passes its check where the reader meets it: the
      records read are a subsequence of the records written, none put together from pieces of others. */
  lemma DetectedDamageLosesRecords(crc: Checksum, a: seq<Byte>, b: seq<Byte>)
    requires Detected(crc, a, b)
    ensures Subsequence(ReadAll(crc, b), Assemble(Events(crc, a), Outside).records)
    ensures Endless(crc, a) ==> Subsequence(ReadAll(crc, b), ReadAll(crc, a))
  {
    hide Events, Assemble, Detected, ToEnd, Damaged;
    DamagedFile(crc, a, b);
    var es, got := Events(crc, a), Events(crc, b);
    DamagedPrefix(es, got, |ToEnd(got)|);
    assert got[..|ToEnd(got)|] == ToEnd(got);
    DamagedIsSubsequence(es, ToEnd(got), Outside, Outside);
  }

  lemma {:induction false} DamagedPrefix(es: seq<Event>, got: seq<Event>, n: nat)
    requires Damaged(es, got) && n <= |got|
    ensures Damaged(es, got[..n])
    decreases |es| + |got|
  {
    if n > 0 {
      assert got[..n][1..] == got[1..][..n - 1];
      if es != [] && got[0] == es[0] && Damaged(es[1..], got[1..]) {
        DamagedPrefix(es[1..], got[1..], n - 1);
      } else {
        var k :| 0 <= k <= |es| && Damaged(es[k..], got[1..]);
        DamagedPrefix(es[k..], got[1..], n - 1);
      }
    }
  }

  lemma {:induction false} DamagedFile(crc: Checksum, a: seq<Byte>, b: seq<Byte>)
    requires Detected(crc, a, b)
    ensures Damaged(Events(crc, a), Events(crc, b))
    decreases |a|
  {
    hide ParseBlock, Damaged, BlockDetected;
    if |a| < BLOCK {
      DamagedBlock(crc, a, b);
      NothingMore(ParseBlock(crc, a), ParseBlock(crc, b));
      MarkedIsDamaged(ParseBlock(crc, b), ParseBlock(crc, a), [], []);
    } else {
      DamagedBlock(crc, a[..BLOCK], b[..BLOCK]);
      DamagedFile(crc, a[BLOCK..], b[BLOCK..]);
      MarkedIsDamaged(ParseBlock(crc, b[..BLOCK]), ParseBlock(crc, a[..BLOCK]),
                      Events(crc, b[BLOCK..]), Events(crc, a[BLOCK..]));
    }
  }

  lemma NothingMore(a: seq<Event>, b: seq<Event>)
    ensures a + [] == a && b + [] == b && Damaged([], [])
  {
  }

  /** A block cut short by damage, followed by damaged blocks. */
  lemma MarkedIsDamaged(got: seq<Event>, all: seq<Event>, more: seq<Event>, rest: seq<Event>)
    requires Marked(got, all) && Damaged(rest, more)
    ensures Damaged(all + rest, got + more)
  {
    hide Damaged;
    if got == all {
      SameFront(all, more, rest);
    } else {
      var n := |got| - 1;
      LostAfter(got[..n], all, more, rest);
      assert got == got[..n] + [Bad];
      assert got[..n] + ([Bad] + more) == got + more;
    }
  }

  lemma {:induction false} SameFront(front: seq<Event>, more: seq<Event>, rest: seq<Event>)
    requires Damaged(rest, more)
    ensures Damaged(front + rest, front + more)
    decreases |front|
  {
    if front == [] {
      assert front + rest == rest && front + more == more;
    } else {
      SameFront(front[1..], more, rest);
      assert (front + rest)[1..] == front[1..] + rest && (front + more)[1..] == front[1..] + more;
    }
  }

  lemma LostAfter(front: seq<Event>, all: seq<Event>, more: seq<Event>, rest: seq<Event>)
    requires front <= all && Damaged(rest, more)
    ensures Damaged(all + rest, front + ([Bad] + more))
  {
    var tail := all[|front|..] + rest;
    assert ([Bad] + more)[1..] == more && tail[|all| - |front|..] == rest;
    assert Damaged(tail, [Bad] + more);
    SameFront(front, [Bad] + more, tail);
    assert front + tail == all + rest;
  }

  // ----- Damage and the blocks around it -----

  /** However a stretch of events is entered, what it assembles to by itself comes out, behind at most one record that
      started before it. */
  lemma {:induction false} AssembleAnyway(es: seq<Event>, s: Scratch) returns (extra: seq<seq<Byte>>)
    ensures |extra| <= 1 && Assemble(es, s).records == extra + Assemble(es, Outside).records
  {
    extra := [];
    if es != [] && s.Inside? {
      var e := es[0];
      if e.Fragment? && e.kind == MIDDLE {
        extra := AssembleAnyway(es[1..], Inside(s.data + e.data));
      } else if e.Fragment? && e.kind == LAST {
        extra := [s.data + e.data];
      }
    }
  }

  lemma EndlessParts(a: seq<Event>, b: seq<Event>)
    requires ToEnd(a + b) == a + b
    ensures ToEnd(a) == a && ToEnd(b) == b
  {
    hide ToEnd;
    ToEndConcat(a, b);
    if ToEnd(a) == a {
      assert (a + ToEnd(b))[|a|..] == (a + b)[|a|..];
    }
  }

  /** Whatever stands in one block, as long as nothing in it looks like the end: every record that lies in the blocks
      before it and every record that lies in those behind it is read. */
  lemma DamageStaysInBlock(crc: Checksum, before: seq<Byte>, block: seq<Byte>, behind: seq<Byte>)
    returns (middle: seq<seq<Byte>>)
    requires |before| % BLOCK == 0 && |block| == BLOCK && Endless(crc, before + block + behind)
    ensures ReadAll(crc, before + block + behind) == ReadAll(crc, before) + middle + ReadAll(crc, behind)
  {
    hide Events, ToEnd, Assemble;
    var a, b, c := Events(crc, before), Events(crc, block), Events(crc, behind);
    EventsConcat(crc, before + block, behind);
    EventsConcat(crc, before, block);
    EndlessParts(a + b, c);
    EndlessParts(a, b);
    AssembleConcat(a + b, c, Outside);
    AssembleConcat(a, b, Outside);
    var s := Assemble(a, Outside).scratch;
    var extra := AssembleAnyway(c, Assemble(b, s).scratch);
    middle := Assemble(b, s).records + extra;
  }
}

/** The manifest's records: `VersionEdit::EncodeTo` and `VersionEdit::DecodeFrom`. */
module VersionEdits {
  import opened Wrappers
  import opened Coding
  import opened Versions

  type Bytes = seq<Byte>

  datatype FileMetaData = FileMetaData(number: nat, fileSize: nat, smallest: Bytes, largest: Bytes)

  datatype Fields = Fields(
    comparator: Option<Bytes>, logNumber: Option<nat>, prevLogNumber: Option<nat>,
    nextFileNumber: Option<nat>, lastSequence: Option<nat>,
    compactPointers: seq<(nat, Bytes)>, deletedFiles: set<(nat, nat)>, newFiles: seq<(nat, FileMetaData)>)

  /** One tagged field of the encoding. */
  datatype Record =
    | Comparator(name: Bytes)
    | LogNumber(number: nat)
    | PrevLogNumber(number: nat)
    | NextFileNumber(number: nat)
    | LastSequence(number: nat)
    | CompactPointer(level: nat, key: Bytes)
    | DeletedFile(level: nat, number: nat)
    | NewFile(level: nat, file: FileMetaData)

  function Tag(r: Record): nat {
    match r
    case Comparator(_) => 1
    case LogNumber(_) => 2
    case NextFileNumber(_) => 3
    case LastSequence(_) => 4
    case CompactPointer(_, _) => 5
    case DeletedFile(_, _) => 6
    case NewFile(_, _) => 7
    case PrevLogNumber(_) => 9
  }

  function Payload(r: Record): Bytes {
    match r
    case Comparator(name) => PutLengthPrefixed(name)
    case LogNumber(n) => EncodeVarint(n)
    case NextFileNumber(n) => EncodeVarint(n)
    case LastSequence(n) => EncodeVarint(n)
    case PrevLogNumber(n) => EncodeVarint(n)
    case CompactPointer(level, key) => EncodeVarint(level) + PutLengthPrefixed(key)
    case DeletedFile(level, n) => EncodeVarint(level) + EncodeVarint(n)
    case NewFile(level, f) =>
      EncodeVarint(level) + (EncodeVarint(f.number) + (EncodeVarint(f.fileSize)
      + (PutLengthPrefixed(f.smallest) + PutLengthPrefixed(f.largest))))
  }

  function Code(r: Record): (b: Bytes)
    ensures b != []
  {
    EncodeVarint(Tag(r)) + Payload(r)
  }

  function Codes(rs: seq<Record>): Bytes {
    if rs == [] then [] else Code(rs[0]) + Codes(rs[1..])
  }

  /** Values that the fields of the source can hold. */
  predicate Fits(r: Record) {
    match r
    case Comparator(name) => |name| < WORD32
    case CompactPointer(level, key) => level < NUM_LEVELS && |key| < WORD32
    case DeletedFile(level, n) => level < NUM_LEVELS && n < WORD64
    case NewFile(level, f) =>
      && level < NUM_LEVELS && f.number < WORD64 && f.fileSize < WORD64
      && |f.smallest| < WORD32 && |f.largest| < WORD32
    case _ => r.number < WORD64
  }

  // ----- Parsing -----

  /** A varint of at most `k` bytes, cut to the word's size, and what follows it. */
  function GetVarint(s: Bytes, k: nat, word: nat): (r: Option<(nat, Bytes)>)
    requires word > 0
    ensures r.Some? ==> |r.value.1| < |s|
  {
    match DecodeVarint(s, k)
    case None => None
    case Some((v, n)) => Some((v % word, s[n..]))
  }

  function GetNumber(s: Bytes): (r: Option<(nat, Bytes)>)
    ensures r.Some? ==> |r.value.1| < |s|
  {
    GetVarint(s, 10, WORD64)
  }

  function GetLevel(s: Bytes): (r: Option<(nat, Bytes)>)
    ensures r.Some? ==> |r.value.1| < |s|
  {
    match GetVarint(s, 5, WORD32)
    case None => None
    case Some((v, rest)) => if v < NUM_LEVELS then Some((v, rest)) else None
  }

  function ParseNumbered(tag: nat, s: Bytes): Option<(Record, Bytes)> {
    match GetNumber(s)
    case None => None
    case Some((n, rest)) =>
      if tag == 2 then Some((LogNumber(n), rest))
      else if tag == 3 then Some((NextFileNumber(n), rest))
      else if tag == 4 then Some((LastSequence(n), rest))
      else if tag == 9 then Some((PrevLogNumber(n), rest))
      else None
  }

  function ParseFile(s: Bytes): Option<(FileMetaData, Bytes)> {
    match GetNumber(s)
    case None => None
    case Some((number, s1)) =>
      match GetNumber(s1)
      case None => None
      case Some((size, s2)) =>
        match GetLengthPrefixed(s2)
        case None => None
        case Some((smallest, s3)) =>
          match GetLengthPrefixed(s3)
          case None => None
          case Some((largest, s4)) => Some((FileMetaData(number, size, smallest, largest), s4))
  }

  function ParseLevelled(tag: nat, s: Bytes): Option<(Record, Bytes)> {
    match GetLevel(s)
    case None => None
    case Some((level, s1)) =>
      if tag == 5 then
        match GetLengthPrefixed(s1)
        case None => None
        case Some((key, rest)) => Some((CompactPointer(level, key), rest))
      else if tag == 6 then
        match GetNumber(s1)
        case None => None
        case Some((n, rest)) => Some((DeletedFile(level, n), rest))
      else
        match ParseFile(s1)
        case None => None
        case Some((f, rest)) => Some((NewFile(level, f), rest))
  }

  /** The field behind a tag, by the cases of the decoding loop. */
  function ParsePayload(tag: nat, s: Bytes): Option<(Record, Bytes)> {
    if tag == 1 then
      match GetLengthPrefixed(s)
      case None => None
      case Some((name, rest)) => Some((Comparator(name), rest))
    else if 5 <= tag <= 7 then ParseLevelled(tag, s)
    else ParseNumbered(tag, s)
  }

  lemma PayloadShrinks(tag: nat, s: Bytes)
    ensures ParsePayload(tag, s).Some? ==> |ParsePayload(tag, s).value.1| < |s|
  {
    hide GetNumber, GetLevel, GetLengthPrefixed;
  }

  /** The fields before the first fault, and whether there was none. */
  function ParseAll(s: Bytes): (seq<Record>, bool)
    decreases |s|
  {
    match GetVarint(s, 5, WORD32)
    case None => ([], s == [])
    case Some((tag, s1)) =>
      match ParsePayload(tag, s1)
      case None => ([], false)
      case Some((r, rest)) =>
        PayloadShrinks(tag, s1);
        var (rs, ok) := ParseAll(rest);
        ([r] + rs, ok)
  }

  // ----- Parsing undoes encoding -----

  lemma VarintBack(v: nat, k: nat, word: nat, rest: Bytes)
    requires 0 < k && v < word <= Power(128, k)
    ensures GetVarint(EncodeVarint(v) + rest, k, word) == Some((v, rest))
  {
    hide EncodeVarint, DecodeVarint, Power;
    VarintRoundTrip(v, k, rest);
    ModSmall(v, word);
    assert (EncodeVarint(v) + rest)[|EncodeVarint(v)|..] == rest;
  }

  lemma NumberBack(n: nat, rest: Bytes)
    requires n < WORD64
    ensures GetNumber(EncodeVarint(n) + rest) == Some((n, rest))
  {
    FiveGroups();
    VarintBack(n, 10, WORD64, rest);
  }

  lemma LevelBack(level: nat, rest: Bytes)
    requires level < NUM_LEVELS
    ensures GetLevel(EncodeVarint(level) + rest) == Some((level, rest))
  {
    FiveGroups();
    VarintBack(level, 5, WORD32, rest);
  }

  lemma FileBack(f: FileMetaData, rest: Bytes)
    requires f.number < WORD64 && f.fileSize < WORD64 && |f.smallest| < WORD32 && |f.largest| < WORD32
    ensures ParseFile((EncodeVarint(f.number) + (EncodeVarint(f.fileSize)
            + (PutLengthPrefixed(f.smallest) + PutLengthPrefixed(f.largest)))) + rest) == Some((f, rest))
  {
    hide GetNumber, GetLengthPrefixed, PutLengthPrefixed, EncodeVarint;
    var a, b, c, d := EncodeVarint(f.number), EncodeVarint(f.fileSize),
                      PutLengthPrefixed(f.smallest), PutLengthPrefixed(f.largest);
    assert (a + (b + (c + d))) + rest == a + (b + (c + (d + rest)));
    NumberBack(f.number, b + (c + (d + rest)));
    NumberBack(f.fileSize, c + (d + rest));
    LengthPrefixedRoundTrip(f.smallest, d + rest);
    LengthPrefixedRoundTrip(f.largest, rest);
  }

  lemma LevelledBack(r: Record, rest: Bytes)
    requires Fits(r) && 5 <= Tag(r) <= 7
    ensures ParseLevelled(Tag(r), Payload(r) + rest) == Some((r, rest))
  {
    hide GetNumber, GetLevel, ParseFile, GetLengthPrefixed, PutLengthPrefixed, EncodeVarint;
    match r {
      case CompactPointer(level, key) =>
        assert Payload(r) + rest == EncodeVarint(level) + (PutLengthPrefixed(key) + rest);
        LevelBack(level, PutLengthPrefixed(key) + rest);
        LengthPrefixedRoundTrip(key, rest);
      case DeletedFile(level, n) =>
        assert Payload(r) + rest == EncodeVarint(level) + (EncodeVarint(n) + rest);
        LevelBack(level, EncodeVarint(n) + rest);
        NumberBack(n, rest);
      case NewFile(level, f) =>
        var body := EncodeVarint(f.number) + (EncodeVarint(f.fileSize)
                    + (PutLengthPrefixed(f.smallest) + PutLengthPrefixed(f.largest)));
        assert Payload(r) + rest == EncodeVarint(level) + (body + rest);
        LevelBack(level, body + rest);
        FileBack(f, rest);
    }
  }

  lemma PayloadBack(r: Record, rest: Bytes)
    requires Fits(r)
    ensures ParsePayload(Tag(r), Payload(r) + rest) == Some((r, rest))
  {
    hide GetNumber, GetLevel, ParseLevelled, GetLengthPrefixed, PutLengthPrefixed, EncodeVarint;
    if r.Comparator? {
      LengthPrefixedRoundTrip(r.name, rest);
    } else if 5 <= Tag(r) <= 7 {
      LevelledBack(r, rest);
    } else {
      NumberBack(r.number, rest);
    }
  }

  lemma {:induction false} CodesBack(rs: seq<Record>)
    requires forall r | r in rs :: Fits(r)
    ensures ParseAll(Codes(rs)) == (rs, true)
  {
    hide ParsePayload, Payload, Fits, GetVarint, EncodeVarint;
    if rs == [] {
      assert GetVarint([], 5, WORD32).None? by { NoVarint(); }
    } else {
      var rest := Codes(rs[1..]);
      assert Codes(rs) == EncodeVarint(Tag(rs[0])) + (Payload(rs[0]) + rest);
      FiveGroups();
      VarintBack(Tag(rs[0]), 5, WORD32, Payload(rs[0]) + rest);
      PayloadBack(rs[0], rest);
      CodesBack(rs[1..]);
      assert rs == [rs[0]] + rs[1..];
    }
  }

  lemma NoVarint()
    ensures GetVarint([], 5, WORD32).None?
  {
  }

  // ----- Faults -----

  lemma NumberCut(v: nat, n: nat)
    requires n < |EncodeVarint(v)|
    ensures GetNumber(EncodeVarint(v)[..n]).None? && GetVarint(EncodeVarint(v)[..n], 5, WORD32).None?
    ensures GetLevel(EncodeVarint(v)[..n]).None?
  {
    VarintCut(v, 10, n);
    VarintCut(v, 5, n);
  }

  /** The first `n` bytes of two pieces. */
  lemma CutOfTwo(a: Bytes, b: Bytes, n: nat)
    requires n <= |a| + |b|
    ensures n < |a| ==> (a + b)[..n] == a[..n]
    ensures n >= |a| ==> (a + b)[..n] == a + b[..n - |a|]
  {
  }

  lemma FileCut(f: FileMetaData, n: nat)
    requires f.number < WORD64 && f.fileSize < WORD64 && |f.smallest| < WORD32 && |f.largest| < WORD32
    requires n < |FileCode(f)|
    ensures ParseFile(FileCode(f)[..n]).None?
  {
    hide GetNumber, GetLengthPrefixed, PutLengthPrefixed, EncodeVarint;
    var a, b := EncodeVarint(f.number), EncodeVarint(f.fileSize);
    var c, d := PutLengthPrefixed(f.smallest), PutLengthPrefixed(f.largest);
    CutOfTwo(a, b + (c + d), n);
    if n < |a| {
      NumberCut(f.number, n);
    } else {
      var m := n - |a|;
      NumberBack(f.number, (b + (c + d))[..m]);
      CutOfTwo(b, c + d, m);
      if m < |b| {
        NumberCut(f.fileSize, m);
      } else {
        NumberBack(f.fileSize, (c + d)[..m - |b|]);
        StringsCut(f.smallest, f.largest, m - |b|);
      }
    }
  }

  ghost function FileCode(f: FileMetaData): Bytes {
    EncodeVarint(f.number) + (EncodeVarint(f.fileSize) + (PutLengthPrefixed(f.smallest) + PutLengthPrefixed(f.largest)))
  }

  lemma StringsCut(a: Bytes, b: Bytes, n: nat)
    requires |a| < WORD32 && |b| < WORD32 && n < |PutLengthPrefixed(a)| + |PutLengthPrefixed(b)|
    ensures var cut := (PutLengthPrefixed(a) + PutLengthPrefixed(b))[..n];
            GetLengthPrefixed(cut).None? || GetLengthPrefixed(GetLengthPrefixed(cut).value.1).None?
  {
    hide GetLengthPrefixed, PutLengthPrefixed;
    var x, y := PutLengthPrefixed(a), PutLengthPrefixed(b);
    CutOfTwo(x, y, n);
    if n < |x| {
      LengthPrefixedCut(a, n);
    } else {
      LengthPrefixedRoundTrip(a, y[..n - |x|]);
      LengthPrefixedCut(b, n - |x|);
    }
  }

  lemma LevelledCut(r: Record, n: nat)
    requires Fits(r) && 5 <= Tag(r) <= 7 && n < |Payload(r)|
    ensures ParseLevelled(Tag(r), Payload(r)[..n]).None?
  {
    hide GetNumber, GetLevel, GetLengthPrefixed, PutLengthPrefixed, EncodeVarint, ParseFile;
    var a := EncodeVarint(r.level);
    var b := if r.CompactPointer? then PutLengthPrefixed(r.key)
             else if r.DeletedFile? then EncodeVarint(r.number) else FileCode(r.file);
    CutOfTwo(a, b, n);
    if n < |a| {
      NumberCut(r.level, n);
    } else {
      LevelBack(r.level, b[..n - |a|]);
      match r
      case CompactPointer(_, key) => LengthPrefixedCut(key, n - |a|);
      case DeletedFile(_, number) => NumberCut(number, n - |a|);
      case NewFile(_, f) => FileCut(f, n - |a|);
      case _ =>
    }
  }

  lemma PayloadCut(r: Record, n: nat)
    requires Fits(r) && n < |Payload(r)|
    ensures ParsePayload(Tag(r), Payload(r)[..n]).None?
  {
    hide GetNumber, GetLevel, ParseLevelled, GetLengthPrefixed, PutLengthPrefixed, EncodeVarint;
    if r.Comparator? {
      LengthPrefixedCut(r.name, n);
    } else if 5 <= Tag(r) <= 7 {
      LevelledCut(r, n);
    } else {
      NumberCut(r.number, n);
    }
  }

  lemma {:induction false} ParseBehind(rs: seq<Record>, more: Bytes)
    requires forall r | r in rs :: Fits(r)
    ensures ParseAll(Codes(rs) + more) == (rs + ParseAll(more).0, ParseAll(more).1)
  {
    hide ParsePayload, Payload, Fits, GetVarint, EncodeVarint;
    if rs == [] {
      assert Codes(rs) + more == more && rs + ParseAll(more).0 == ParseAll(more).0;
    } else {
      var rest := Codes(rs[1..]) + more;
      assert Codes(rs) + more == EncodeVarint(Tag(rs[0])) + (Payload(rs[0]) + rest);
      FiveGroups();
      VarintBack(Tag(rs[0]), 5, WORD32, Payload(rs[0]) + rest);
      PayloadBack(rs[0], rest);
      ParseBehind(rs[1..], more);
      assert rs + ParseAll(more).0 == [rs[0]] + (rs[1..] + ParseAll(more).0);
    }
  }

  lemma OneCut(r: Record, n: nat)
    requires Fits(r) && 0 < n < |Code(r)|
    ensures ParseAll(Code(r)[..n]) == ([], false)
  {
    hide ParsePayload, Payload, Fits, GetVarint, EncodeVarint;
    var a, b := EncodeVarint(Tag(r)), Payload(r);
    CutOfTwo(a, b, n);
    if n < |a| {
      NumberCut(Tag(r), n);
    } else {
      FiveGroups();
      VarintBack(Tag(r), 5, WORD32, b[..n - |a|]);
      PayloadCut(r, n - |a|);
    }
  }

  /** Behind any fields, one cut short or with an unknown tag is a fault: the fields before it are taken and the fault
      is reported. */
  lemma FaultStops(rs: seq<Record>, r: Record, n: nat, tag: nat, more: Bytes)
    requires (forall q | q in rs :: Fits(q)) && Fits(r) && 0 < n < |Code(r)|
    requires tag < WORD32 && (tag == 0 || tag == 8 || tag > 9)
    ensures ParseAll(Codes(rs) + Code(r)[..n]) == (rs, false)
    ensures ParseAll(Codes(rs) + (EncodeVarint(tag) + more)) == (rs, false)
  {
    hide Code, Codes, Fits, GetVarint, EncodeVarint;
    OneCut(r, n);
    ParseBehind(rs, Code(r)[..n]);
    FiveGroups();
    VarintBack(tag, 5, WORD32, more);
    ParseBehind(rs, EncodeVarint(tag) + more);
    assert rs + [] == rs;
  }

  // ----- Fields and their records -----

  /** `Clear`, which keeps the compaction pointers. */
  function Cleared(f: Fields): Fields {
    Fields(None, None, None, None, None, f.compactPointers, {}, [])
  }

  function Take(f: Fields, r: Record): Fields {
    match r
    case Comparator(name) => f.(comparator := Some(name))
    case LogNumber(n) => f.(logNumber := Some(n))
    case NextFileNumber(n) => f.(nextFileNumber := Some(n))
    case LastSequence(n) => f.(lastSequence := Some(n))
    case PrevLogNumber(n) => f.(prevLogNumber := Some(n))
    case CompactPointer(level, key) => f.(compactPointers := f.compactPointers + [(level, key)])
    case DeletedFile(level, n) => f.(deletedFiles := f.deletedFiles + {(level, n)})
    case NewFile(level, file) => f.(newFiles := f.newFiles + [(level, file)])
  }

  function TakeAll(f: Fields, rs: seq<Record>): Fields
    decreases |rs|
  {
    if rs == [] then f else TakeAll(Take(f, rs[0]), rs[1..])
  }

  lemma {:induction false} TakeConcat(f: Fields, a: seq<Record>, b: seq<Record>)
    ensures TakeAll(f, a + b) == TakeAll(TakeAll(f, a), b)
    decreases |a|
  {
    hide Take;
    if a == [] {
      assert a + b == b;
    } else {
      assert (a + b)[1..] == a[1..] + b;
      TakeConcat(Take(f, a[0]), a[1..], b);
    }
  }

  /** The order of a set of pairs. */
  predicate AtMost(p: (nat, nat), q: (nat, nat)) {
    p.0 < q.0 || (p.0 == q.0 && p.1 <= q.1)
  }

  predicate Least(p: (nat, nat), s: set<(nat, nat)>) {
    p in s && forall q | q in s :: AtMost(p, q)
  }

  lemma {:induction false} LeastExists(s: set<(nat, nat)>)
    requires s != {}
    ensures exists p :: Least(p, s)
  {
    var p :| p in s;
    if s != {p} {
      assert s - {p} < s && s == s - {p} + {p};
      LeastExists(s - {p});
      var q :| Least(q, s - {p});
      assert Least(if AtMost(p, q) then p else q, s);
    } else {
      assert Least(p, s);
    }
  }

  ghost function Ordered(s: set<(nat, nat)>): (r: seq<(nat, nat)>)
    ensures forall p :: p in r <==> p in s
  {
    if s == {} then []
    else
      LeastExists(s);
      var p :| Least(p, s);
      [p] + Ordered(s - {p})
  }

  function ScalarRecords(f: Fields): seq<Record> {
    (if f.comparator.Some? then [Comparator(f.comparator.value)] else [])
    + (if f.logNumber.Some? then [LogNumber(f.logNumber.value)] else [])
    + (if f.prevLogNumber.Some? then [PrevLogNumber(f.prevLogNumber.value)] else [])
    + (if f.nextFileNumber.Some? then [NextFileNumber(f.nextFileNumber.value)] else [])
    + (if f.lastSequence.Some? then [LastSequence(f.lastSequence.value)] else [])
  }

  function PointerRecords(ps: seq<(nat, Bytes)>): seq<Record> {
    if ps == [] then []
    else
      var (level, key) := ps[|ps| - 1];
      PointerRecords(ps[..|ps| - 1]) + [CompactPointer(level, key)]
  }

  function DeletedRecords(ds: seq<(nat, nat)>): seq<Record> {
    if ds == [] then [] else [DeletedFile(ds[0].0, ds[0].1)] + DeletedRecords(ds[1..])
  }

  function NewRecords(fs: seq<(nat, FileMetaData)>): seq<Record> {
    if fs == [] then []
    else
      var (level, file) := fs[|fs| - 1];
      NewRecords(fs[..|fs| - 1]) + [NewFile(level, file)]
  }

  ghost function Records(f: Fields): seq<Record> {
    ((ScalarRecords(f) + PointerRecords(f.compactPointers)) + DeletedRecords(Ordered(f.deletedFiles)))
    + NewRecords(f.newFiles)
  }

  lemma TakeOne(f: Fields, r: Record)
    ensures TakeAll(f, [r]) == Take(f, r) && TakeAll(f, []) == f
  {
    hide Take;
    assert [r][1..] == [];
    assert TakeAll(Take(f, r), []) == Take(f, r);
  }

  lemma TakeMore(f: Fields, rs: seq<Record>, r: Record)
    ensures TakeAll(f, rs + [r]) == Take(TakeAll(f, rs), r)
  {
    TakeConcat(f, rs, [r]);
    TakeOne(TakeAll(f, rs), r);
  }

  lemma {:induction false} TakePointers(f: Fields, ps: seq<(nat, Bytes)>)
    ensures TakeAll(f, PointerRecords(ps)) == f.(compactPointers := f.compactPointers + ps)
  {
    if ps == [] {
      assert f.compactPointers + ps == f.compactPointers;
    } else {
      hide TakeAll;
      var n := |ps| - 1;
      TakePointers(f, ps[..n]);
      TakeMore(f, PointerRecords(ps[..n]), CompactPointer(ps[n].0, ps[n].1));
      assert f.compactPointers + ps == f.compactPointers + ps[..n] + [ps[n]];
    }
  }

  lemma {:induction false} TakeNewFiles(f: Fields, fs: seq<(nat, FileMetaData)>)
    ensures TakeAll(f, NewRecords(fs)) == f.(newFiles := f.newFiles + fs)
  {
    if fs == [] {
      assert f.newFiles + fs == f.newFiles;
    } else {
      hide TakeAll;
      var n := |fs| - 1;
      TakeNewFiles(f, fs[..n]);
      TakeMore(f, NewRecords(fs[..n]), NewFile(fs[n].0, fs[n].1));
      assert f.newFiles + fs == f.newFiles + fs[..n] + [fs[n]];
    }
  }

  lemma {:induction false} TakeDeleted(f: Fields, ds: seq<(nat, nat)>)
    ensures TakeAll(f, DeletedRecords(ds)) == f.(deletedFiles := f.deletedFiles + set p | p in ds)
    decreases |ds|
  {
    if ds == [] {
      assert f.deletedFiles + (set p | p in ds) == f.deletedFiles;
    } else {
      var r := DeletedFile(ds[0].0, ds[0].1);
      assert DeletedRecords(ds)[1..] == DeletedRecords(ds[1..]);
      TakeDeleted(Take(f, r), ds[1..]);
      assert ds == [ds[0]] + ds[1..];
      assert f.deletedFiles + (set p | p in ds)
          == f.deletedFiles + {(ds[0].0, ds[0].1)} + (set p | p in ds[1..]);
    }
  }

  lemma TakeScalars(f: Fields, e: Fields)
    requires f.comparator.None? && f.logNumber.None? && f.prevLogNumber.None?
    requires f.nextFileNumber.None? && f.lastSequence.None?
    ensures TakeAll(f, ScalarRecords(e))
         == e.(compactPointers := f.compactPointers, deletedFiles := f.deletedFiles, newFiles := f.newFiles)
  {
    hide TakeAll;
    var f1 := f.(comparator := e.comparator);
    var f2 := f1.(logNumber := e.logNumber);
    var f3 := f2.(prevLogNumber := e.prevLogNumber);
    var f4 := f3.(nextFileNumber := e.nextFileNumber);
    var r1 := if e.comparator.Some? then [Comparator(e.comparator.value)] else [];
    var r2 := if e.logNumber.Some? then [LogNumber(e.logNumber.value)] else [];
    var r3 := if e.prevLogNumber.Some? then [PrevLogNumber(e.prevLogNumber.value)] else [];
    var r4 := if e.nextFileNumber.Some? then [NextFileNumber(e.nextFileNumber.value)] else [];
    var r5 := if e.lastSequence.Some? then [LastSequence(e.lastSequence.value)] else [];
    TakeConcat(f, r1 + r2 + r3 + r4, r5);
    TakeConcat(f, r1 + r2 + r3, r4);
    TakeConcat(f, r1 + r2, r3);
    TakeConcat(f, r1, r2);
    TakeOne(f, Comparator(if e.comparator.Some? then e.comparator.value else []));
    TakeOne(f1, LogNumber(if e.logNumber.Some? then e.logNumber.value else 0));
    TakeOne(f2, PrevLogNumber(if e.prevLogNumber.Some? then e.prevLogNumber.value else 0));
    TakeOne(f3, NextFileNumber(if e.nextFileNumber.Some? then e.nextFileNumber.value else 0));
    TakeOne(f4, LastSequence(if e.lastSequence.Some? then e.lastSequence.value else 0));
  }

  /** Taking an edit's records into a cleared edit gives that edit, behind the pointers that
      clearing kept. */
  lemma TakeRecords(was: Fields, e: Fields)
    ensures TakeAll(Cleared(was), Records(e)) == e.(compactPointers := was.compactPointers + e.compactPointers)
  {
    hide TakeAll, ScalarRecords, PointerRecords, DeletedRecords, NewRecords, Ordered;
    var a, b, c, d := ScalarRecords(e), PointerRecords(e.compactPointers),
                      DeletedRecords(Ordered(e.deletedFiles)), NewRecords(e.newFiles);
    TakeConcat(Cleared(was), a + b + c, d);
    TakeConcat(Cleared(was), a + b, c);
    TakeConcat(Cleared(was), a, b);
    TakeScalars(Cleared(was), e);
    var f1 := e.(compactPointers := was.compactPointers, deletedFiles := {}, newFiles := []);
    TakePointers(f1, e.compactPointers);
    var f2 := f1.(compactPointers := was.compactPointers + e.compactPointers);
    TakeDeleted(f2, Ordered(e.deletedFiles));
    assert {} + (set p | p in Ordered(e.deletedFiles)) == e.deletedFiles;
    var f3 := f2.(deletedFiles := e.deletedFiles);
    TakeNewFiles(f3, e.newFiles);
    assert [] + e.newFiles == e.newFiles;
  }

  // ----- The round trip -----

  predicate FitsAll(f: Fields) {
    && (f.comparator.Some? ==> |f.comparator.value| < WORD32)
    && (f.logNumber.Some? ==> f.logNumber.value < WORD64)
    && (f.prevLogNumber.Some? ==> f.prevLogNumber.value < WORD64)
    && (f.nextFileNumber.Some? ==> f.nextFileNumber.value < WORD64)
    && (f.lastSequence.Some? ==> f.lastSequence.value < WORD64)
    && (forall p | p in f.compactPointers :: Fits(CompactPointer(p.0, p.1)))
    && (forall p | p in f.deletedFiles :: Fits(DeletedFile(p.0, p.1)))
    && (forall p | p in f.newFiles :: Fits(NewFile(p.0, p.1)))
  }

  lemma {:induction false} PointersFit(ps: seq<(nat, Bytes)>)
    requires forall p | p in ps :: Fits(CompactPointer(p.0, p.1))
    ensures forall r | r in PointerRecords(ps) :: Fits(r)
  {
    if ps != [] { PointersFit(ps[..|ps| - 1]); }
  }

  lemma {:induction false} DeletedFit(ds: seq<(nat, nat)>)
    requires forall p | p in ds :: Fits(DeletedFile(p.0, p.1))
    ensures forall r | r in DeletedRecords(ds) :: Fits(r)
  {
    if ds != [] { DeletedFit(ds[1..]); }
  }

  lemma {:induction false} NewFit(fs: seq<(nat, FileMetaData)>)
    requires forall p | p in fs :: Fits(NewFile(p.0, p.1))
    ensures forall r | r in NewRecords(fs) :: Fits(r)
  {
    if fs != [] { NewFit(fs[..|fs| - 1]); }
  }

  lemma RecordsFit(f: Fields)
    requires FitsAll(f)
    ensures forall r | r in Records(f) :: Fits(r)
  {
    PointersFit(f.compactPointers);
    DeletedFit(Ordered(f.deletedFiles));
    NewFit(f.newFiles);
  }

  /** What decoding into an edit that held `was` leaves there: the decoded edit exactly when no
      compaction pointer was there before. */
  lemma RoundTrip(was: Fields, e: Fields)
    requires FitsAll(e)
    ensures ParseAll(Codes(Records(e))) == (Records(e), true)
    ensures TakeAll(Cleared(was), Records(e)) == e <==> was.compactPointers == []
    ensures TakeAll(Cleared(was), Records(e)) == e.(compactPointers := was.compactPointers + e.compactPointers)
  {
    hide Records, TakeAll;
    RecordsFit(e);
    CodesBack(Records(e));
    TakeRecords(was, e);
    if was.compactPointers == [] {
      assert [] + e.compactPointers == e.compactPointers;
    } else {
      assert |was.compactPointers + e.compactPointers| > |e.compactPointers|;
    }
  }

  lemma {:induction false} CodesConcat(a: seq<Record>, b: seq<Record>)
    ensures Codes(a + b) == Codes(a) + Codes(b)
    decreases |a|
  {
    hide Code;
    if a == [] {
      assert a + b == b;
    } else {
      assert (a + b)[1..] == a[1..] + b;
      CodesConcat(a[1..], b);
    }
  }

  lemma CodesNone()
    ensures Codes([]) == []
  {
  }

  lemma CodesMore(a: seq<Record>, r: Record)
    ensures Codes(a + [r]) == Codes(a) + Code(r)
  {
    CodesConcat(a, [r]);
    assert Codes([r]) == Code(r) + Codes([]);
  }

  class VersionEdit {
    var comparator: Option<Bytes>
    var logNumber: Option<nat>
    var prevLogNumber: Option<nat>
    var nextFileNumber: Option<nat>
    var lastSequence: Option<nat>
    var compactPointers: seq<(nat, Bytes)>
    var deletedFiles: set<(nat, nat)>
    var newFiles: seq<(nat, FileMetaData)>

    ghost function View(): Fields
      reads this
    {
      Fields(comparator, logNumber, prevLogNumber, nextFileNumber, lastSequence,
             compactPointers, deletedFiles, newFiles)
    }

    constructor ()
      ensures View() == Fields(None, None, None, None, None, [], {}, [])
    {
      comparator, logNumber, prevLogNumber, nextFileNumber, lastSequence := None, None, None, None, None;
      compactPointers, deletedFiles, newFiles := [], {}, [];
    }

    method Clear()
      modifies this
      ensures View() == Cleared(old(View()))
    {
      comparator, logNumber, prevLogNumber, nextFileNumber, lastSequence := None, None, None, None, None;
      deletedFiles, newFiles := {}, [];
    }

    method EncodeTo() returns (dst: Bytes)
      ensures dst == Codes(Records(View()))
    {
      hide Codes, Code, Ordered, Least;
      dst := EncodeScalars();
      ghost var rs := ScalarRecords(View());
      assert rs + PointerRecords([]) == rs;
      for i := 0 to |compactPointers|
        invariant dst == Codes(rs + PointerRecords(compactPointers[..i]))
      {
        var (level, key) := compactPointers[i];
        assert compactPointers[..i + 1][..i] == compactPointers[..i];
        Extend(rs, PointerRecords(compactPointers[..i]), CompactPointer(level, key));
        dst := dst + Code(CompactPointer(level, key));
      }
      assert compactPointers[..|compactPointers|] == compactPointers;
      rs := rs + PointerRecords(compactPointers);
      var tail := EncodeDeleted(deletedFiles);
      CodesConcat(rs, DeletedRecords(Ordered(deletedFiles)));
      rs := rs + DeletedRecords(Ordered(deletedFiles));
      dst := dst + tail;
      assert rs + NewRecords([]) == rs;
      for i := 0 to |newFiles|
        invariant dst == Codes(rs + NewRecords(newFiles[..i]))
      {
        var (level, file) := newFiles[i];
        assert newFiles[..i + 1][..i] == newFiles[..i];
        Extend(rs, NewRecords(newFiles[..i]), NewFile(level, file));
        dst := dst + Code(NewFile(level, file));
      }
      assert newFiles[..|newFiles|] == newFiles;
    }

    method EncodeScalars() returns (dst: Bytes)
      ensures dst == Codes(ScalarRecords(View()))
    {
      hide Codes, Code;
      CodesNone();
      ghost var rs: seq<Record> := [];
      dst := [];
      if comparator.Some? {
        CodesMore(rs, Comparator(comparator.value));
        dst, rs := dst + Code(Comparator(comparator.value)), rs + [Comparator(comparator.value)];
      }
      if logNumber.Some? {
        CodesMore(rs, LogNumber(logNumber.value));
        dst, rs := dst + Code(LogNumber(logNumber.value)), rs + [LogNumber(logNumber.value)];
      }
      if prevLogNumber.Some? {
        CodesMore(rs, PrevLogNumber(prevLogNumber.value));
        dst, rs := dst + Code(PrevLogNumber(prevLogNumber.value)), rs + [PrevLogNumber(prevLogNumber.value)];
      }
      if nextFileNumber.Some? {
        CodesMore(rs, NextFileNumber(nextFileNumber.value));
        dst, rs := dst + Code(NextFileNumber(nextFileNumber.value)), rs + [NextFileNumber(nextFileNumber.value)];
      }
      if lastSequence.Some? {
        CodesMore(rs, LastSequence(lastSequence.value));
        dst, rs := dst + Code(LastSequence(lastSequence.value)), rs + [LastSequence(lastSequence.value)];
      }
      assert rs == ScalarRecords(View());
    }

    /** The tagged fields before the first fault are taken, whether or not there is one. */
    method DecodeFrom(src: Bytes) returns (ok: bool)
      modifies this
      ensures ok == ParseAll(src).1
      ensures View() == TakeAll(Cleared(old(View())), ParseAll(src).0)
    {
      hide Take, ParsePayload, GetVarint, Cleared;
      Clear();
      var input := src;
      while true
        invariant ParseAll(src).1 == ParseAll(input).1
        invariant TakeAll(View(), ParseAll(input).0) == TakeAll(Cleared(old(View())), ParseAll(src).0)
        decreases |input|
      {
        match GetVarint(input, 5, WORD32) {
          case None =>
            return input == [];
          case Some((tag, s1)) =>
            match ParsePayload(tag, s1) {
              case None =>
                return false;
              case Some((r, rest)) =>
                PayloadShrinks(tag, s1);
                assert ParseAll(input).0[1..] == ParseAll(rest).0;
                Keep(r);
                input := rest;
            }
        }
      }
    }

    method Keep(r: Record)
      modifies this
      ensures View() == Take(old(View()), r)
    {
      match r {
        case Comparator(name) => comparator := Some(name);
        case LogNumber(n) => logNumber := Some(n);
        case NextFileNumber(n) => nextFileNumber := Some(n);
        case LastSequence(n) => lastSequence := Some(n);
        case PrevLogNumber(n) => prevLogNumber := Some(n);
        case CompactPointer(level, key) => compactPointers := compactPointers + [(level, key)];
        case DeletedFile(level, n) => deletedFiles := deletedFiles + {(level, n)};
        case NewFile(level, file) => newFiles := newFiles + [(level, file)];
      }
    }
  }

  lemma Extend(a: seq<Record>, b: seq<Record>, r: Record)
    ensures Codes(a + (b + [r])) == Codes(a + b) + Code(r)
  {
    assert a + (b + [r]) == (a + b) + [r];
    CodesMore(a + b, r);
  }

  /** The deleted files in the set's order. */
  method EncodeDeleted(files: set<(nat, nat)>) returns (dst: Bytes)
    ensures dst == Codes(DeletedRecords(Ordered(files)))
  {
    hide Code;
    dst := [];
    var left := files;
    while left != {}
      invariant left <= files
      invariant dst + Codes(DeletedRecords(Ordered(left))) == Codes(DeletedRecords(Ordered(files)))
      decreases left
    {
      LeastExists(left);
      var p :| p in left && Least(p, left);
      LeastFirst(p, left);
      dst := dst + Code(DeletedFile(p.0, p.1));
      left := left - {p};
    }
  }

  lemma LeastFirst(p: (nat, nat), s: set<(nat, nat)>)
    requires Least(p, s)
    ensures Ordered(s) == [p] + Ordered(s - {p})
    ensures Codes(DeletedRecords(Ordered(s))) == Code(DeletedFile(p.0, p.1)) + Codes(DeletedRecords(Ordered(s - {p})))
  {
    hide Code;
    var q := Ordered(s)[0];
    assert Least(q, s);
    assert AtMost(p, q) && AtMost(q, p);
    assert p == q;
    var ds := Ordered(s);
    assert ds[1..] == Ordered(s - {p});
    var rs := DeletedRecords(ds);
    assert rs[1..] == DeletedRecords(ds[1..]);
  }

  /** Writing an edit out and reading it into a new one gives the same edit. */
  method Copy(e: VersionEdit) returns (r: VersionEdit, ok: bool)
    requires FitsAll(e.View())
    ensures ok && r.View() == e.View()
  {
    var bytes := e.EncodeTo();
    r := new VersionEdit();
    ghost var was := r.View();
    RoundTrip(was, e.View());
    ok := r.DecodeFrom(bytes);
  }
}

/** Write batches as the bytes that go to the log: header, count and records. */
module WriteBatches {
  import opened Wrappers
  import opened Coding

  type Bytes = seq<Byte>

  const HEADER: nat := 12

  /** The record count is read back as a signed 32-bit number. */
  const MAX_COUNT: nat := 0x8000_0000

  datatype Update = Put(key: Bytes, value: Bytes) | Delete(key: Bytes)

  predicate Fits(u: Update) {
    |u.key| < WORD32 && (u.Put? ==> |u.value| < WORD32)
  }

  function Code(u: Update): Bytes {
    if u.Put? then [1] + (PutLengthPrefixed(u.key) + PutLengthPrefixed(u.value))
    else [0] + PutLengthPrefixed(u.key)
  }

  function Codes(us: seq<Update>): Bytes {
    if us == [] then [] else Code(us[0]) + Codes(us[1..])
  }

  /** The record at the front, by the cases of the loop in `Iterate`. */
  function ParseOne(s: Bytes): (r: Option<(Update, Bytes)>)
    requires s != []
    ensures r.Some? ==> |r.value.1| < |s|
  {
    if s[0] == 1 then
      match GetLengthPrefixed(s[1..])
      case None => None
      case Some((key, s1)) =>
        match GetLengthPrefixed(s1)
        case None => None
        case Some((value, rest)) => Some((Put(key, value), rest))
    else if s[0] == 0 then
      match GetLengthPrefixed(s[1..])
      case None => None
      case Some((key, rest)) => Some((Delete(key), rest))
    else None
  }

  /** The records before the first fault, and whether there was none. */
  function Parse(s: Bytes): (seq<Update>, bool)
    decreases |s|
  {
    if s == [] then ([], true)
    else
      match ParseOne(s)
      case None => ([], false)
      case Some((u, rest)) =>
        var (us, ok) := Parse(rest);
        ([u] + us, ok)
  }

  lemma OneBack(u: Update, rest: Bytes)
    requires Fits(u)
    ensures Code(u) + rest != [] && ParseOne(Code(u) + rest) == Some((u, rest))
  {
    hide PutLengthPrefixed, GetLengthPrefixed;
    var s := Code(u) + rest;
    if u.Put? {
      var a, b := PutLengthPrefixed(u.key), PutLengthPrefixed(u.value);
      assert s[1..] == a + (b + rest);
      LengthPrefixedRoundTrip(u.key, b + rest);
      LengthPrefixedRoundTrip(u.value, rest);
    } else {
      assert s[1..] == PutLengthPrefixed(u.key) + rest;
      LengthPrefixedRoundTrip(u.key, rest);
    }
  }

  lemma {:induction false} CodesBack(us: seq<Update>)
    requires forall u | u in us :: Fits(u)
    ensures Parse(Codes(us)) == (us, true)
  {
    hide ParseOne, Code, Fits;
    if us != [] {
      OneBack(us[0], Codes(us[1..]));
      CodesBack(us[1..]);
      assert us == [us[0]] + us[1..];
    }
  }

  // ----- Faults -----

  lemma OneCut(u: Update, n: nat)
    requires Fits(u) && 0 < n < |Code(u)|
    ensures ParseOne(Code(u)[..n]).None?
  {
    hide PutLengthPrefixed, GetLengthPrefixed;
    var a, cut := PutLengthPrefixed(u.key), Code(u)[..n];
    if n - 1 < |a| {
      assert cut[1..] == a[..n - 1];
      LengthPrefixedCut(u.key, n - 1);
    } else {
      var b := PutLengthPrefixed(u.value);
      assert cut[1..] == a + b[..n - 1 - |a|];
      LengthPrefixedRoundTrip(u.key, b[..n - 1 - |a|]);
      LengthPrefixedCut(u.value, n - 1 - |a|);
    }
  }

  lemma {:induction false} ParseBehind(us: seq<Update>, more: Bytes)
    requires forall u | u in us :: Fits(u)
    ensures Parse(Codes(us) + more) == (us + Parse(more).0, Parse(more).1)
  {
    hide ParseOne, Code, Fits;
    if us == [] {
      assert Codes(us) + more == more && us + Parse(more).0 == Parse(more).0;
    } else {
      var rest := Codes(us[1..]) + more;
      assert Codes(us) + more == Code(us[0]) + rest;
      OneBack(us[0], rest);
      ParseBehind(us[1..], more);
      assert us + Parse(more).0 == [us[0]] + (us[1..] + Parse(more).0);
    }
  }

  /** Behind any updates, a record cut short or with an unknown tag is a fault: the updates before it are handed over
      and the fault is reported. */
  lemma FaultStops(us: seq<Update>, u: Update, n: nat, tag: Byte, more: Bytes)
    requires (forall v | v in us :: Fits(v)) && Fits(u) && 0 < n < |Code(u)| && tag > 1
    ensures Parse(Codes(us) + Code(u)[..n]) == (us, false) && Parse(Codes(us) + ([tag] + more)) == (us, false)
  {
    hide Code, Codes, Fits;
    OneCut(u, n);
    ParseBehind(us, Code(u)[..n]);
    ParseBehind(us, [tag] + more);
    assert us + [] == us;
  }

  lemma {:induction false} CodesConcat(a: seq<Update>, b: seq<Update>)
    ensures Codes(a + b) == Codes(a) + Codes(b)
    decreases |a|
  {
    hide Code;
    if a == [] {
      assert a + b == b;
    } else {
      assert (a + b)[1..] == a[1..] + b;
      CodesConcat(a[1..], b);
    }
  }

  /** The bytes of a batch that starts at sequence number `first` and holds `us`. */
  ghost predicate Holds(rep: Bytes, first: nat, us: seq<Update>) {
    && |rep| >= HEADER && first < WORD64 && (forall u | u in us :: Fits(u))
    && rep[..8] == Fixed(first, 8)
    && rep[8..12] == Fixed(|us| % WORD32, 4)
    && rep[12..] == Codes(us)
  }

  lemma FieldsBack(rep: Bytes, first: nat, us: seq<Update>)
    requires Holds(rep, first, us)
    ensures Word(rep[..8]) == first && Word(rep[8..12]) == |us| % WORD32
  {
    hide Codes, Fits;
    Powers();
    WordOfFixed(first, 8);
    WordOfFixed(|us| % WORD32, 4);
  }

  /** Two readings of one batch are the same. */
  lemma HoldsOnce(rep: Bytes, n: nat, us: seq<Update>, m: nat, vs: seq<Update>)
    requires Holds(rep, n, us) && Holds(rep, m, vs)
    ensures n == m && us == vs
  {
    hide Codes, Fits, Parse;
    FieldsBack(rep, n, us);
    FieldsBack(rep, m, vs);
    CodesBack(us);
    CodesBack(vs);
  }

  class WriteBatch {
    var rep: Bytes

    /** What the bytes stand for. */
    ghost var first: nat
    ghost var updates: seq<Update>

    ghost predicate Valid()
      reads this
    {
      Holds(rep, first, updates)
    }

    constructor ()
      ensures Valid() && first == 0 && updates == []
    {
      rep, first, updates := seq(HEADER, i => 0), 0, [];
      new;
      ZeroHeader(rep);
    }

    method SetCount(n: nat)
      requires |rep| >= HEADER
      modifies `rep
      ensures rep == old(rep)[..8] + Fixed(n, 4) + old(rep)[12..]
    {
      rep := rep[..8] + Fixed(n, 4) + rep[12..];
    }

    method SetSequence(n: nat)
      requires Valid() && n < WORD64
      modifies `rep, `first
      ensures Valid() && first == n
    {
      hide Codes, Fits;
      rep := Fixed(n, 8) + rep[8..];
      first := n;
      Patched(old(rep), rep);
    }

    method Put(key: Bytes, value: Bytes)
      requires Valid() && |key| < WORD32 && |value| < WORD32
      modifies this
      ensures Valid() && first == old(first) && updates == old(updates) + [Update.Put(key, value)]
    {
      hide Codes, Holds, Fixed, Word, PutLengthPrefixed, Fits;
      ghost var u := Update.Put(key, value);
      CountMore(rep, first, updates, 1);
      OneCode(u);
      SetCount((Word(rep[8..12]) + 1) % WORD32);
      rep := rep + ([1] + (PutLengthPrefixed(key) + PutLengthPrefixed(value)));
      updates := updates + [u];
      Grown(old(rep), rep, first, old(updates), [u]);
    }

    method Delete(key: Bytes)
      requires Valid() && |key| < WORD32
      modifies this
      ensures Valid() && first == old(first) && updates == old(updates) + [Update.Delete(key)]
    {
      hide Codes, Holds, Fixed, Word, PutLengthPrefixed, Fits;
      ghost var u := Update.Delete(key);
      CountMore(rep, first, updates, 1);
      OneCode(u);
      SetCount((Word(rep[8..12]) + 1) % WORD32);
      rep := rep + ([0] + PutLengthPrefixed(key));
      updates := updates + [u];
      Grown(old(rep), rep, first, old(updates), [u]);
    }

    /** `WriteBatchInternal::Append`: the other batch's records follow this one's. */
    method Append(src: WriteBatch)
      requires Valid() && src.Valid()
      modifies this
      ensures Valid() && first == old(first) && updates == old(updates) + old(src.updates)
    {
      hide Codes, Holds, Fixed, Word, Fits;
      CountMore(src.rep, src.first, src.updates, 0);
      CountMore(rep, first, updates, |src.updates|);
      SumMod(Word(rep[8..12]), |src.updates|);
      ghost var more := src.updates;
      SetCount((Word(rep[8..12]) + Word(src.rep[8..12])) % WORD32);
      TailKept(old(rep), Fixed((|updates| + |more|) % WORD32, 4));
      rep := rep + src.rep[12..];
      updates := updates + more;
      Grown(old(rep), rep, first, old(updates), more);
    }

    /** The records are handed over one by one, up to the first fault. */
    method Iterate() returns (handed: seq<Update>, ok: bool)
      ensures |rep| < HEADER ==> handed == [] && !ok
      ensures |rep| >= HEADER ==>
                && handed == Parse(rep[12..]).0
                && ok == (Parse(rep[12..]).1 && |handed| == Word(rep[8..12]))
      ensures Valid() && |updates| < MAX_COUNT ==> handed == updates && ok
    {
      hide ParseOne;
      handed := [];
      if |rep| < HEADER {
        return [], false;
      }
      ghost var all := rep[12..];
      var input := rep[12..];
      while input != []
        invariant handed + Parse(input).0 == Parse(all).0 && Parse(input).1 == Parse(all).1
        decreases |input|
      {
        match ParseOne(input) {
          case None =>
            Bad(rep, first, updates);
            return handed, false;
          case Some((u, rest)) =>
            handed := handed + [u];
            input := rest;
        }
      }
      ok := |handed| == Word(rep[8..12]);
      Good(rep, first, updates);
    }

    /** `WriteBatchInternal::InsertInto`: the records get consecutive sequence numbers. */
    method InsertInto(mem: seq<(nat, Update)>) returns (m: seq<(nat, Update)>, ok: bool)
      requires Valid() && |updates| < MAX_COUNT
      ensures ok && m == mem + Numbered(updates, first)
    {
      hide Holds, Parse, Word, Numbered;
      FieldsBack(rep, first, updates);
      Parts(rep, first, updates);
      var handed;
      handed, ok := Iterate();
      m := Insert(mem, handed, Word(rep[..8]));
    }
  }

  /** `MemTableInserter`: one insertion per record, counting up. */
  method Insert(mem: seq<(nat, Update)>, us: seq<Update>, first: nat) returns (m: seq<(nat, Update)>)
    ensures m == mem + Numbered(us, first)
  {
    m := mem;
    var sequence := first;
    for i := 0 to |us|
      invariant m == mem + Numbered(us[..i], first) && sequence == first + i
    {
      assert us[..i + 1][..i] == us[..i];
      m := m + [(sequence, us[i])];
      sequence := sequence + 1;
    }
    assert us[..|us|] == us;
  }

  /** Consecutive sequence numbers from `first` on. */
  function Numbered(us: seq<Update>, first: nat): (r: seq<(nat, Update)>)
    ensures |r| == |us| && forall i | 0 <= i < |us| :: r[i] == (first + i, us[i])
  {
    if us == [] then []
    else Numbered(us[..|us| - 1], first) + [(first + (|us| - 1), us[|us| - 1])]
  }

  lemma ZeroHeader(rep: Bytes)
    requires rep == seq(HEADER, i => 0)
    ensures Holds(rep, 0, [])
  {
    Zeros(8);
    Zeros(4);
    assert rep[..8] == Fixed(0, 8) && rep[8..12] == Fixed(0, 4);
  }

  lemma {:induction false} Zeros(k: nat)
    ensures forall i | 0 <= i < k :: Fixed(0, k)[i] == 0
  {
    if k > 0 { Zeros(k - 1); }
  }

  lemma Patched(rep: Bytes, rep': Bytes)
    requires |rep| >= HEADER && |rep'| == |rep| && rep'[8..] == rep[8..]
    ensures rep'[8..12] == rep[8..12] && rep'[12..] == rep[12..]
  {
    assert rep'[8..][..4] == rep[8..][..4];
    assert rep'[8..][4..] == rep[8..][4..];
  }

  lemma OneCode(u: Update)
    ensures Codes([u]) == Code(u)
    ensures |u.key| < WORD32 && (u.Put? ==> |u.value| < WORD32) ==> Fits(u)
  {
    assert Codes([u]) == Code(u) + Codes([]);
  }

  lemma SumMod(a: nat, b: nat)
    ensures (a + b % WORD32) % WORD32 == (a + b) % WORD32
  {
    ModAdd(b, a);
  }

  lemma Parts(rep: Bytes, first: nat, us: seq<Update>)
    requires Holds(rep, first, us)
    ensures |rep| >= HEADER && rep[12..] == Codes(us) && forall u | u in us :: Fits(u)
  {
    hide Codes, Fits, Fixed;
  }

  /** The count field after `n` more records. */
  lemma CountMore(rep: Bytes, first: nat, us: seq<Update>, n: nat)
    requires Holds(rep, first, us)
    ensures |rep| >= HEADER && (Word(rep[8..12]) + n) % WORD32 == (|us| + n) % WORD32
    ensures Word(rep[8..12]) == |us| % WORD32
    ensures rep[12..] == Codes(us) && forall u | u in us :: Fits(u)
  {
    hide Holds, Codes, Fits, Word;
    Parts(rep, first, us);
    FieldsBack(rep, first, us);
    ModAdd(|us|, n);
  }

  lemma Pieces(rep: Bytes, rep': Bytes, word: Bytes, tail: Bytes)
    requires |rep| >= HEADER && |word| == 4 && rep' == (rep[..8] + word + rep[12..]) + tail
    ensures |rep'| >= HEADER && rep'[..8] == rep[..8] && rep'[8..12] == word
    ensures rep'[12..] == rep[12..] + tail
  {
    var head := rep[..8] + word;
    assert rep' == head + (rep[12..] + tail);
    assert rep'[..12] == head;
    assert rep'[..8] == head[..8] && rep'[8..12] == head[8..12];
  }

  lemma TailKept(rep: Bytes, word: Bytes)
    requires |rep| >= HEADER && |word| == 4
    ensures (rep[..8] + word + rep[12..])[12..] == rep[12..]
  {
  }

  lemma Grown(rep: Bytes, rep': Bytes, first: nat, us: seq<Update>, vs: seq<Update>)
    requires Holds(rep, first, us) && (forall u | u in vs :: Fits(u)) && |rep| >= HEADER
    requires rep' == (rep[..8] + Fixed((|us| + |vs|) % WORD32, 4) + rep[12..]) + Codes(vs)
    ensures Holds(rep', first, us + vs)
  {
    hide Codes, Fits, Fixed;
    Pieces(rep, rep', Fixed((|us| + |vs|) % WORD32, 4), Codes(vs));
    CodesConcat(us, vs);
  }

  lemma Bad(rep: Bytes, first: nat, us: seq<Update>)
    requires |rep| >= HEADER && !Parse(rep[12..]).1
    ensures !Holds(rep, first, us)
  {
    hide Parse, Codes;
    if Holds(rep, first, us) { CodesBack(us); }
  }

  lemma Good(rep: Bytes, first: nat, us: seq<Update>)
    requires |rep| >= HEADER
    ensures Holds(rep, first, us) && |us| < MAX_COUNT ==>
              Parse(rep[12..]) == (us, true) && Word(rep[8..12]) == |us|
  {
    hide Parse, Codes;
    if Holds(rep, first, us) && |us| < MAX_COUNT {
      CodesBack(us);
      FieldsBack(rep, first, us);
    }
  }
}

/**
 What `feed` makes of any payload: a reader of a byte stream, without buffer or
 slices, that answers and writes as the in-place loop does. Away from two
 irregularities of the code its language is sections of whole records.
 */
module Grammar {
  import opened Splices
  import opened Words
  import opened Wire
  import opened Slices
  import opened Branches
  import opened Feed

  datatype Section = Section(id: Word, records: seq<Record>)

  predicate AllWhole(rs: seq<Record>) {
    forall k :: 0 <= k < |rs| ==> Whole(rs[k])
  }

  function SectionSent(s: Section): seq<byte> {
    [B] + Big(s.id) + RecordsSent(s.records)
  }

  /** Every record is whole and every file can be opened. */
  ghost predicate Acceptable(ss: seq<Section>, opens: Word -> bool) {
    forall k :: 0 <= k < |ss| ==> AllWhole(ss[k].records) && opens(ss[k].id)
  }

  function Payload(ss: seq<Section>): seq<byte> {
    if ss == [] then [] else SectionSent(ss[0]) + Payload(ss[1..])
  }

  ghost predicate MadeOfSections(payload: seq<byte>, opens: Word -> bool) {
    exists ss :: Acceptable(ss, opens) && Payload(ss) == payload
  }

  /** Each section appended to its own file, in order. */
  function WriteAll(files: Files, ss: seq<Section>): Files
    decreases |ss|
  {
    if ss == [] then files
    else WriteAll(Write(files, Some(ss[0].id), RecordsKept(ss[0].records)), ss[1..])
  }

  /** What the sections for file `x` leave in it. */
  function KeptFor(ss: seq<Section>, x: Word): seq<byte> {
    if ss == [] then [] else (if ss[0].id == x then RecordsKept(ss[0].records) else []) + KeptFor(ss[1..], x)
  }

  /** Some section is for file `x`. */
  predicate Names(ss: seq<Section>, x: Word) {
    exists k :: 0 <= k < |ss| && ss[k].id == x
  }

  /** File by file: what was there stays, and each file gets what its own sections
      leave, in order. */
  lemma {:induction false} WriteAllByFile(files: Files, ss: seq<Section>, x: Word)
    ensures x in WriteAll(files, ss) <==> x in files || Names(ss, x)
    ensures Contents(WriteAll(files, ss), x) == Contents(files, x) + KeptFor(ss, x)
    decreases |ss|
  {
    if ss != [] {
      var s := ss[0];
      var next := Write(files, Some(s.id), RecordsKept(s.records));
      WriteEffect(files, Some(s.id), RecordsKept(s.records), x);
      WriteAllByFile(next, ss[1..], x);
      NamesCons(ss, x);
    }
  }

  lemma NamesCons(ss: seq<Section>, x: Word)
    requires ss != []
    ensures Names(ss, x) <==> ss[0].id == x || Names(ss[1..], x)
  {
    if Names(ss, x) {
      var k :| 0 <= k < |ss| && ss[k].id == x;
      assert k > 0 ==> ss[1..][k - 1].id == x;
    }
    if Names(ss[1..], x) {
      var k :| 0 <= k < |ss[1..]| && ss[1..][k].id == x;
      assert ss[k + 1].id == x;
    }
  }

  // ---------- reading a stream ----------

  datatype Verdict = Verdict(ok: bool, files: Files)

  /** The length a record at the front of `rest` is taken to have: the sum of its
      lengths modulo 2^32, or if that is 0 the one of its lengths once swapped. */
  function Claimed(rest: seq<byte>): (n: Word)
    requires |rest| >= 13
    ensures n > 0
  {
    SwapLengthsSwaps(rest, 0);
    NoDoubleWrap(Quad4(rest, 5), Quad4(rest, 9));
    if LengthAt(rest, 0) != 0 then LengthAt(rest, 0) else LengthAt(SwapLengths(rest, 0), 0)
  }

  /** The stream once that record is taken: its lengths are swapped, unless they
      were swapped twice. */
  function Taken(rest: seq<byte>): (r: seq<byte>)
    requires |rest| >= 13
    ensures |r| == |rest|
  {
    if LengthAt(rest, 0) != 0 then SwapLengths(rest, 0) else rest
  }

  /** `feed` as a reader of a stream. A header of two bytes is enough; a record
      may be shorter than its own header, and then what it swapped is read on. */
  ghost function Scan(rest: seq<byte>, file: Option<Word>, done: seq<byte>, files: Files, env: Env): Verdict
    decreases |rest|
  {
    if rest == [] then Verdict(true, Write(files, file, done))
    else if rest[0] == B then
      if |rest| == 1 || !env.opens(HeaderId(rest, 0, env)) then Verdict(false, Write(files, file, done))
      else
        var id := HeaderId(rest, 0, env);
        Scan(rest[Min(5, |rest|)..], Some(id), [], Create(Write(files, file, done), id), env)
    else if rest[0] == I && file.Some? && |rest| >= 13 && Claimed(rest) <= |rest| then
      var n := Claimed(rest);
      Scan(Taken(rest)[n..], file, done + Taken(rest)[..n], files, env)
    else Verdict(false, files)
  }

  /** Bytes 5 to 8 and 9 to 12 each the other way round. */
  function BothReversed(rest: seq<byte>): seq<byte>
    requires |rest| >= 13
  {
    rest[..5] + Reverse(rest[5..9]) + Reverse(rest[9..13]) + rest[13..]
  }

  lemma SwapIsReversal(rest: seq<byte>)
    requires |rest| >= 13
    ensures SwapLengths(rest, 0) == BothReversed(rest)
    ensures Quad4(rest, 5) == rest[5..9] && Quad4(rest, 9) == rest[9..13]
    ensures Quad4(SwapLengths(rest, 0), 5) == Reverse(rest[5..9])
    ensures Quad4(SwapLengths(rest, 0), 9) == Reverse(rest[9..13])
  {
    SwapLengthsSwaps(rest, 0);
    assert |BothReversed(rest)| == |rest|;
  }

  lemma LengthOfFields(rest: seq<byte>)
    requires |rest| >= 13
    ensures LengthAt(rest, 0) == RecordLength(ReadBig(rest[5..9]), ReadBig(rest[9..13]))
    ensures LengthAt(SwapLengths(rest, 0), 0) == RecordLength(ReadLittle(rest[5..9]), ReadLittle(rest[9..13]))
  {
    SwapIsReversal(rest);
  }

  lemma LengthModulo(a: Word, b: Word)
    ensures RecordLength(a, b) == (13 + a + b) % 0x1_0000_0000
  {
  }

  lemma TakenIs(rest: seq<byte>)
    requires |rest| >= 13
    ensures Taken(rest) == if LengthAt(rest, 0) != 0 then BothReversed(rest) else rest
  {
    SwapIsReversal(rest);
  }

  /** Any record, regular or not: its length is 13 and its two lengths, modulo 2^32,
      and it is kept with these reversed; if that is nothing, its length is the same
      with both read the other way round, and it is kept as it is. What is beyond
      the payload is refused, and what is left, reversed or not, is read on. */
  lemma RecordScanned(rest: seq<byte>, id: Word, done: seq<byte>, files: Files, env: Env)
    requires |rest| >= 13 && rest[0] == 105
    ensures var n := RecordLength(ReadBig(rest[5..9]), ReadBig(rest[9..13]));
      var m := RecordLength(ReadLittle(rest[5..9]), ReadLittle(rest[9..13]));
      var length, kept := if n != 0 then n else m, if n != 0 then BothReversed(rest) else rest;
      Scan(rest, Some(id), done, files, env) ==
        if length > |rest| then Verdict(false, files)
        else Scan(kept[length..], Some(id), done + kept[..length], files, env)
  {
    LengthOfFields(rest);
    TakenIs(rest);
  }

  /** The ids of the headers the reader comes to and can open. */
  ghost function Opened(rest: seq<byte>, open: bool, env: Env): set<Word>
    decreases |rest|
  {
    if rest == [] then {}
    else if rest[0] == B then
      if |rest| == 1 || !env.opens(HeaderId(rest, 0, env)) then {}
      else {HeaderId(rest, 0, env)} + Opened(rest[Min(5, |rest|)..], true, env)
    else if rest[0] == I && open && |rest| >= 13 && Claimed(rest) <= |rest| then
      Opened(Taken(rest)[Claimed(rest)..], true, env)
    else {}
  }

  /** Reading only appends, only to the files of headers it came to, and makes no
      other file. */
  lemma {:induction false} ScanByFile(rest: seq<byte>, file: Option<Word>, done: seq<byte>, files: Files, env: Env,
                                      x: Word)
    requires file.Some? ==> file.value in files
    ensures var after := Scan(rest, file, done, files, env).files;
      && (x in after <==> x in files || x in Opened(rest, file.Some?, env))
      && Contents(files, x) <= Contents(after, x)
      && (x !in Opened(rest, file.Some?, env) && file != Some(x) ==> Contents(after, x) == Contents(files, x))
    decreases |rest|
  {
    WriteEffect(files, file, done, x);
    if rest != [] && rest[0] == B && |rest| > 1 && env.opens(HeaderId(rest, 0, env)) {
      var id, written := HeaderId(rest, 0, env), Write(files, file, done);
      CreateEffect(written, id, x);
      CreateEffect(written, id, id);
      ScanByFile(rest[Min(5, |rest|)..], Some(id), [], Create(written, id), env, x);
    } else if rest != [] && rest[0] == I && file.Some? && |rest| >= 13 && Claimed(rest) <= |rest| {
      var n := Claimed(rest);
      ScanByFile(Taken(rest)[n..], file, done + Taken(rest)[..n], files, env, x);
    }
  }

  // ---------- the loop is that reader ----------

  ghost function Rest(m: Machine): seq<byte>
    requires InMemory(m.p, |m.buf|)
  {
    Read(m.buf, m.p)
  }

  /** What follows the payload that ends at `e`. */
  function Seen(buf: seq<byte>, e: nat, env: Env): Env
    requires e <= |buf|
  {
    Env(env.opens, (buf + env.beyond)[e..e + 3])
  }

  ghost function Reading(m: Machine, e: nat, env: Env): Verdict
    requires Sane(m, e)
  {
    Scan(Rest(m), m.file, Read(m.buf, m.commit), m.files, Seen(m.buf, e, env))
  }

  lemma RestQuad(m: Machine, k: nat)
    requires InMemory(m.p, |m.buf|) && k + 4 <= m.p.len
    ensures Quad4(Rest(m), k) == Quad4(m.buf, m.p.at + k)
  {
  }

  lemma ReadDrop(buf: seq<byte>, p: Slice, k: nat)
    requires InMemory(p, |buf|)
    ensures InMemory(Bslice(p, k, 0), |buf|) && Read(buf, Bslice(p, k, 0)) == Read(buf, p)[Min(k, p.len)..]
  {
  }

  lemma SameId(buf: seq<byte>, p: Slice, env: Env)
    requires InMemory(p, |buf|) && p.len > 1
    ensures HeaderId(Read(buf, p), 0, Seen(buf, p.at + p.len, env)) == HeaderId(buf, p.at, env)
  {
    var all, e := buf + env.beyond, p.at + p.len;
    assert Read(buf, p) + Seen(buf, e, env).beyond == all[p.at..e + 3];
    assert Quad4(all[p.at..e + 3], 1) == Quad4(all, p.at + 1);
  }

  lemma HeaderReads(m: Machine, e: nat, env: Env)
    requires Sane(m, e) && m.p.len > 0 && m.buf[m.p.at] == B
    ensures match HeaderStep(m, e, env)
      case Stop(o) => Verdict(o.ok, o.files) == Reading(m, e, env)
      case Go(next) => Reading(next, e, env) == Reading(m, e, env)
  {
    if m.p.len > 1 {
      SameId(m.buf, m.p, env);
      ReadDrop(m.buf, m.p, 5);
      var p := Bslice(m.p, 5, 0);
      assert Read(m.buf, Slice(p.at, 0)) == [];
    }
  }

  lemma SameLength(m: Machine)
    requires InMemory(m.p, |m.buf|) && m.p.len >= 13
    ensures LengthAt(Rest(m), 0) == LengthAt(m.buf, m.p.at)
  {
    RestQuad(m, 5);
    RestQuad(m, 9);
  }

  lemma ReadSwap4(buf: seq<byte>, p: Slice, k: nat)
    requires InMemory(p, |buf|) && k + 4 <= p.len
    ensures Read(Swap4(buf, p.at + k), p) == Swap4(Read(buf, p), k)
  {
    var swapped, rest := Swap4(buf, p.at + k), Read(buf, p);
    forall i | 0 <= i < p.len
      ensures Read(swapped, p)[i] == Swap4(rest, k)[i]
    {
      assert Read(swapped, p)[i] == swapped[p.at + i];
      if k <= i < k + 4 {
        assert rest[2 * k + 3 - i] == buf[p.at + (2 * k + 3 - i)];
      }
    }
  }

  /** Swapping in memory is swapping in the stream. */
  lemma RestSwapped(m: Machine, buf: seq<byte>)
    requires InMemory(m.p, |m.buf|) && m.p.len >= 13 && buf == SwapLengths(m.buf, m.p.at)
    ensures Read(buf, m.p) == SwapLengths(Rest(m), 0)
  {
    ReadSwap4(m.buf, m.p, 5);
    ReadSwap4(Swap4(m.buf, m.p.at + 5), m.p, 9);
  }

  lemma SeenSwapped(m: Machine, e: nat, env: Env)
    requires Sane(m, e) && m.p.len >= 13
    ensures Seen(SwapLengths(m.buf, m.p.at), e, env) == Seen(m.buf, e, env)
  {
    SwapLengthsSwaps(m.buf, m.p.at);
    SeenUnchanged(m.buf, SwapLengths(m.buf, m.p.at), e, env);
  }

  lemma SeenUnchanged(buf: seq<byte>, u: seq<byte>, e: nat, env: Env)
    requires e <= |buf| == |u| && forall k :: e <= k < |buf| ==> u[k] == buf[k]
    ensures Seen(u, e, env) == Seen(buf, e, env)
  {
    assert forall k :: e <= k < e + 3 ==> (u + env.beyond)[k] == (buf + env.beyond)[k];
  }

  lemma CommitGrows(buf: seq<byte>, m: Machine, e: nat, n: nat)
    requires Sane(m, e) && m.file.Some? && m.p.len >= 13 && n <= m.p.len && buf == SwapLengths(m.buf, m.p.at)
    ensures Read(buf, Slice(m.commit.at, m.commit.len + n)) == Read(m.buf, m.commit) + Read(buf, m.p)[..n]
  {
    SwapLengthsSwaps(m.buf, m.p.at);
    ReadGrows(m.buf, buf, m.commit, m.p, n);
  }

  lemma ReadGrows(buf: seq<byte>, u: seq<byte>, c: Slice, p: Slice, n: nat)
    requires |buf| == |u| && c.at + c.len == p.at && InMemory(p, |buf|) && n <= p.len
    requires forall k :: 0 <= k < p.at ==> u[k] == buf[k]
    ensures Read(u, Slice(c.at, c.len + n)) == Read(buf, c) + Read(u, p)[..n]
  {
  }

  lemma RecordAdvances(m: Machine, e: nat)
    requires Sane(m, e) && m.p.len >= 13 && m.buf[m.p.at] == I && m.file.Some?
    requires LengthAt(m.buf, m.p.at) <= m.p.len
    ensures var n := LengthAt(m.buf, m.p.at);
      RecordStep(m, e) == Go(Machine(SwapLengths(m.buf, m.p.at), Bslice(m.p, n, 0),
                                     Slice(m.commit.at, m.commit.len + n), m.file, m.files))
  {
  }

  lemma AdvancedReads(m: Machine, e: nat, env: Env, n: nat, next: Machine)
    requires Sane(m, e) && Sane(next, e) && m.p.len >= 13 && m.file.Some? && n <= m.p.len
    requires next == Machine(SwapLengths(m.buf, m.p.at), Bslice(m.p, n, 0),
                             Slice(m.commit.at, m.commit.len + n), m.file, m.files)
    ensures var swapped := SwapLengths(Rest(m), 0);
      Reading(next, e, env)
      == Scan(swapped[n..], m.file, Read(m.buf, m.commit) + swapped[..n], m.files, Seen(m.buf, e, env))
  {
    RestSwapped(m, next.buf);
    SeenSwapped(m, e, env);
    CommitGrows(next.buf, m, e, n);
    ReadDrop(next.buf, m.p, n);
  }

  lemma RecordGoes(m: Machine, e: nat, env: Env)
    requires Sane(m, e) && m.p.len >= 13 && m.buf[m.p.at] == I && m.file.Some?
    requires LengthAt(m.buf, m.p.at) <= m.p.len
    ensures RecordStep(m, e).Go?
    ensures var n := LengthAt(m.buf, m.p.at); var swapped := SwapLengths(Rest(m), 0);
      Reading(RecordStep(m, e).machine, e, env)
      == Scan(swapped[n..], m.file, Read(m.buf, m.commit) + swapped[..n], m.files, Seen(m.buf, e, env))
  {
    RecordAdvances(m, e);
    AdvancedReads(m, e, env, LengthAt(m.buf, m.p.at), RecordStep(m, e).machine);
  }

  lemma SwapTwice(rest: seq<byte>)
    requires |rest| >= 13
    ensures SwapLengths(SwapLengths(rest, 0), 0) == rest
  {
  }

  /** A stalled record is read as if its lengths had been swapped before. */
  lemma ScanStalled(rest: seq<byte>, file: Option<Word>, done: seq<byte>, files: Files, env: Env)
    requires |rest| >= 13 && rest[0] == I && LengthAt(rest, 0) == 0
    ensures Scan(SwapLengths(rest, 0), file, done, files, env) == Scan(rest, file, done, files, env)
  {
    SwapTwice(rest);
    var swapped := SwapLengths(rest, 0);
    assert swapped[0] == I;
    assert Claimed(swapped) == Claimed(rest) && Taken(swapped) == Taken(rest);
  }

  lemma RecordReads(m: Machine, e: nat, env: Env)
    requires Sane(m, e) && m.p.len > 0 && m.buf[m.p.at] == I
    ensures match RecordStep(m, e)
      case Stop(o) => Verdict(o.ok, o.files) == Reading(m, e, env)
      case Go(next) => Reading(next, e, env) == Reading(m, e, env)
  {
    if m.file.Some? && m.p.len >= 13 {
      SameLength(m);
      var n := LengthAt(m.buf, m.p.at);
      if n <= m.p.len {
        RecordGoes(m, e, env);
        if n == 0 {
          var swapped := SwapLengths(Rest(m), 0);
          assert swapped[0..] == swapped && Read(m.buf, m.commit) + swapped[..0] == Read(m.buf, m.commit);
          ScanStalled(Rest(m), m.file, Read(m.buf, m.commit), m.files, Seen(m.buf, e, env));
        }
      }
    }
  }

  lemma RoundReads(m: Machine, e: nat, env: Env)
    requires Sane(m, e) && m.p.len > 0
    ensures match Round(m, e, env)
      case Stop(o) => Verdict(o.ok, o.files) == Reading(m, e, env)
      case Go(next) => Reading(next, e, env) == Reading(m, e, env)
  {
    if m.buf[m.p.at] == B {
      HeaderReads(m, e, env);
    } else if m.buf[m.p.at] == I {
      RecordReads(m, e, env);
    }
  }

  /** The in-place loop refines the reader on every payload, from every state. */
  lemma {:induction false} LoopIsScan(m: Machine, e: nat, env: Env)
    requires Sane(m, e)
    ensures Verdict(Loop(m, e, env).ok, Loop(m, e, env).files) == Reading(m, e, env)
    decreases m.p.len, if Stalls(m) then 1 else 0
  {
    if m.p.len > 0 {
      RoundReads(m, e, env);
      match Round(m, e, env)
      case Stop(_) =>
      case Go(next) => LoopIsScan(next, e, env);
    }
  }

  lemma FreshLoopIsScan(m: Machine, e: nat, env: Env, rest: seq<byte>, seen: Env)
    requires Sane(m, e) && m.file.None? && m.commit.len == 0
    requires rest == Rest(m) && seen == Seen(m.buf, e, env)
    ensures Verdict(Loop(m, e, env).ok, Loop(m, e, env).files) == Scan(rest, None, [], m.files, seen)
  {
    assert Read(m.buf, m.commit) == [];
    LoopIsScan(m, e, env);
  }

  // ---------- regular streams ----------

  function Size(r: Record): nat {
    13 + |r.last| + |r.now|
  }

  /** The first record of `rest`, if it is all there. */
  function Front(rest: seq<byte>): (r: Option<Record>)
    ensures r.Some? ==> Size(r.value) <= |rest|
  {
    if |rest| < 13 || rest[0] != I then None
    else
      var a, b := ReadBig(rest[5..9]), ReadBig(rest[9..13]);
      if 13 + a + b > |rest| then None
      else Some(Record(rest[1..5], rest[13..13 + a], rest[13 + a..13 + a + b]))
  }

  /** Nowhere along the reading is a header cut off after two to four bytes, nor
      do the lengths of a record overflow 32 bits. */
  ghost predicate Regular(rest: seq<byte>, open: bool, opens: Word -> bool)
    decreases |rest|
  {
    rest == [] ||
    if rest[0] == B then
      |rest| == 1 || (|rest| >= 5 && (opens(ReadBig(rest[1..5])) ==> Regular(rest[5..], true, opens)))
    else open && rest[0] == I && |rest| >= 13 ==>
      && 13 + ReadBig(rest[5..9]) + ReadBig(rest[9..13]) < WORD
      && (Front(rest).Some? ==> Regular(rest[Size(Front(rest).value)..], true, opens))
  }

  lemma WholeId(rest: seq<byte>, env: Env)
    requires |rest| >= 5
    ensures HeaderId(rest, 0, env) == ReadBig(rest[1..5])
  {
    assert Quad4(rest + env.beyond, 1) == rest[1..5];
  }

  /** A header that is cut off goes on with what follows the payload. */
  lemma CutId(rest: seq<byte>, env: Env)
    requires 2 <= |rest| <= 4
    ensures HeaderId(rest, 0, env) == ReadBig(rest[1..] + env.beyond[..5 - |rest|])
  {
    assert Quad4(rest + env.beyond, 1) == rest[1..] + env.beyond[..5 - |rest|];
  }

  /** Without overflow the length the code computes is the true one. */
  lemma ClaimIsTrue(rest: seq<byte>)
    requires |rest| >= 13 && 13 + ReadBig(rest[5..9]) + ReadBig(rest[9..13]) < WORD
    ensures LengthAt(rest, 0) == Claimed(rest) == 13 + ReadBig(rest[5..9]) + ReadBig(rest[9..13])
    ensures Taken(rest) == SwapLengths(rest, 0)
  {
    assert Quad4(rest, 5) == rest[5..9] && Quad4(rest, 9) == rest[9..13];
    TrueLength(ReadBig(rest[5..9]), ReadBig(rest[9..13]));
  }

  lemma TrueLength(a: Word, b: Word)
    requires 13 + a + b < WORD
    ensures RecordLength(a, b) == 13 + a + b
  {
  }

  lemma KeptBytes(swapped: seq<byte>, lastlen: Quad, newlen: Quad, r: Record)
    requires |swapped| == Size(r) && lastlen == Little(|r.last| % WORD) && newlen == Little(|r.now| % WORD)
    requires swapped[0] == I && swapped[1..5] == r.pos && swapped[5..9] == lastlen && swapped[9..13] == newlen
    requires swapped[13..13 + |r.last|] == r.last && swapped[13 + |r.last|..] == r.now
    ensures swapped == RecordKept(r)
  {
    var k := 13 + |r.last|;
    assert swapped == swapped[..1] + swapped[1..5] + swapped[5..9] + swapped[9..13] + (swapped[13..k] + swapped[k..]);
  }

  lemma SwappedFields(rest: seq<byte>)
    requires |rest| >= 13
    ensures var s := SwapLengths(rest, 0);
      && s[..5] == rest[..5] && s[13..] == rest[13..]
      && s[5..9] == Reverse(rest[5..9]) && s[9..13] == Reverse(rest[9..13])
  {
    SwapLengthsSwaps(rest, 0);
    var s := SwapLengths(rest, 0);
    assert s[5..9] == Quad4(s, 5) && s[9..13] == Quad4(s, 9);
    assert rest[5..9] == Quad4(rest, 5) && rest[9..13] == Quad4(rest, 9);
  }

  lemma LittleOf(b: Quad, n: nat)
    requires ReadBig(b) == n
    ensures Reverse(b) == Little(n % WORD)
  {
    ReadRoundTrip(b);
    Low32(n);
  }

  /** A whole record with true lengths is taken as that record, and kept. */
  lemma WholeTaken(rest: seq<byte>, r: Record)
    requires Front(rest) == Some(r) && Whole(r)
    ensures Claimed(rest) == Size(r)
    ensures Taken(rest)[..Size(r)] == RecordKept(r) && Taken(rest)[Size(r)..] == rest[Size(r)..]
  {
    ClaimIsTrue(rest);
    SwappedFields(rest);
    LittleOf(rest[5..9], |r.last|);
    LittleOf(rest[9..13], |r.now|);
    var s := SwapLengths(rest, 0);
    SliceOfSwapped(s, rest, r, Reverse(rest[5..9]), Reverse(rest[9..13]));
  }

  lemma SliceOfSwapped(s: seq<byte>, rest: seq<byte>, r: Record, lastlen: Quad, newlen: Quad)
    requires Front(rest) == Some(r) && |s| == |rest| && s[..5] == rest[..5] && s[13..] == rest[13..]
    requires s[5..9] == lastlen == Little(|r.last| % WORD) && s[9..13] == newlen == Little(|r.now| % WORD)
    ensures s[..Size(r)] == RecordKept(r) && s[Size(r)..] == rest[Size(r)..]
  {
    var t := s[..Size(r)];
    assert t[0] == s[..5][0] == rest[..5][0];
    assert t[1..5] == s[..5][1..] == rest[..5][1..] == r.pos;
    assert t[5..9] == s[5..9] && t[9..13] == s[9..13];
    assert forall k :: 13 <= k < |rest| ==> s[k] == s[13..][k - 13] == rest[13..][k - 13] == rest[k];
    assert t[13..13 + |r.last|] == rest[13..13 + |r.last|] == r.last;
    assert t[13 + |r.last|..] == rest[13 + |r.last|..Size(r)] == r.now;
    KeptBytes(t, lastlen, newlen, r);
  }

  // ---------- whole sections are read as such ----------

  lemma FrontLaid(pos: Quad, lastlen: Quad, newlen: Quad, last: Text, now: Text, rest: seq<byte>)
    requires ReadBig(lastlen) == |last| && ReadBig(newlen) == |now|
    ensures Front(Laid(pos, lastlen, newlen, last, now) + rest) == Some(Record(pos, last, now))
  {
    var f := Laid(pos, lastlen, newlen, last, now) + rest;
    assert f[0] == I && f[1..5] == pos && f[5..9] == lastlen && f[9..13] == newlen;
    assert f[13..13 + |last|] == last;
    assert f[13 + |last|..13 + |last| + |now|] == now;
  }

  lemma LaidParts(pos: Quad, lastlen: Quad, newlen: Quad, last: Text, now: Text, rest: seq<byte>)
    ensures var f := Laid(pos, lastlen, newlen, last, now) + rest;
      f[0] == I && f[5..9] == lastlen && f[9..13] == newlen && f[13 + |last| + |now|..] == rest
  {
  }

  lemma SentLengths(r: Record)
    requires Whole(r)
    ensures ReadBig(Big(|r.last| % WORD)) == |r.last| && ReadBig(Big(|r.now| % WORD)) == |r.now|
  {
    Low32(|r.last|);
    Low32(|r.now|);
    BigRoundTrip(|r.last|);
    BigRoundTrip(|r.now|);
  }

  lemma FrontOfRecord(r: Record, rest: seq<byte>)
    requires Whole(r)
    ensures Front(RecordSent(r) + rest) == Some(r)
    ensures (RecordSent(r) + rest)[Size(r)..] == rest
    ensures (RecordSent(r) + rest)[0] == I && |RecordSent(r) + rest| >= 13
    ensures ReadBig((RecordSent(r) + rest)[5..9]) == |r.last| && ReadBig((RecordSent(r) + rest)[9..13]) == |r.now|
  {
    SentLengths(r);
    var a, b := Big(|r.last| % WORD), Big(|r.now| % WORD);
    FrontLaid(r.pos, a, b, r.last, r.now, rest);
    LaidParts(r.pos, a, b, r.last, r.now, rest);
  }

  lemma ScanRecord(rest: seq<byte>, r: Record, id: Word, done: seq<byte>, files: Files, env: Env)
    requires Front(rest) == Some(r) && Whole(r)
    ensures Scan(rest, Some(id), done, files, env)
      == Scan(rest[Size(r)..], Some(id), done + RecordKept(r), files, env)
  {
    WholeTaken(rest, r);
  }

  /** Records are moved to the section being collected one by one. */
  lemma {:induction false} RecordsRead(rs: seq<Record>, rest: seq<byte>, id: Word, done: seq<byte>, files: Files,
                                       env: Env)
    requires AllWhole(rs)
    ensures Scan(RecordsSent(rs) + rest, Some(id), done, files, env)
      == Scan(rest, Some(id), done + RecordsKept(rs), files, env)
    decreases |rs|
  {
    if rs == [] {
      assert RecordsSent(rs) + rest == rest && done + RecordsKept(rs) == done;
    } else {
      var r, more := rs[0], RecordsSent(rs[1..]) + rest;
      Associative(RecordSent(r), RecordsSent(rs[1..]), rest);
      FrontOfRecord(r, more);
      ScanRecord(RecordSent(r) + more, r, id, done, files, env);
      RecordsRead(rs[1..], rest, id, done + RecordKept(r), files, env);
      Associative(done, RecordKept(r), RecordsKept(rs[1..]));
    }
  }

  lemma {:induction false} RecordsRegular(rs: seq<Record>, rest: seq<byte>, opens: Word -> bool)
    requires AllWhole(rs)
    ensures Regular(RecordsSent(rs) + rest, true, opens) <==> Regular(rest, true, opens)
    decreases |rs|
  {
    if rs == [] {
      assert RecordsSent(rs) + rest == rest;
    } else {
      var r, more := rs[0], RecordsSent(rs[1..]) + rest;
      Associative(RecordSent(r), RecordsSent(rs[1..]), rest);
      FrontOfRecord(r, more);
      RecordsRegular(rs[1..], rest, opens);
    }
  }

  lemma HeaderRead(id: Word, rest: seq<byte>)
    ensures var f := [B] + Big(id) + rest;
      f[0] == B && |f| >= 5 && f[1..5] == Big(id) && ReadBig(f[1..5]) == id && f[5..] == rest
  {
    BigRoundTrip(id);
    assert ([B] + Big(id) + rest)[1..5] == Big(id);
  }

  lemma SectionParts(s: Section, rest: seq<byte>)
    ensures SectionSent(s) + rest == [B] + Big(s.id) + (RecordsSent(s.records) + rest)
  {
  }

  lemma SectionRead(s: Section, rest: seq<byte>, file: Option<Word>, done: seq<byte>, files: Files, env: Env)
    requires AllWhole(s.records) && env.opens(s.id)
    ensures Scan(SectionSent(s) + rest, file, done, files, env)
      == Scan(rest, Some(s.id), RecordsKept(s.records), Create(Write(files, file, done), s.id), env)
  {
    var more := RecordsSent(s.records) + rest;
    SectionParts(s, rest);
    HeaderRead(s.id, more);
    WholeId([B] + Big(s.id) + more, env);
    RecordsRead(s.records, rest, s.id, [], Create(Write(files, file, done), s.id), env);
    assert [] + RecordsKept(s.records) == RecordsKept(s.records);
  }

  lemma SectionRegular(s: Section, rest: seq<byte>, open: bool, opens: Word -> bool)
    requires AllWhole(s.records) && opens(s.id)
    ensures Regular(SectionSent(s) + rest, open, opens) <==> Regular(rest, true, opens)
  {
    var more := RecordsSent(s.records) + rest;
    SectionParts(s, rest);
    HeaderRead(s.id, more);
    RecordsRegular(s.records, rest, opens);
  }

  lemma WriteCreated(files: Files, id: Word, data: seq<byte>)
    ensures Write(Create(files, id), Some(id), data) == Write(files, Some(id), data)
  {
  }

  lemma PayloadStep(ss: seq<Section>, rest: seq<byte>)
    requires ss != []
    ensures Payload(ss) + rest == SectionSent(ss[0]) + (Payload(ss[1..]) + rest)
  {
  }

  /** Sections are read and written one by one, up to the end or a header. */
  lemma {:induction false} SectionsRead(ss: seq<Section>, rest: seq<byte>, file: Option<Word>, done: seq<byte>,
                                        files: Files, env: Env)
    requires Acceptable(ss, env.opens) && (rest == [] || rest[0] == B)
    ensures Scan(Payload(ss) + rest, file, done, files, env)
      == Scan(rest, None, [], WriteAll(Write(files, file, done), ss), env)
    decreases |ss|
  {
    if ss == [] {
      assert Payload(ss) + rest == rest;
    } else {
      var s, was := ss[0], Write(files, file, done);
      PayloadStep(ss, rest);
      SectionRead(s, Payload(ss[1..]) + rest, file, done, files, env);
      SectionsRead(ss[1..], rest, Some(s.id), RecordsKept(s.records), Create(was, s.id), env);
      WriteCreated(was, s.id, RecordsKept(s.records));
    }
  }

  lemma {:induction false} SectionsRegular(ss: seq<Section>, rest: seq<byte>, open: bool, opens: Word -> bool)
    requires Acceptable(ss, opens)
    ensures Regular(Payload(ss) + rest, open, opens) <==> Regular(rest, open || ss != [], opens)
    decreases |ss|
  {
    if ss == [] {
      assert Payload(ss) + rest == rest;
    } else {
      PayloadStep(ss, rest);
      SectionRegular(ss[0], Payload(ss[1..]) + rest, open, opens);
      SectionsRegular(ss[1..], rest, true, opens);
    }
  }

  // ---------- and nothing else is ----------

  /** No section and no record can be read from `tail`. */
  ghost predicate Unreadable(tail: seq<byte>, open: bool, opens: Word -> bool) {
    && tail != []
    && if tail[0] == B then |tail| < 5 || !opens(ReadBig(tail[1..5]))
       else !open || Front(tail).None?
  }

  /** The files once sections `ss` were read and reading ended before `tail`:
      only a later `b` or the end of the payload writes a section. */
  function Written(files: Files, ss: seq<Section>, tail: seq<byte>): Files {
    if ss == [] then files
    else if tail == [] || tail[0] == B then WriteAll(files, ss)
    else Create(WriteAll(files, ss[..|ss| - 1]), ss[|ss| - 1].id)
  }

  function WrittenFrom(files: Files, file: Option<Word>, done: seq<byte>, ss: seq<Section>, tail: seq<byte>): Files {
    if ss == [] && tail != [] && tail[0] != B then files
    else Written(Write(files, file, done), ss, tail)
  }

  lemma WrittenLast(files: Files, s: Section, tail: seq<byte>)
    ensures WrittenFrom(Create(files, s.id), Some(s.id), RecordsKept(s.records), [], tail)
      == Written(files, [s], tail)
  {
    WriteCreated(files, s.id, RecordsKept(s.records));
    var none: seq<Section> := [];
    assert [s][..0] == none && [s][1..] == none;
    assert WriteAll(files, none) == files;
    assert WriteAll(files, [s]) == Write(files, Some(s.id), RecordsKept(s.records));
  }

  lemma WrittenMore(files: Files, s: Section, ss: seq<Section>, tail: seq<byte>)
    requires ss != []
    ensures Written(Write(files, Some(s.id), RecordsKept(s.records)), ss, tail) == Written(files, [s] + ss, tail)
  {
    var all := [s] + ss;
    assert all[1..] == ss && all[0] == s;
    if tail != [] && tail[0] != B {
      var front := all[..|all| - 1];
      assert front[1..] == ss[..|ss| - 1] && front[0] == s;
    }
  }

  lemma WrittenOne(files: Files, id: Word, rs: seq<Record>, ss: seq<Section>, tail: seq<byte>)
    ensures WrittenFrom(Create(files, id), Some(id), RecordsKept(rs), ss, tail)
      == Written(files, [Section(id, rs)] + ss, tail)
  {
    if ss == [] {
      assert [Section(id, rs)] + ss == [Section(id, rs)];
      WrittenLast(files, Section(id, rs), tail);
    } else {
      WriteCreated(files, id, RecordsKept(rs));
      WrittenMore(files, Section(id, rs), ss, tail);
    }
  }

  /** One readable header, and what is left to read after it. */
  lemma ReadHeader(rest: seq<byte>, file: Option<Word>, done: seq<byte>, files: Files, env: Env)
    requires rest != [] && !Unreadable(rest, file.Some?, env.opens) && rest[0] == B
    requires Regular(rest, file.Some?, env.opens)
    ensures |rest| >= 5 && env.opens(ReadBig(rest[1..5])) && Regular(rest[5..], true, env.opens)
    ensures var id := ReadBig(rest[1..5]);
      Scan(rest, file, done, files, env) == Scan(rest[5..], Some(id), [], Create(Write(files, file, done), id), env)
  {
    WholeId(rest, env);
  }

  lemma ReadFront(rest: seq<byte>, file: Option<Word>, done: seq<byte>, files: Files, env: Env)
    requires rest != [] && !Unreadable(rest, file.Some?, env.opens) && rest[0] != B
    requires Regular(rest, file.Some?, env.opens)
    ensures file.Some? && Front(rest).Some? && Whole(Front(rest).value)
    ensures var r := Front(rest).value;
      && Regular(rest[Size(r)..], true, env.opens)
      && Scan(rest, file, done, files, env) == Scan(rest[Size(r)..], file, done + RecordKept(r), files, env)
  {
    ScanRecord(rest, Front(rest).value, file.value, done, files, env);
  }

  lemma ReadNoFurther(rest: seq<byte>, file: Option<Word>, done: seq<byte>, files: Files, env: Env)
    requires Regular(rest, file.Some?, env.opens) && (rest == [] || Unreadable(rest, file.Some?, env.opens))
    ensures Scan(rest, file, done, files, env) == Verdict(rest == [], WrittenFrom(files, file, done, [], rest))
  {
    if rest != [] && rest[0] == B && |rest| > 1 {
      WholeId(rest, env);
    } else if rest != [] && rest[0] == I && file.Some? && |rest| >= 13 {
      ClaimIsTrue(rest);
    }
  }

  /** `rest` is whole records `rs` of the open section, whole sections `ss` and
      an unreadable tail. */
  ghost predicate Shape(rest: seq<byte>, open: bool, opens: Word -> bool,
                        rs: seq<Record>, ss: seq<Section>, tail: seq<byte>) {
    && AllWhole(rs) && Acceptable(ss, opens) && (open || rs == [])
    && rest == RecordsSent(rs) + Payload(ss) + tail
    && (tail == [] || Unreadable(tail, open || ss != [], opens))
  }

  /** ... and the reader does with it what that says. */
  ghost predicate Splits(rest: seq<byte>, file: Option<Word>, done: seq<byte>, files: Files, env: Env,
                         rs: seq<Record>, ss: seq<Section>, tail: seq<byte>) {
    && Shape(rest, file.Some?, env.opens, rs, ss, tail)
    && Scan(rest, file, done, files, env)
       == Verdict(tail == [], WrittenFrom(files, file, done + RecordsKept(rs), ss, tail))
  }

  lemma SplitsAtEnd(rest: seq<byte>, file: Option<Word>, done: seq<byte>, files: Files, env: Env)
    requires Regular(rest, file.Some?, env.opens) && (rest == [] || Unreadable(rest, file.Some?, env.opens))
    ensures Splits(rest, file, done, files, env, [], [], rest)
  {
    ReadNoFurther(rest, file, done, files, env);
    assert done + RecordsKept([]) == done;
  }

  lemma SplitsAtHeader(rest: seq<byte>, file: Option<Word>, done: seq<byte>, files: Files, env: Env,
                       id: Word, rs: seq<Record>, ss: seq<Section>, tail: seq<byte>)
    requires |rest| >= 5 && rest[0] == B && id == ReadBig(rest[1..5]) && env.opens(id)
    requires Scan(rest, file, done, files, env)
      == Scan(rest[5..], Some(id), [], Create(Write(files, file, done), id), env)
    requires Splits(rest[5..], Some(id), [], Create(Write(files, file, done), id), env, rs, ss, tail)
    ensures Splits(rest, file, done, files, env, [], [Section(id, rs)] + ss, tail)
  {
    ShapeAtHeader(rest, file.Some?, env.opens, id, rs, ss, tail);
    assert done + RecordsKept([]) == done && [] + RecordsKept(rs) == RecordsKept(rs);
    WrittenOne(Write(files, file, done), id, rs, ss, tail);
  }

  lemma ShapeAtHeader(rest: seq<byte>, open: bool, opens: Word -> bool,
                      id: Word, rs: seq<Record>, ss: seq<Section>, tail: seq<byte>)
    requires |rest| >= 5 && rest[0] == B && id == ReadBig(rest[1..5]) && opens(id)
    requires Shape(rest[5..], true, opens, rs, ss, tail)
    ensures Shape(rest, open, opens, [], [Section(id, rs)] + ss, tail)
  {
    var all := [Section(id, rs)] + ss;
    assert all[1..] == ss;
    ReadRoundTrip(rest[1..5]);
    HeaderCons(rest, rest[1..5], RecordsSent(rs), Payload(ss), tail);
  }

  lemma HeaderCons(rest: seq<byte>, id: Quad, y: seq<byte>, z: seq<byte>, t: seq<byte>)
    requires |rest| >= 5 && rest[0] == B && rest[1..5] == id && rest[5..] == y + z + t
    ensures rest == [] + ([B] + id + y + z) + t
  {
  }

  lemma SplitsAtRecord(rest: seq<byte>, file: Option<Word>, done: seq<byte>, files: Files, env: Env,
                       r: Record, rs: seq<Record>, ss: seq<Section>, tail: seq<byte>)
    requires file.Some? && Front(rest) == Some(r) && Whole(r)
    requires Scan(rest, file, done, files, env) == Scan(rest[Size(r)..], file, done + RecordKept(r), files, env)
    requires Splits(rest[Size(r)..], file, done + RecordKept(r), files, env, rs, ss, tail)
    ensures Splits(rest, file, done, files, env, [r] + rs, ss, tail)
  {
    ShapeAtRecord(rest, env.opens, r, rs, ss, tail);
    assert ([r] + rs)[1..] == rs;
    Associative(done, RecordKept(r), RecordsKept(rs));
  }

  lemma ShapeAtRecord(rest: seq<byte>, opens: Word -> bool,
                      r: Record, rs: seq<Record>, ss: seq<Section>, tail: seq<byte>)
    requires Front(rest) == Some(r) && Whole(r)
    requires Shape(rest[Size(r)..], true, opens, rs, ss, tail)
    ensures Shape(rest, true, opens, [r] + rs, ss, tail)
  {
    FrontIsSent(rest, r);
    RecordCons(rest, Size(r), r, rs, Payload(ss), tail);
  }

  lemma RecordCons(rest: seq<byte>, n: nat, r: Record, rs: seq<Record>, z: seq<byte>, t: seq<byte>)
    requires n <= |rest| && rest[..n] == RecordSent(r) && rest[n..] == RecordsSent(rs) + z + t
    ensures rest == RecordsSent([r] + rs) + z + t
  {
    assert ([r] + rs)[1..] == rs;
    assert rest == rest[..n] + rest[n..];
    Glue(RecordSent(r), RecordsSent(rs), z, t);
  }

  lemma Glue(x: seq<byte>, y: seq<byte>, z: seq<byte>, t: seq<byte>)
    ensures x + (y + z + t) == x + y + z + t
  {
  }

  lemma FrontIsSent(rest: seq<byte>, r: Record)
    requires Front(rest) == Some(r) && Whole(r)
    ensures rest[..Size(r)] == RecordSent(r)
  {
    ReadRoundTrip(rest[5..9]);
    ReadRoundTrip(rest[9..13]);
    Low32(|r.last|);
    Low32(|r.now|);
    FrontIsLaid(rest, r, rest[5..9], rest[9..13]);
  }

  lemma FrontIsLaid(rest: seq<byte>, r: Record, lastlen: Quad, newlen: Quad)
    requires Front(rest) == Some(r) && lastlen == rest[5..9] && newlen == rest[9..13]
    ensures rest[..Size(r)] == Laid(r.pos, lastlen, newlen, r.last, r.now)
  {
  }

  /** Any regular stream splits. */
  lemma {:induction false} Analyse(rest: seq<byte>, file: Option<Word>, done: seq<byte>, files: Files, env: Env)
    returns (rs: seq<Record>, ss: seq<Section>, tail: seq<byte>)
    requires Regular(rest, file.Some?, env.opens)
    ensures Splits(rest, file, done, files, env, rs, ss, tail)
    decreases |rest|
  {
    if rest == [] || Unreadable(rest, file.Some?, env.opens) {
      rs, ss, tail := [], [], rest;
      SplitsAtEnd(rest, file, done, files, env);
    } else if rest[0] == B {
      ReadHeader(rest, file, done, files, env);
      var id := ReadBig(rest[1..5]);
      rs, ss, tail := Analyse(rest[5..], Some(id), [], Create(Write(files, file, done), id), env);
      SplitsAtHeader(rest, file, done, files, env, id, rs, ss, tail);
      rs, ss := [], [Section(id, rs)] + ss;
    } else {
      ReadFront(rest, file, done, files, env);
      var r := Front(rest).value;
      rs, ss, tail := Analyse(rest[Size(r)..], file, done + RecordKept(r), files, env);
      SplitsAtRecord(rest, file, done, files, env, r, rs, ss, tail);
      rs := [r] + rs;
    }
  }

  lemma AnalysePayload(rest: seq<byte>, files: Files, env: Env)
    returns (ss: seq<Section>, tail: seq<byte>)
    requires Regular(rest, false, env.opens)
    ensures Acceptable(ss, env.opens) && rest == Payload(ss) + tail
    ensures tail == [] || Unreadable(tail, ss != [], env.opens)
    ensures Scan(rest, None, [], files, env) == Verdict(tail == [], Written(files, ss, tail))
  {
    var rs;
    rs, ss, tail := Analyse(rest, None, [], files, env);
    assert RecordsSent(rs) + Payload(ss) == Payload(ss);
  }

  // ---------- the handler ----------

  /** What `feed` answers and writes, whatever the payload and wherever it is: in
      memory `buf` it sees the payload and the three bytes behind it. */
  lemma FeedIsScan(buf: seq<byte>, payload: Slice, branches: Files, env: Env, e: nat)
    requires InMemory(payload, |buf|) && e == payload.at + payload.len
    ensures var o := Loop(Begin(buf, payload, branches), e, env);
      Verdict(o.ok, o.files) == Scan(Read(buf, payload), None, [], branches, Seen(buf, e, env))
  {
    FreshLoopIsScan(Begin(buf, payload, branches), e, env, Read(buf, payload), Seen(buf, e, env));
  }

  ghost function Answer(payload: seq<byte>, branches: Files, env: Env): Verdict {
    Scan(payload, None, [], branches, env)
  }

  /** Whatever the payload, no file is lost or shortened, and none is made or
      written but those of headers that `feed` came to and could open. */
  lemma FeedOnlyAppends(payload: seq<byte>, branches: Files, env: Env, x: Word)
    ensures var after := Answer(payload, branches, env).files;
      && (x in branches ==> x in after && branches[x] <= after[x])
      && (x in after <==> x in branches || x in Opened(payload, false, env))
      && (x in branches && x !in Opened(payload, false, env) ==> after[x] == branches[x])
  {
    ScanByFile(payload, None, [], branches, env, x);
  }

  /** `after` holds what `branches` held, each file followed by what `kept` says,
      and there is a file for every section of `ss` besides. */
  ghost predicate Extends(branches: Files, after: Files, ss: seq<Section>, kept: seq<Section>) {
    forall x: Word {:trigger Contents(after, x)} {:trigger x in after} ::
      && (x in after <==> x in branches || Names(ss, x))
      && Contents(after, x) == Contents(branches, x) + KeptFor(kept, x)
  }

  lemma WriteAllExtends(branches: Files, ss: seq<Section>)
    ensures Extends(branches, WriteAll(branches, ss), ss, ss)
  {
    forall x: Word
      ensures x in WriteAll(branches, ss) <==> x in branches || Names(ss, x)
      ensures Contents(WriteAll(branches, ss), x) == Contents(branches, x) + KeptFor(ss, x)
    {
      WriteAllByFile(branches, ss, x);
    }
  }

  /** On acceptance every section reaches its own file, in order, and nothing else
      changes. */
  lemma FeedWritesSections(payload: seq<byte>, branches: Files, env: Env, ss: seq<Section>)
    requires Acceptable(ss, env.opens) && Payload(ss) == payload
    ensures Regular(payload, false, env.opens)
    ensures Answer(payload, branches, env) == Verdict(true, WriteAll(branches, ss))
    ensures Extends(branches, Answer(payload, branches, env).files, ss, ss)
  {
    WriteAllExtends(branches, ss);
    assert Payload(ss) + [] == Payload(ss);
    SectionsRead(ss, [], None, [], branches, env);
    SectionsRegular(ss, [], false, env.opens);
  }

  /** `feed` answers ok to a regular payload exactly when it consists of
      sections of whole records; a payload of such sections is regular. */
  lemma FeedAcceptsExactly(payload: seq<byte>, branches: Files, env: Env)
    ensures Answer(payload, branches, env).ok && Regular(payload, false, env.opens)
      <==> MadeOfSections(payload, env.opens)
  {
    if Answer(payload, branches, env).ok && Regular(payload, false, env.opens) {
      var ss, tail := AnalysePayload(payload, branches, env);
      assert Payload(ss) + [] == Payload(ss);
    }
    forall ss | Acceptable(ss, env.opens) && Payload(ss) == payload
      ensures Regular(payload, false, env.opens) && Answer(payload, branches, env).ok
    {
      FeedWritesSections(payload, branches, env, ss);
    }
  }

  /** The sections that a later `b` closes before `tail`, or the end does. */
  function Closed(ss: seq<Section>, tail: seq<byte>): seq<Section> {
    if ss == [] || tail == [] || tail[0] == B then ss else ss[..|ss| - 1]
  }

  lemma NamesLast(ss: seq<Section>, x: Word)
    requires ss != []
    ensures Names(ss, x) <==> Names(ss[..|ss| - 1], x) || ss[|ss| - 1].id == x
  {
    var n := |ss| - 1;
    if Names(ss, x) {
      var k :| 0 <= k < |ss| && ss[k].id == x;
      assert k < n ==> ss[..n][k].id == x;
    }
    if Names(ss[..n], x) {
      var k :| 0 <= k < n && ss[..n][k].id == x;
      assert ss[k].id == x;
    }
  }

  lemma WrittenExtends(branches: Files, ss: seq<Section>, tail: seq<byte>)
    ensures Extends(branches, Written(branches, ss, tail), ss, Closed(ss, tail))
  {
    forall x: Word
      ensures x in Written(branches, ss, tail) <==> x in branches || Names(ss, x)
      ensures Contents(Written(branches, ss, tail), x) == Contents(branches, x) + KeptFor(Closed(ss, tail), x)
    {
      WriteAllByFile(branches, Closed(ss, tail), x);
      if ss != [] {
        NamesLast(ss, x);
        CreateEffect(WriteAll(branches, ss[..|ss| - 1]), ss[|ss| - 1].id, x);
      }
    }
  }

  /** On rejection of a regular payload exactly the sections closed by a later
      `b` were written; the failing one at most had its empty file created. */
  lemma FeedRejects(payload: seq<byte>, branches: Files, env: Env)
    returns (ss: seq<Section>, tail: seq<byte>)
    requires Regular(payload, false, env.opens) && !Answer(payload, branches, env).ok
    ensures Acceptable(ss, env.opens) && payload == Payload(ss) + tail
    ensures Unreadable(tail, ss != [], env.opens)
    ensures Answer(payload, branches, env).files == Written(branches, ss, tail)
    ensures Extends(branches, Answer(payload, branches, env).files, ss, Closed(ss, tail))
  {
    ss, tail := AnalysePayload(payload, branches, env);
    WrittenExtends(branches, ss, tail);
  }

  // ---------- what irregular payloads do ----------

  lemma WriteNothing(files: Files, id: Word)
    ensures Write(Create(files, id), Some(id), []) == Create(files, id)
  {
    assert Create(files, id)[id] + [] == Create(files, id)[id];
  }

  lemma ScanCut(cut: seq<byte>, files: Files, env: Env)
    requires 2 <= |cut| <= 4 && cut[0] == B
    ensures var id := HeaderId(cut, 0, env);
      Scan(cut, None, [], files, env) == Verdict(env.opens(id), if env.opens(id) then Create(files, id) else files)
  {
    var id := HeaderId(cut, 0, env);
    WriteNothing(files, id);
    assert cut[Min(5, |cut|)..] == [];
  }

  lemma IrregularIsNoSections(rest: seq<byte>, opens: Word -> bool)
    requires !Regular(rest, false, opens)
    ensures !MadeOfSections(rest, opens)
  {
    forall ss | Acceptable(ss, opens)
      ensures Payload(ss) != rest
    {
      assert Payload(ss) + [] == Payload(ss);
      SectionsRegular(ss, [], false, opens);
    }
  }

  /** A last header cut off after two to four bytes is taken for a whole one whose
      id is completed by whatever bytes follow the payload in memory. */
  lemma TruncatedHeaderAccepted(branches: Files, env: Env, ss: seq<Section>, cut: seq<byte>)
    requires Acceptable(ss, env.opens) && 2 <= |cut| <= 4 && cut[0] == B
    ensures !MadeOfSections(Payload(ss) + cut, env.opens)
    ensures var id := HeaderId(cut, 0, env); var was := WriteAll(branches, ss);
      Answer(Payload(ss) + cut, branches, env)
      == Verdict(env.opens(id), if env.opens(id) then Create(was, id) else was)
  {
    SectionsRead(ss, cut, None, [], branches, env);
    ScanCut(cut, WriteAll(branches, ss), env);
    SectionsRegular(ss, cut, false, env.opens);
    IrregularIsNoSections(Payload(ss) + cut, env.opens);
  }

  lemma LaidSwapped(pos: Quad, a: Quad, b: Quad, body: seq<byte>)
    ensures var rest := Laid(pos, a, b, body, []);
      && rest[0] == I && |rest| == 13 + |body| && rest[5..9] == a && rest[9..13] == b
      && LengthAt(rest, 0) == RecordLength(ReadBig(a), ReadBig(b))
      && SwapLengths(rest, 0) == Laid(pos, Reverse(a), Reverse(b), body, [])
  {
    var rest := Laid(pos, a, b, body, []);
    assert Quad4(rest, 5) == a && Quad4(rest, 9) == b;
  }

  lemma ScanWrapped(pos: Quad, a: Quad, b: Quad, body: seq<byte>, id: Word, files: Files, env: Env)
    requires RecordLength(ReadBig(a), ReadBig(b)) == 13 + |body|
    ensures Scan(Laid(pos, a, b, body, []), Some(id), [], files, env)
      == Verdict(true, Write(files, Some(id), Laid(pos, Reverse(a), Reverse(b), body, [])))
  {
    LaidSwapped(pos, a, b, body);
    var rest, kept := Laid(pos, a, b, body, []), Laid(pos, Reverse(a), Reverse(b), body, []);
    assert Claimed(rest) == |rest| && Taken(rest) == kept;
    assert kept[|rest|..] == [] && [] + kept[..|rest|] == kept;
  }

  lemma WrappedIsIrregular(id: Word, pos: Quad, a: Quad, b: Quad, body: seq<byte>, opens: Word -> bool)
    requires opens(id) && 13 + ReadBig(a) + ReadBig(b) >= WORD
    ensures !Regular([B] + Big(id) + Laid(pos, a, b, body, []), false, opens)
  {
    HeaderRead(id, Laid(pos, a, b, body, []));
    LaidSwapped(pos, a, b, body);
  }

  /** A record whose lengths overflow 32 bits is accepted, and stored as it is,
      if what follows its header is as long as the sum modulo 2^32 says. */
  lemma WrappedRecordAccepted(branches: Files, env: Env, id: Word, pos: Quad, a: Quad, b: Quad, body: seq<byte>)
    requires env.opens(id)
    requires 13 + ReadBig(a) + ReadBig(b) >= WORD && RecordLength(ReadBig(a), ReadBig(b)) == 13 + |body|
    ensures var payload := [B] + Big(id) + Laid(pos, a, b, body, []);
      && !MadeOfSections(payload, env.opens)
      && Answer(payload, branches, env)
         == Verdict(true, Write(branches, Some(id), Laid(pos, Reverse(a), Reverse(b), body, [])))
  {
    var rest, kept := Laid(pos, a, b, body, []), Laid(pos, Reverse(a), Reverse(b), body, []);
    HeaderRead(id, rest);
    WholeId([B] + Big(id) + rest, env);
    ScanWrapped(pos, a, b, body, id, Create(branches, id), env);
    WriteCreated(branches, id, kept);
    WrappedIsIrregular(id, pos, a, b, body, env.opens);
    IrregularIsNoSections([B] + Big(id) + rest, env.opens);
  }

  /** Two lengths of 2^31 in a record of thirteen bytes. */
  const HUGE: seq<byte> := [98, 0, 0, 0, 1, 105, 0, 0, 0, 0, 128, 0, 0, 0, 128, 0, 0, 0]

  lemma HugeLengths()
    ensures HUGE == [B] + Big(1) + Laid([0, 0, 0, 0], [128, 0, 0, 0], [128, 0, 0, 0], [], [])
    ensures ReadBig([128, 0, 0, 0]) == 0x8000_0000
  {
  }

  lemma HugeLengthsAccepted(env: Env)
    requires env.opens(1)
    ensures Answer(HUGE, map[], env).ok && !MadeOfSections(HUGE, env.opens)
  {
    HugeLengths();
    WrappedRecordAccepted(map[], env, 1, [0, 0, 0, 0], [128, 0, 0, 0], [128, 0, 0, 0], []);
  }

  /** A record that claims eleven bytes of its thirteen. */
  const SHORT: seq<byte> := [98, 0, 0, 0, 1, 105, 0, 0, 0, 0, 255, 157, 255, 254, 0, 98, 0, 0]

  lemma ShortTaken()
    ensures var rest := SHORT[5..];
      && |rest| == 13 && rest[0] == I && Claimed(rest) == 11
      && Taken(rest)[..11] == [105, 0, 0, 0, 0, 254, 255, 157, 255, 0, 0] && Taken(rest)[11..] == [98, 0]
  {
    var rest := SHORT[5..];
    assert Quad4(rest, 5) == [255, 157, 255, 254] && Quad4(rest, 9) == [0, 98, 0, 0];
    assert LengthAt(rest, 0) == 11;
    assert SwapLengths(rest, 0) == [105, 0, 0, 0, 0, 254, 255, 157, 255, 0, 0, 98, 0];
  }

  lemma ScanCutLast(cut: seq<byte>, file: Word, done: seq<byte>, files: Files, env: Env)
    requires 2 <= |cut| <= 4 && cut[0] == B
    ensures var id, was := HeaderId(cut, 0, env), Write(files, Some(file), done);
      Scan(cut, Some(file), done, files, env) == Verdict(env.opens(id), if env.opens(id) then Create(was, id) else was)
  {
    var id := HeaderId(cut, 0, env);
    WriteNothing(Write(files, Some(file), done), id);
    assert cut[Min(5, |cut|)..] == [];
  }

  /** Eleven bytes of it are written; the last two, once swapped, are read as a
      header, which the bytes behind the payload complete. */
  lemma ShortRecordReadOn(env: Env)
    requires env.opens(1) && HeaderId([98, 0], 0, env) != 1
    ensures var id := HeaderId([98, 0], 0, env); var written := [105, 0, 0, 0, 0, 254, 255, 157, 255, 0, 0];
      Answer(SHORT, map[], env) == if env.opens(id) then Verdict(true, map[1 := written, id := []])
                                   else Verdict(false, map[1 := written])
  {
    var written := [105, 0, 0, 0, 0, 254, 255, 157, 255, 0, 0];
    assert HeaderId(SHORT, 0, env) == 1 by {
      WholeId(SHORT, env);
      assert SHORT[1..5] == [0, 0, 0, 1];
    }
    ShortTaken();
    ScanCutLast([98, 0], 1, written, map[1 := []], env);
    assert [] + Taken(SHORT[5..])[..11] == written;
  }
}

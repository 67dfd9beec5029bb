/**
 `http_callback_feed` on a little-endian host: the loop that parses the payload
 in its own buffer, swapping the length fields in place as it goes, and appends
 each section to the file of its branch.
 */
module Feed {
  import opened Splices
  import opened Words
  import opened Wire
  import opened Slices
  import opened Branches

  /** Contents of the branch files by id. */
  type Files = map<Word, seq<byte>>

  /** Which ids have a file that can be opened, and the three bytes that follow
      all of memory: a header cut off at the very end is completed from them. */
  datatype Env = Env(opens: Word -> bool, beyond: Three)

  type Three = b: seq<byte> | |b| == 3 witness [0, 0, 0]

  datatype Outcome = Outcome(ok: bool, buf: seq<byte>, files: Files)

  /** `buf` is the memory that holds the payload; `p` is what is left of it,
      `commit` what is to be written to `file`. */
  datatype Machine = Machine(buf: seq<byte>, p: Slice, commit: Slice, file: Option<Word>, files: Files)

  /** `open(..., O_APPEND | O_CREAT | ...)`. */
  function Create(files: Files, id: Word): Files {
    if id in files then files else files[id := []]
  }

  /** `write(file, data)`; on file -1 nothing happens. */
  function Write(files: Files, file: Option<Word>, data: seq<byte>): Files {
    match file
    case None => files
    case Some(id) => Create(files, id)[id := Create(files, id)[id] + data]
  }

  /** What a branch file holds; one that does not exist holds nothing. */
  function Contents(files: Files, x: Word): seq<byte> {
    if x in files then files[x] else []
  }

  lemma CreateEffect(files: Files, id: Word, x: Word)
    ensures x in Create(files, id) <==> x in files || x == id
    ensures Contents(Create(files, id), x) == Contents(files, x)
  {
  }

  lemma WriteEffect(files: Files, file: Option<Word>, data: seq<byte>, x: Word)
    ensures x in Write(files, file, data) <==> x in files || file == Some(x)
    ensures Contents(Write(files, file, data), x) == Contents(files, x) + if file == Some(x) then data else []
  {
    if file.Some? {
      CreateEffect(files, file.value, x);
    }
  }

  function Quad4(buf: seq<byte>, at: nat): Quad
    requires at + 4 <= |buf|
  {
    [buf[at], buf[at + 1], buf[at + 2], buf[at + 3]]
  }

  /** `x = ntohl(x)` for the word stored at `at`. */
  function Swap4(buf: seq<byte>, at: nat): (r: seq<byte>)
    requires at + 4 <= |buf|
    ensures |r| == |buf|
  {
    seq(|buf|, k requires 0 <= k < |buf| => if at <= k < at + 4 then buf[2 * at + 3 - k] else buf[k])
  }

  /** The record at `at` after both its length fields were swapped. */
  function SwapLengths(buf: seq<byte>, at: nat): (r: seq<byte>)
    requires at + 13 <= |buf|
    ensures |r| == |buf|
  {
    Swap4(Swap4(buf, at + 5), at + 9)
  }

  /** `13 + i->lastlen + i->newlen`, computed in `uint32_t`. */
  function RecordLength(lastlen: Word, newlen: Word): Word {
    (13 + lastlen + newlen) % WORD
  }

  /** The length the code computes for the record at `at`. */
  function LengthAt(buf: seq<byte>, at: nat): Word
    requires at + 13 <= |buf|
  {
    RecordLength(ReadBig(Quad4(buf, at + 5)), ReadBig(Quad4(buf, at + 9)))
  }

  lemma SumIsMultiple(x: Word, y: Word) returns (q: int)
    requires RecordLength(x, y) == 0
    ensures 13 + x + y == WORD * q && 1 <= q <= 2
  {
    q := (13 + x + y) / WORD;
  }

  lemma CarryOut(x: int, y: int, z: int) returns (carry: int)
    requires x + 256 * y == 256 * z
    ensures x == 256 * carry && carry + y == z
  {
    carry := z - y;
  }

  /** Column sums of two words that make up a multiple of 2^32, less 13. */
  lemma Carries(s3: int, s2: int, s1: int, s0: int, q: int)
    requires 0 <= s0 <= 510 && 0 <= s1 <= 510 && 0 <= s2 <= 510 && 0 <= s3 <= 510 && 1 <= q <= 2
    requires 13 + s0 + 256 * (s1 + 256 * (s2 + 256 * s3)) == WORD * q
    ensures s0 == 243 || s0 == 499
    ensures s3 == 255 || s3 == 254 || s3 == 511 || s3 == 510
  {
    var c1 := CarryOut(13 + s0, s1 + 256 * (s2 + 256 * s3), 0x100_0000 * q);
    var c2 := CarryOut(c1 + s1, s2 + 256 * s3, 0x1_0000 * q);
    var c3 := CarryOut(c2 + s2, s3, 256 * q);
  }

  /** If two words sum to -13 modulo 2^32, then byte by byte every carry is 1
      or 2: the lowest bytes sum to -13 modulo 256, the highest to -1 or -2. */
  lemma TopAndBottom(a3: byte, a2: byte, a1: byte, a0: byte, b3: byte, b2: byte, b1: byte, b0: byte)
    requires RecordLength(Join(a3, a2, a1, a0), Join(b3, b2, b1, b0)) == 0
    ensures a0 as int + b0 == 243 || a0 as int + b0 == 499
    ensures var top := a3 as int + b3; top == 255 || top == 254 || top == 511 || top == 510
  {
    var q := SumIsMultiple(Join(a3, a2, a1, a0), Join(b3, b2, b1, b0));
    Carries(a3 as int + b3, a2 as int + b2, a1 as int + b1, a0 as int + b0, q);
  }

  /** The sums of two words and of the words with their bytes reversed cannot
      both be -13 modulo 2^32. */
  lemma NoDoubleWrap(a: Quad, b: Quad)
    ensures RecordLength(ReadBig(a), ReadBig(b)) != 0 || RecordLength(ReadLittle(a), ReadLittle(b)) != 0
  {
    if RecordLength(ReadBig(a), ReadBig(b)) == 0 {
      TopAndBottom(a[0], a[1], a[2], a[3], b[0], b[1], b[2], b[3]);
      if RecordLength(ReadLittle(a), ReadLittle(b)) == 0 {
        TopAndBottom(a[3], a[2], a[1], a[0], b[3], b[2], b[1], b[0]);
        assert false;
      }
    }
  }

  lemma SwapLengthsSwaps(buf: seq<byte>, at: nat)
    requires at + 13 <= |buf|
    ensures var r := SwapLengths(buf, at);
      && Quad4(r, at + 5) == Reverse(Quad4(buf, at + 5))
      && Quad4(r, at + 9) == Reverse(Quad4(buf, at + 9))
      && forall k :: 0 <= k < |buf| && !(at + 5 <= k < at + 13) ==> r[k] == buf[k]
  {
  }

  // ---------- the loop ----------

  /** What the loop keeps: `p` runs to the payload's end at `e`, and `commit`
      up to `p` while a section is being collected. */
  ghost predicate Sane(m: Machine, e: nat) {
    && e <= |m.buf|
    && (if m.p.len > 0 then m.p.at + m.p.len == e else m.p.at <= e)
    && m.commit.at + m.commit.len <= e
    && (m.p.len > 0 && m.file.Some? ==> m.commit.at + m.commit.len == m.p.at)
  }

  /** The next record claims, modulo 2^32, to have no length at all. */
  predicate Stalls(m: Machine)
    requires InMemory(m.p, |m.buf|)
  {
    m.p.len >= 13 && m.buf[m.p.at] == I && LengthAt(m.buf, m.p.at) == 0
  }

  /** A stalled step swaps the lengths it will read next: it stalls only once. */
  lemma StallsOnlyOnce(m: Machine)
    requires InMemory(m.p, |m.buf|) && m.p.len >= 13
    ensures Stalls(m) ==> Bslice(m.p, LengthAt(m.buf, m.p.at), 0) == m.p
    ensures Stalls(m) ==> !Stalls(m.(buf := SwapLengths(m.buf, m.p.at)))
  {
    SwapLengthsSwaps(m.buf, m.p.at);
    NoDoubleWrap(Quad4(m.buf, m.p.at + 5), Quad4(m.buf, m.p.at + 9));
  }

  datatype Progress = Stop(outcome: Outcome) | Go(machine: Machine)

  /** The id in the header at `at`; nothing checks that the payload reaches to
      its end. */
  function HeaderId(buf: seq<byte>, at: nat, env: Env): Word
    requires at + 2 <= |buf|
  {
    ReadBig(Quad4(buf + env.beyond, at + 1))
  }

  /** A section header at `p`: the section before it is written first. */
  ghost function HeaderStep(m: Machine, e: nat, env: Env): (r: Progress)
    requires Sane(m, e) && m.p.len > 0
    ensures r.Go? ==> Sane(r.machine, e) && r.machine.p.len < m.p.len
  {
    var files := Write(m.files, m.file, Read(m.buf, m.commit));
    if Bslice(m.p, 1, 5).len != 4 || !env.opens(HeaderId(m.buf, m.p.at, env)) then Stop(Outcome(false, m.buf, files))
    else
      var id := HeaderId(m.buf, m.p.at, env);
      var p := Bslice(m.p, 5, 0);
      Go(Machine(m.buf, p, Slice(p.at, 0), Some(id), Create(files, id)))
  }

  /** A record at `p`. */
  ghost function RecordStep(m: Machine, e: nat): (r: Progress)
    requires Sane(m, e) && m.p.len > 0 && m.buf[m.p.at] == I
    ensures r.Go? ==> Sane(r.machine, e)
    ensures r.Go? ==> r.machine.p.len < m.p.len || (r.machine.p.len == m.p.len && Stalls(m) && !Stalls(r.machine))
  {
    if m.file.None? || m.p.len < 13 then Stop(Outcome(false, m.buf, m.files))
    else
      var buf := SwapLengths(m.buf, m.p.at);
      var len := LengthAt(m.buf, m.p.at);
      if m.p.len < len then Stop(Outcome(false, buf, m.files))
      else
        StallsOnlyOnce(m);
        Go(m.(buf := buf, p := Bslice(m.p, len, 0), commit := Slice(m.commit.at, m.commit.len + len)))
  }

  /** The body of the loop: it either shortens `p` or swaps a record on which it
      will not stall again. */
  ghost function Round(m: Machine, e: nat, env: Env): (r: Progress)
    requires Sane(m, e) && m.p.len > 0
    ensures r.Go? ==> Sane(r.machine, e)
    ensures r.Go? ==> r.machine.p.len < m.p.len || (r.machine.p.len == m.p.len && Stalls(m) && !Stalls(r.machine))
  {
    if m.buf[m.p.at] == B then HeaderStep(m, e, env)
    else if m.buf[m.p.at] == I then RecordStep(m, e)
    else Stop(Outcome(false, m.buf, m.files))
  }

  /** The loop of `feed`, from any state it can be in. It ends on every payload. */
  ghost function Loop(m: Machine, e: nat, env: Env): Outcome
    requires Sane(m, e)
    decreases m.p.len, if Stalls(m) then 1 else 0
  {
    if m.p.len == 0 then Outcome(true, m.buf, Write(m.files, m.file, Read(m.buf, m.commit)))
    else
      match Round(m, e, env)
      case Stop(o) => o
      case Go(next) => Loop(next, e, env)
  }

  /** Memory outside the payload stays as it is. */
  lemma {:induction false} LoopKeepsOutside(m: Machine, e: nat, env: Env, k: nat)
    requires Sane(m, e) && k < |m.buf| && (k < m.p.at || e <= k)
    ensures |Loop(m, e, env).buf| == |m.buf| && Loop(m, e, env).buf[k] == m.buf[k]
    decreases m.p.len, if Stalls(m) then 1 else 0
  {
    if m.p.len > 0 {
      RoundKeepsOutside(m, e, env, k);
      match Round(m, e, env)
      case Stop(_) =>
      case Go(next) => LoopKeepsOutside(next, e, env, k);
    }
  }

  lemma RoundKeepsOutside(m: Machine, e: nat, env: Env, k: nat)
    requires Sane(m, e) && m.p.len > 0 && k < |m.buf| && (k < m.p.at || e <= k)
    ensures match Round(m, e, env)
      case Stop(o) => |o.buf| == |m.buf| && o.buf[k] == m.buf[k]
      case Go(next) => |next.buf| == |m.buf| && next.buf[k] == m.buf[k] && (k < next.p.at || e <= k)
  {
    if m.p.len >= 13 {
      SwapLengthsSwaps(m.buf, m.p.at);
    }
  }

  /** How often the loop body runs. */
  ghost function Rounds(m: Machine, e: nat, env: Env): nat
    requires Sane(m, e)
    decreases m.p.len, if Stalls(m) then 1 else 0
  {
    if m.p.len == 0 then 0
    else
      match Round(m, e, env)
      case Stop(_) => 1
      case Go(next) => 1 + Rounds(next, e, env)
  }

  /** At most two rounds for every byte of the payload. */
  lemma {:induction false} RoundsBounded(m: Machine, e: nat, env: Env)
    requires Sane(m, e)
    ensures Rounds(m, e, env) <= 2 * m.p.len
    ensures m.p.len > 0 && !Stalls(m) ==> Rounds(m, e, env) < 2 * m.p.len
    decreases m.p.len, if Stalls(m) then 1 else 0
  {
    if m.p.len > 0 {
      match Round(m, e, env)
      case Stop(_) =>
      case Go(next) => RoundsBounded(next, e, env);
    }
  }

  /** `*field = ntohl(*field)` on a little-endian host. */
  method NtohlInPlace(mem: array<byte>, at: nat) returns (n: Word)
    requires at + 4 <= mem.Length
    modifies mem
    ensures mem[..] == Swap4(old(mem[..]), at)
    ensures n == ReadBig(Quad4(old(mem[..]), at))
  {
    n := ReadBig([mem[at], mem[at + 1], mem[at + 2], mem[at + 3]]);
    mem[at], mem[at + 1], mem[at + 2], mem[at + 3] := mem[at + 3], mem[at + 2], mem[at + 1], mem[at];
  }

  ghost function Begin(buf: seq<byte>, payload: Slice, files: Files): Machine {
    Machine(buf, payload, Slice(payload.at, 0), None, files)
  }

  /** The branch for opcode `b`; `ok` is false where the source returns. */
  method OnHeader(mem: array<byte>, p: Slice, commit: Slice, file: Option<Word>, files: Files,
                  ghost e: nat, env: Env)
    returns (ok: bool, p': Slice, commit': Slice, file': Option<Word>, files': Files)
    requires Sane(Machine(mem[..], p, commit, file, files), e) && p.len > 0
    ensures HeaderStep(Machine(mem[..], p, commit, file, files), e, env)
      == if ok then Go(Machine(mem[..], p', commit', file', files')) else Stop(Outcome(false, mem[..], files'))
  {
    p', commit', file' := p, commit, file;
    files' := Write(files, file, mem[commit.at..commit.at + commit.len]);
    var bid := Bslice(p, 1, 5);
    if bid.len != 4 {
      return false, p', commit', file', files';
    }
    var id := ReadBig(Quad4(mem[..] + env.beyond, bid.at));
    if !env.opens(id) {
      return false, p', commit', file', files';
    }
    files' := Create(files', id);
    file' := Some(id);
    p' := Bslice(p, 5, 0);
    commit' := Slice(p'.at, 0);
    ok := true;
  }

  method SwapRecord(mem: array<byte>, at: nat) returns (len: Word)
    requires at + 13 <= mem.Length
    modifies mem
    ensures mem[..] == SwapLengths(old(mem[..]), at)
    ensures len == LengthAt(old(mem[..]), at)
  {
    var lastlen := NtohlInPlace(mem, at + 5);
    var newlen := NtohlInPlace(mem, at + 9);
    len := RecordLength(lastlen, newlen);
  }

  /** The branch for opcode `i`. */
  method OnRecord(mem: array<byte>, p: Slice, commit: Slice, file: Option<Word>, ghost files: Files, ghost e: nat)
    returns (ok: bool, p': Slice, commit': Slice)
    requires Sane(Machine(mem[..], p, commit, file, files), e) && p.len > 0 && mem[p.at] == I
    modifies mem
    ensures RecordStep(Machine(old(mem[..]), p, commit, file, files), e)
      == if ok then Go(Machine(mem[..], p', commit', file, files)) else Stop(Outcome(false, mem[..], files))
  {
    p', commit' := p, commit;
    ghost var m := Machine(mem[..], p, commit, file, files);
    if file.None? {
      return false, p', commit';
    }
    if p.len < 13 {
      return false, p', commit';
    }
    var len := SwapRecord(mem, p.at);
    assert mem[..] == SwapLengths(m.buf, m.p.at) && len == LengthAt(m.buf, m.p.at);
    if p.len < len {
      return false, p', commit';
    }
    commit' := Slice(commit.at, commit.len + len);
    p' := Bslice(p, len, 0);
    ok := true;
  }

  lemma LoopOn(m: Machine, e: nat, env: Env)
    requires Sane(m, e) && m.p.len > 0
    ensures Round(m, e, env).Stop? ==> Loop(m, e, env) == Round(m, e, env).outcome
    ensures Round(m, e, env).Go? ==> Continues(m, Round(m, e, env).machine, e, env)
  {
  }

  /** The loop may go on in `next` instead of in `m`, and has come closer to its
      end. */
  ghost predicate Continues(m: Machine, next: Machine, e: nat, env: Env)
    requires Sane(m, e)
  {
    && Sane(next, e) && Loop(next, e, env) == Loop(m, e, env)
    && (next.p.len < m.p.len || (next.p.len == m.p.len && Stalls(m) && !Stalls(next)))
  }

  /** One round on the opcode at `p`. */
  method OnOpcode(mem: array<byte>, p: Slice, commit: Slice, file: Option<Word>, files: Files,
                  ghost e: nat, env: Env)
    returns (ok: bool, p': Slice, commit': Slice, file': Option<Word>, files': Files)
    requires Sane(Machine(mem[..], p, commit, file, files), e) && p.len > 0
    modifies mem
    ensures ok ==> Continues(Machine(old(mem[..]), p, commit, file, files),
                             Machine(mem[..], p', commit', file', files'), e, env)
    ensures !ok ==> Loop(Machine(old(mem[..]), p, commit, file, files), e, env) == Outcome(false, mem[..], files')
  {
    LoopOn(Machine(mem[..], p, commit, file, files), e, env);
    p', commit', file', files' := p, commit, file, files;
    if mem[p.at] == B {
      ok, p', commit', file', files' := OnHeader(mem, p, commit, file, files, e, env);
    } else if mem[p.at] == I {
      ok, p', commit' := OnRecord(mem, p, commit, file, files, e);
    } else {
      ok := false;
    }
  }

  /** The whole handler: it answers and leaves memory and files exactly as the
      loop says. */
  method HandleFeed(mem: array<byte>, payload: Slice, env: Env, branches: Files)
    returns (ok: bool, files: Files)
    requires InMemory(payload, mem.Length)
    modifies mem
    ensures Outcome(ok, mem[..], files)
      == Loop(Begin(old(mem[..]), payload, branches), payload.at + payload.len, env)
  {
    files := branches;
    ok := true;
    var p := payload;
    var commit := Slice(p.at, 0);
    var file: Option<Word> := None;
    ghost var e := p.at + p.len;
    ghost var m := Begin(mem[..], p, files);
    ghost var goal := Loop(Begin(mem[..], payload, branches), payload.at + payload.len, env);
    while p.len > 0
      invariant m == Machine(mem[..], p, commit, file, files)
      invariant Sane(m, e) && Loop(m, e, env) == goal
      decreases p.len, if Stalls(m) then 1 else 0
    {
      ok, p, commit, file, files := OnOpcode(mem, p, commit, file, files, e, env);
      if !ok {
        assert Outcome(ok, mem[..], files) == goal;
        return;
      }
      m := Machine(mem[..], p, commit, file, files);
    }
    files := Write(files, file, mem[commit.at..commit.at + commit.len]);
    ok := true;
  }
}

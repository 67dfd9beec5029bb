/**
 The batch a client sends (`transferencode`), the bytes the server keeps of it,
 and the reading of those bytes back into changes.
 */
module Wire {
  import opened Splices
  import opened Words
  import opened Branches

  const B: byte := 98
  const I: byte := 105
  const BRANCH: Word := 1337

  function Flatten(pieces: seq<seq<byte>>): seq<byte> {
    if pieces == [] then [] else Flatten(pieces[..|pieces| - 1]) + pieces[|pieces| - 1]
  }

  lemma {:induction false} FlattenAppend(a: seq<seq<byte>>, b: seq<seq<byte>>)
    ensures Flatten(a + b) == Flatten(a) + Flatten(b)
  {
    if b == [] {
      assert a + b == a;
    } else {
      assert (a + b)[..|a + b| - 1] == a + b[..|b| - 1];
      FlattenAppend(a, b[..|b| - 1]);
      Associative(Flatten(a), Flatten(b[..|b| - 1]), b[|b| - 1]);
    }
  }

  /** An edit on the wire; the server never looks at `pos`. */
  datatype Record = Record(pos: Quad, last: Text, now: Text)

  function Laid(pos: Quad, lastlen: Quad, newlen: Quad, last: Text, now: Text): seq<byte> {
    [I] + pos + lastlen + newlen + (last + now)
  }

  /** A record as the client sends it: all fields in network order. */
  function RecordSent(r: Record): seq<byte> {
    Laid(r.pos, Big(|r.last| % WORD), Big(|r.now| % WORD), r.last, r.now)
  }

  /** A record as the server keeps it: the lengths in host order. */
  function RecordKept(r: Record): seq<byte> {
    Laid(r.pos, Little(|r.last| % WORD), Little(|r.now| % WORD), r.last, r.now)
  }

  function RecordsSent(rs: seq<Record>): seq<byte> {
    if rs == [] then [] else RecordSent(rs[0]) + RecordsSent(rs[1..])
  }

  function RecordsKept(rs: seq<Record>): seq<byte> {
    if rs == [] then [] else RecordKept(rs[0]) + RecordsKept(rs[1..])
  }

  /** The size of the record fits in 32 bits, and so do its lengths. */
  predicate Whole(r: Record) {
    13 + |r.last| + |r.now| < WORD
  }

  function RecordOf(c: Change): Record {
    Record(Big(c.pos % WORD), c.last, c.now)
  }

  function Records(list: seq<Change>): seq<Record> {
    seq(|list|, k requires 0 <= k < |list| => RecordOf(list[k]))
  }

  function SentAll(list: seq<Change>): seq<byte> {
    RecordsSent(Records(list))
  }

  function KeptAll(list: seq<Change>): seq<byte> {
    RecordsKept(Records(list))
  }

  function Batch(list: seq<Change>): seq<byte> {
    [B] + Big(BRANCH) + SentAll(list)
  }

  predicate Fits32(c: Change) {
    c.pos < WORD && Whole(RecordOf(c))
  }

  predicate AllFit32(list: seq<Change>) {
    forall k :: 0 <= k < |list| ==> Fits32(list[k])
  }

  method TransferEncode(list: seq<Change>) returns (blob: seq<byte>)
    ensures blob == Batch(list)
  {
    var id := EncodeInt32(BRANCH);
    var pieces: seq<seq<byte>> := [[B], id[..]];
    FlattenTwo([B], id[..]);
    ghost var header := [B] + Big(BRANCH);
    for k := 0 to |list|
      invariant Flatten(pieces) == header + SentAll(list[..k])
    {
      var c := list[k];
      var pos := EncodeInt32(c.pos);
      var lastlen := EncodeInt32(|c.last|);
      var newlen := EncodeInt32(|c.now|);
      AddRecord(pieces, header, list, k, pos[..], lastlen[..], newlen[..]);
      pieces := pieces + [[I], pos[..], lastlen[..], newlen[..], c.last, c.now];
    }
    assert list[..|list|] == list;
    blob := Flatten(pieces);
  }

  lemma AddRecord(pieces: seq<seq<byte>>, header: seq<byte>, list: seq<Change>, k: nat,
                  pos: Quad, lastlen: Quad, newlen: Quad)
    requires k < |list| && Flatten(pieces) == header + SentAll(list[..k])
    requires pos == Big(list[k].pos % WORD)
    requires lastlen == Big(|list[k].last| % WORD) && newlen == Big(|list[k].now| % WORD)
    ensures Flatten(pieces + [[I], pos, lastlen, newlen, list[k].last, list[k].now])
      == header + SentAll(list[..k + 1])
  {
    var c := list[k];
    SentPush(list, k);
    FlattenAppend(pieces, [[I], pos, lastlen, newlen, c.last, c.now]);
    FlattenSix([I], pos, lastlen, newlen, c.last, c.now);
    Associative(header, SentAll(list[..k]), RecordSent(RecordOf(c)));
  }

  lemma Associative(a: seq<byte>, b: seq<byte>, c: seq<byte>)
    ensures a + b + c == a + (b + c)
  {
  }

  lemma FlattenSix(a: seq<byte>, b: seq<byte>, c: seq<byte>, d: seq<byte>, e: seq<byte>, f: seq<byte>)
    ensures Flatten([a, b, c, d, e, f]) == a + b + c + d + (e + f)
  {
    var front, back := [a, b, c], [d, e, f];
    assert [a, b, c, d, e, f] == front + back;
    FlattenAppend(front, back);
    FlattenThree(a, b, c);
    FlattenThree(d, e, f);
    assert a + b + c + (d + e + f) == a + b + c + d + (e + f);
  }

  lemma FlattenTwo(a: seq<byte>, b: seq<byte>)
    ensures Flatten([a, b]) == a + b
  {
    assert [a, b][..1] == [a] && [a][..0] == [];
    assert Flatten([a]) == a;
  }

  lemma FlattenThree(a: seq<byte>, b: seq<byte>, c: seq<byte>)
    ensures Flatten([a, b, c]) == a + b + c
  {
    assert [a, b, c][..2] == [a, b];
    FlattenTwo(a, b);
  }

  lemma {:induction false} RecordsAppend(a: seq<Record>, b: seq<Record>)
    ensures RecordsSent(a + b) == RecordsSent(a) + RecordsSent(b)
    ensures RecordsKept(a + b) == RecordsKept(a) + RecordsKept(b)
    decreases |a|
  {
    if a == [] {
      assert a + b == b;
    } else {
      assert (a + b)[1..] == a[1..] + b;
      RecordsAppend(a[1..], b);
      Associative(RecordSent(a[0]), RecordsSent(a[1..]), RecordsSent(b));
      Associative(RecordKept(a[0]), RecordsKept(a[1..]), RecordsKept(b));
    }
  }

  lemma OneRecord(r: Record)
    ensures RecordsSent([r]) == RecordSent(r) && RecordsKept([r]) == RecordKept(r)
  {
    var none := [r][1..];
    assert RecordsSent(none) == [] && RecordsKept(none) == [];
  }

  lemma SentPush(list: seq<Change>, k: nat)
    requires k < |list|
    ensures SentAll(list[..k + 1]) == SentAll(list[..k]) + RecordSent(RecordOf(list[k]))
  {
    var one := [RecordOf(list[k])];
    assert Records(list[..k + 1]) == Records(list[..k]) + one;
    RecordsAppend(Records(list[..k]), one);
    OneRecord(RecordOf(list[k]));
  }

  lemma KeptAppend(a: seq<Change>, b: seq<Change>)
    ensures KeptAll(a + b) == KeptAll(a) + KeptAll(b)
  {
    assert Records(a + b) == Records(a) + Records(b);
    RecordsAppend(Records(a), Records(b));
  }

  lemma SmallWords()
    ensures Big(0) == [0, 0, 0, 0] && Big(1) == [0, 0, 0, 1] && Big(BRANCH) == [0, 0, 5, 57]
  {
  }

  lemma RecordInBytes(x: byte)
    ensures var r := Record([0, 0, 0, 0], [], [x]);
      && RecordSent(r) == [105, 0, 0, 0, 0, 0, 0, 0, 0, 0, 0, 0, 1, x]
      && RecordKept(r) == [105, 0, 0, 0, 0, 0, 0, 0, 0, 1, 0, 0, 0, x]
  {
    SmallWords();
    Low32(0);
    Low32(1);
  }

  /** One character typed at the front: the batch, and what is kept of it. */
  lemma BatchInBytes(x: byte)
    ensures var list := [Change(0, [], [x])];
      && Batch(list) == [98, 0, 0, 5, 57, 105, 0, 0, 0, 0, 0, 0, 0, 0, 0, 0, 0, 1, x]
      && KeptAll(list) == [105, 0, 0, 0, 0, 0, 0, 0, 0, 1, 0, 0, 0, x]
  {
    var r, rs := Record([0, 0, 0, 0], [], [x]), Records([Change(0, [], [x])]);
    SmallWords();
    RecordInBytes(x);
    assert rs == [r];
    OneRecord(r);
  }

  // ---------- reading a branch file ----------

  /** One record, if the file starts with a whole one. */
  function ReadRecord(file: seq<byte>): (r: Option<(Change, nat)>)
    ensures r.Some? ==> 13 <= r.value.1 <= |file|
  {
    if |file| < 13 || file[0] != I then None
    else
      var pos := ReadBig(file[1..5]);
      var a, b := ReadLittle(file[5..9]), ReadLittle(file[9..13]);
      if 13 + a + b > |file| then None
      else Some((Change(pos, file[13..13 + a], file[13 + a..13 + a + b]), 13 + a + b))
  }

  function ReadFile(file: seq<byte>): Option<seq<Change>> {
    if file == [] then Some([])
    else
      match ReadRecord(file)
      case None => None
      case Some((c, n)) =>
        match ReadFile(file[n..])
        case None => None
        case Some(more) => Some([c] + more)
  }

  lemma ReadLaid(pos: Quad, lastlen: Quad, newlen: Quad, last: Text, now: Text, rest: seq<byte>)
    requires ReadLittle(lastlen) == |last| && ReadLittle(newlen) == |now|
    ensures ReadRecord(Laid(pos, lastlen, newlen, last, now) + rest)
      == Some((Change(ReadBig(pos), last, now), 13 + |last| + |now|))
  {
    var f := Laid(pos, lastlen, newlen, last, now) + rest;
    assert f[0] == I && f[1..5] == pos && f[5..9] == lastlen && f[9..13] == newlen;
    assert f[13..13 + |last|] == last;
    assert f[13 + |last|..13 + |last| + |now|] == now;
  }

  /** A record whose fields are any readings of the right numbers reads back. */
  lemma ReadKeptFrom(c: Change, pos: Quad, lastlen: Quad, newlen: Quad, rest: seq<byte>)
    requires ReadBig(pos) == c.pos && ReadLittle(lastlen) == |c.last| && ReadLittle(newlen) == |c.now|
    ensures ReadRecord(Laid(pos, lastlen, newlen, c.last, c.now) + rest) == Some((c, 13 + |c.last| + |c.now|))
  {
    ReadLaid(pos, lastlen, newlen, c.last, c.now, rest);
  }

  lemma ReadKept(c: Change, rest: seq<byte>)
    requires Fits32(c)
    ensures ReadRecord(RecordKept(RecordOf(c)) + rest) == Some((c, |RecordKept(RecordOf(c))|))
    ensures |RecordKept(RecordOf(c))| == 13 + |c.last| + |c.now|
  {
    Low32(c.pos);
    Low32(|c.last|);
    Low32(|c.now|);
    BigRoundTrip(c.pos);
    BigRoundTrip(|c.last|);
    BigRoundTrip(|c.now|);
    ReadKeptFrom(c, Big(c.pos % WORD), Little(|c.last| % WORD), Little(|c.now| % WORD), rest);
  }

  /** What the server keeps of a list of changes reads back as that list. */
  lemma {:induction false} ReadKeptAll(list: seq<Change>)
    requires AllFit32(list)
    ensures ReadFile(KeptAll(list)) == Some(list)
    decreases |list|
  {
    if list != [] {
      var c, more := list[0], list[1..];
      assert list == [c] + more;
      assert Records(list)[0] == RecordOf(c) && Records(list)[1..] == Records(more);
      ReadKept(c, KeptAll(more));
      ReadKeptAll(more);
      assert (RecordKept(RecordOf(c)) + KeptAll(more))[|RecordKept(RecordOf(c))|..] == KeptAll(more);
    }
  }

  // ---------- and nothing else reads ----------

  lemma WordsRead(q: Quad)
    ensures Big(ReadBig(q) % WORD) == q && Little(ReadLittle(q) % WORD) == q
  {
    ReadRoundTrip(q);
    ReadRoundTrip(Reverse(q));
    Low32(ReadBig(q));
    Low32(ReadLittle(q));
  }

  lemma RecordParts(file: seq<byte>, pos: Quad, lastlen: Quad, newlen: Quad, a: nat, b: nat)
    requires 13 + a + b <= |file| && file[0] == I
    requires pos == file[1..5] && lastlen == file[5..9] && newlen == file[9..13]
    ensures file[..13 + a + b] == Laid(pos, lastlen, newlen, file[13..13 + a], file[13 + a..13 + a + b])
  {
  }

  lemma OnlyKeptReads(file: seq<byte>)
    requires ReadRecord(file).Some?
    ensures var (c, n) := ReadRecord(file).value;
      n <= |file| && file[..n] == RecordKept(RecordOf(c))
  {
    var a, b := ReadLittle(file[5..9]), ReadLittle(file[9..13]);
    WordsRead(file[1..5]);
    WordsRead(file[5..9]);
    WordsRead(file[9..13]);
    RecordParts(file, file[1..5], file[5..9], file[9..13], a, b);
  }

  lemma KeptCons(c: Change, more: seq<Change>)
    ensures KeptAll([c] + more) == RecordKept(RecordOf(c)) + KeptAll(more)
  {
    KeptAppend([c], more);
    assert Records([c]) == [RecordOf(c)];
    OneRecord(RecordOf(c));
  }

  lemma CutAt(file: seq<byte>, n: nat, a: seq<byte>, b: seq<byte>)
    requires n <= |file| && file[..n] == a && file[n..] == b
    ensures file == a + b
  {
  }

  /** A file that reads as a list is, byte for byte, what is kept of that list. */
  lemma {:induction false} OnlyKeptReadsAll(file: seq<byte>, list: seq<Change>)
    requires ReadFile(file) == Some(list)
    ensures file == KeptAll(list)
    decreases |file|
  {
    if file != [] {
      var (c, n) := ReadRecord(file).value;
      var more := ReadFile(file[n..]).value;
      OnlyKeptReads(file);
      OnlyKeptReadsAll(file[n..], more);
      KeptCons(c, more);
      CutAt(file, n, RecordKept(RecordOf(c)), KeptAll(more));
    }
  }
}

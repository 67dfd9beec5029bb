/** The incremental request parser of `http.c`. */
module Http {
  import opened Splices
  import opened Words
  import opened Slices
  import opened Branches
  import opened Find
  import opened Decimal

  const CR: byte := 13
  const LF: byte := 10
  const SP: byte := 32

  const CRLF: seq<byte> := [13, 10]
  const BLANK_LINE: seq<byte> := [13, 10, 13, 10]
  const SPACE: seq<byte> := [32]

  /** "Content-Length: " */
  const CONTENT_LENGTH: seq<byte> := [67, 111, 110, 116, 101, 110, 116, 45, 76, 101, 110, 103, 116, 104, 58, 32]

  lemma FieldName()
    ensures |CONTENT_LENGTH| == |"Content-Length: "|
    ensures forall k :: 0 <= k < |CONTENT_LENGTH| ==> CONTENT_LENGTH[k] == "Content-Length: "[k] as int
  {
  }

  /** A request without target is how the parser says that more is needed. */
  datatype Parsed = Request(header: seq<byte>, payload: seq<byte>, addr: seq<byte>) | Undefined

  const INCOMPLETE := Request([], [], [])

  /** `bslice(s, start, 0)`, on contents. */
  function Drop(s: seq<byte>, start: nat): seq<byte> {
    if start >= |s| then [] else s[start..]
  }

  function ExtractParam(header: seq<byte>, field: seq<byte>): seq<byte>
    requires field != []
  {
    Bfind(Drop(Bfind(header, field).after, 2), CRLF).before
  }

  /** `btoi`: the low 32 bits of the 64-bit number; then, compared with a
      `size_t`, converted to one. */
  function LengthField(n: int): nat {
    ToInt32(n) % SIZE
  }

  function Target(header: seq<byte>): seq<byte> {
    Bfind(Bfind(header, SPACE).after, SPACE).before
  }

  /** `http_parse_request`; undefined where `btoi64` overflows. */
  function ParseRequest(buffer: seq<byte>): Parsed {
    var f := Bfind(buffer, BLANK_LINE);
    if f.found == [] then INCOMPLETE
    else
      var header, payload := f.before, f.after;
      var g := Bfind(header, CONTENT_LENGTH);
      if g.found == [] then Request(header, payload, Target(header))
      else
        match Btoi64(Bfind(g.after, CRLF).before)
        case Overflow => Undefined
        case Value(n) =>
          if LengthField(n) != |payload| then INCOMPLETE else Request(header, payload, Target(header))
  }

  // ---------- the end of the header ----------

  /** The scan for the blank line leaves `h` with nothing matched. */
  predicate HeaderPart(h: seq<byte>) {
    Scanned(h, BLANK_LINE, |h|) == Some(0)
  }

  /** So does every text without a blank line whose last byte is neither CR nor
      LF, ... */
  lemma PlainHeaderPart(h: seq<byte>)
    requires forall q: nat :: !Occurs(h, BLANK_LINE, q)
    requires h != [] ==> h[|h| - 1] != CR && h[|h| - 1] != LF
    ensures HeaderPart(h)
  {
    CleanEnd(h, BLANK_LINE);
  }

  /** ... but that is not the boundary. */
  lemma LastByteDoesNotDecide(x: byte)
    requires x != CR && x != LF
    ensures HeaderPart([x, LF]) && HeaderPart([x, CR, CR]) && !HeaderPart([x, CR])
  {
    ScannedOnce(x, [LF]);
    ScannedOnce(x, [CR]);
    ScannedOnce(x, [CR, CR]);
    assert Scanned([x] + [CR, CR], BLANK_LINE, 2) == Some(1);
    assert [x] + [LF] == [x, LF] && [x] + [CR] == [x, CR] && [x] + [CR, CR] == [x, CR, CR];
  }

  lemma ScannedOnce(x: byte, more: seq<byte>)
    requires x != CR
    ensures Scanned([x] + more, BLANK_LINE, 1) == Some(0)
  {
    assert Scanned([x] + more, BLANK_LINE, 0) == Some(0);
  }

  lemma SplitOccurs(h: seq<byte>, body: seq<byte>, text: seq<byte>)
    requires text == h + BLANK_LINE + body
    ensures Occurs(text, BLANK_LINE, |h|) && text[..|h|] == h && text[|h| + 4..] == body
    ensures Scanned(text, BLANK_LINE, |h|) == Scanned(h, BLANK_LINE, |h|)
  {
    assert text == h + (BLANK_LINE + body);
    ScannedPrefix(h, BLANK_LINE + body, BLANK_LINE, |h|);
  }

  /** A buffer is split at the blank line after `h` exactly when `h` is such a
      header part. */
  lemma SplitExactly(h: seq<byte>, body: seq<byte>)
    ensures Bfind(h + BLANK_LINE + body, BLANK_LINE) == Found(h, BLANK_LINE, body) <==> HeaderPart(h)
  {
    SplitOccurs(h, body, h + BLANK_LINE + body);
    ReportedExactly(h + BLANK_LINE + body, BLANK_LINE, |h|);
  }

  lemma PartialHeader(h: seq<byte>, k: nat)
    requires HeaderPart(h) && k < |h| + 4
    ensures ParseRequest((h + BLANK_LINE)[..k]) == INCOMPLETE
  {
    var text := h + BLANK_LINE;
    assert text + [] == text;
    SplitExactly(h, []);
    CutNotFound(text, BLANK_LINE, k);
  }

  // ---------- fields ----------

  /** A value runs up to the end of its line, or of the header. */
  ghost predicate ValueAt(after: seq<byte>, value: seq<byte>) {
    && (forall k :: 0 <= k < |value| ==> value[k] != CR && value[k] != LF)
    && value <= after
    && (|after| == |value| || (|after| >= |value| + 2 && after[|value|..|value| + 2] == CRLF))
  }

  lemma ValueRead(after: seq<byte>, value: seq<byte>)
    requires ValueAt(after, value)
    ensures Bfind(after, CRLF).before == value
  {
    forall q: nat | q < |value|
      ensures !Occurs(after, CRLF, q)
    {
      if q + 2 <= |after| {
        assert after[q..q + 2][0] == value[q];
      }
    }
    if |after| == |value| {
      forall q: nat
        ensures !Occurs(after, CRLF, q)
      {
      }
      AbsentNotFound(after, CRLF);
    } else {
      CleanLeftmostFound(after, CRLF, |value|);
    }
  }

  /** The only occurrence of the field name stands at the start of a line. */
  ghost predicate SingleField(h: seq<byte>, field: seq<byte>, p: nat) {
    && LF !in field
    && Occurs(h, field, p) && (forall q: nat :: Occurs(h, field, q) ==> q == p)
    && (p == 0 || h[p - 1] == LF)
  }

  lemma FieldFound(h: seq<byte>, field: seq<byte>, p: nat)
    requires field != [] && SingleField(h, field, p)
    ensures Bfind(h, field) == Found(h[..p], field, h[p + |field|..])
  {
    CleanLeftmostFound(h, field, p);
  }

  /** A field given once, at the start of a line and followed by a colon and a
      space, is extracted whole. */
  lemma ParamExtracted(h: seq<byte>, field: seq<byte>, p: nat, value: seq<byte>)
    requires field != [] && SingleField(h, field, p)
    requires p + |field| + 2 <= |h| && ValueAt(h[p + |field| + 2..], value)
    ensures ExtractParam(h, field) == value
  {
    FieldFound(h, field, p);
    var after := h[p + |field|..];
    assert Drop(after, 2) == h[p + |field| + 2..];
    ValueRead(h[p + |field| + 2..], value);
  }

  /** A field that is not given has the empty value. */
  lemma ParamAbsent(h: seq<byte>, field: seq<byte>)
    requires field != [] && forall q: nat :: !Occurs(h, field, q)
    ensures ExtractParam(h, field) == []
  {
    AbsentNotFound(h, field);
  }

  // ---------- the request line ----------

  ghost predicate RequestLine(h: seq<byte>, verb: seq<byte>, target: seq<byte>) {
    && SP !in verb && SP !in target && target != []
    && |verb| + |target| + 2 <= |h|
    && h[..|verb| + 1] == verb + SPACE
    && h[|verb| + 1..|verb| + |target| + 2] == target + SPACE
  }

  lemma WordRead(text: seq<byte>, word: seq<byte>)
    requires SP !in word && |word| < |text| && text[..|word| + 1] == word + SPACE
    ensures Bfind(text, SPACE) == Found(word, SPACE, text[|word| + 1..])
  {
    var n := |word|;
    assert forall k :: 0 <= k < n ==> text[k] == (word + SPACE)[k] == word[k];
    assert text[n] == text[..n + 1][n] == SP;
    assert text[n..n + 1] == SPACE;
    forall q | 0 <= q < n
      ensures !Occurs(text, SPACE, q)
    {
      assert text[q..q + 1][0] == word[q];
    }
    assert n > 0 ==> text[n - 1] == word[n - 1];
    CleanLeftmostFound(text, SPACE, n);
    assert text[..n] == word;
  }

  lemma TargetRead(h: seq<byte>, verb: seq<byte>, target: seq<byte>)
    requires RequestLine(h, verb, target)
    ensures Target(h) == target
  {
    WordRead(h, verb);
    var after := h[|verb| + 1..];
    assert after[..|target| + 1] == h[|verb| + 1..|verb| + |target| + 2];
    WordRead(after, target);
  }

  lemma NoSpaceNoMatch(text: seq<byte>)
    requires SP !in text
    ensures Bfind(text, SPACE) == Found(text, [], [])
  {
    forall q: nat
      ensures !Occurs(text, SPACE, q)
    {
      if q + 1 <= |text| {
        assert text[q..q + 1][0] == text[q];
      }
    }
    AbsentNotFound(text, SPACE);
  }

  /** A line without a second space has the rest of the header as its target, one
      without any has none, which is the answer for an incomplete request. */
  lemma TargetWithoutSpaces(verb: seq<byte>, rest: seq<byte>)
    requires SP !in verb && SP !in rest
    ensures Target(verb + SPACE + rest) == rest && Target(rest) == []
  {
    var line := verb + SPACE + rest;
    assert line[..|verb| + 1] == verb + SPACE && line[|verb| + 1..] == rest;
    WordRead(line, verb);
    NoSpaceNoMatch(rest);
    NoSpaceNoMatch([]);
  }

  // ---------- whole requests ----------

  /** A well-formed header part with one Content-Length field, which reads as
      `value`. */
  ghost predicate HasLength(h: seq<byte>, value: seq<byte>, p: nat, verb: seq<byte>, target: seq<byte>) {
    && HeaderPart(h) && RequestLine(h, verb, target)
    && SingleField(h, CONTENT_LENGTH, p) && ValueAt(h[p + 16..], value)
  }

  /** It announces a body of `n` bytes. */
  ghost predicate Announces(h: seq<byte>, n: nat, p: nat, verb: seq<byte>, target: seq<byte>) {
    HasLength(h, DecimalText(n), p, verb, target) && n < 0x8000_0000
  }

  lemma LengthDecides(h: seq<byte>, value: seq<byte>, n: int, size: nat, p: nat, verb: seq<byte>,
                      target: seq<byte>, body: seq<byte>)
    requires HasLength(h, value, p, verb, target) && Btoi64(value) == Value(n) && LengthField(n) == size
    ensures ParseRequest(h + BLANK_LINE + body) == if |body| == size then Request(h, body, target) else INCOMPLETE
  {
    SplitExactly(h, body);
    FieldFound(h, CONTENT_LENGTH, p);
    ValueRead(h[p + 16..], value);
    TargetRead(h, verb, target);
  }

  /** After such a header the request is complete exactly when the announced
      number of bytes is there. */
  lemma CompleteExactlyAtLength(h: seq<byte>, n: nat, p: nat, verb: seq<byte>, target: seq<byte>, body: seq<byte>)
    requires Announces(h, n, p, verb, target)
    ensures ParseRequest(h + BLANK_LINE + body) == if |body| == n then Request(h, body, target) else INCOMPLETE
  {
    LengthRead(n);
    LengthDecides(h, DecimalText(n), n, n, p, verb, target, body);
  }

  lemma LengthRead(n: nat)
    requires n < 0x8000_0000
    ensures Btoi64(DecimalText(n)) == Value(n) && LengthField(n) == n
  {
    PositiveRead(n);
  }

  /** The size a body must have for a length of `n`: the low 32 bits of `n`, those
      from 2^31 on with 32 more bits set before them. */
  function SizeFor(n: int): nat {
    var low := n % 0x1_0000_0000;
    if low < 0x8000_0000 then low else 0xffff_ffff_0000_0000 + low
  }

  lemma LengthModulo(n: int)
    ensures LengthField(n) == SizeFor(n)
  {
  }

  lemma SignedRead(n: int)
    requires -(INT64_MAX as int) <= n <= INT64_MAX
    ensures Btoi64(SignedText(n)) == Value(n)
  {
    DecimalRoundTrip(n);
  }

  /** Of any other number the low 32 bits count: 2^32 more than the bytes that are
      there is as good, and a number with the 32nd bit set, as every small
      negative one is, waits for a body of almost 2^64 bytes. */
  lemma CompleteExactlyModulo(h: seq<byte>, n: int, p: nat, verb: seq<byte>, target: seq<byte>, body: seq<byte>)
    requires HasLength(h, SignedText(n), p, verb, target) && -(INT64_MAX as int) <= n <= INT64_MAX
    ensures ParseRequest(h + BLANK_LINE + body)
      == if |body| == SizeFor(n) then Request(h, body, target) else INCOMPLETE
  {
    SignedRead(n);
    LengthModulo(n);
    LengthDecides(h, SignedText(n), n, SizeFor(n), p, verb, target, body);
  }

  lemma NoNumberRead(value: seq<byte>)
    requires value != [] ==> value[0] != 45 && !(48 <= value[0] <= 57)
    ensures Btoi64(value) == Value(0)
  {
    ReadsExactly(value, 0);
    assert Numeral(value[..0]) == 0;
  }

  /** A value that is empty or begins with no digit and no sign announces nothing:
      only the empty body completes the request. */
  lemma CompleteWithoutNumber(h: seq<byte>, value: seq<byte>, p: nat, verb: seq<byte>, target: seq<byte>,
                              body: seq<byte>)
    requires HasLength(h, value, p, verb, target)
    requires value != [] ==> value[0] != 45 && !(48 <= value[0] <= 57)
    ensures ParseRequest(h + BLANK_LINE + body) == if body == [] then Request(h, body, target) else INCOMPLETE
  {
    NoNumberRead(value);
    LengthRead(0);
    LengthDecides(h, value, 0, 0, p, verb, target, body);
  }

  lemma ProperPrefixIncomplete(h: seq<byte>, p: nat, verb: seq<byte>, target: seq<byte>, body: seq<byte>, k: nat)
    requires Announces(h, |body|, p, verb, target) && k < |h| + 4 + |body|
    ensures ParseRequest((h + BLANK_LINE + body)[..k]) == INCOMPLETE
  {
    var request := h + BLANK_LINE + body;
    if k < |h| + 4 {
      assert request[..k] == (h + BLANK_LINE)[..k];
      PartialHeader(h, k);
    } else {
      var part := body[..k - |h| - 4];
      assert request[..k] == h + BLANK_LINE + part;
      CompleteExactlyAtLength(h, |body|, p, verb, target, part);
    }
  }

  /** A buffer that begins with the request, with `more` bytes behind it. */
  lemma BytesTooMany(h: seq<byte>, p: nat, verb: seq<byte>, target: seq<byte>, body: seq<byte>, more: seq<byte>)
    requires Announces(h, |body|, p, verb, target)
    ensures ParseRequest(h + BLANK_LINE + body + more) == if more == [] then Request(h, body, target) else INCOMPLETE
  {
    assert h + BLANK_LINE + body + more == h + BLANK_LINE + (body + more);
    assert more == [] ==> body + more == body;
    CompleteExactlyAtLength(h, |body|, p, verb, target, body + more);
  }

  lemma Compare(request: seq<byte>, buffer: seq<byte>) returns (more: seq<byte>)
    requires buffer <= request || request <= buffer
    ensures |buffer| < |request| ==> buffer == request[..|buffer|]
    ensures |buffer| >= |request| ==> buffer == request + more
    ensures buffer == request <==> |buffer| >= |request| && more == []
  {
    more := if |buffer| < |request| then [] else buffer[|request|..];
  }

  /** Incremental parsing: of all buffers that are prefixes or extensions of the
      request only the request itself is complete, and it yields exactly its
      header, body and target. */
  lemma IncrementalParse(h: seq<byte>, p: nat, verb: seq<byte>, target: seq<byte>, body: seq<byte>, buffer: seq<byte>)
    requires Announces(h, |body|, p, verb, target)
    requires buffer <= h + BLANK_LINE + body || h + BLANK_LINE + body <= buffer
    ensures ParseRequest(buffer) ==
      if buffer == h + BLANK_LINE + body then Request(h, body, target) else INCOMPLETE
  {
    var more := Compare(h + BLANK_LINE + body, buffer);
    if |buffer| < |h + BLANK_LINE + body| {
      ProperPrefixIncomplete(h, p, verb, target, body, |buffer|);
    } else {
      BytesTooMany(h, p, verb, target, body, more);
    }
  }

  /** Without the field any body, whole or not, is taken as complete. */
  lemma UnannouncedBodyAccepted(h: seq<byte>, verb: seq<byte>, target: seq<byte>, body: seq<byte>)
    requires HeaderPart(h) && RequestLine(h, verb, target)
    requires forall q: nat :: !Occurs(h, CONTENT_LENGTH, q)
    ensures ParseRequest(h + BLANK_LINE + body) == Request(h, body, target)
  {
    SplitExactly(h, body);
    AbsentNotFound(h, CONTENT_LENGTH);
    TargetRead(h, verb, target);
  }
}

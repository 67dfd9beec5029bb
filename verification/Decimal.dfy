/** Numbers as decimal text: `itob` and `btoi64` of `bytes.c`. */
module Decimal {
  import opened Splices
  import opened Slices

  const ZERO: byte := 48
  const MINUS: byte := 45
  const INT64_MAX: nat := 0x7fff_ffff_ffff_ffff

  function LastDigit(n: nat): byte {
    n % 10 + ZERO
  }

  /** The digits of a positive number, none for 0. */
  function Digits(n: nat): (d: seq<byte>)
    ensures n > 0 ==> d != [] && d[0] != ZERO
    ensures forall k :: 0 <= k < |d| ==> ZERO <= d[k] <= ZERO + 9
  {
    if n == 0 then [] else Digits(n / 10) + [LastDigit(n)]
  }

  function DecimalText(n: nat): (d: seq<byte>)
    ensures d != [] && (d[0] == ZERO ==> n == 0 && |d| == 1)
    ensures forall k :: 0 <= k < |d| ==> ZERO <= d[k] <= ZERO + 9
  {
    if n == 0 then [ZERO] else Digits(n)
  }

  function SignedText(n: int): seq<byte> {
    if n < 0 then [MINUS] + DecimalText(-n) else DecimalText(n)
  }

  function Backwards(s: seq<byte>): (r: seq<byte>)
    ensures |r| == |s|
    ensures forall k :: 0 <= k < |s| ==> r[k] == s[|s| - 1 - k]
  {
    seq(|s|, k requires 0 <= k < |s| => s[|s| - 1 - k])
  }

  lemma PutSet(was: seq<byte>, at: nat, s: seq<byte>, k: nat, d: byte)
    requires at + |s| <= |was| && k < |s|
    ensures Put(was, at, s)[at + k := d] == Put(was, at, s[k := d])
  {
  }

  lemma PutMore(was: seq<byte>, at: nat, s: seq<byte>, d: byte)
    requires at + |s| < |was|
    ensures Put(was, at, s)[at + |s| := d] == Put(was, at, s + [d])
  {
  }

  /** The digits still to come and those written, lowest first, are `all`. */
  ghost predicate DigitsSplit(n: nat, written: seq<byte>, all: seq<byte>) {
    Digits(n) + Backwards(written) == all
  }

  lemma SplitDone(written: seq<byte>, all: seq<byte>)
    requires DigitsSplit(0, written, all)
    ensures written == Backwards(all)
  {
  }

  lemma SplitMore(n: nat, written: seq<byte>, all: seq<byte>)
    requires n > 0 && DigitsSplit(n, written, all)
    ensures DigitsSplit(n / 10, written + [LastDigit(n)], all)
    ensures |written| < |all|
  {
  }

  /** The first loop of `itob`: the digits, lowest first. */
  method WriteDigits(mem: array<byte>, at: nat, number: int) returns (i: nat)
    requires at <= mem.Length
    requires number > 0 ==> at + |Digits(number)| <= mem.Length
    modifies mem
    ensures i == if number > 0 then |Digits(number)| else 0
    ensures mem[..] == Put(old(mem[..]), at, if number > 0 then Backwards(Digits(number)) else [])
  {
    i := 0;
    ghost var was := mem[..];
    assert mem[..] == Put(was, at, []);
    if number <= 0 {
      return;
    }
    var n: nat := number;
    ghost var all := Digits(number);
    ghost var written: seq<byte> := [];
    assert DigitsSplit(n, written, all);
    while n > 0
      invariant i == |written| && DigitsSplit(n, written, all)
      invariant at + |written| <= mem.Length && mem[..] == Put(was, at, written)
    {
      var d := LastDigit(n);
      SplitMore(n, written, all);
      PutMore(was, at, written, d);
      mem[at + i] := d;
      written := written + [d];
      n := n / 10;
      i := i + 1;
    }
    SplitDone(written, all);
  }

  /** `itob`: the number's text for every non-negative number, nothing for a
      negative one. The caller provides the room. */
  method Itob(mem: array<byte>, buf: Slice, number: int) returns (r: Slice)
    requires InMemory(buf, mem.Length)
    requires number >= 0 ==> |DecimalText(number)| <= buf.len
    modifies mem
    ensures r == Slice(buf.at, if number < 0 then 0 else |DecimalText(number)|)
    ensures mem[..] == Put(old(mem[..]), buf.at, if number < 0 then [] else DecimalText(number))
  {
    if number == 0 {
      PutMore(mem[..], buf.at, [], ZERO);
      mem[buf.at] := ZERO;
      return Slice(buf.at, 1);
    }
    ghost var was := mem[..];
    var i := WriteDigits(mem, buf.at, number);
    ReverseInPlace(mem, buf.at, i, was, if number > 0 then Backwards(Digits(number)) else []);
    r := Slice(buf.at, i);
    assert number > 0 ==> Backwards(Backwards(Digits(number))) == Digits(number);
  }

  /** `s` with its outer `j` bytes on either side exchanged. */
  function Partly(s: seq<byte>, j: nat): (r: seq<byte>)
    ensures |r| == |s|
  {
    seq(|s|, k requires 0 <= k < |s| => if k < j || k >= |s| - j then s[|s| - 1 - k] else s[k])
  }

  lemma PartlyMore(s: seq<byte>, j: nat)
    requires j < |s| / 2
    ensures Partly(s, j)[j] == s[j] && Partly(s, j)[|s| - j - 1] == s[|s| - j - 1]
    ensures Partly(s, j)[j := s[|s| - j - 1]][|s| - j - 1 := s[j]] == Partly(s, j + 1)
  {
  }

  /** The second loop of `itob`: swaps the bytes of a stretch end to end. */
  method ReverseInPlace(mem: array<byte>, at: nat, n: nat, ghost was: seq<byte>, ghost s: seq<byte>)
    requires |s| == n && at + n <= mem.Length == |was| && mem[..] == Put(was, at, s)
    modifies mem
    ensures mem[..] == Put(was, at, Backwards(s))
  {
    var j := 0;
    assert Partly(s, 0) == s;
    while j < n / 2
      invariant 0 <= j <= n / 2
      invariant mem[..] == Put(was, at, Partly(s, j))
    {
      PartlyMore(s, j);
      ghost var p := Partly(s, j);
      PutSet(was, at, p, j, s[n - j - 1]);
      PutSet(was, at, p[j := s[n - j - 1]], n - j - 1, s[j]);
      assert mem[at + j] == p[j] && mem[at + n - j - 1] == p[n - j - 1];
      var t := mem[at + j];
      mem[at + j] := mem[at + n - j - 1];
      mem[at + n - j - 1] := t;
      j := j + 1;
    }
    assert Partly(s, n / 2) == Backwards(s);
  }

  // ---------- reading ----------

  /** Signed overflow has no meaning in C. */
  datatype Int64 = Value(n: int) | Overflow

  predicate IsDigit(c: byte) {
    ZERO <= c <= ZERO + 9
  }

  /** The loop of `btoi64` from position `i` with `acc` read so far. */
  function ReadDigits(b: seq<byte>, i: nat, acc: nat): Int64
    requires i <= |b|
    decreases |b| - i
  {
    if i == |b| then Value(acc)
    else if acc * 10 > INT64_MAX then Overflow
    else if !IsDigit(b[i]) then Value(0)
    else if acc * 10 + (b[i] - ZERO) > INT64_MAX then Overflow
    else ReadDigits(b, i + 1, acc * 10 + (b[i] - ZERO))
  }

  function Negated(v: Int64): Int64 {
    match v
    case Value(n) => Value(-n)
    case Overflow => Overflow
  }

  function Btoi64(b: seq<byte>): Int64 {
    if b != [] && b[0] == MINUS then Negated(ReadDigits(b, 1, 0)) else ReadDigits(b, 0, 0)
  }

  method ReadNumber(b: seq<byte>) returns (r: Int64)
    ensures r == Btoi64(b)
  {
    var acc, neg, i := 0, false, 0;
    if |b| > 0 && b[0] == MINUS {
      neg := true;
      i := i + 1;
    }
    ghost var goal := ReadDigits(b, i, 0);
    r := Overflow;
    while i < |b|
      invariant 0 <= i <= |b| && acc >= 0 && r == Overflow
      invariant ReadDigits(b, i, acc) == goal
    {
      acc := acc * 10;
      if acc > INT64_MAX {
        return;
      }
      var digit := b[i] - ZERO;
      if digit > 9 || digit < 0 {
        return Value(0);
      }
      acc := acc + digit;
      if acc > INT64_MAX {
        return;
      }
      i := i + 1;
    }
    r := Value(if neg then -acc else acc);
  }

  lemma DigitStep(b: seq<byte>, i: nat, acc: nat)
    requires i < |b| && IsDigit(b[i])
    ensures var next := acc * 10 + (b[i] - ZERO);
      ReadDigits(b, i, acc) == if next > INT64_MAX then Overflow else ReadDigits(b, i + 1, next)
  {
  }

  lemma LastDigitValue(n: nat)
    ensures n / 10 * 10 + (LastDigit(n) - ZERO) == n && IsDigit(LastDigit(n))
    ensures n / 10 > INT64_MAX ==> n > INT64_MAX
  {
  }

  /** Reading the last digit of `n` after the others. */
  lemma LastDigitRead(b: seq<byte>, from: nat, i: nat, n: nat, m: nat)
    requires from <= |b| && i < |b| && b[i] == LastDigit(n) && m == n / 10
    requires ReadDigits(b, from, 0) == if m > INT64_MAX then Overflow else ReadDigits(b, i, m)
    ensures ReadDigits(b, from, 0) == if n > INT64_MAX then Overflow else ReadDigits(b, i + 1, n)
  {
    LastDigitValue(n);
    DigitStep(b, i, m);
  }

  /** `d` stands in `b` at `from`. */
  ghost predicate Stands(b: seq<byte>, from: nat, d: seq<byte>) {
    from + |d| <= |b| && b[from..from + |d|] == d
  }

  lemma StandsShorter(b: seq<byte>, from: nat, d: seq<byte>, c: byte)
    requires Stands(b, from, d + [c])
    ensures Stands(b, from, d) && b[from + |d|] == c
  {
    assert b[from..from + |d|] == b[from..from + |d| + 1][..|d|];
    assert b[from + |d|] == b[from..from + |d| + 1][|d|];
  }

  /** Reading the digits of `n` brings the accumulator from 0 to `n`. */
  lemma {:induction false} DigitsRead(b: seq<byte>, from: nat, n: nat)
    requires Stands(b, from, Digits(n))
    ensures ReadDigits(b, from, 0) == if n > INT64_MAX then Overflow else ReadDigits(b, from + |Digits(n)|, n)
    decreases n
  {
    if n > 0 {
      StandsShorter(b, from, Digits(n / 10), LastDigit(n));
      DigitsRead(b, from, n / 10);
      LastDigitRead(b, from, from + |Digits(n / 10)|, n, n / 10);
    }
  }

  /** Reading that has reached the end has read everything. */
  lemma ReadToEnd(b: seq<byte>, from: nat, i: nat, n: nat)
    requires from <= |b| == i
    requires ReadDigits(b, from, 0) == if n > INT64_MAX then Overflow else ReadDigits(b, i, n)
    ensures ReadDigits(b, from, 0) == if n > INT64_MAX then Overflow else Value(n)
  {
  }

  lemma TextRead(b: seq<byte>, from: nat, n: nat)
    requires Stands(b, from, DecimalText(n)) && from + |DecimalText(n)| == |b|
    ensures ReadDigits(b, from, 0) == if n > INT64_MAX then Overflow else Value(n)
  {
    if n == 0 {
      assert b[from] == b[from..from + 1][0];
      DigitStep(b, from, 0);
    } else {
      DigitsRead(b, from, n);
      ReadToEnd(b, from, from + |Digits(n)|, n);
    }
  }

  lemma NegativeRead(n: nat)
    ensures Btoi64([MINUS] + DecimalText(n)) == if n > INT64_MAX then Overflow else Value(-(n as int))
  {
    TextRead([MINUS] + DecimalText(n), 1, n);
  }

  lemma PositiveRead(n: nat)
    ensures Btoi64(DecimalText(n)) == if n > INT64_MAX then Overflow else Value(n)
  {
    TextRead(DecimalText(n), 0, n);
    assert ZERO <= DecimalText(n)[0];
  }

  /** The decimal text of any number reads back as that number, and every
      accumulator on the way fits, exactly when its magnitude is below 2^63. */
  lemma DecimalRoundTrip(n: int)
    ensures Btoi64(SignedText(n))
      == if -0x8000_0000_0000_0000 < n < 0x8000_0000_0000_0000 then Value(n) else Overflow
  {
    if n < 0 {
      NegativeRead(-n);
    } else {
      PositiveRead(n);
    }
  }

  // ---------- what any other text reads as ----------

  /** The number that digits stand for, leading zeros or not. */
  function Numeral(d: seq<byte>): int {
    if d == [] then 0 else Numeral(d[..|d| - 1]) * 10 + (d[|d| - 1] as int - 48)
  }

  ghost predicate AllDigits(d: seq<byte>) {
    forall k :: 0 <= k < |d| ==> 48 <= d[k] <= 57
  }

  lemma NumeralStep(b: seq<byte>, k: nat)
    requires k < |b|
    ensures Numeral(b[..k + 1]) == Numeral(b[..k]) * 10 + (b[k] as int - 48)
  {
    assert b[..k + 1][..k] == b[..k];
  }

  lemma {:induction false} NumeralGrows(b: seq<byte>, i: nat, k: nat)
    requires i <= k <= |b| && AllDigits(b[..k])
    ensures 0 <= Numeral(b[..i]) <= Numeral(b[..k])
    decreases k
  {
    if k > 0 {
      assert AllDigits(b[..k - 1]) && 48 <= b[..k][k - 1] <= 57;
      NumeralStep(b, k - 1);
      NumeralGrows(b, if i < k then i else k - 1, k - 1);
    }
  }

  /** What the first `k` bytes of `b` come to, when a byte that is no digit or the
      end follows them. */
  function Reading(b: seq<byte>, k: nat): Int64
    requires k <= |b|
  {
    var n := Numeral(b[..k]);
    if k == |b| then if n <= INT64_MAX then Value(n) else Overflow
    else if n * 10 <= INT64_MAX then Value(0) else Overflow
  }

  lemma {:induction false} DigitsUpTo(b: seq<byte>, i: nat, k: nat)
    requires i <= k <= |b| && AllDigits(b[..k]) && (k < |b| ==> !(48 <= b[k] <= 57))
    requires 0 <= Numeral(b[..i]) <= INT64_MAX
    ensures ReadDigits(b, i, Numeral(b[..i])) == Reading(b, k)
    decreases k - i
  {
    if i == k {
      assert k == |b| ==> b[..k] == b;
    } else {
      assert 48 <= b[..k][i] <= 57;
      NumeralStep(b, i);
      NumeralGrows(b, i + 1, k);
      DigitStep(b, i, Numeral(b[..i]));
      if Numeral(b[..i + 1]) <= INT64_MAX {
        DigitsUpTo(b, i + 1, k);
      }
    }
  }

  lemma {:induction false} ReadShifted(sign: byte, b: seq<byte>, i: nat, acc: nat)
    requires i <= |b|
    ensures ReadDigits([sign] + b, i + 1, acc) == ReadDigits(b, i, acc)
    decreases |b| - i
  {
    if i < |b| && IsDigit(b[i]) {
      ReadShifted(sign, b, i + 1, acc * 10 + (b[i] - ZERO));
    }
  }

  /** Every text, with or without a sign: up to its first byte that is no digit it
      is read as a numeral, and that byte makes the number 0, unless the
      accumulator has overflowed before. */
  lemma ReadsExactly(b: seq<byte>, k: nat)
    requires k <= |b| && AllDigits(b[..k]) && (k < |b| ==> !(48 <= b[k] <= 57))
    ensures var n := Numeral(b[..k]);
      var r := if k == |b| then if n < 0x8000_0000_0000_0000 then Value(n) else Overflow
               else if n * 10 < 0x8000_0000_0000_0000 then Value(0) else Overflow;
      && (b == [] || b[0] != 45 ==> Btoi64(b) == r)
      && Btoi64([45] + b) == if r.Value? then Value(-r.n) else Overflow
  {
    DigitsUpTo(b, 0, k);
    ReadShifted(45, b, 0, 0);
  }

  lemma OneMoreDigit(n: nat, front: seq<byte>)
    requires n > 0 && Digits(n / 10) == front
    ensures Digits(n) == front + [n % 10 + 48]
  {
  }

  /** "-105" */
  lemma TextInBytes()
    ensures SignedText(-105) == [45, 49, 48, 53]
  {
    OneMoreDigit(1, []);
    OneMoreDigit(10, [49]);
    OneMoreDigit(105, [49, 48]);
  }
}

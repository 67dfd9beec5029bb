/** Four-byte words in network and in host order, and `encode_int32`. */
module Words {
  import opened Splices

  const WORD: nat := 0x1_0000_0000

  type Word = x: int | 0 <= x < WORD

  type Quad = b: seq<byte> | |b| == 4 witness [0, 0, 0, 0]

  function Big(n: Word): Quad {
    var q1 := n / 256;
    var q2 := q1 / 256;
    [q2 / 256, q2 % 256, q1 % 256, n % 256]
  }

  function Join(d3: int, d2: int, d1: int, d0: int): int {
    256 * (256 * (256 * d3 + d2) + d1) + d0
  }

  function ReadBig(b: Quad): Word {
    Join(b[0], b[1], b[2], b[3])
  }

  function Reverse(b: Quad): Quad {
    [b[3], b[2], b[1], b[0]]
  }

  function ReadLittle(b: Quad): Word {
    ReadBig(Reverse(b))
  }

  /** A little-endian host's own representation. */
  function Little(n: Word): Quad {
    Reverse(Big(n))
  }

  lemma BigRoundTrip(n: Word)
    ensures ReadBig(Big(n)) == n && ReadLittle(Little(n)) == n
  {
  }

  lemma Low32(n: nat)
    requires n < WORD
    ensures n % WORD == n
  {
  }

  lemma Digit(q: int, d: int)
    requires 0 <= d < 256
    ensures (256 * q + d) / 256 == q && (256 * q + d) % 256 == d
  {
  }

  lemma ReadRoundTrip(b: Quad)
    ensures Big(ReadBig(b)) == b
  {
    var q2 := 256 * (b[0] as int) + b[1];
    var q1 := 256 * q2 + b[2];
    Digit(q1, b[3]);
    Digit(q2, b[2]);
    Digit(b[0], b[1]);
  }

  // ---------- JavaScript's number operators on integers ----------

  function ToInt32(n: int): int {
    var m := n % WORD;
    if m < 0x8000_0000 then m else m - WORD
  }

  /** `x >> 8 * i`: each shift by eight bits divides by 256, rounding down. */
  function ShiftRight(x: int, i: nat): int {
    if i == 0 then x else ShiftRight(x, i - 1) / 256
  }

  /** `a % 256`, with the sign of the dividend. */
  function Remainder256(a: int): int {
    if a >= 0 then a % 256 else -(-a % 256)
  }

  /** What a Uint8Array stores of an integer. */
  function ToUint8(n: int): byte {
    n % 256
  }

  lemma StoredByte(a: int)
    ensures ToUint8(Remainder256(a)) == a % 256
  {
    if a < 0 {
      var q, r := -a / 256, -a % 256;
      assert a == 256 * (-q) - r;
      assert (-r) % 256 == a % 256;
    }
  }

  /** Digits below the shifted-in sign bits do not see the sign. */
  lemma SignedDigit(q: int, k: int)
    ensures (q - 256 * k) / 256 == q / 256 - k && (q - 256 * k) % 256 == q % 256
  {
  }

  lemma ShiftUnfold(x: int)
    ensures ShiftRight(x, 0) == x && ShiftRight(x, 1) == x / 256
    ensures ShiftRight(x, 2) == x / 256 / 256 && ShiftRight(x, 3) == x / 256 / 256 / 256
  {
  }

  /** The lowest byte after a shift does not see the sign. */
  lemma ShiftIgnoresSign(m: int, i: nat)
    requires i < 4
    ensures ShiftRight(m - WORD, i) % 256 == ShiftRight(m, i) % 256
  {
    ShiftUnfold(m);
    ShiftUnfold(m - WORD);
    SignedDigit(m, 0x100_0000);
    SignedDigit(m / 256, 0x1_0000);
    SignedDigit(m / 256 / 256, 0x100);
    SignedDigit(m / 256 / 256 / 256, 1);
  }

  lemma BigByShifts(n: Word, i: nat)
    requires i < 4
    ensures Big(n)[3 - i] == ShiftRight(n, i) % 256
  {
    ShiftUnfold(n);
  }

  lemma ShiftedByte(n: int, i: nat)
    requires i < 4
    ensures ToUint8(Remainder256(ShiftRight(ToInt32(n), i))) == Big(n % WORD)[3 - i]
  {
    StoredByte(ShiftRight(ToInt32(n), i));
    ShiftIgnoresSign(n % WORD, i);
    BigByShifts(n % WORD, i);
  }

  /** Big-endian n mod 2^32, for every integer, negative ones included. */
  method EncodeInt32(n: int) returns (bytes: array<byte>)
    ensures fresh(bytes) && bytes[..] == Big(n % WORD)
  {
    bytes := new byte[4](_ => 0);
    for i := 0 to 4
      invariant forall k :: 4 - i <= k < 4 ==> bytes[k] == Big(n % WORD)[k]
    {
      ShiftedByte(n, i);
      bytes[3 - i] := ToUint8(Remainder256(ShiftRight(ToInt32(n), i)));
    }
  }
}

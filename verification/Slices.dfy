/** Slices of one byte memory: `bslice`, `bcpy` and `bcat` of `bytes.c`. */
module Slices {
  import opened Splices

  const SIZE: nat := 0x1_0000_0000_0000_0000

  /** A `bytes` value: address and length. */
  datatype Slice = Slice(at: nat, len: nat)

  predicate InMemory(s: Slice, size: nat) {
    s.at + s.len <= size
  }

  function Read(buf: seq<byte>, s: Slice): seq<byte>
    requires InMemory(s, |buf|)
  {
    buf[s.at..s.at + s.len]
  }

  /** `end` 0 means the end of the slice; any other `end` is not checked
      against its length, and the subtraction is on `size_t`. */
  function Bslice(s: Slice, start: nat, end: nat): Slice {
    if start >= s.len then Slice(s.at, 0)
    else if end > 0 then Slice(s.at + start, (end - start) % SIZE)
    else Slice(s.at + start, s.len - start)
  }

  predicate Inside(r: Slice, s: Slice) {
    s.at <= r.at && r.at + r.len <= s.at + s.len
  }

  /** The result lies within the slice exactly when `end` is absent, or is in
      range, or `start` is past the end. */
  lemma BsliceInsideExactly(s: Slice, start: nat, end: nat)
    requires s.len < SIZE && end < SIZE
    ensures Inside(Bslice(s, start, end), s) <==> s.len <= start || end == 0 || start <= end <= s.len
  {
  }

  /** An `end` before `start` makes a slice of almost 2^64 bytes, one past the end
      a slice that runs on behind it. */
  lemma BsliceUnchecked(s: Slice, start: nat, end: nat)
    requires start < s.len < SIZE && 0 < end < SIZE
    ensures var r := Bslice(s, start, end);
      r.at == s.at + start && if start <= end then r.at + r.len == s.at + end else r.at + r.len == s.at + end + SIZE
  {
  }

  lemma SliceOfSlice(buf: seq<byte>, at: nat, len: nat, i: nat, j: nat)
    requires at + len <= |buf| && i <= j <= len
    ensures buf[at..at + len][i..j] == buf[at + i..at + j]
  {
    var x, y := buf[at..at + len][i..j], buf[at + i..at + j];
    assert forall k :: 0 <= k < |x| ==> x[k] == y[k];
  }

  /** An in-range slice reads as the subsequence it names. */
  lemma BsliceReads(buf: seq<byte>, s: Slice, start: nat, end: nat)
    requires InMemory(s, |buf|) && s.len < SIZE
    requires end == 0 || start <= end <= s.len
    ensures InMemory(Bslice(s, start, end), |buf|)
    ensures Read(buf, Bslice(s, start, end)) ==
      if start >= s.len then []
      else if end > 0 then Read(buf, s)[start..end] else Read(buf, s)[start..]
  {
    if start < s.len && end > 0 {
      assert Bslice(s, start, end) == Slice(s.at + start, end - start);
      SliceOfSlice(buf, s.at, s.len, start, end);
    }
  }

  /** Overwrite the bytes of `buf` from `at` on by `data`. */
  function Put(buf: seq<byte>, at: nat, data: seq<byte>): seq<byte>
    requires at + |data| <= |buf|
  {
    buf[..at] + data + buf[at + |data|..]
  }

  lemma PutReads(buf: seq<byte>, at: nat, data: seq<byte>, k: nat)
    requires at + |data| <= |buf| && k < |buf|
    ensures |Put(buf, at, data)| == |buf|
    ensures Put(buf, at, data)[k] == if at <= k < at + |data| then data[k - at] else buf[k]
  {
  }

  predicate Disjoint(a: Slice, b: Slice) {
    a.at + a.len <= b.at || b.at + b.len <= a.at
  }

  method Bcpy(mem: array<byte>, dst: Slice, src: Slice) returns (r: Slice)
    requires InMemory(dst, mem.Length) && InMemory(src, mem.Length) && Disjoint(dst, src)
    modifies mem
    ensures r == Slice(dst.at, Min(src.len, dst.len))
    ensures mem[..] == Put(old(mem[..]), dst.at, old(Read(mem[..], src))[..r.len])
  {
    var s := Min(src.len, dst.len);
    ghost var was := mem[..];
    forall k | 0 <= k < s {
      mem[dst.at + k] := mem[src.at + k];
    }
    r := Slice(dst.at, s);
    assert mem[..] == Put(was, dst.at, was[src.at..src.at + s]);
    assert was[src.at..src.at + s] == Read(was, src)[..s];
  }

  lemma ReadElsewhere(buf: seq<byte>, at: nat, data: seq<byte>, s: Slice)
    requires at + |data| <= |buf| && InMemory(s, |buf|) && Disjoint(Slice(at, |data|), s)
    ensures Read(Put(buf, at, data), s) == Read(buf, s)
  {
  }

  /** Saturating concatenation: as much of `arg1` and then `arg2` as fits, and
      not a byte changed outside `dst`. */
  method Bcat(mem: array<byte>, dst: Slice, arg1: Slice, arg2: Slice) returns (b: Slice)
    requires InMemory(dst, mem.Length) && InMemory(arg1, mem.Length) && InMemory(arg2, mem.Length)
    requires Disjoint(dst, arg1) && Disjoint(dst, arg2)
    modifies mem
    ensures b == Slice(dst.at, Min(arg1.len + arg2.len, dst.len))
    ensures mem[..] == Put(old(mem[..]), dst.at, old(Read(mem[..], arg1) + Read(mem[..], arg2))[..b.len])
  {
    ghost var was := mem[..];
    var r := dst;
    var c := Bcpy(mem, r, arg1);
    ghost var mid := mem[..];
    ReadElsewhere(was, dst.at, Read(was, arg1)[..c.len], arg2);
    r := Bslice(r, arg1.len, 0);
    c := Bcpy(mem, r, arg2);
    CatFits(was, mid, mem[..], dst, arg1, arg2, r);
    r := Bslice(r, arg2.len, 0);
    b := Slice(dst.at, dst.len - r.len);
  }

  lemma CatFits(was: seq<byte>, mid: seq<byte>, end: seq<byte>, dst: Slice, arg1: Slice, arg2: Slice, r: Slice)
    requires InMemory(dst, |was|) && InMemory(arg1, |was|) && InMemory(arg2, |was|)
    requires r == Bslice(dst, arg1.len, 0)
    requires mid == Put(was, dst.at, Read(was, arg1)[..Min(arg1.len, dst.len)])
    requires end == Put(mid, r.at, Read(was, arg2)[..Min(arg2.len, r.len)])
    ensures dst.len - Bslice(r, arg2.len, 0).len == Min(arg1.len + arg2.len, dst.len)
    ensures end == Put(was, dst.at, (Read(was, arg1) + Read(was, arg2))[..Min(arg1.len + arg2.len, dst.len)])
  {
  }
}

/** The single splice that `oninput` computes from the old and the new text. */
module Diffs {
  import opened Splices

  function FromEnd(a: Text, k: nat): byte
    requires k < |a|
  {
    a[|a| - k - 1]
  }

  /** The first `i` characters agree. */
  ghost predicate SameStart(a: Text, b: Text, i: nat) {
    i <= |a| && i <= |b| && forall k :: 0 <= k < i ==> a[k] == b[k]
  }

  /** The last `j` characters agree. */
  ghost predicate SameEnd(a: Text, b: Text, j: nat) {
    j <= |a| && j <= |b| && forall k :: 0 <= k < j ==> FromEnd(a, k) == FromEnd(b, k)
  }

  /** Where the forward scan stops that has come to `i`. */
  function CommonPrefix(a: Text, b: Text, i: nat): (n: nat)
    requires SameStart(a, b, i)
    ensures SameStart(a, b, n)
    ensures n < |a| && n < |b| ==> a[n] != b[n]
    decreases |a| - i
  {
    if i < |a| && i < |b| && a[i] == b[i] then CommonPrefix(a, b, i + 1) else i
  }

  /** Where the backward scan stops that has come to `j`, kept within `room`. */
  function CommonSuffix(a: Text, b: Text, room: nat, j: nat): (n: nat)
    requires room <= |a| && room <= |b| && j <= room && SameEnd(a, b, j)
    ensures n <= room && SameEnd(a, b, n)
    ensures n < room ==> FromEnd(a, n) != FromEnd(b, n)
    decreases room - j
  {
    if j < room && FromEnd(a, j) == FromEnd(b, j) then CommonSuffix(a, b, room, j + 1) else j
  }

  /** The splice that keeps the first `i` and the last `j` characters. */
  function Keeping(last: Text, text: Text, i: nat, j: nat): Change
    requires i + j <= |last| && i + j <= |text|
  {
    Change(i, last[i..|last| - j], text[i..|text| - j])
  }

  function Diff(last: Text, text: Text): Change {
    var i := CommonPrefix(last, text, 0);
    Keeping(last, text, i, CommonSuffix(last, text, Min(|last|, |text|) - i, 0))
  }

  /** The first loop of `oninput`. */
  method ScanForward(last: Text, text: Text, min: nat) returns (i: nat)
    requires min == Min(|last|, |text|)
    ensures i == CommonPrefix(last, text, 0)
  {
    i := 0;
    while i < min
      invariant SameStart(last, text, i)
      invariant CommonPrefix(last, text, i) == CommonPrefix(last, text, 0)
    {
      if last[i] != text[i] {
        break;
      }
      i := i + 1;
    }
  }

  /** The second loop, which must not run into the first one's prefix. */
  method ScanBackward(last: Text, text: Text, min: nat, i: nat) returns (j: nat)
    requires i <= min == Min(|last|, |text|)
    ensures j == CommonSuffix(last, text, min - i, 0)
  {
    j := 0;
    while min - j > i
      invariant j <= min - i && SameEnd(last, text, j)
      invariant CommonSuffix(last, text, min - i, j) == CommonSuffix(last, text, min - i, 0)
    {
      if last[|last| - j - 1] != text[|text| - j - 1] {
        break;
      }
      j := j + 1;
    }
  }

  method ComputeDiff(last: Text, text: Text) returns (change: Change)
    ensures change == Diff(last, text)
  {
    var min := Min(|last|, |text|);
    var i := ScanForward(last, text, min);
    var j := ScanBackward(last, text, min, i);
    var ls := last[i..|last| - j];
    var ts := text[i..|text| - j];
    change := Change(i, ls, ts);
  }

  /** `c` is one splice that turns `last` into `text`. */
  ghost predicate Connects(last: Text, text: Text, c: Change) {
    Fits(last, c) && Apply(last, c) == text
  }

  lemma SameEndSuffix(a: Text, b: Text, j: nat)
    requires SameEnd(a, b, j)
    ensures a[|a| - j..] == b[|b| - j..]
  {
    var x, y := a[|a| - j..], b[|b| - j..];
    forall k | 0 <= k < j
      ensures x[k] == y[k]
    {
      assert FromEnd(a, j - 1 - k) == FromEnd(b, j - 1 - k);
    }
  }

  lemma KeepingConnects(last: Text, text: Text, i: nat, j: nat)
    requires i + j <= |last| && i + j <= |text|
    requires SameStart(last, text, i) && SameEnd(last, text, j)
    ensures Connects(last, text, Keeping(last, text, i, j))
  {
    var c := Keeping(last, text, i, j);
    ApplyFitting(last, c);
    SameEndSuffix(last, text, j);
    assert last[..i] == text[..i];
    Cut3(text, i, |text| - j);
  }

  /** The splice turns the old text into the new one, and undoing it turns the
      new one back. */
  lemma DiffConnects(last: Text, text: Text)
    ensures Connects(last, text, Diff(last, text))
    ensures Undo(text, Diff(last, text)) == last
  {
    var i := CommonPrefix(last, text, 0);
    KeepingConnects(last, text, i, CommonSuffix(last, text, Min(|last|, |text|) - i, 0));
    UndoRestoresExactly(last, Diff(last, text));
  }

  /** What a connecting splice keeps is a common prefix and a common suffix. */
  lemma ConnectedParts(last: Text, text: Text, d: Change) returns (s: nat)
    requires Connects(last, text, d)
    ensures s == |last| - d.pos - |d.last| == |text| - d.pos - |d.now|
    ensures SameStart(last, text, d.pos) && SameEnd(last, text, s)
    ensures d == Keeping(last, text, d.pos, s)
  {
    ApplyFitting(last, d);
    s := |last| - d.pos - |d.last|;
    assert text == last[..d.pos] + d.now + last[d.pos + |d.last|..];
  }

  lemma PrefixLongest(a: Text, b: Text, i: nat)
    requires SameStart(a, b, i)
    ensures i <= CommonPrefix(a, b, 0)
  {
  }

  lemma SuffixLongest(a: Text, b: Text, room: nat, s: nat)
    requires room <= |a| && room <= |b| && SameEnd(a, b, s)
    ensures Min(s, room) <= CommonSuffix(a, b, room, 0)
  {
    var q := CommonSuffix(a, b, room, 0);
    assert q < s ==> FromEnd(a, q) == FromEnd(b, q);
  }

  /** A splice that keeps more at both ends, or as much as there is room for,
      removes and inserts less. */
  lemma KeepingMore(last: Text, text: Text, i: nat, j: nat, p: nat, s: nat)
    requires i + j <= |last| && i + j <= |text| && p + s <= |last| && p + s <= |text|
    requires p <= i && Min(s, Min(|last|, |text|) - i) <= j
    ensures |Keeping(last, text, i, j).last| <= |Keeping(last, text, p, s).last|
    ensures |Keeping(last, text, i, j).now| <= |Keeping(last, text, p, s).now|
  {
  }

  /** No splice between the two texts removes fewer or inserts fewer characters,
      and none starts further right. */
  lemma DiffOptimal(last: Text, text: Text, d: Change)
    requires Connects(last, text, d)
    ensures |Diff(last, text).last| <= |d.last| && |Diff(last, text).now| <= |d.now|
    ensures d.pos <= Diff(last, text).pos
  {
    var s := ConnectedParts(last, text, d);
    var i := CommonPrefix(last, text, 0);
    var room := Min(|last|, |text|) - i;
    PrefixLongest(last, text, d.pos);
    SuffixLongest(last, text, room, s);
    KeepingMore(last, text, i, CommonSuffix(last, text, room, 0), d.pos, s);
  }

  /** Optimality and the rightmost start determine the splice. */
  lemma DiffUnique(last: Text, text: Text, d: Change)
    requires Connects(last, text, d)
    requires |d.last| <= |Diff(last, text).last| && d.pos >= Diff(last, text).pos
    ensures d == Diff(last, text)
  {
    DiffOptimal(last, text, d);
    DiffConnects(last, text);
    var s := ConnectedParts(last, text, d);
    var r := ConnectedParts(last, text, Diff(last, text));
  }
}

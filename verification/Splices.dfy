/**
 Reversible splices, the unit in which the editor records an edit, and what
 it means to replay a list of them. Texts are sequences of one-byte
 characters, so that a text and its encoding on the wire have one length.
 */
module Splices {

  type byte = x: int | 0 <= x < 256

  type Text = seq<byte>

  /** `last` stood at `pos` before the edit, `now` stands there after it. */
  datatype Change = Change(pos: nat, last: Text, now: Text)

  function Min(a: int, b: int): int {
    if a < b then a else b
  }

  /** JavaScript's `s.substr(start, count)` for non-negative arguments. */
  function Substr(s: Text, start: nat, count: nat): Text {
    if start >= |s| then [] else s[start..Min(start + count, |s|)]
  }

  /** Overwrite `cut` characters at `pos` by `put`, as `forward` and `back` do. */
  function Splice(t: Text, pos: nat, cut: nat, put: Text): Text {
    Substr(t, 0, pos) + put + Substr(t, pos + cut, |t|)
  }

  /** ... which is what it does to every text, even one too short for it. */
  lemma SpliceIs(t: Text, pos: nat, cut: nat, put: Text)
    ensures Splice(t, pos, cut, put) == t[..Min(pos, |t|)] + put + t[Min(pos + cut, |t|)..]
  {
  }

  function Apply(t: Text, c: Change): Text {
    Splice(t, c.pos, |c.last|, c.now)
  }

  function Undo(t: Text, c: Change): Text {
    Splice(t, c.pos, |c.now|, c.last)
  }

  /** `c.last` really stands at `c.pos` in `t`. */
  ghost predicate Fits(t: Text, c: Change) {
    c.pos + |c.last| <= |t| && t[c.pos..c.pos + |c.last|] == c.last
  }

  /** A change that does nothing, placed beyond the end of the text. */
  predicate Idle(t: Text, c: Change) {
    c.pos > |t| && c.last == [] && c.now == []
  }

  ghost predicate Reversible(t: Text, c: Change) {
    Fits(t, c) || Idle(t, c)
  }

  lemma ApplyFitting(t: Text, c: Change)
    requires Fits(t, c)
    ensures Apply(t, c) == t[..c.pos] + c.now + t[c.pos + |c.last|..]
  {
  }

  lemma Cut3(t: Text, i: nat, j: nat)
    requires i <= j <= |t|
    ensures t == t[..i] + t[i..j] + t[j..]
  {
  }

  /** A cut of the whole of `x`, or of more where nothing follows it. */
  lemma SpliceParts(a: Text, x: Text, b: Text, cut: nat, put: Text)
    requires cut == |x| || (cut > |x| && b == [])
    ensures Splice(a + x + b, |a|, cut, put) == a + put + b
  {
    assert (a + x + b)[..|a|] == a;
    assert cut == |x| ==> (a + x + b)[|a| + |x|..] == b;
  }

  lemma UndoApplyInside(t: Text, c: Change)
    requires c.pos + |c.last| <= |t|
    ensures Undo(Apply(t, c), c) == t[..c.pos] + c.last + t[c.pos + |c.last|..]
  {
    var a, x, b := t[..c.pos], t[c.pos..c.pos + |c.last|], t[c.pos + |c.last|..];
    Cut3(t, c.pos, c.pos + |c.last|);
    SpliceParts(a, x, b, |c.last|, c.now);
    SpliceParts(a, c.now, b, |c.now|, c.last);
  }

  lemma UndoApplyAcross(t: Text, c: Change)
    requires c.pos <= |t| < c.pos + |c.last|
    ensures Undo(Apply(t, c), c) == t[..c.pos] + c.last
  {
    var a, x := t[..c.pos], t[c.pos..];
    assert t == a + x + [];
    SpliceParts(a, x, [], |c.last|, c.now);
    SpliceParts(a, c.now, [], |c.now|, c.last);
    assert a + c.last + [] == a + c.last;
  }

  lemma UndoApplyBeyond(t: Text, c: Change)
    requires |t| < c.pos
    ensures Undo(Apply(t, c), c) == (t + c.now)[..Min(c.pos, |t + c.now|)] + c.last
  {
    assert Apply(t, c) == t + c.now;
  }

  lemma MiddleDecides(a: Text, x: Text, y: Text, b: Text)
    ensures a + x + b == a + y + b <==> x == y
  {
    if a + x + b == a + y + b {
      assert x == (a + x + b)[|a|..|a + x + b| - |b|];
      assert y == (a + y + b)[|a|..|a + y + b| - |b|];
    }
  }

  /** Undoing a change restores the text exactly when the change fitted it. */
  lemma UndoRestoresExactly(t: Text, c: Change)
    ensures Undo(Apply(t, c), c) == t <==> Reversible(t, c)
  {
    if |t| < c.pos {
      UndoApplyBeyond(t, c);
    } else if |t| < c.pos + |c.last| {
      UndoApplyAcross(t, c);
    } else {
      UndoApplyInside(t, c);
      Cut3(t, c.pos, c.pos + |c.last|);
      MiddleDecides(t[..c.pos], t[c.pos..c.pos + |c.last|], c.last, t[c.pos + |c.last|..]);
    }
  }

  /** The text after all of `steps`, starting from `t`. */
  function Replay(t: Text, steps: seq<Change>): Text {
    if steps == [] then t else Apply(Replay(t, steps[..|steps| - 1]), steps[|steps| - 1])
  }

  /** Every step fits the text it is applied to. */
  ghost predicate Chain(t: Text, steps: seq<Change>) {
    forall k :: 0 <= k < |steps| ==> Reversible(Replay(t, steps[..k]), steps[k])
  }

  lemma ReplayStep(t: Text, steps: seq<Change>, k: nat)
    requires k < |steps|
    ensures Replay(t, steps[..k + 1]) == Apply(Replay(t, steps[..k]), steps[k])
  {
    assert steps[..k + 1][..k] == steps[..k];
  }

  lemma ReplayPush(t: Text, steps: seq<Change>, c: Change)
    ensures Replay(t, steps + [c]) == Apply(Replay(t, steps), c)
  {
  }

  lemma ChainPush(t: Text, steps: seq<Change>, c: Change)
    requires Chain(t, steps) && Fits(Replay(t, steps), c)
    ensures Chain(t, steps + [c])
  {
    forall k | 0 <= k < |steps + [c]|
      ensures Reversible(Replay(t, (steps + [c])[..k]), (steps + [c])[k])
    {
      assert (steps + [c])[..k] == steps[..k];
      assert steps[..|steps|] == steps;
    }
  }

  lemma ChainPrefix(t: Text, steps: seq<Change>, n: nat)
    requires Chain(t, steps) && n <= |steps|
    ensures Chain(t, steps[..n])
  {
    forall k | 0 <= k < n
      ensures Reversible(Replay(t, steps[..n][..k]), steps[..n][k])
    {
      assert steps[..n][..k] == steps[..k];
    }
  }

  /** Walking one step back along a chain is walking to the shorter prefix. */
  lemma UndoStep(t: Text, steps: seq<Change>, k: nat)
    requires Chain(t, steps) && k < |steps|
    ensures Undo(Replay(t, steps[..k + 1]), steps[k]) == Replay(t, steps[..k])
  {
    ReplayStep(t, steps, k);
    UndoRestoresExactly(Replay(t, steps[..k]), steps[k]);
  }
}

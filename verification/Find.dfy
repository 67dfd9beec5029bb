/** The simplified substring search `bfind` of `bytes.c`. */
module Find {
  import opened Splices
  import opened Branches

  datatype Found = Found(before: seq<byte>, found: seq<byte>, after: seq<byte>)

  /** The loop from position `i` with `j` bytes of `what` matched: where the
      first reported match ends. A mismatch drops `j` to 0 and does not look at
      the mismatching byte again. */
  function FindEnd(text: seq<byte>, what: seq<byte>, i: nat, j: nat): (e: Option<nat>)
    requires i <= |text| && j < |what|
    ensures e.Some? ==> i < e.value <= |text|
    decreases |text| - i
  {
    if i == |text| then None
    else if text[i] == what[j] then
      if j + 1 == |what| then Some(i + 1) else FindEnd(text, what, i + 1, j + 1)
    else FindEnd(text, what, i + 1, 0)
  }

  /** `what` stands in `text` at `p`. */
  ghost predicate Occurs(text: seq<byte>, what: seq<byte>, p: nat) {
    p + |what| <= |text| && text[p..p + |what|] == what
  }

  lemma {:induction false} MatchIsReal(text: seq<byte>, what: seq<byte>, i: nat, j: nat)
    requires j <= i <= |text| && j < |what| && text[i - j..i] == what[..j]
    ensures var e := FindEnd(text, what, i, j);
      e.Some? ==> |what| <= e.value && Occurs(text, what, e.value - |what|)
    decreases |text| - i
  {
    if i < |text| {
      if text[i] == what[j] {
        assert text[i - j..i + 1] == text[i - j..i] + [text[i]];
        assert what[..j + 1] == what[..j] + [what[j]];
        if j + 1 < |what| {
          MatchIsReal(text, what, i + 1, j + 1);
        }
      } else {
        MatchIsReal(text, what, i + 1, 0);
      }
    }
  }

  function Bfind(text: seq<byte>, what: seq<byte>): (f: Found)
    requires what != []
    ensures f.found == [] || f.found == what
    ensures f.before + f.found + f.after == text
  {
    match FindEnd(text, what, 0, 0)
    case None => Found(text, [], [])
    case Some(e) =>
      MatchIsReal(text, what, 0, 0);
      Found(text[..e - |what|], text[e - |what|..e], text[e..])
  }

  method FindLoop(text: seq<byte>, what: seq<byte>) returns (f: Found)
    requires what != []
    ensures f == Bfind(text, what)
  {
    var i, j := 0, 0;
    MatchIsReal(text, what, 0, 0);
    while i < |text|
      invariant 0 <= i <= |text| && 0 <= j < |what|
      invariant FindEnd(text, what, i, j) == FindEnd(text, what, 0, 0)
    {
      if text[i] == what[j] {
        j := j + 1;
        if j == |what| {
          return Found(text[..i + 1 - |what|], text[i + 1 - |what|..i + 1], text[i + 1..]);
        }
      } else {
        j := 0;
      }
      i := i + 1;
    }
    f := Found(text, [], []);
  }

  // ---------- what is surely found ----------

  lemma {:induction false} MatchesThrough(text: seq<byte>, what: seq<byte>, p: nat, k: nat)
    requires Occurs(text, what, p) && k < |what|
    ensures FindEnd(text, what, p + k, k) == Some(p + |what|)
    decreases |what| - k
  {
    assert text[p + k] == text[p..p + |what|][k] == what[k];
    if k + 1 < |what| {
      MatchesThrough(text, what, p, k + 1);
    }
  }

  /** The scan enters position `p` with nothing matched, unless it ended before. */
  lemma {:induction false} ReachesClean(text: seq<byte>, what: seq<byte>, p: nat, i: nat, j: nat)
    requires Occurs(text, what, p) && i < p && j < |what| && text[p - 1] !in what
    ensures FindEnd(text, what, i, j).Some? && FindEnd(text, what, i, j).value <= p + |what|
    decreases p - i
  {
    if i == p - 1 {
      MatchesThrough(text, what, p, 0);
    } else if text[i] == what[j] {
      if j + 1 < |what| {
        ReachesClean(text, what, p, i + 1, j + 1);
      }
    } else {
      ReachesClean(text, what, p, i + 1, 0);
    }
  }

  /** An occurrence at the start, or after a byte that is not in the needle,
      forces a match at or before it. */
  lemma CleanOccurrenceFound(text: seq<byte>, what: seq<byte>, p: nat)
    requires what != [] && Occurs(text, what, p) && (p == 0 || text[p - 1] !in what)
    ensures Bfind(text, what).found == what && |Bfind(text, what).before| <= p
    ensures Occurs(text, what, |Bfind(text, what).before|)
  {
    if p == 0 {
      MatchesThrough(text, what, 0, 0);
    } else {
      ReachesClean(text, what, p, 0, 0);
    }
    MatchIsReal(text, what, 0, 0);
  }

  /** If it is also the leftmost one, it is the one reported. */
  lemma CleanLeftmostFound(text: seq<byte>, what: seq<byte>, p: nat)
    requires what != [] && Occurs(text, what, p) && (p == 0 || text[p - 1] !in what)
    requires forall q :: 0 <= q < p ==> !Occurs(text, what, q)
    ensures Bfind(text, what) == Found(text[..p], what, text[p + |what|..])
  {
    CleanOccurrenceFound(text, what, p);
    var f := Bfind(text, what);
    assert |f.before| == p;
    assert text == f.before + f.found + f.after;
  }

  lemma AbsentNotFound(text: seq<byte>, what: seq<byte>)
    requires what != [] && forall q: nat :: !Occurs(text, what, q)
    ensures Bfind(text, what) == Found(text, [], [])
  {
    MatchIsReal(text, what, 0, 0);
  }

  // ---------- which occurrence is reported ----------

  /** How many bytes of `what` the scan holds matched after `n` bytes, or nothing
      once it has reported a match. */
  function Scanned(text: seq<byte>, what: seq<byte>, n: nat): (j: Option<nat>)
    requires n <= |text| && what != []
    ensures j.Some? ==> j.value < |what|
  {
    if n == 0 then Some(0)
    else
      match Scanned(text, what, n - 1)
      case None => None
      case Some(j) =>
        if text[n - 1] != what[j] then Some(0)
        else if j + 1 == |what| then None
        else Some(j + 1)
  }

  lemma {:induction false} ScannedSoFar(text: seq<byte>, what: seq<byte>, n: nat)
    requires n <= |text| && what != []
    ensures match Scanned(text, what, n)
      case Some(j) => FindEnd(text, what, n, j) == FindEnd(text, what, 0, 0)
      case None => FindEnd(text, what, 0, 0).Some? && FindEnd(text, what, 0, 0).value <= n
  {
    if n > 0 {
      ScannedSoFar(text, what, n - 1);
    }
  }

  lemma {:induction false} ScannedPrefix(a: seq<byte>, b: seq<byte>, what: seq<byte>, n: nat)
    requires n <= |a| && what != []
    ensures Scanned(a + b, what, n) == Scanned(a, what, n)
  {
    if n > 0 {
      ScannedPrefix(a, b, what, n - 1);
    }
  }

  /** From `j` matched bytes the scan either completes that match or starts
      another one later, which then ends more than the needle's length ahead. */
  lemma {:induction false} EndsDirectlyOrLater(text: seq<byte>, what: seq<byte>, i: nat, j: nat)
    requires i <= |text| && j < |what|
    ensures var e := FindEnd(text, what, i, j); e.Some? ==> e.value == i + |what| - j || e.value > i + |what|
    decreases |text| - i
  {
    if i < |text| && text[i] != what[j] {
      EndsDirectlyOrLater(text, what, i + 1, 0);
    } else if i < |text| && j + 1 < |what| {
      EndsDirectlyOrLater(text, what, i + 1, j + 1);
    }
  }

  lemma EndsThereExactly(text: seq<byte>, what: seq<byte>, p: nat)
    requires what != [] && Occurs(text, what, p)
    ensures FindEnd(text, what, 0, 0) == Some(p + |what|) <==> Scanned(text, what, p) == Some(0)
  {
    ScannedSoFar(text, what, p);
    match Scanned(text, what, p)
    case None =>
    case Some(j) =>
      EndsDirectlyOrLater(text, what, p, j);
      if j == 0 {
        MatchesThrough(text, what, p, 0);
      }
  }

  lemma SameFound(text: seq<byte>, what: seq<byte>, i: nat, p: nat)
    requires i + |what| <= |text| && p + |what| <= |text|
    ensures Found(text[..i], what, text[i + |what|..]) == Found(text[..p], what, text[p + |what|..]) <==> i == p
  {
    assert |text[..i]| == i && |text[..p]| == p;
  }

  lemma FoundByEnd(text: seq<byte>, what: seq<byte>, p: nat)
    requires what != [] && p + |what| <= |text|
    ensures Bfind(text, what) == Found(text[..p], what, text[p + |what|..])
      <==> FindEnd(text, what, 0, 0) == Some(p + |what|)
  {
    match FindEnd(text, what, 0, 0)
    case None =>
    case Some(e) =>
      MatchIsReal(text, what, 0, 0);
      assert Bfind(text, what) == Found(text[..e - |what|], what, text[e..]);
      SameFound(text, what, e - |what|, p);
  }

  /** An occurrence is the one reported exactly when the scan enters it with
      nothing matched. */
  lemma ReportedExactly(text: seq<byte>, what: seq<byte>, p: nat)
    requires what != [] && Occurs(text, what, p)
    ensures Bfind(text, what) == Found(text[..p], what, text[p + |what|..]) <==> Scanned(text, what, p) == Some(0)
  {
    EndsThereExactly(text, what, p);
    FoundByEnd(text, what, p);
  }

  /** No match is reported in a text that ends before the first match does. */
  lemma CutNotFound(text: seq<byte>, what: seq<byte>, k: nat)
    requires what != [] && k <= |text|
    requires FindEnd(text, what, 0, 0).Some? ==> k < FindEnd(text, what, 0, 0).value
    ensures Bfind(text[..k], what) == Found(text[..k], [], [])
  {
    ScannedSoFar(text, what, k);
    assert text[..k] + text[k..] == text;
    ScannedPrefix(text[..k], text[k..], what, k);
    ScannedSoFar(text[..k], what, k);
  }

  /** The scan leaves a text that does not contain the needle and whose last byte
      is not in it with nothing matched. */
  lemma CleanEnd(text: seq<byte>, what: seq<byte>)
    requires what != [] && forall q: nat :: !Occurs(text, what, q)
    requires text != [] ==> text[|text| - 1] !in what
    ensures Scanned(text, what, |text|) == Some(0)
  {
    if text != [] {
      ScannedSoFar(text, what, |text| - 1);
      MatchIsReal(text, what, 0, 0);
    }
  }

  // ---------- where the search is complete ----------

  ghost predicate AllEqual(what: seq<byte>) {
    forall k :: 0 <= k < |what| ==> what[k] == what[0]
  }

  /** The search finds `what` in every text that contains it. */
  ghost predicate Complete(what: seq<byte>)
    requires what != []
  {
    forall text, p: nat :: Occurs(text, what, p) ==> Bfind(text, what).found == what
  }

  lemma {:induction false} RunsAreFound(text: seq<byte>, what: seq<byte>, p: nat, i: nat, j: nat)
    requires what != [] && AllEqual(what) && Occurs(text, what, p)
    requires j < |what| && j <= i <= |text| && i - j <= p
    ensures FindEnd(text, what, i, j).Some?
    decreases |text| - i
  {
    if p <= i {
      assert text[i] == text[p..p + |what|][i - p];
    }
    if text[i] == what[j] {
      if j + 1 < |what| {
        RunsAreFound(text, what, p, i + 1, j + 1);
      }
    } else {
      RunsAreFound(text, what, p, i + 1, 0);
    }
  }

  lemma {:induction false} TooShortToMatch(text: seq<byte>, what: seq<byte>, i: nat, j: nat)
    requires i <= |text| && j < |what| && |text| - i + j < |what|
    ensures FindEnd(text, what, i, j).None?
    decreases |text| - i
  {
    if i < |text| {
      if text[i] == what[j] {
        TooShortToMatch(text, what, i + 1, j + 1);
      } else {
        TooShortToMatch(text, what, i + 1, 0);
      }
    }
  }

  /** In its first byte followed by itself the scan runs along the leading equal
      bytes, trips one byte late and never recovers. */
  lemma {:induction false} DefeatedFrom(what: seq<byte>, d: nat, i: nat)
    requires 0 < d < |what| && what[d] != what[0] && i <= d
    requires forall k :: 0 <= k < d ==> what[k] == what[0]
    ensures FindEnd([what[0]] + what, what, i, i).None?
    decreases d - i
  {
    var text := [what[0]] + what;
    if i < d {
      assert text[i] == what[0] == what[i];
      DefeatedFrom(what, d, i + 1);
    } else {
      assert text[d] == what[d - 1] != what[d];
      TooShortToMatch(text, what, d + 1, 0);
    }
  }

  lemma {:induction false} FirstDifference(what: seq<byte>, k: nat) returns (d: nat)
    requires k < |what| && what[k] != what[0]
    ensures 0 < d <= k && what[d] != what[0] && forall x :: 0 <= x < d ==> what[x] == what[0]
  {
    d := 1;
    while what[d] == what[0]
      invariant 1 <= d <= k
      invariant forall x :: 0 <= x < d ==> what[x] == what[0]
      decreases k - d
    {
      d := d + 1;
    }
  }

  lemma NeedleDefeated(what: seq<byte>)
    requires what != [] && !AllEqual(what)
    ensures Occurs([what[0]] + what, what, 1)
    ensures Bfind([what[0]] + what, what).found == []
  {
    var k :| 0 <= k < |what| && what[k] != what[0];
    var d := FirstDifference(what, k);
    DefeatedFrom(what, d, 0);
  }

  /** The completeness boundary: a needle is found wherever it occurs exactly
      when all its bytes are equal. */
  lemma CompleteExactly(what: seq<byte>)
    requires what != []
    ensures Complete(what) <==> AllEqual(what)
  {
    if AllEqual(what) {
      forall text, p: nat | Occurs(text, what, p)
        ensures Bfind(text, what).found == what
      {
        RunsAreFound(text, what, p, 0, 0);
        MatchIsReal(text, what, 0, 0);
      }
    } else {
      NeedleDefeated(what);
    }
  }
}

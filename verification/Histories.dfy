/** The replay cursor: `history.js`. */
module Histories {
  import opened Splices

  /** What `forward`, `back` and `go` change; the steps stay fixed under them. */
  datatype Cursor = Cursor(position: nat, render: Text)

  function Forward(steps: seq<Change>, c: Cursor): Cursor {
    if c.position >= |steps| then c
    else Cursor(c.position + 1, Apply(c.render, steps[c.position]))
  }

  function Back(steps: seq<Change>, c: Cursor): Cursor
    requires c.position <= |steps|
  {
    if c.position == 0 then c
    else Cursor(c.position - 1, Undo(c.render, steps[c.position - 1]))
  }

  function Distance(a: int, b: int): nat {
    if a < b then b - a else a - b
  }

  /** Step towards `target` until it is reached. */
  function Walk(steps: seq<Change>, c: Cursor, target: nat): (r: Cursor)
    requires c.position <= |steps| && target <= |steps|
    ensures r.position == target
    decreases Distance(c.position, target)
  {
    if c.position == target then c
    else if c.position > target then Walk(steps, Back(steps, c), target)
    else Walk(steps, Forward(steps, c), target)
  }

  function Clamp(k: int, top: nat): nat {
    if k <= 0 then 0 else if k > top then top else k
  }

  datatype Move = MoveForward | MoveBack | MoveTo(target: int)

  function Make(steps: seq<Change>, c: Cursor, m: Move): (r: Cursor)
    requires c.position <= |steps|
    ensures r.position <= |steps|
    ensures m.MoveTo? && m.target < 0 ==> r.position == 0
    ensures m.MoveTo? && 0 <= m.target <= |steps| ==> r.position == m.target
    ensures m.MoveTo? && m.target > |steps| ==> r.position == |steps|
  {
    match m
    case MoveForward => Forward(steps, c)
    case MoveBack => Back(steps, c)
    case MoveTo(k) => Walk(steps, c, Clamp(k, |steps|))
  }

  function MakeAll(steps: seq<Change>, c: Cursor, moves: seq<Move>): (r: Cursor)
    requires c.position <= |steps|
    ensures r.position <= |steps|
    decreases moves
  {
    if moves == [] then c else MakeAll(steps, Make(steps, c, moves[0]), moves[1..])
  }

  /** The rendered text is the replay of the steps before the cursor. */
  ghost predicate InStep(t: Text, steps: seq<Change>, c: Cursor) {
    c.position <= |steps| && c.render == Replay(t, steps[..c.position])
  }

  lemma ForwardKeepsStep(t: Text, steps: seq<Change>, c: Cursor)
    requires InStep(t, steps, c)
    ensures InStep(t, steps, Forward(steps, c))
  {
    if c.position < |steps| {
      ReplayStep(t, steps, c.position);
    }
  }

  lemma BackKeepsStep(t: Text, steps: seq<Change>, c: Cursor)
    requires Chain(t, steps) && InStep(t, steps, c)
    ensures InStep(t, steps, Back(steps, c))
  {
    if c.position > 0 {
      var k := c.position - 1;
      UndoStep(t, steps, k);
      assert Back(steps, c) == Cursor(k, Replay(t, steps[..k]));
    }
  }

  lemma {:induction false} WalkKeepsStep(t: Text, steps: seq<Change>, c: Cursor, target: nat)
    requires Chain(t, steps) && InStep(t, steps, c) && target <= |steps|
    ensures InStep(t, steps, Walk(steps, c, target))
    decreases Distance(c.position, target)
  {
    if c.position > target {
      BackKeepsStep(t, steps, c);
      WalkKeepsStep(t, steps, Back(steps, c), target);
    } else if c.position < target {
      ForwardKeepsStep(t, steps, c);
      WalkKeepsStep(t, steps, Forward(steps, c), target);
    }
  }

  lemma GoKeepsStep(t: Text, steps: seq<Change>, c: Cursor, target: int)
    requires Chain(t, steps) && InStep(t, steps, c)
    ensures InStep(t, steps, Make(steps, c, MoveTo(target)))
  {
    WalkKeepsStep(t, steps, c, Clamp(target, |steps|));
  }

  /** `go` to a place in range shows exactly the steps before it. */
  lemma GoShows(t: Text, steps: seq<Change>, c: Cursor, k: nat)
    requires Chain(t, steps) && InStep(t, steps, c) && k <= |steps|
    ensures Make(steps, c, MoveTo(k)) == Cursor(k, Replay(t, steps[..k]))
  {
    GoKeepsStep(t, steps, c, k);
  }

  /** Replay is path independent: however the cursor was moved on a chain,
      the text shown is the replay of the steps before it. */
  lemma {:induction false} ReplayIsPathIndependent(t: Text, steps: seq<Change>, c: Cursor, moves: seq<Move>)
    requires Chain(t, steps) && InStep(t, steps, c)
    ensures InStep(t, steps, MakeAll(steps, c, moves))
    decreases moves
  {
    if moves != [] {
      match moves[0] {
        case MoveForward => ForwardKeepsStep(t, steps, c);
        case MoveBack => BackKeepsStep(t, steps, c);
        case MoveTo(k) => WalkKeepsStep(t, steps, c, Clamp(k, |steps|));
      }
      ReplayIsPathIndependent(t, steps, Make(steps, c, moves[0]), moves[1..]);
    }
  }

  ghost predicate PathIndependent(t: Text, steps: seq<Change>) {
    forall c, moves :: InStep(t, steps, c) ==> InStep(t, steps, MakeAll(steps, c, moves))
  }

  lemma PathIndependentStep(t: Text, steps: seq<Change>, k: nat)
    requires PathIndependent(t, steps) && k < |steps|
    ensures Reversible(Replay(t, steps[..k]), steps[k])
  {
    var c := Cursor(k + 1, Replay(t, steps[..k + 1]));
    assert InStep(t, steps, c);
    assert InStep(t, steps, MakeAll(steps, c, [MoveBack]));
    assert MakeAll(steps, Back(steps, c), []) == Back(steps, c);
    ReplayStep(t, steps, k);
    UndoRestoresExactly(Replay(t, steps[..k]), steps[k]);
  }

  /** Only chains have this: elsewhere some single step back goes wrong. */
  lemma PathIndependentExactlyOnChains(t: Text, steps: seq<Change>)
    ensures PathIndependent(t, steps) <==> Chain(t, steps)
  {
    if Chain(t, steps) {
      forall c, moves | InStep(t, steps, c)
        ensures InStep(t, steps, MakeAll(steps, c, moves))
      {
        ReplayIsPathIndependent(t, steps, c, moves);
      }
    }
    if PathIndependent(t, steps) {
      forall k | 0 <= k < |steps|
        ensures Reversible(Replay(t, steps[..k]), steps[k])
      {
        PathIndependentStep(t, steps, k);
      }
    }
  }

  class History {
    var steps: seq<Change>
    var position: nat
    var render: Text

    constructor (steps: seq<Change>)
      ensures this.steps == steps && position == 0 && render == []
    {
      this.steps := steps;
      position := 0;
      render := [];
    }

    ghost predicate Valid()
      reads this
    {
      position <= |steps|
    }

    function Here(): Cursor
      reads this
    {
      Cursor(position, render)
    }

    /** What `oninput` assigns to the history's fields. */
    method Extend(change: Change, text: Text)
      modifies this
      ensures Valid()
      ensures steps == old(steps) + [change] && position == |steps| && render == text
    {
      steps := steps + [change];
      position := |steps|;
      render := text;
    }

    method StepForward()
      requires Valid()
      modifies this`position, this`render
      ensures Valid() && Here() == Forward(steps, old(Here()))
      ensures if old(position) < |steps| then position == old(position) + 1 else Here() == old(Here())
    {
      if position > |steps| - 1 {
        return;
      }
      var change := steps[position];
      position := position + 1;
      render := Substr(render, 0, change.pos) + change.now
        + Substr(render, change.pos + |change.last|, |render|);
    }

    method StepBack()
      requires Valid()
      modifies this`position, this`render
      ensures Valid() && Here() == Back(steps, old(Here()))
      ensures if old(position) > 0 then position == old(position) - 1 else Here() == old(Here())
    {
      if position <= 0 {
        return;
      }
      var change := steps[position - 1];
      position := position - 1;
      render := Substr(render, 0, change.pos) + change.last
        + Substr(render, change.pos + |change.now|, |render|);
    }

    /** `go`: reaches the target, or the end nearer to it, by single steps. */
    method Go(target: int)
      requires Valid()
      modifies this`position, this`render
      ensures Valid() && Here() == Make(steps, old(Here()), MoveTo(target))
      ensures 0 <= target <= |steps| ==> position == target
      ensures target < 0 ==> position == 0
      ensures target > |steps| ==> position == |steps|
    {
      var go := target;
      if position == go {
        return;
      }
      if go <= 0 {
        go := 0;
      }
      if go > |steps| {
        go := |steps|;
      }
      while position != go
        invariant Valid()
        invariant Walk(steps, Here(), go) == Walk(steps, old(Here()), go)
        decreases Distance(position, go)
      {
        if position > go {
          StepBack();
        } else {
          StepForward();
        }
      }
    }
  }
}

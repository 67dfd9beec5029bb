/**
 The editor session as a state machine: what typing, sliding, branching and
 reopening a branch do to the tree, the replay cursor and the text shown
 (`editorview.js`).
 */
module Sessions {
  import opened Splices
  import opened Diffs
  import opened Histories
  import opened Branches

  /** `steps`, `position` and `shown` are the fields of `view.history`, `last`
      is `view.editor.last`; `queue` holds every change handed to the network. */
  datatype Session = Session(
    tree: Tree, current: nat,
    steps: seq<Change>, position: nat, shown: Text,
    last: Text, queue: seq<Change>)

  /** `id` is the random id a new branch gets if one is made. */
  datatype Event =
    | Input(text: Text, id: nat)
    | Slide(target: int)
    | BranchOut(id: nat)
    | Reopen(branch: nat)

  const ROOT: nat := 1

  function Start(): Session {
    Session(Add(Tree(map[], []), ROOT, 0, 0), ROOT, [], 0, [], [], [])
  }

  predicate FreshId(t: Tree, id: nat) {
    id != 0 && id !in t.branches && id !in t.order
  }

  ghost predicate Rooted(s: Session) {
    Ranked(s.tree) && s.current in s.tree.branches && s.position <= |s.steps|
  }

  /** `branchout`: neither text nor `last` change, and the new history and the
      new branch both render as '' until the next input. */
  function Fork(s: Session, id: nat): (r: Session)
    requires Rooted(s) && FreshId(s.tree, id)
    ensures Rooted(r)
  {
    AddKeepsRanked(s.tree, id, s.current, s.position);
    var tree := Add(s.tree, id, s.current, s.position);
    var steps := Steps(tree, id);
    s.(tree := tree, current := id, steps := steps, position := |steps|, shown := [])
  }

  /** Record change `c`, after which the text is `text`. */
  function Append(s: Session, c: Change, text: Text): (r: Session)
    requires Rooted(s)
    ensures Rooted(r)
  {
    PushKeepsRanked(s.tree, s.current, c, text);
    s.(tree := Push(s.tree, s.current, c, text),
       steps := s.steps + [c], position := |s.steps| + 1,
       shown := text, last := text, queue := s.queue + [c])
  }

  /** `oninput` with the cursor at the end of the history. */
  function Type(s: Session, text: Text): (r: Session)
    requires Rooted(s)
    ensures Rooted(r)
  {
    Append(s, Diff(s.last, text), text)
  }

  function SlideTo(s: Session, target: int): (r: Session)
    requires Rooted(s)
    ensures Rooted(r)
  {
    var c := Make(s.steps, Cursor(s.position, s.shown), MoveTo(target));
    s.(position := c.position, shown := c.render, last := c.render)
  }

  function Open(s: Session, id: nat): (r: Session)
    requires Rooted(s) && id in s.tree.branches
    ensures Rooted(r)
  {
    var steps := Steps(s.tree, id);
    var render := s.tree.branches[id].render;
    s.(current := id, steps := steps, position := |steps|, shown := render, last := render)
  }

  /** What the code needs of an event to make sense at all. */
  predicate Possible(s: Session, e: Event) {
    match e
    case Input(_, id) => s.position != |s.steps| ==> FreshId(s.tree, id)
    case Slide(_) => true
    case BranchOut(id) => FreshId(s.tree, id)
    case Reopen(b) => b in s.tree.branches
  }

  function Step(s: Session, e: Event): (r: Session)
    requires Rooted(s) && Possible(s, e)
    ensures Rooted(r)
  {
    match e
    case Input(text, id) => Type(if s.position != |s.steps| then Fork(s, id) else s, text)
    case Slide(target) => SlideTo(s, target)
    case BranchOut(id) => Fork(s, id)
    case Reopen(b) => Open(s, b)
  }

  lemma InputStep(s: Session, text: Text, id: nat, f: Session)
    requires Rooted(s) && Possible(s, Input(text, id))
    requires f == if s.position != |s.steps| then Fork(s, id) else s
    ensures Step(s, Input(text, id)) == Append(f, Diff(f.last, text), text)
  {
  }

  /** A branch in which nothing was typed since `branchout` made it. */
  predicate Fresh(t: Tree, id: nat)
    requires id in t.branches
  {
    t.branches[id].parent != 0 && t.branches[id].data == []
  }

  /** The discipline under which the editor is safe: no branching at a point
      before the current branch, and no sliding in or reopening a fresh one. */
  predicate Guard(s: Session, e: Event)
    requires Rooted(s)
  {
    && Possible(s, e)
    && match e
       case Input(_, _) => s.position != |s.steps| ==> s.tree.branches[s.current].pos <= s.position
       case Slide(_) => !Fresh(s.tree, s.current)
       case BranchOut(_) => s.tree.branches[s.current].pos <= s.position
       case Reopen(b) => !Fresh(s.tree, b)
  }

  /** Every history replays, and a branch that was typed in renders its own. */
  ghost predicate Rendered(t: Tree, id: nat)
    requires Ranked(t) && id in t.branches
  {
    && Chain([], Steps(t, id))
    && t.branches[id].render == if Fresh(t, id) then [] else Replay([], Steps(t, id))
  }

  ghost predicate TreeSafe(t: Tree) {
    Ranked(t) && WellPlaced(t) && forall id {:trigger Rendered(t, id)} :: id in t.branches ==> Rendered(t, id)
  }

  /** The view agrees with the tree: the steps are the branch's rebuilt history
      and the editor's text is the replay of those before the cursor. */
  ghost predicate ViewSafe(s: Session)
    requires Rooted(s)
  {
    && s.steps == Steps(s.tree, s.current)
    && s.last == Replay([], s.steps[..s.position])
    && if Fresh(s.tree, s.current) then s.shown == [] && s.position == |s.steps| else s.shown == s.last
  }

  ghost predicate Safe(s: Session) {
    TreeSafe(s.tree) && Rooted(s) && ViewSafe(s)
  }

  lemma StartIsSafe()
    ensures Safe(Start())
  {
  }

  lemma ForkKeepsTreeSafe(s: Session, id: nat)
    requires Safe(s) && FreshId(s.tree, id) && s.tree.branches[s.current].pos <= s.position
    ensures TreeSafe(Fork(s, id).tree)
    ensures Fork(s, id).steps == s.steps[..s.position]
  {
    var t, u := s.tree, Fork(s, id).tree;
    AddKeepsPlaced(t, id, s.current, s.position);
    forall x | x in u.branches
      ensures Rendered(u, x)
    {
      StepsAfterAdd(t, id, s.current, s.position, x);
      if x == id {
        assert Rendered(t, s.current);
        ChainPrefix([], s.steps, s.position);
      } else {
        assert Rendered(t, x);
      }
    }
    StepsAfterAdd(t, id, s.current, s.position, id);
  }

  lemma ForkIsSafe(s: Session, id: nat)
    requires Safe(s) && FreshId(s.tree, id) && s.tree.branches[s.current].pos <= s.position
    ensures Safe(Fork(s, id))
    ensures Fork(s, id).steps == s.steps[..s.position]
  {
    ForkKeepsTreeSafe(s, id);
    var r := Fork(s, id);
    assert r.steps[..|r.steps|] == r.steps;
    assert RankedAt(s.tree, s.current);
  }

  lemma TypedChangeFits(s: Session, text: Text)
    requires Safe(s) && s.position == |s.steps|
    ensures var c := Diff(s.last, text);
      Chain([], s.steps + [c]) && Replay([], s.steps + [c]) == text
  {
    var c := Diff(s.last, text);
    assert s.steps[..|s.steps|] == s.steps;
    DiffConnects(s.last, text);
    assert Rendered(s.tree, s.current);
    ChainPush([], s.steps, c);
    ReplayPush([], s.steps, c);
  }

  lemma AppendKeepsTreeSafe(s: Session, c: Change, text: Text)
    requires Safe(s) && Chain([], s.steps + [c]) && Replay([], s.steps + [c]) == text
    ensures TreeSafe(Append(s, c, text).tree)
  {
    var t, u := s.tree, Append(s, c, text).tree;
    PushKeepsPlaced(t, s.current, c, text);
    forall x | x in u.branches
      ensures Rendered(u, x)
    {
      StepsAfterPush(t, s.current, c, text, x);
      assert Rendered(t, x);
    }
  }

  lemma AppendKeepsViewSafe(s: Session, c: Change, text: Text)
    requires Rooted(s) && WellPlaced(s.tree) && s.steps == Steps(s.tree, s.current)
    requires Replay([], s.steps + [c]) == text
    ensures ViewSafe(Append(s, c, text))
  {
    var r := Append(s, c, text);
    AppendFields(s, c, text);
    StepsAfterPush(s.tree, s.current, c, text, s.current);
    assert r.steps[..r.position] == s.steps + [c];
  }

  lemma AppendFields(s: Session, c: Change, text: Text)
    requires Rooted(s)
    ensures var r := Append(s, c, text);
      && r.steps == s.steps + [c] && r.position == |r.steps| && r.current == s.current
      && r.shown == r.last == text && r.tree == Push(s.tree, s.current, c, text)
      && !Fresh(r.tree, r.current)
  {
  }

  lemma AppendIsSafe(s: Session, c: Change, text: Text)
    requires Safe(s) && Chain([], s.steps + [c]) && Replay([], s.steps + [c]) == text
    ensures Safe(Append(s, c, text))
  {
    AppendKeepsTreeSafe(s, c, text);
    AppendKeepsViewSafe(s, c, text);
  }

  lemma TypeIsSafe(s: Session, text: Text)
    requires Safe(s) && s.position == |s.steps|
    ensures Safe(Type(s, text))
  {
    TypedChangeFits(s, text);
    AppendIsSafe(s, Diff(s.last, text), text);
  }

  lemma SlideIsSafe(s: Session, target: int)
    requires Safe(s) && !Fresh(s.tree, s.current)
    ensures Safe(SlideTo(s, target))
  {
    assert Rendered(s.tree, s.current);
    GoKeepsStep([], s.steps, Cursor(s.position, s.shown), target);
  }

  /** A slide into the range shows exactly the steps before the cursor, and
      changes nothing else. */
  lemma SlideShows(s: Session, k: nat)
    requires Safe(s) && !Fresh(s.tree, s.current) && k <= |s.steps|
    ensures var text := Replay([], s.steps[..k]);
      SlideTo(s, k) == s.(position := k, shown := text, last := text)
  {
    assert Rendered(s.tree, s.current);
    GoShows([], s.steps, Cursor(s.position, s.shown), k);
  }

  lemma OpenIsSafe(s: Session, id: nat)
    requires Safe(s) && id in s.tree.branches && !Fresh(s.tree, id)
    ensures Safe(Open(s, id))
  {
    var r := Open(s, id);
    assert Rendered(s.tree, id);
    assert r.steps[..|r.steps|] == r.steps;
  }

  lemma StepIsSafe(s: Session, e: Event)
    requires Safe(s) && Guard(s, e)
    ensures Safe(Step(s, e))
  {
    match e
    case Input(text, id) =>
      if s.position != |s.steps| {
        ForkIsSafe(s, id);
        TypeIsSafe(Fork(s, id), text);
      } else {
        TypeIsSafe(s, text);
      }
    case Slide(target) => SlideIsSafe(s, target);
    case BranchOut(id) => ForkIsSafe(s, id);
    case Reopen(b) => OpenIsSafe(s, b);
  }

  // ---------- whole runs ----------

  ghost predicate GuardedRun(s: Session, events: seq<Event>)
    requires Rooted(s)
    decreases events
  {
    events == [] || (Guard(s, events[0]) && GuardedRun(Step(s, events[0]), events[1..]))
  }

  ghost function Run(s: Session, events: seq<Event>): (r: Session)
    requires Rooted(s) && GuardedRun(s, events)
    ensures Rooted(r)
    decreases events
  {
    if events == [] then s else Run(Step(s, events[0]), events[1..])
  }

  /** Safety over all runs. */
  lemma {:induction false} RunIsSafe(s: Session, events: seq<Event>)
    requires Safe(s) && GuardedRun(s, events)
    ensures Safe(Run(s, events))
    decreases events
  {
    if events != [] {
      StepIsSafe(s, events[0]);
      RunIsSafe(Step(s, events[0]), events[1..]);
    }
  }

  lemma StepGrows(s: Session, e: Event)
    requires Rooted(s) && Possible(s, e)
    ensures Grows(s.tree, Step(s, e).tree)
  {
  }

  lemma {:induction false} RunGrows(s: Session, events: seq<Event>)
    requires Safe(s) && GuardedRun(s, events)
    ensures Grows(s.tree, Run(s, events).tree)
    decreases events
  {
    if events != [] {
      StepIsSafe(s, events[0]);
      StepGrows(s, events[0]);
      RunGrows(Step(s, events[0]), events[1..]);
      GrowsTransitive(s.tree, Step(s, events[0]).tree, Run(s, events).tree);
    }
  }

  lemma GrowsTransitive(t: Tree, u: Tree, v: Tree)
    requires Grows(t, u) && Grows(u, v)
    ensures Grows(t, v)
  {
  }

  /** Branch histories are stable over whole runs: whatever is done later, a
      branch keeps its preceding history and its agreement with every ancestor
      up to where their path split. */
  lemma HistoriesAreStable(s: Session, events: seq<Event>, a: nat, id: nat)
    requires Safe(s) && GuardedRun(s, events)
    requires id in s.tree.branches && AncestorOrSelf(s.tree, a, id) && a != id
    ensures var t, u := s.tree, Run(s, events).tree;
      && Ranked(u) && id in u.branches && a in u.branches
      && Preceding(u, id) == Preceding(t, id)
      && var n := Split(t, a, id);
         n <= |Steps(u, id)| && n <= |Steps(u, a)| && Steps(u, id)[..n] == Steps(u, a)[..n]
  {
    RunIsSafe(s, events);
    RunGrows(s, events);
    var t, u := s.tree, Run(s, events).tree;
    PrecedingIsStable(t, u, id);
    AncestorExists(t, a, id);
    SplitSurvives(t, u, a, id);
    AgreesWithAncestor(u, a, id);
  }

  // ---------- where the guards come from ----------

  /** The first `pos` steps are kept by a fork exactly when it is not made
      before the start of the current branch. */
  lemma ForkExactly(s: Session, id: nat)
    requires Safe(s) && FreshId(s.tree, id)
    ensures Fork(s, id).steps == s.steps[..s.position] <==> s.tree.branches[s.current].pos <= s.position
  {
    var t, u := s.tree, Fork(s, id).tree;
    AddKeepsRanked(t, id, s.current, s.position);
    PrecedingIsStable(t, u, s.current);
    PrecedingLength(t, s.current);
    assert RankedAt(t, s.current);
    PrecedingExactlyFrom(u, id);
    assert Fork(s, id).steps == Preceding(u, id);
  }

  /** A fork before that start reads the current branch from its end: it keeps all
      before the start, and of the `|s.steps| - start` changes after it all but as
      many as the cursor is before the start. */
  lemma ForkBefore(s: Session, id: nat)
    requires Safe(s) && FreshId(s.tree, id) && s.position < s.tree.branches[s.current].pos
    ensures var start := s.tree.branches[s.current].pos;
      var before, after := start - s.position, |s.steps| - start;
      && start <= |s.steps|
      && Fork(s, id).steps == s.steps[..start + if before <= after then after - before else 0]
  {
    var data, k := s.tree.branches[s.current].data, s.position - s.tree.branches[s.current].pos;
    ForkRebuilds(s, id);
    SliceFrontIs(data, k);
    FrontOfBoth(Preceding(s.tree, s.current), data, SliceFront(data, k));
  }

  lemma ForkRebuilds(s: Session, id: nat)
    requires Safe(s) && FreshId(s.tree, id)
    ensures var b := s.tree.branches[s.current];
      && |Preceding(s.tree, s.current)| == b.pos
      && Fork(s, id).steps == Preceding(s.tree, s.current) + SliceFront(b.data, s.position - b.pos)
  {
    var t, u := s.tree, Fork(s, id).tree;
    AddKeepsRanked(t, id, s.current, s.position);
    PrecedingIsStable(t, u, s.current);
    PrecedingLength(t, s.current);
    assert RankedAt(t, s.current);
  }

  lemma FrontOfBoth(past: seq<Change>, data: seq<Change>, front: seq<Change>)
    requires front <= data
    ensures past + front == (past + data)[..|past| + |front|]
  {
  }

  /** Sliding in a fresh branch shows the right text for every target exactly
      when the inherited text is empty. */
  lemma SlideOnFreshExactly(s: Session)
    requires Safe(s) && Fresh(s.tree, s.current)
    ensures (forall k: int :: SlideTo(s, k).last == Replay([], s.steps[..SlideTo(s, k).position]))
      <==> s.last == []
  {
    assert Rendered(s.tree, s.current);
    assert s.steps[..|s.steps|] == s.steps;
    if s.last == [] {
      forall k: int
        ensures SlideTo(s, k).last == Replay([], s.steps[..SlideTo(s, k).position])
      {
        GoKeepsStep([], s.steps, Cursor(s.position, s.shown), k);
      }
    } else {
      IdleSlideBlanks(s);
    }
  }

  /** Even a slide that goes nowhere wipes the text of a fresh branch. */
  lemma IdleSlideBlanks(s: Session)
    requires Rooted(s) && s.position == |s.steps| && s.shown == []
    ensures SlideTo(s, |s.steps|) == s.(last := [])
  {
  }

  /** Reopening a branch shows the text of its whole history exactly when the
      branch is not fresh or inherits the empty text. */
  lemma ReopenExactly(s: Session, id: nat)
    requires Safe(s) && id in s.tree.branches
    ensures Open(s, id).last == Replay([], Steps(s.tree, id))
      <==> !Fresh(s.tree, id) || Replay([], Preceding(s.tree, id)) == []
  {
    assert Rendered(s.tree, id);
    if Fresh(s.tree, id) {
      assert Steps(s.tree, id) == Preceding(s.tree, id);
    } else {
      OpenIsSafe(s, id);
    }
  }

  // ---------- guarded runs that end where the next step fails ----------

  lemma {:induction false} RunPush(s: Session, events: seq<Event>, e: Event)
    requires Rooted(s) && GuardedRun(s, events) && Guard(Run(s, events), e)
    ensures GuardedRun(s, events + [e]) && Run(s, events + [e]) == Step(Run(s, events), e)
    decreases events
  {
    var all := events + [e];
    if events == [] {
      assert all[1..] == [];
    } else {
      assert all[1..] == events[1..] + [e];
      RunPush(Step(s, events[0]), events[1..], e);
    }
  }

  lemma TypedAtEnd(s: Session, text: Text, id: nat)
    requires Rooted(s) && s.position == |s.steps|
    ensures Guard(s, Input(text, id))
    ensures var r := Step(s, Input(text, id));
      && r.current == s.current && r.last == text && r.position == |r.steps| == |s.steps| + 1
      && !Fresh(r.tree, r.current) && r.tree.branches[r.current].pos == s.tree.branches[s.current].pos
      && r.tree.branches.Keys == s.tree.branches.Keys && r.tree.order == s.tree.order
  {
  }

  lemma BranchedAtEnd(s: Session, id: nat)
    requires Safe(s) && FreshId(s.tree, id) && s.position == |s.steps|
    requires s.tree.branches[s.current].pos <= s.position
    ensures Guard(s, BranchOut(id))
    ensures var r := Step(s, BranchOut(id));
      && r.current == id && r.last == s.last && Fresh(r.tree, id) && r.tree.branches[id].pos == s.position
      && r.steps == s.steps && r.position == |r.steps|
      && r.tree.branches.Keys == s.tree.branches.Keys + {id} && r.tree.order == s.tree.order + [id]
  {
    ForkIsSafe(s, id);
    assert RankedAt(s.tree, s.current);
    assert s.steps[..s.position] == s.steps;
  }

  /** Type a character, then branch. */
  function Branched(c: byte, id: nat): seq<Event> {
    [Input([c], 0), BranchOut(id)]
  }

  lemma BranchedRun(c: byte, id: nat)
    requires id != 0 && id != ROOT
    ensures GuardedRun(Start(), Branched(c, id))
    ensures var s := Run(Start(), Branched(c, id));
      && Safe(s) && s.current == id && s.last == [c] && s.position == |s.steps| == 1
      && Fresh(s.tree, id) && s.tree.branches[id].pos == 1
      && s.tree.branches.Keys == {ROOT, id} && s.tree.order == [ROOT, id]
  {
    var typed := [Input([c], 0)];
    StartIsSafe();
    TypedAtEnd(Start(), [c], 0);
    RunPush(Start(), [], Input([c], 0));
    assert [] + typed == typed;
    RunIsSafe(Start(), typed);
    BranchedAtEnd(Run(Start(), typed), id);
    RunPush(Start(), typed, BranchOut(id));
    assert typed + [BranchOut(id)] == Branched(c, id);
    RunIsSafe(Start(), Branched(c, id));
  }

  /** There, a slide that goes nowhere and reopening the branch both show the
      empty text in place of the one inherited. */
  lemma FreshBranchBlanks(c: byte, id: nat)
    requires id != 0 && id != ROOT
    ensures GuardedRun(Start(), Branched(c, id))
    ensures var s := Run(Start(), Branched(c, id));
      && Replay([], s.steps) == [c] == s.last
      && SlideTo(s, |s.steps|).last == [] && id in s.tree.branches && Open(s, id).last == []
  {
    BranchedRun(c, id);
    var s := Run(Start(), Branched(c, id));
    assert s.steps[..|s.steps|] == s.steps;
    IdleSlideBlanks(s);
    assert Rendered(s.tree, id);
  }

  lemma SlidToStart(s: Session)
    requires Rooted(s) && !Fresh(s.tree, s.current)
    ensures Guard(s, Slide(0))
    ensures Step(s, Slide(0)).position == 0
    ensures Step(s, Slide(0)).tree == s.tree && Step(s, Slide(0)).current == s.current
    ensures Step(s, Slide(0)).steps == s.steps
  {
  }

  /** Type a character, branch, type another and slide to the start. */
  function SlidBefore(a: byte, b: byte): seq<Event> {
    Branched(a, 2) + [Input([a, b], 0)] + [Slide(0)]
  }

  lemma SlidBeforeRun(a: byte, b: byte)
    ensures GuardedRun(Start(), SlidBefore(a, b))
    ensures var s := Run(Start(), SlidBefore(a, b));
      && Safe(s) && FreshId(s.tree, 3) && s.position == 0 && |s.steps| == 2
      && s.tree.branches[s.current].pos == 1
  {
    var first := Branched(a, 2);
    BranchedRun(a, 2);
    TypedAtEnd(Run(Start(), first), [a, b], 0);
    RunPush(Start(), first, Input([a, b], 0));
    var typed := first + [Input([a, b], 0)];
    SlidToStart(Run(Start(), typed));
    RunPush(Start(), typed, Slide(0));
    StartIsSafe();
    RunIsSafe(Start(), typed + [Slide(0)]);
  }

  /** That leads before the new branch: a fork there takes over a step that lies
      ahead of the cursor. */
  lemma ForkTakesTooMuch(a: byte, b: byte)
    ensures GuardedRun(Start(), SlidBefore(a, b))
    ensures var s := Run(Start(), SlidBefore(a, b));
      && FreshId(s.tree, 3) && s.position == 0 && |s.steps| == 2
      && Fork(s, 3).steps == s.steps[..1]
  {
    SlidBeforeRun(a, b);
    ForkBefore(Run(Start(), SlidBefore(a, b)), 3);
  }

  /** The random id may be that of the root: then no history of the new branch
      is ever found. */
  lemma RootIdLoops()
    ensures Ranked(Start().tree) && !Terminates(Add(Start().tree, ROOT, ROOT, 0), ROOT)
  {
    StartIsSafe();
    TakenIdLoopsExactly(Start().tree, ROOT, ROOT, 0);
  }
}

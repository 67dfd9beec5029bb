/**
 The editor over its objects: the globals of `branch.js`, whose branch objects
 are shared between the `branches` table, the document's list and the view,
 and the view of `editorview.js`. Each operation is proved to take the step of
 the session state machine that it stands for.
 */
module Editor {
  import opened Splices
  import opened Diffs
  import opened Histories
  import opened Branches
  import opened Sessions

  class BranchObject {
    const id: nat
    const parent: nat
    const pos: nat
    var data: seq<Change>
    var render: Text

    constructor (id: nat, parent: nat, pos: nat)
      ensures this.id == id && Value() == Branch(parent, pos, [], [])
    {
      this.id, this.parent, this.pos := id, parent, pos;
      data, render := [], [];
    }

    ghost function Value(): Branch
      reads this
    {
      Branch(parent, pos, data, render)
    }
  }

  ghost function Ids(docs: seq<BranchObject>): (ids: seq<nat>)
    ensures |ids| == |docs|
    ensures forall i :: 0 <= i < |docs| ==> ids[i] == docs[i].id
  {
    if docs == [] then [] else Ids(docs[..|docs| - 1]) + [docs[|docs| - 1].id]
  }

  /** The globals `branches` and `docs`, and the tree they stand for. */
  class Forest {
    var branches: map<nat, BranchObject>
    var docs: seq<BranchObject>
    ghost var shape: Tree

    /** Branch objects are filed under their own ids, so no two share one. */
    ghost predicate Valid()
      reads this, branches.Values
    {
      && (forall id :: id in branches ==> branches[id].id == id)
      && shape.branches.Keys == branches.Keys
      && (forall id :: id in branches ==> branches[id].Value() == shape.branches[id])
      && shape.order == Ids(docs)
    }

    ghost predicate Holds(b: BranchObject)
      reads this
    {
      b.id in branches && branches[b.id] == b
    }

    constructor ()
      ensures Valid() && shape == Tree(map[], []) && branches == map[]
    {
      branches, docs := map[], [];
      shape := Tree(map[], []);
    }

    /** The constructor `branch`: an object under the same id is replaced. */
    method NewBranch(id: nat, parent: nat, pos: nat) returns (b: BranchObject)
      requires Valid()
      modifies this
      ensures fresh(b) && b.id == id && Valid() && Holds(b)
      ensures branches == old(branches)[id := b]
      ensures shape == Add(old(shape), id, parent, pos)
    {
      b := new BranchObject(id, parent, pos);
      branches := branches[id := b];
      docs := docs + [b];
      assert docs[..|docs| - 1] == old(docs);
      shape := Add(shape, id, parent, pos);
    }

    method GetPrecedingHistory(b: BranchObject) returns (result: seq<Change>)
      requires Valid() && Ranked(shape) && Holds(b)
      ensures result == Preceding(shape, b.id)
      decreases Rank(shape, b.id)
    {
      result := [];
      assert Parent(shape, b.id) == b.parent;
      if b.parent != 0 {
        result := GetPrecedingHistory(branches[b.parent]);
        var data := branches[b.parent].data;
        result := result + SliceFront(data, b.pos - |result|);
      }
    }

    method GetHistory(b: BranchObject) returns (h: History)
      requires Valid() && Ranked(shape) && Holds(b)
      ensures fresh(h) && h.position == 0 && h.render == []
      ensures h.steps == Steps(shape, b.id)
    {
      var past := GetPrecedingHistory(b);
      h := new History(past + b.data);
    }

    /** A history opened at its end. */
    method HistoryAtEnd(b: BranchObject) returns (h: History)
      requires Valid() && Ranked(shape) && Holds(b)
      ensures fresh(h) && h.steps == Steps(shape, b.id)
      ensures h.position == |h.steps| && h.render == []
    {
      h := GetHistory(b);
      h.position := |h.steps|;
    }

    /** A new branch leaving `parent` at `pos`, with its history opened. */
    method Sprout(id: nat, parent: nat, pos: nat) returns (b: BranchObject, h: History)
      requires Valid() && Ranked(shape) && parent in shape.branches && FreshId(shape, id)
      modifies this
      ensures Valid() && Holds(b) && b.id == id && fresh(b)
      ensures shape == Add(old(shape), id, parent, pos) && Ranked(shape)
      ensures fresh(h) && h.steps == Steps(shape, id)
      ensures h.position == |h.steps| && h.render == []
    {
      AddKeepsRanked(shape, id, parent, pos);
      b := NewBranch(id, parent, pos);
      h := HistoryAtEnd(b);
    }

    /** `data.push` and the assignment to `render` on one branch object. */
    method Push(b: BranchObject, change: Change, text: Text)
      requires Valid() && Holds(b)
      modifies b, this`shape
      ensures Valid() && shape == Branches.Push(old(shape), b.id, change, text)
    {
      b.data := b.data + [change];
      b.render := text;
      shape := Branches.Push(shape, b.id, change, text);
    }
  }

  class EditorView {
    const forest: Forest
    var branch: BranchObject
    var history: History
    var last: Text
    var queue: seq<Change>

    ghost predicate Valid()
      reads this, forest, forest.branches.Values
    {
      forest.Valid() && forest.Holds(branch)
    }

    ghost function State(): Session
      reads this, forest`shape, history
    {
      Session(forest.shape, branch.id, history.steps, history.position, history.render, last, queue)
    }

    /** `entereditorview()` on empty globals: a root branch is made. */
    constructor ()
      ensures Valid() && State() == Start()
    {
      var f := new Forest();
      var root := f.NewBranch(ROOT, 0, 0);
      forest, branch := f, root;
      history := new History([]);
      last, queue := [], [];
    }

    method Branchout(id: nat)
      requires Valid() && Rooted(State()) && FreshId(forest.shape, id)
      modifies this, forest
      ensures Valid() && State() == Fork(old(State()), id)
      ensures fresh(branch) && fresh(history)
    {
      var pointer := history.position;
      branch, history := forest.Sprout(id, branch.id, pointer);
    }

    /** The last lines of `oninput`, once the splice is known. */
    method Record(change: Change, text: Text)
      requires Valid() && Rooted(State())
      modifies this`queue, this`last, forest`shape, branch, history
      ensures Valid() && State() == Append(old(State()), change, text)
    {
      queue, last := queue + [change], text;
      history.Extend(change, text);
      forest.Push(branch, change, text);
    }

    method OnInput(text: Text, id: nat)
      requires Valid() && Rooted(State()) && Possible(State(), Input(text, id))
      modifies this, forest, branch, history
      ensures Valid() && State() == Step(old(State()), Input(text, id))
    {
      ghost var s := State();
      if history.position != |history.steps| {
        Branchout(id);
      }
      ghost var f := State();
      InputStep(s, text, id, f);
      var change := ComputeDiff(last, text);
      Record(change, text);
    }

    /** The slider, moved to fraction `p` of the history. */
    method OnSlide(p: real)
      requires Valid() && Rooted(State())
      modifies this`last, history
      ensures Valid()
      ensures State() == Step(old(State()), Slide((p * |old(history.steps)| as real).Floor))
    {
      var go := (p * |history.steps| as real).Floor;
      history.Go(go);
      last := history.render;
    }

    /** `entereditorview` for a branch picked in the graph. */
    method Enter(activebranch: BranchObject)
      requires Valid() && Rooted(State()) && forest.Holds(activebranch)
      modifies this`branch, this`history, this`last
      ensures Valid() && State() == Step(old(State()), Reopen(activebranch.id))
    {
      history := forest.HistoryAtEnd(activebranch);
      history.render := activebranch.render;
      branch, last := activebranch, history.render;
    }
  }
}

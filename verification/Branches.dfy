/**
 The tree of branches: `branch.js`. A branch stores only its own changes; its
 history is rebuilt from the data of its ancestors, which may still grow.
 */
module Branches {
  import opened Splices

  datatype Option<T> = None | Some(value: T)

  /** The fields of a branch object. A root has parent 0. */
  datatype Branch = Branch(parent: nat, pos: nat, data: seq<Change>, render: Text)

  /** `branches` by id, and the ids in order of creation, as `docs` lists them
      for the one document of an editor session. */
  datatype Tree = Tree(branches: map<nat, Branch>, order: seq<nat>)

  /** JavaScript's `data.slice(0, k)`: a negative `k` counts from the end. */
  function SliceFront(data: seq<Change>, k: int): seq<Change> {
    if k >= 0 then data[..Min(k, |data|)]
    else if |data| + k > 0 then data[..|data| + k]
    else []
  }

  /** What is read of a list is its front: `k` elements, all but `-k` for a
      negative `k`, or as many as there are. */
  lemma SliceFrontIs(data: seq<Change>, k: int)
    ensures SliceFront(data, k) <= data
    ensures 0 <= k <= |data| ==> |SliceFront(data, k)| == k
    ensures k > |data| ==> SliceFront(data, k) == data
    ensures -|data| <= k < 0 ==> |SliceFront(data, k)| == |data| + k
    ensures k < -|data| ==> SliceFront(data, k) == []
  {
  }

  lemma SliceStaysAt(data: seq<Change>, k: int)
    requires 0 <= k <= |data|
    ensures forall more :: SliceFront(data + more, k) == SliceFront(data, k)
  {
  }

  /** Reading the front of a growing list always gives the same answer exactly
      when the requested length is neither negative nor beyond the list. */
  lemma SliceStableExactly(data: seq<Change>, k: int)
    ensures (forall more :: SliceFront(data + more, k) == SliceFront(data, k)) <==> 0 <= k <= |data|
  {
    if 0 <= k <= |data| {
      SliceStaysAt(data, k);
    } else {
      var more := seq(if k < 0 then 1 - k else 1, _ => Change(0, [], []));
      assert |SliceFront(data + more, k)| != |SliceFront(data, k)|;
    }
  }

  function IndexOf(order: seq<nat>, id: nat): (i: nat)
    requires id in order
    ensures i < |order| && order[i] == id
    ensures id !in order[..i]
  {
    if order[0] == id then 0 else IndexOf(order[1..], id) + 1
  }

  lemma {:induction false} IndexOfAppend(order: seq<nat>, id: nat, more: seq<nat>)
    requires id in order
    ensures IndexOf(order + more, id) == IndexOf(order, id)
  {
    if order[0] != id {
      assert (order + more)[1..] == order[1..] + more;
      IndexOfAppend(order[1..], id, more);
    }
  }

  lemma IndexOfNew(order: seq<nat>, id: nat)
    requires id !in order
    ensures IndexOf(order + [id], id) == |order|
  {
  }

  predicate RankedAt(t: Tree, id: nat)
    requires id in t.branches
  {
    && id != 0
    && id in t.order
    && var p := t.branches[id].parent;
       p == 0 || (p in t.branches && p in t.order && IndexOf(t.order, p) < IndexOf(t.order, id))
  }

  /** Ids are nonzero and every parent exists and was created earlier. */
  predicate Ranked(t: Tree) {
    forall id {:trigger RankedAt(t, id)} :: id in t.branches ==> RankedAt(t, id)
  }

  function Rank(t: Tree, id: nat): nat
    requires Ranked(t) && id in t.branches
  {
    assert RankedAt(t, id);
    IndexOf(t.order, id)
  }

  function Parent(t: Tree, id: nat): (p: nat)
    requires Ranked(t) && id in t.branches
    ensures p == t.branches[id].parent
    ensures p != 0 ==> p in t.branches && Rank(t, p) < Rank(t, id)
  {
    assert RankedAt(t, id);
    t.branches[id].parent
  }

  /** The steps branch `b` takes from its parent, given the parent's own past. */
  function Inherit(t: Tree, b: Branch, past: seq<Change>): seq<Change>
    requires b.parent in t.branches
  {
    past + SliceFront(t.branches[b.parent].data, b.pos - |past|)
  }

  /** `getprecedinghistory`. */
  function Preceding(t: Tree, id: nat): seq<Change>
    requires Ranked(t) && id in t.branches
    decreases Rank(t, id)
  {
    var p := Parent(t, id);
    if p != 0 then Inherit(t, t.branches[id], Preceding(t, p)) else []
  }

  /** The steps of `gethistory`. */
  function Steps(t: Tree, id: nat): seq<Change>
    requires Ranked(t) && id in t.branches
  {
    Preceding(t, id) + t.branches[id].data
  }

  /** A branch starts within its parent's history and not before its parent. */
  ghost predicate Placed(t: Tree, id: nat)
    requires Ranked(t) && id in t.branches
  {
    var p, pos := Parent(t, id), t.branches[id].pos;
    if p == 0 then pos == 0
    else t.branches[p].pos <= pos <= |Steps(t, p)|
  }

  ghost predicate WellPlaced(t: Tree)
    requires Ranked(t)
  {
    forall id {:trigger Placed(t, id)} :: id in t.branches ==> Placed(t, id)
  }

  lemma {:induction false} PrecedingLength(t: Tree, id: nat)
    requires Ranked(t) && WellPlaced(t) && id in t.branches
    ensures |Preceding(t, id)| == t.branches[id].pos
    decreases Rank(t, id)
  {
    var p := Parent(t, id);
    assert Placed(t, id);
    if p != 0 {
      PrecedingLength(t, p);
    }
  }

  /** A branch begins as the first `pos` steps of its parent. */
  lemma PrecedingIsParentPrefix(t: Tree, id: nat)
    requires Ranked(t) && WellPlaced(t) && id in t.branches && Parent(t, id) != 0
    ensures t.branches[id].pos <= |Steps(t, Parent(t, id))|
    ensures Preceding(t, id) == Steps(t, Parent(t, id))[..t.branches[id].pos]
  {
    assert Placed(t, id);
    PrecedingLength(t, Parent(t, id));
  }

  /** For any child of a branch whose own preceding history is right, the
      rebuilt prefix is the intended one exactly when the child does not start
      before its parent does. */
  lemma PrecedingExactlyFrom(t: Tree, id: nat)
    requires Ranked(t) && id in t.branches && Parent(t, id) != 0
    requires |Preceding(t, Parent(t, id))| == t.branches[Parent(t, id)].pos
    requires t.branches[id].pos <= |Steps(t, Parent(t, id))|
    ensures Preceding(t, id) == Steps(t, Parent(t, id))[..t.branches[id].pos]
      <==> t.branches[Parent(t, id)].pos <= t.branches[id].pos
  {
  }

  // ---------- growth ----------

  /** `new branch`: registers a branch without data. */
  function Add(t: Tree, id: nat, parent: nat, pos: nat): Tree {
    Tree(t.branches[id := Branch(parent, pos, [], [])], t.order + [id])
  }

  function Push(t: Tree, id: nat, c: Change, text: Text): Tree
    requires id in t.branches
  {
    var b := t.branches[id];
    t.(branches := t.branches[id := b.(data := b.data + [c], render := text)])
  }

  /** Every branch of `t` is still there, where it was, with its data kept. */
  ghost predicate Grows(t: Tree, u: Tree) {
    forall id :: id in t.branches ==>
      && id in u.branches
      && u.branches[id].parent == t.branches[id].parent
      && u.branches[id].pos == t.branches[id].pos
      && t.branches[id].data <= u.branches[id].data
  }

  /** However the branches grow, the preceding history of a branch stays. */
  lemma {:induction false} PrecedingIsStable(t: Tree, u: Tree, id: nat)
    requires Ranked(t) && WellPlaced(t) && Ranked(u) && Grows(t, u) && id in t.branches
    ensures Preceding(u, id) == Preceding(t, id)
    decreases Rank(t, id)
  {
    var p := Parent(t, id);
    assert Parent(u, id) == p;
    if p != 0 {
      assert Placed(t, id);
      PrecedingIsStable(t, u, p);
      PrecedingLength(t, p);
      var data, more := t.branches[p].data, u.branches[p].data;
      assert more == data + more[|data|..];
      SliceStaysAt(data, t.branches[id].pos - |Preceding(t, p)|);
    }
  }

  lemma AddKeepsRankedAt(t: Tree, id: nat, parent: nat, pos: nat, x: nat)
    requires Ranked(t) && id !in t.order && id !in t.branches && x in t.branches
    ensures RankedAt(Add(t, id, parent, pos), x)
  {
    assert RankedAt(t, x);
    IndexOfAppend(t.order, x, [id]);
    var p := t.branches[x].parent;
    if p != 0 {
      IndexOfAppend(t.order, p, [id]);
    }
  }

  lemma AddKeepsRanked(t: Tree, id: nat, parent: nat, pos: nat)
    requires Ranked(t) && id !in t.order && id !in t.branches && id != 0
    requires parent == 0 || parent in t.branches
    ensures Ranked(Add(t, id, parent, pos)) && Grows(t, Add(t, id, parent, pos))
  {
    var u := Add(t, id, parent, pos);
    forall x | x in u.branches
      ensures RankedAt(u, x)
    {
      if x == id {
        IndexOfNew(t.order, id);
        if parent != 0 {
          assert RankedAt(t, parent);
          IndexOfAppend(t.order, parent, [id]);
        }
      } else {
        AddKeepsRankedAt(t, id, parent, pos, x);
      }
    }
  }

  lemma PushKeepsRanked(t: Tree, id: nat, c: Change, text: Text)
    requires Ranked(t) && id in t.branches
    ensures Ranked(Push(t, id, c, text)) && Grows(t, Push(t, id, c, text))
  {
    assert forall x :: x in t.branches ==> RankedAt(t, x);
    assert forall x :: x in t.branches ==> RankedAt(Push(t, id, c, text), x);
  }

  lemma GrowthKeepsPlaced(t: Tree, u: Tree, id: nat)
    requires Ranked(t) && WellPlaced(t) && Ranked(u) && Grows(t, u) && id in t.branches
    ensures Placed(u, id)
  {
    assert Placed(t, id);
    var p := Parent(t, id);
    if p != 0 {
      PrecedingIsStable(t, u, p);
    }
  }

  lemma AddKeepsPlaced(t: Tree, id: nat, parent: nat, pos: nat)
    requires Ranked(t) && WellPlaced(t) && id !in t.order && id !in t.branches && id != 0
    requires parent in t.branches && t.branches[parent].pos <= pos <= |Steps(t, parent)|
    ensures Ranked(Add(t, id, parent, pos)) && WellPlaced(Add(t, id, parent, pos))
  {
    AddKeepsRanked(t, id, parent, pos);
    var u := Add(t, id, parent, pos);
    forall x | x in u.branches
      ensures Placed(u, x)
    {
      if x == id {
        assert RankedAt(t, parent);
        PrecedingIsStable(t, u, parent);
      } else {
        GrowthKeepsPlaced(t, u, x);
      }
    }
  }

  lemma PushKeepsPlaced(t: Tree, id: nat, c: Change, text: Text)
    requires Ranked(t) && WellPlaced(t) && id in t.branches
    ensures Ranked(Push(t, id, c, text)) && WellPlaced(Push(t, id, c, text))
  {
    PushKeepsRanked(t, id, c, text);
    var u := Push(t, id, c, text);
    forall x | x in u.branches
      ensures Placed(u, x)
    {
      GrowthKeepsPlaced(t, u, x);
    }
  }

  /** Pushing changes the history of that branch only, by one step at its end. */
  lemma StepsAfterPush(t: Tree, id: nat, c: Change, text: Text, x: nat)
    requires Ranked(t) && WellPlaced(t) && id in t.branches && x in t.branches
    ensures Ranked(Push(t, id, c, text))
    ensures Steps(Push(t, id, c, text), x) == if x == id then Steps(t, x) + [c] else Steps(t, x)
  {
    PushKeepsRanked(t, id, c, text);
    PrecedingIsStable(t, Push(t, id, c, text), x);
  }

  lemma StepsAfterAdd(t: Tree, id: nat, parent: nat, pos: nat, x: nat)
    requires Ranked(t) && WellPlaced(t) && id !in t.order && id !in t.branches && id != 0
    requires parent in t.branches && t.branches[parent].pos <= pos <= |Steps(t, parent)|
    requires x in t.branches || x == id
    ensures Ranked(Add(t, id, parent, pos))
    ensures Steps(Add(t, id, parent, pos), x) == if x == id then Steps(t, parent)[..pos] else Steps(t, x)
  {
    AddKeepsPlaced(t, id, parent, pos);
    var u := Add(t, id, parent, pos);
    AddKeepsRanked(t, id, parent, pos);
    if x == id {
      assert RankedAt(t, parent);
      PrecedingIsParentPrefix(u, id);
      PrecedingIsStable(t, u, parent);
    } else {
      PrecedingIsStable(t, u, x);
    }
  }

  // ---------- ancestors ----------

  predicate AncestorOrSelf(t: Tree, a: nat, id: nat)
    requires Ranked(t) && id in t.branches
    decreases Rank(t, id)
  {
    a == id || (Parent(t, id) != 0 && AncestorOrSelf(t, a, Parent(t, id)))
  }

  /** Where the path from `a` down to `id` leaves `a`. */
  function Split(t: Tree, a: nat, id: nat): nat
    requires Ranked(t) && id in t.branches && AncestorOrSelf(t, a, id)
    decreases Rank(t, id)
  {
    if a == id then |Steps(t, id)|
    else if Parent(t, id) == a then t.branches[id].pos
    else Split(t, a, Parent(t, id))
  }

  lemma {:induction false} SplitBound(t: Tree, a: nat, id: nat)
    requires Ranked(t) && WellPlaced(t) && id in t.branches && AncestorOrSelf(t, a, id) && a != id
    ensures Split(t, a, id) <= t.branches[id].pos
    decreases Rank(t, id)
  {
    if Parent(t, id) != a {
      assert Placed(t, id);
      SplitBound(t, a, Parent(t, id));
    }
  }

  /** A branch agrees with every ancestor up to where their path split. */
  lemma {:induction false} AgreesWithAncestor(t: Tree, a: nat, id: nat)
    requires Ranked(t) && WellPlaced(t) && id in t.branches && AncestorOrSelf(t, a, id)
    ensures a in t.branches
    ensures Split(t, a, id) <= |Steps(t, id)| && Split(t, a, id) <= |Steps(t, a)|
    ensures Steps(t, id)[..Split(t, a, id)] == Steps(t, a)[..Split(t, a, id)]
    decreases Rank(t, id)
  {
    if a != id {
      var p := Parent(t, id);
      var s := Split(t, a, id);
      AgreesWithAncestor(t, a, p);
      PrecedingIsParentPrefix(t, id);
      PrecedingLength(t, id);
      SplitBound(t, a, id);
      assert Steps(t, id)[..s] == Preceding(t, id)[..s] == Steps(t, p)[..s];
    }
  }

  /** ... and it does so forever: splits never move and the shared part stays. */
  lemma {:induction false} AgreesForever(t: Tree, u: Tree, a: nat, id: nat)
    requires Ranked(t) && WellPlaced(t) && Ranked(u) && WellPlaced(u) && Grows(t, u)
    requires id in t.branches && AncestorOrSelf(t, a, id) && a != id
    ensures AncestorOrSelf(u, a, id) && Split(u, a, id) == Split(t, a, id)
    ensures a in t.branches
    ensures Split(t, a, id) <= |Steps(t, id)| && Split(t, a, id) <= |Steps(u, a)|
    ensures Steps(u, a)[..Split(t, a, id)] == Steps(t, id)[..Split(t, a, id)]
    decreases Rank(t, id)
  {
    AgreesWithAncestor(t, a, id);
    SplitSurvives(t, u, a, id);
    PrecedingIsStable(t, u, a);
    var s := Split(t, a, id);
    var before, after := Steps(t, a), Steps(u, a);
    assert before <= after;
    assert after[..s] == before[..s];
  }

  lemma {:induction false} SplitSurvives(t: Tree, u: Tree, a: nat, id: nat)
    requires Ranked(t) && WellPlaced(t) && Ranked(u) && Grows(t, u)
    requires id in t.branches && AncestorOrSelf(t, a, id) && a != id
    ensures AncestorOrSelf(u, a, id) && Split(u, a, id) == Split(t, a, id)
    decreases Rank(t, id)
  {
    if Parent(t, id) != a {
      SplitSurvives(t, u, a, Parent(t, id));
    }
  }

  // ---------- termination ----------

  /** `getprecedinghistory` on any tree, given up after `fuel` nested
      calls; a missing branch gives nothing either. */
  function PrecedingWithin(t: Tree, id: nat, fuel: nat): Option<seq<Change>>
    decreases fuel
  {
    if fuel == 0 || id !in t.branches then None
    else
      var b := t.branches[id];
      if b.parent == 0 then Some([])
      else
        match PrecedingWithin(t, b.parent, fuel - 1)
        case None => None
        case Some(past) => if b.parent in t.branches then Some(Inherit(t, b, past)) else None
  }

  ghost predicate Terminates(t: Tree, id: nat) {
    exists fuel: nat :: PrecedingWithin(t, id, fuel).Some?
  }

  /** On a ranked tree the recursion ends within rank + 1 calls. */
  lemma {:induction false} RankedTerminates(t: Tree, id: nat, fuel: nat)
    requires Ranked(t) && id in t.branches && fuel > Rank(t, id)
    ensures PrecedingWithin(t, id, fuel) == Some(Preceding(t, id))
    decreases fuel
  {
    var p := Parent(t, id);
    if p != 0 {
      RankedTerminates(t, p, fuel - 1);
    }
  }

  lemma {:induction false} CycleNeverEnds(t: Tree, x: nat, parent: nat, pos: nat, id: nat, fuel: nat)
    requires Ranked(t) && parent in t.branches && AncestorOrSelf(t, x, parent)
    requires id in t.branches && AncestorOrSelf(t, x, id)
    ensures PrecedingWithin(Add(t, x, parent, pos), id, fuel).None?
    decreases fuel
  {
    assert RankedAt(t, parent);
    if fuel > 0 {
      if id == x {
        CycleNeverEnds(t, x, parent, pos, parent, fuel - 1);
      } else {
        CycleNeverEnds(t, x, parent, pos, Parent(t, id), fuel - 1);
      }
    }
  }

  lemma SameWithin(t: Tree, u: Tree, id: nat, p: nat, fuel: nat)
    requires id in t.branches && id in u.branches && u.branches[id] == t.branches[id] && fuel > 0
    requires p == t.branches[id].parent
    requires p == 0 || (p in t.branches && p in u.branches && u.branches[p] == t.branches[p])
    requires p == 0 || PrecedingWithin(u, p, fuel - 1) == PrecedingWithin(t, p, fuel - 1)
    ensures PrecedingWithin(u, id, fuel) == PrecedingWithin(t, id, fuel)
  {
  }

  lemma {:induction false} ElsewhereUnchanged(t: Tree, x: nat, parent: nat, pos: nat, id: nat, fuel: nat)
    requires Ranked(t) && id in t.branches && !AncestorOrSelf(t, x, id)
    ensures PrecedingWithin(Add(t, x, parent, pos), id, fuel) == PrecedingWithin(t, id, fuel)
    decreases fuel
  {
    if fuel > 0 {
      var p := Parent(t, id);
      if p != 0 {
        ElsewhereUnchanged(t, x, parent, pos, p, fuel - 1);
      }
      SameWithin(t, Add(t, x, parent, pos), id, p, fuel);
    }
  }

  /** A random id that is already taken makes rebuilding the new branch's
      history loop exactly when it names the branch left or one of its
      ancestors. */
  lemma TakenIdLoopsExactly(t: Tree, x: nat, parent: nat, pos: nat)
    requires Ranked(t) && parent in t.branches && x != 0
    ensures Terminates(Add(t, x, parent, pos), x) <==> !AncestorOrSelf(t, x, parent)
  {
    var u := Add(t, x, parent, pos);
    if AncestorOrSelf(t, x, parent) {
      AncestorExists(t, x, parent);
      forall fuel: nat
        ensures PrecedingWithin(u, x, fuel).None?
      {
        CycleNeverEnds(t, x, parent, pos, x, fuel);
      }
    } else {
      NewcomerRebuilt(t, x, parent, pos, Rank(t, parent) + 2);
    }
  }

  lemma {:induction false} AncestorExists(t: Tree, a: nat, id: nat)
    requires Ranked(t) && id in t.branches && AncestorOrSelf(t, a, id)
    ensures a in t.branches
    decreases Rank(t, id)
  {
    if a != id {
      AncestorExists(t, a, Parent(t, id));
    }
  }

  /** What precedes `id` once `x`, itself or an ancestor of it, has lost its data
      and what precedes `x` is `past`. */
  function Rebased(t: Tree, x: nat, past: seq<Change>, id: nat): seq<Change>
    requires Ranked(t) && id in t.branches && AncestorOrSelf(t, x, id)
    decreases Rank(t, id)
  {
    if id == x then past
    else
      var up := Rebased(t, x, past, Parent(t, id));
      if Parent(t, id) == x then up else Inherit(t, t.branches[id], up)
  }

  /** `getprecedinghistory` of branch `id` ends and is `past`. */
  ghost predicate Rebuilds(t: Tree, id: nat, past: seq<Change>) {
    exists fuel: nat :: PrecedingWithin(t, id, fuel) == Some(past)
  }

  /** What precedes a branch that starts at `pos` in branch `parent`. */
  function PastAt(t: Tree, parent: nat, pos: nat): seq<Change>
    requires Ranked(t) && parent in t.branches
  {
    Inherit(t, Branch(parent, pos, [], []), Preceding(t, parent))
  }

  lemma WithinStep(t: Tree, id: nat, b: Branch, past: seq<Change>, fuel: nat)
    requires id in t.branches && b == t.branches[id] && b.parent != 0 && b.parent in t.branches && fuel > 0
    requires PrecedingWithin(t, b.parent, fuel - 1) == Some(past)
    ensures PrecedingWithin(t, id, fuel) == Some(Inherit(t, b, past))
  {
  }

  lemma ElsewhereRebuilt(t: Tree, x: nat, parent: nat, pos: nat, id: nat, fuel: nat)
    requires Ranked(t) && id in t.branches && !AncestorOrSelf(t, x, id) && fuel > Rank(t, id)
    ensures PrecedingWithin(Add(t, x, parent, pos), id, fuel) == Some(Preceding(t, id))
  {
    ElsewhereUnchanged(t, x, parent, pos, id, fuel);
    RankedTerminates(t, id, fuel);
  }

  lemma NewcomerRebuilt(t: Tree, x: nat, parent: nat, pos: nat, fuel: nat)
    requires Ranked(t) && parent in t.branches && !AncestorOrSelf(t, x, parent) && fuel > Rank(t, parent) + 1
    ensures PrecedingWithin(Add(t, x, parent, pos), x, fuel) == Some(PastAt(t, parent, pos))
  {
    assert RankedAt(t, parent) && parent != x;
    ElsewhereRebuilt(t, x, parent, pos, parent, fuel - 1);
    NewcomerStep(t, x, parent, pos, Preceding(t, parent), fuel);
  }

  lemma NewcomerStep(t: Tree, x: nat, parent: nat, pos: nat, past: seq<Change>, fuel: nat)
    requires parent in t.branches && parent != 0 && parent != x && fuel > 0
    requires PrecedingWithin(Add(t, x, parent, pos), parent, fuel - 1) == Some(past)
    ensures PrecedingWithin(Add(t, x, parent, pos), x, fuel) == Some(Inherit(t, Branch(parent, pos, [], []), past))
  {
    var u := Add(t, x, parent, pos);
    assert u.branches[parent] == t.branches[parent];
    WithinStep(u, x, Branch(parent, pos, [], []), past, fuel);
  }

  lemma {:induction false} DescendantRebased(t: Tree, x: nat, parent: nat, pos: nat, id: nat, fuel: nat)
    requires Ranked(t) && parent in t.branches && !AncestorOrSelf(t, x, parent)
    requires id in t.branches && AncestorOrSelf(t, x, id) && fuel > Rank(t, parent) + 1 + Rank(t, id)
    ensures PrecedingWithin(Add(t, x, parent, pos), id, fuel) == Some(Rebased(t, x, PastAt(t, parent, pos), id))
    decreases Rank(t, id)
  {
    if id == x {
      NewcomerRebuilt(t, x, parent, pos, fuel);
    } else {
      var p := Parent(t, id);
      DescendantRebased(t, x, parent, pos, p, fuel - 1);
      var u, up := Add(t, x, parent, pos), Rebased(t, x, PastAt(t, parent, pos), p);
      assert u.branches[id] == t.branches[id];
      WithinStep(u, id, t.branches[id], up, fuel);
      InheritRebased(t, u, t.branches[id], up);
    }
  }

  lemma InheritRebased(t: Tree, u: Tree, b: Branch, up: seq<Change>)
    requires b.parent in t.branches && b.parent in u.branches
    ensures u.branches[b.parent].data == [] ==> Inherit(u, b, up) == up
    ensures u.branches[b.parent].data == t.branches[b.parent].data ==> Inherit(u, b, up) == Inherit(t, b, up)
  {
  }

  /** A child of `x` loses all it had of it. */
  lemma ChildRebased(t: Tree, x: nat, past: seq<Change>, id: nat)
    requires Ranked(t) && id in t.branches && x != 0 && Parent(t, id) == x
    ensures AncestorOrSelf(t, x, id) && Rebased(t, x, past, id) == past
  {
    assert AncestorOrSelf(t, x, x) && Rebased(t, x, past, x) == past;
  }

  lemma PastAtIsPrefix(t: Tree, parent: nat, pos: nat)
    requires Ranked(t) && WellPlaced(t) && parent in t.branches
    requires t.branches[parent].pos <= pos <= |Steps(t, parent)|
    ensures PastAt(t, parent, pos) == Steps(t, parent)[..pos]
  {
    PrecedingLength(t, parent);
  }

  /** A new branch that takes the id of a branch `x` elsewhere alters the
      histories of `x` and its descendants only: they are rebuilt on the new
      branch. */
  lemma TakenIdElsewhere(t: Tree, x: nat, parent: nat, pos: nat, id: nat)
    requires Ranked(t) && parent in t.branches && !AncestorOrSelf(t, x, parent) && id in t.branches
    ensures Rebuilds(Add(t, x, parent, pos), id,
                     if AncestorOrSelf(t, x, id) then Rebased(t, x, PastAt(t, parent, pos), id) else Preceding(t, id))
  {
    var fuel := Rank(t, parent) + Rank(t, id) + 2;
    if AncestorOrSelf(t, x, id) {
      DescendantRebased(t, x, parent, pos, id, fuel);
    } else {
      ElsewhereRebuilt(t, x, parent, pos, id, fuel);
    }
  }

  /** ... and a child of `x` then begins as the new branch does. */
  lemma TakenIdChild(t: Tree, x: nat, parent: nat, pos: nat, id: nat)
    requires Ranked(t) && WellPlaced(t) && parent in t.branches && !AncestorOrSelf(t, x, parent)
    requires t.branches[parent].pos <= pos <= |Steps(t, parent)|
    requires id in t.branches && x != 0 && Parent(t, id) == x
    ensures Rebuilds(Add(t, x, parent, pos), id, Steps(t, parent)[..pos])
  {
    TakenIdElsewhere(t, x, parent, pos, id);
    ChildRebased(t, x, PastAt(t, parent, pos), id);
    PastAtIsPrefix(t, parent, pos);
  }
}

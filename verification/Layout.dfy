/**
 The force layout of `graph.js` over exact reals: repulsion between all
 vertices, springs along edges, and one step of moving.
 */
module Layout {

  datatype Point = Point(x: real, y: real)

  const REPULSION := 200000.0
  const SPRING_LENGTH := 50.0
  const STEP_SIZE := 0.0005
  const CLOSE := 0.01

  const ORIGIN := Point(0.0, 0.0)

  function Plus(p: Point, q: Point): Point {
    Point(p.x + q.x, p.y + q.y)
  }

  function Minus(p: Point, q: Point): Point {
    Point(p.x - q.x, p.y - q.y)
  }

  function Square(p: Point): real {
    p.x * p.x + p.y * p.y
  }

  /** The vertex ids in the order JavaScript enumerates such keys, which is
      ascending, where the vertices are and which ids each one's edge table
      holds. */
  datatype State = State(order: seq<nat>, at: map<nat, Point>, links: map<nat, set<nat>>)

  ghost predicate Ascending(order: seq<nat>) {
    forall k, l :: 0 <= k < l < |order| ==> order[k] < order[l]
  }

  /** Where a new key enters the enumeration. */
  function Insert(order: seq<nat>, id: nat): seq<nat> {
    if order == [] || id < order[0] then [id] + order
    else if id == order[0] then order
    else [order[0]] + Insert(order[1..], id)
  }

  lemma {:induction false} InsertAdds(order: seq<nat>, id: nat, x: nat)
    ensures x in Insert(order, id) <==> x == id || x in order
  {
    if order != [] && id > order[0] {
      InsertAdds(order[1..], id, x);
    }
  }

  lemma {:induction false} InsertKeepsAscending(order: seq<nat>, id: nat)
    requires Ascending(order)
    ensures Ascending(Insert(order, id))
  {
    if order != [] && id > order[0] {
      var more := Insert(order[1..], id);
      InsertKeepsAscending(order[1..], id);
      forall k | 0 <= k < |more|
        ensures order[0] < more[k]
      {
        InsertAdds(order[1..], id, more[k]);
      }
    }
  }

  predicate Listed(s: State, id: nat) {
    id in s.order
  }

  ghost predicate WellFormed(s: State) {
    && Ascending(s.order)
    && (forall k :: 0 <= k < |s.order| ==> s.order[k] in s.at)
    && (forall id {:trigger Listed(s, id)} :: id in s.at ==> Listed(s, id))
    && s.at.Keys == s.links.Keys
  }

  lemma SameIds(s: State, u: State)
    requires WellFormed(s) && u.order == s.order && u.at.Keys == s.at.Keys && u.links.Keys == s.links.Keys
    ensures WellFormed(u)
  {
    forall id | id in u.at
      ensures Listed(u, id)
    {
      assert Listed(s, id);
    }
  }

  /** Values for the random displacement of a pair that is too close. */
  type Jitter = j: (nat, nat) -> Point | forall a, b :: Square(j(a, b)) >= CLOSE
    witness (a: nat, b: nat) => Point(0.1, 0.1)

  function Delta(s: State, i: nat, j: nat, jitter: Jitter): (d: Point)
    requires i in s.at && j in s.at
    ensures Square(d) >= CLOSE
  {
    var d := Minus(s.at[j], s.at[i]);
    if Square(d) < CLOSE then jitter(i, j) else d
  }

  function Push(d: Point): Point
    requires Square(d) >= CLOSE
  {
    Point((REPULSION / Square(d)) * d.x, (REPULSION / Square(d)) * d.y)
  }

  /** `distance` stands for the square root. */
  function Pull(d: Point, distance: real -> real): Point {
    Point((distance(Square(d)) - SPRING_LENGTH) * d.x, (distance(Square(d)) - SPRING_LENGTH) * d.y)
  }

  /** The force on vertex `i` from vertex `j`. */
  function PairForce(s: State, i: nat, j: nat, distance: real -> real, jitter: Jitter): Point {
    if i == j || i !in s.at || j !in s.at || i !in s.links then ORIGIN
    else
      var d := Delta(s, i, j, jitter);
      var f := Minus(ORIGIN, Push(d));
      if j in s.links[i] then Plus(f, Pull(d, distance)) else f
  }

  /** The force on the first vertex from the second. */
  type Forces = (nat, nat) -> Point

  function AllForces(s: State, distance: real -> real, jitter: Jitter): Forces {
    (i: nat, j: nat) => PairForce(s, i, j, distance, jitter)
  }

  /** The force on vertex `i` from the first `n` of `order`. */
  function Row(f: Forces, order: seq<nat>, i: nat, n: nat): Point
    requires n <= |order|
  {
    if n == 0 then ORIGIN else Plus(Row(f, order, i, n - 1), f(i, order[n - 1]))
  }

  function Moves(p: Point, force: Point): Point {
    Point(p.x + force.x * STEP_SIZE, p.y + force.y * STEP_SIZE)
  }

  function Displaced(s: State, f: Forces): (r: State)
    requires WellFormed(s)
    ensures WellFormed(r)
  {
    var r := s.(at := map id | id in s.at :: Moves(s.at[id], Row(f, s.order, id, |s.order|)));
    SameIds(s, r);
    r
  }

  function Moved(s: State, distance: real -> real, jitter: Jitter): (r: State)
    requires WellFormed(s)
    ensures WellFormed(r)
  {
    Displaced(s, AllForces(s, distance, jitter))
  }

  // ---------- conservation ----------

  predicate Linked(s: State, a: nat, b: nat) {
    a in s.links && b in s.links[a]
  }

  ghost predicate Symmetric(s: State) {
    forall a, b {:trigger Linked(s, a, b)} :: Linked(s, a, b) && b in s.links ==> Linked(s, b, a)
  }

  /** No two vertices are so close that they are displaced at random. */
  ghost predicate Apart(s: State)
    requires WellFormed(s)
  {
    forall a, b :: a in s.at && b in s.at && a != b ==> Square(Minus(s.at[b], s.at[a])) >= CLOSE
  }

  lemma SquareOpposite(d: Point)
    ensures Square(Point(-d.x, -d.y)) == Square(d)
  {
  }

  lemma PushCancels(d: Point)
    requires Square(d) >= CLOSE && Square(Point(-d.x, -d.y)) == Square(d)
    ensures Plus(Push(d), Push(Point(-d.x, -d.y))) == ORIGIN
  {
  }

  lemma PullCancels(d: Point, distance: real -> real)
    requires Square(Point(-d.x, -d.y)) == Square(d)
    ensures Plus(Pull(d, distance), Pull(Point(-d.x, -d.y), distance)) == ORIGIN
  {
  }

  lemma SumsCancel(p: Point, q: Point, r: Point, t: Point)
    requires Plus(p, q) == ORIGIN && Plus(r, t) == ORIGIN
    ensures Plus(Minus(ORIGIN, p), Minus(ORIGIN, q)) == ORIGIN
    ensures Plus(Plus(Minus(ORIGIN, p), r), Plus(Minus(ORIGIN, q), t)) == ORIGIN
  {
  }

  /** Action is minus reaction. */
  lemma PairsCancel(s: State, i: nat, j: nat, distance: real -> real, jitter: Jitter)
    requires WellFormed(s) && Symmetric(s) && Apart(s) && i in s.at && j in s.at
    ensures Plus(PairForce(s, i, j, distance, jitter), PairForce(s, j, i, distance, jitter)) == ORIGIN
  {
    if i != j {
      var d := Minus(s.at[j], s.at[i]);
      var e := Point(-d.x, -d.y);
      assert Minus(s.at[i], s.at[j]) == e;
      SquareOpposite(d);
      assert Delta(s, i, j, jitter) == d && Delta(s, j, i, jitter) == e;
      assert Linked(s, i, j) == Linked(s, j, i);
      PushCancels(d);
      PullCancels(d, distance);
      SumsCancel(Push(d), Push(e), Pull(d, distance), Pull(e, distance));
    }
  }

  function Dot(p: Point, q: Point): real {
    p.x * q.x + p.y * q.y
  }

  /** By how much a spring is longer than at rest, along itself. */
  function Stretch(d: Point, distance: real -> real): real {
    (distance(Square(d)) - SPRING_LENGTH) * Square(d)
  }

  lemma PushAlong(d: Point)
    requires Square(d) >= CLOSE
    ensures Dot(Push(d), d) == REPULSION
  {
    var c := REPULSION / Square(d);
    assert Dot(Push(d), d) == c * Square(d);
  }

  lemma PullAlong(d: Point, distance: real -> real)
    ensures Dot(Pull(d, distance), d) == Stretch(d, distance)
  {
  }

  /** The force between two vertices, taken apart. */
  lemma PairForceParts(s: State, i: nat, j: nat, distance: real -> real, jitter: Jitter, d: Point)
    requires WellFormed(s) && i in s.at && j in s.at && i != j && d == Delta(s, i, j, jitter)
    ensures PairForce(s, i, j, distance, jitter) ==
      Plus(Minus(ORIGIN, Push(d)), if Linked(s, i, j) then Pull(d, distance) else ORIGIN)
  {
  }

  lemma DotSum(p: Point, q: Point, d: Point, along: real, back: real)
    requires Dot(p, d) == along && Dot(q, d) == back
    ensures Dot(Plus(Minus(ORIGIN, p), q), d) == back - along
  {
    assert (0.0 - p.x + q.x) * d.x == q.x * d.x - p.x * d.x;
    assert (0.0 - p.y + q.y) * d.y == q.y * d.y - p.y * d.y;
  }

  lemma SpringAlong(linked: bool, d: Point, distance: real -> real)
    ensures Dot(if linked then Pull(d, distance) else ORIGIN, d) == if linked then Stretch(d, distance) else 0.0
  {
    PullAlong(d, distance);
  }

  /** Nothing exactly where the two are parallel. */
  function Cross(p: Point, q: Point): real {
    p.x * q.y - p.y * q.x
  }

  lemma ScaledIsParallel(c: real, d: Point)
    ensures Cross(Point(c * d.x, c * d.y), d) == 0.0
  {
    assert (c * d.x) * d.y == (c * d.y) * d.x;
  }

  lemma SumIsParallel(p: Point, q: Point, d: Point)
    requires Cross(p, d) == 0.0 && Cross(q, d) == 0.0
    ensures Cross(Plus(Minus(ORIGIN, p), q), d) == 0.0
  {
    assert (0.0 - p.x + q.x) * d.y == q.x * d.y - p.x * d.y;
    assert (0.0 - p.y + q.y) * d.x == q.y * d.x - p.y * d.x;
  }

  lemma PartsAreParallel(linked: bool, d: Point, distance: real -> real)
    requires Square(d) >= CLOSE
    ensures Cross(Push(d), d) == 0.0
    ensures Cross(if linked then Pull(d, distance) else ORIGIN, d) == 0.0
  {
    ScaledIsParallel(REPULSION / Square(d), d);
    ScaledIsParallel(distance(Square(d)) - SPRING_LENGTH, d);
  }

  /** Where vertex `j` is taken to be from vertex `i`: too near, somewhere at
      random. */
  function Sight(s: State, i: nat, j: nat, jitter: Jitter): Point
    requires i in s.at && j in s.at
  {
    if Square(Minus(s.at[j], s.at[i])) >= 0.01 then Minus(s.at[j], s.at[i]) else jitter(i, j)
  }

  /** The force of one vertex on another has no part across the line between them;
      along it, it is the constant repulsion plus, for an edge, a pull by as much
      as it is longer than at rest. */
  lemma ForceAlongLine(s: State, i: nat, j: nat, distance: real -> real, jitter: Jitter)
    requires WellFormed(s) && i in s.at && j in s.at && i != j
    ensures var d := Sight(s, i, j, jitter);
      && Cross(PairForce(s, i, j, distance, jitter), d) == 0.0
      && Dot(PairForce(s, i, j, distance, jitter), d) == -REPULSION +
         if Linked(s, i, j) then Stretch(d, distance) else 0.0
  {
    var d := Delta(s, i, j, jitter);
    assert Sight(s, i, j, jitter) == d;
    var linked := Linked(s, i, j);
    var pull := if linked then Pull(d, distance) else ORIGIN;
    PairForceParts(s, i, j, distance, jitter, d);
    PushAlong(d);
    SpringAlong(linked, d, distance);
    DotSum(Push(d), pull, d, REPULSION, if linked then Stretch(d, distance) else 0.0);
    PartsAreParallel(linked, d, distance);
    SumIsParallel(Push(d), pull, d);
  }

  ghost predicate Reciprocal(f: Forces, order: seq<nat>) {
    forall k, l :: 0 <= k < |order| && 0 <= l < |order| ==> Plus(f(order[k], order[l]), f(order[l], order[k])) == ORIGIN
  }

  /** The forces on the first `n` vertices from the first `m`. */
  function Block(f: Forces, order: seq<nat>, n: nat, m: nat): Point
    requires n <= |order| && m <= |order|
  {
    if n == 0 then ORIGIN else Plus(Block(f, order, n - 1, m), Row(f, order, order[n - 1], m))
  }

  /** One more column and the row it mirrors add up to nothing. */
  lemma {:induction false} ColumnCancelsRow(f: Forces, order: seq<nat>, n: nat, m: nat)
    requires Reciprocal(f, order) && n <= |order| && m < |order|
    ensures Plus(Block(f, order, n, m + 1), Row(f, order, order[m], n)) == Block(f, order, n, m)
    decreases n
  {
    if n > 0 {
      ColumnCancelsRow(f, order, n - 1, m);
    }
  }

  /** The double sum of reciprocal forces is nothing. */
  lemma {:induction false} ForcesCancel(f: Forces, order: seq<nat>, n: nat)
    requires Reciprocal(f, order) && n <= |order|
    ensures Block(f, order, n, n) == ORIGIN
    decreases n
  {
    if n > 0 {
      ForcesCancel(f, order, n - 1);
      ColumnCancelsRow(f, order, n - 1, n - 1);
    }
  }

  /** The sum of the positions of the first `n` vertices. */
  function Sum(s: State, n: nat): Point
    requires WellFormed(s) && n <= |s.order|
  {
    if n == 0 then ORIGIN else Plus(Sum(s, n - 1), s.at[s.order[n - 1]])
  }

  lemma {:induction false} SumDisplaced(s: State, f: Forces, n: nat)
    requires WellFormed(s) && n <= |s.order|
    ensures Sum(Displaced(s, f), n) == Moves(Sum(s, n), Block(f, s.order, n, |s.order|))
    decreases n
  {
    if n > 0 {
      SumDisplaced(s, f, n - 1);
      assert s.order[n - 1] in s.at;
    }
  }

  lemma ForcesReciprocal(s: State, distance: real -> real, jitter: Jitter)
    requires WellFormed(s) && Symmetric(s) && Apart(s)
    ensures Reciprocal(AllForces(s, distance, jitter), s.order)
  {
    forall k, l | 0 <= k < |s.order| && 0 <= l < |s.order|
      ensures Plus(PairForce(s, s.order[k], s.order[l], distance, jitter),
                   PairForce(s, s.order[l], s.order[k], distance, jitter)) == ORIGIN
    {
      PairsCancel(s, s.order[k], s.order[l], distance, jitter);
    }
  }

  /** Reciprocal forces conserve the centroid, whatever they are. */
  lemma ReciprocalConserves(s: State, f: Forces)
    requires WellFormed(s) && Reciprocal(f, s.order)
    ensures Sum(Displaced(s, f), |s.order|) == Sum(s, |s.order|)
  {
    ForcesCancel(f, s.order, |s.order|);
    SumDisplaced(s, f, |s.order|);
  }

  /** One update of the layout conserves the centroid. */
  lemma CentroidConserved(s: State, distance: real -> real, jitter: Jitter)
    requires WellFormed(s) && Symmetric(s) && Apart(s)
    ensures Sum(Moved(s, distance, jitter), |s.order|) == Sum(s, |s.order|)
  {
    ForcesReciprocal(s, distance, jitter);
    ReciprocalConserves(s, AllForces(s, distance, jitter));
  }

  lemma MovedKeepsSymmetric(s: State, distance: real -> real, jitter: Jitter)
    requires WellFormed(s) && Symmetric(s)
    ensures Symmetric(Moved(s, distance, jitter)) && Moved(s, distance, jitter).order == s.order
  {
    var u := Moved(s, distance, jitter);
    forall a, b | Linked(u, a, b) && b in u.links
      ensures Linked(u, b, a)
    {
      assert Linked(s, a, b) && Linked(s, b, a);
    }
  }

  // ---------- the direction of a step ----------

  function TotalForce(s: State, i: nat, distance: real -> real, jitter: Jitter): Point {
    Row(AllForces(s, distance, jitter), s.order, i, |s.order|)
  }

  lemma SquareSign(x: real)
    ensures x * x >= 0.0
    ensures x != 0.0 ==> x * x > 0.0
  {
    if x < 0.0 {
      assert x * x == -x * -x > 0.0;
    }
  }

  lemma ScaledPointsAlong(c: real, f: Point)
    requires c > 0.0 && f != ORIGIN
    ensures Dot(Point(c * f.x, c * f.y), f) > 0.0
  {
    SquareSign(f.x);
    SquareSign(f.y);
    var square := f.x * f.x + f.y * f.y;
    assert c * square > 0.0;
    assert c * f.x * f.x + c * f.y * f.y == c * square;
  }

  lemma StepAlong(p: Point, f: Point)
    ensures f == ORIGIN ==> Moves(p, f) == p
    ensures f != ORIGIN ==> Dot(Minus(Moves(p, f), p), f) > 0.0
    ensures Cross(Minus(Moves(p, f), p), f) == 0.0
  {
    var c := STEP_SIZE;
    assert Minus(Moves(p, f), p) == Point(c * f.x, c * f.y);
    ScaledIsParallel(c, f);
    if f != ORIGIN {
      ScaledPointsAlong(c, f);
    }
  }

  /** Every vertex goes straight where the force on it points, and stays where it
      is only without force; vertices and edges stay the same. */
  lemma MovesAlongForce(s: State, i: nat, distance: real -> real, jitter: Jitter)
    requires WellFormed(s) && i in s.at
    ensures var u := Moved(s, distance, jitter);
      u.at.Keys == s.at.Keys && u.order == s.order && u.links == s.links
    ensures var p, u, f := s.at[i], Moved(s, distance, jitter).at[i], TotalForce(s, i, distance, jitter);
      Cross(Minus(u, p), f) == 0.0 && if f == ORIGIN then u == p else Dot(Minus(u, p), f) > 0.0
  {
    StepAlong(s.at[i], TotalForce(s, i, distance, jitter));
  }

  /** Two vertices with or without an edge between them. */
  function Pair(p: Point, q: Point, linked: bool): State {
    State([0, 1], map[0 := p, 1 := q], map[0 := if linked then {1} else {}, 1 := if linked then {0} else {}])
  }

  lemma PairIsWellFormed(p: Point, q: Point, linked: bool)
    ensures WellFormed(Pair(p, q, linked))
  {
    var s := Pair(p, q, linked);
    assert s.order[0] == 0 && s.order[1] == 1;
    assert Listed(s, 0) && Listed(s, 1);
  }

  lemma RowOfTwo(f: Forces)
    requires f(0, 0) == ORIGIN && f(1, 1) == ORIGIN
    ensures Row(f, [0, 1], 0, 2) == f(0, 1) && Row(f, [0, 1], 1, 2) == f(1, 0)
  {
    assert Row(f, [0, 1], 0, 1) == Plus(Row(f, [0, 1], 0, 0), f(0, 0)) == ORIGIN;
    assert Row(f, [0, 1], 1, 1) == Plus(Row(f, [0, 1], 1, 0), f(1, 0)) == f(1, 0);
  }

  lemma PairMoves(p: Point, q: Point, linked: bool, distance: real -> real, jitter: Jitter)
    ensures WellFormed(Pair(p, q, linked))
    ensures var s := Pair(p, q, linked); var u := Moved(s, distance, jitter);
      && u.at.Keys == {0, 1} && u.at[0] == Moves(p, PairForce(s, 0, 1, distance, jitter))
      && u.at[1] == Moves(q, PairForce(s, 1, 0, distance, jitter))
  {
    PairIsWellFormed(p, q, linked);
    RowOfTwo(AllForces(Pair(p, q, linked), distance, jitter));
  }

  lemma StretchedSquare(d: Point, c: real)
    requires c > 0.0 && Square(d) > 0.0
    ensures Square(Point(d.x + c * d.x, d.y + c * d.y)) > Square(d)
  {
    assert Square(Point(d.x + c * d.x, d.y + c * d.y)) == (1.0 + c) * (1.0 + c) * Square(d);
    assert (1.0 + c) * (1.0 + c) > 1.0;
  }

  lemma PushedApart(p: Point, q: Point, k: real, u: Point, v: Point)
    requires k > 0.0 && Square(Minus(q, p)) > 0.0
    requires var d := Minus(q, p);
      u == Moves(p, Point(-(k * d.x), -(k * d.y))) && v == Moves(q, Point(k * d.x, k * d.y))
    ensures Square(Minus(v, u)) > Square(Minus(q, p))
  {
    var d, c := Minus(q, p), 2.0 * STEP_SIZE * k;
    StretchedSquare(d, c);
    assert 2.0 * (k * d.x * STEP_SIZE) == c * d.x && 2.0 * (k * d.y * STEP_SIZE) == c * d.y;
  }

  lemma PushPair(p: Point, q: Point, distance: real -> real, jitter: Jitter) returns (k: real)
    requires Square(Minus(q, p)) >= CLOSE
    ensures k > 0.0
    ensures var s, d := Pair(p, q, false), Minus(q, p);
      && PairForce(s, 0, 1, distance, jitter) == Point(-(k * d.x), -(k * d.y))
      && PairForce(s, 1, 0, distance, jitter) == Point(k * d.x, k * d.y)
  {
    var s, d := Pair(p, q, false), Minus(q, p);
    var e := Point(-d.x, -d.y);
    k := REPULSION / Square(d);
    PairIsWellFormed(p, q, false);
    SquareOpposite(d);
    assert Minus(p, q) == e && Delta(s, 1, 0, jitter) == e && !Linked(s, 1, 0) && !Linked(s, 0, 1);
    PairForceParts(s, 0, 1, distance, jitter, d);
    PairForceParts(s, 1, 0, distance, jitter, e);
    PushCancels(d);
  }

  /** Two vertices without an edge move apart. */
  lemma RepelledMoveApart(p: Point, q: Point, distance: real -> real, jitter: Jitter)
    requires Square(Minus(q, p)) >= CLOSE
    ensures WellFormed(Pair(p, q, false))
    ensures var u := Moved(Pair(p, q, false), distance, jitter);
      0 in u.at && 1 in u.at && Square(Minus(u.at[1], u.at[0])) > Square(Minus(q, p))
  {
    PairMoves(p, q, false, distance, jitter);
    var k := PushPair(p, q, distance, jitter);
    var u := Moved(Pair(p, q, false), distance, jitter);
    PushedApart(p, q, k, u.at[0], u.at[1]);
  }

  lemma ForceInNumbers(linked: bool, distance: real -> real, jitter: Jitter)
    requires distance(10000.0) == 100.0
    ensures var s, f := Pair(ORIGIN, Point(100.0, 0.0), linked), if linked then 3000.0 else -2000.0;
      && PairForce(s, 0, 1, distance, jitter) == Point(f, 0.0)
      && PairForce(s, 1, 0, distance, jitter) == Point(-f, 0.0)
  {
    assert Square(Point(100.0, 0.0)) == 10000.0 && Square(Point(-100.0, 0.0)) == 10000.0;
  }

  /** By how much, at a distance of 100 and with the root of 10000 given: one to
      either side without an edge, one and a half towards each other with one. */
  lemma StepInNumbers(linked: bool, distance: real -> real, jitter: Jitter)
    requires distance(10000.0) == 100.0
    ensures WellFormed(Pair(ORIGIN, Point(100.0, 0.0), linked))
    ensures Moved(Pair(ORIGIN, Point(100.0, 0.0), linked), distance, jitter).at ==
      if linked then map[0 := Point(1.5, 0.0), 1 := Point(98.5, 0.0)]
      else map[0 := Point(-1.0, 0.0), 1 := Point(101.0, 0.0)]
  {
    PairMoves(ORIGIN, Point(100.0, 0.0), linked, distance, jitter);
    ForceInNumbers(linked, distance, jitter);
  }

  ghost predicate StaysApart(s: State, n: nat, distance: real -> real, jitter: Jitter)
    requires WellFormed(s)
    decreases n
  {
    n == 0 || (Apart(s) && StaysApart(Moved(s, distance, jitter), n - 1, distance, jitter))
  }

  function Frames(s: State, n: nat, distance: real -> real, jitter: Jitter): (r: State)
    requires WellFormed(s)
    ensures WellFormed(r) && r.order == s.order
    decreases n
  {
    if n == 0 then s else Frames(Moved(s, distance, jitter), n - 1, distance, jitter)
  }

  /** ... and so does every run in which the vertices stay apart. */
  lemma {:induction false} RunConservesCentroid(s: State, n: nat, distance: real -> real, jitter: Jitter)
    requires WellFormed(s) && Symmetric(s) && StaysApart(s, n, distance, jitter)
    ensures Sum(Frames(s, n, distance, jitter), |s.order|) == Sum(s, |s.order|)
    decreases n
  {
    if n > 0 {
      CentroidConserved(s, distance, jitter);
      MovedKeepsSymmetric(s, distance, jitter);
      RunConservesCentroid(Moved(s, distance, jitter), n - 1, distance, jitter);
    }
  }

  // ---------- building the graph ----------

  function AddVertex(s: State, id: nat, p: Point): State {
    State(Insert(s.order, id), s.at[id := p], s.links[id := {}])
  }

  /** `vertices[a].edges[b] = ...` */
  function AddHalf(s: State, a: nat, b: nat): State
    requires a in s.links
  {
    s.(links := s.links[a := s.links[a] + {b}])
  }

  function AddEdge(s: State, a: nat, b: nat): State
    requires a in s.links && b in s.links
  {
    AddHalf(AddHalf(s, a, b), b, a)
  }

  lemma EdgeKeepsIds(s: State, a: nat, b: nat)
    requires WellFormed(s) && a in s.links && b in s.links
    ensures WellFormed(AddEdge(s, a, b))
  {
    SameIds(s, AddEdge(s, a, b));
  }

  lemma EdgeKeepsSymmetric(s: State, a: nat, b: nat)
    requires WellFormed(s) && Symmetric(s) && a in s.links && b in s.links
    ensures WellFormed(AddEdge(s, a, b)) && Symmetric(AddEdge(s, a, b))
  {
    var u := AddEdge(s, a, b);
    EdgeKeepsIds(s, a, b);
    forall x, y | Linked(u, x, y) && y in u.links
      ensures Linked(u, y, x)
    {
      assert Linked(s, x, y) ==> Linked(s, y, x);
    }
  }

  lemma VertexKeepsWellFormed(s: State, id: nat, p: Point)
    requires WellFormed(s)
    ensures WellFormed(AddVertex(s, id, p))
  {
    var u := AddVertex(s, id, p);
    InsertKeepsAscending(s.order, id);
    forall k | 0 <= k < |u.order|
      ensures u.order[k] in u.at
    {
      InsertAdds(s.order, id, u.order[k]);
    }
    forall x | x in u.at
      ensures Listed(u, x)
    {
      InsertAdds(s.order, id, x);
      assert x == id || Listed(s, x);
    }
  }

  ghost predicate Unlinked(s: State, id: nat) {
    forall a {:trigger Linked(s, a, id)} :: a != id ==> !Linked(s, a, id)
  }

  /** Only a vertex to which no other is linked can be made (again) without
      leaving edges that pull on one end alone. */
  lemma VertexKeepsSymmetricExactly(s: State, id: nat, p: Point)
    requires WellFormed(s) && Symmetric(s)
    ensures Symmetric(AddVertex(s, id, p)) <==> Unlinked(s, id)
  {
    var u := AddVertex(s, id, p);
    if Symmetric(u) {
      forall a | a != id
        ensures !Linked(s, a, id)
      {
        assert Linked(u, a, id) == Linked(s, a, id) && !Linked(u, id, a);
      }
    }
    if Unlinked(s, id) {
      forall x, y | Linked(u, x, y) && y in u.links
        ensures Linked(u, y, x)
      {
        assert x != id && Linked(s, x, y);
        assert Linked(s, y, x) || y == id;
      }
    }
  }

  function WithVertices(s: State, vs: seq<(nat, Point)>): State
    decreases |vs|
  {
    if vs == [] then s else WithVertices(AddVertex(s, vs[0].0, vs[0].1), vs[1..])
  }

  /** Edges between known vertices; `createEdge` throws on others. */
  function WithEdges(s: State, es: seq<(nat, nat)>): State
    decreases |es|
  {
    if es == [] then s
    else if es[0].0 in s.links && es[0].1 in s.links then WithEdges(AddEdge(s, es[0].0, es[0].1), es[1..])
    else s
  }

  lemma {:induction false} VerticesAlone(s: State, vs: seq<(nat, Point)>)
    requires WellFormed(s) && forall id :: id in s.links ==> s.links[id] == {}
    ensures WellFormed(WithVertices(s, vs))
    ensures forall id :: id in WithVertices(s, vs).links ==> WithVertices(s, vs).links[id] == {}
    decreases |vs|
  {
    if vs != [] {
      VertexKeepsWellFormed(s, vs[0].0, vs[0].1);
      VerticesAlone(AddVertex(s, vs[0].0, vs[0].1), vs[1..]);
    }
  }

  lemma {:induction false} EdgesKeepSymmetric(s: State, es: seq<(nat, nat)>)
    requires WellFormed(s) && Symmetric(s)
    ensures WellFormed(WithEdges(s, es)) && Symmetric(WithEdges(s, es))
    decreases |es|
  {
    if es != [] && es[0].0 in s.links && es[0].1 in s.links {
      EdgeKeepsSymmetric(s, es[0].0, es[0].1);
      EdgesKeepSymmetric(AddEdge(s, es[0].0, es[0].1), es[1..]);
    }
  }

  /** In every graph made of vertices first and edges after, as the graph view
      makes it, edges pull on both ends. */
  lemma BuiltGraphIsSymmetric(vs: seq<(nat, Point)>, es: seq<(nat, nat)>)
    ensures var s := WithEdges(WithVertices(State([], map[], map[]), vs), es);
      WellFormed(s) && Symmetric(s)
  {
    var s := State([], map[], map[]);
    VerticesAlone(s, vs);
    var v := WithVertices(s, vs);
    assert forall a, b :: !Linked(v, a, b);
    EdgesKeepSymmetric(v, es);
  }

  /** An edge, without its colour and size. */
  datatype Line = Line(a: Vertex, b: Vertex)

  class Vertex {
    ghost const id: nat
    var x: real
    var y: real
    var edges: map<nat, Line>

    constructor (id: nat, p: Point)
      ensures At() == p && edges == map[] && this.id == id
    {
      this.id := id;
      x, y, edges := p.x, p.y, map[];
    }

    function At(): Point
      reads this
    {
      Point(x, y)
    }

    method Shift(forcex: real, forcey: real)
      modifies this`x, this`y
      ensures At() == Moves(old(At()), Point(forcex, forcey))
    {
      x := x + forcex * STEP_SIZE;
      y := y + forcey * STEP_SIZE;
    }
  }

  class Graph {
    var vertices: map<nat, Vertex>
    var edges: seq<Line>
    var order: seq<nat>
    var forcex: map<nat, real>
    var forcey: map<nat, real>
    ghost var state: State

    /** Vertex `i` is where `s` has it, with the same edges. */
    ghost predicate Placed(i: nat, s: State)
      reads this`vertices, vertices.Values
    {
      && i in vertices && i in s.at && i in s.links
      && vertices[i].id == i
      && vertices[i].At() == s.at[i] && vertices[i].edges.Keys == s.links[i]
    }

    ghost predicate Consistent()
      reads this`vertices, this`order, this`state, vertices.Values
    {
      && WellFormed(state) && state.order == order
      && vertices.Keys == state.at.Keys
      && forall id {:trigger Placed(id, state)} :: id in vertices ==> Placed(id, state)
    }

    constructor ()
      ensures Consistent() && state == State([], map[], map[]) && edges == []
    {
      vertices, edges, order, forcex, forcey := map[], [], [], map[], map[];
      state := State([], map[], map[]);
    }

    /** `p` is the random first position. */
    method CreateVertex(id: nat, p: Point)
      requires Consistent()
      modifies this`vertices, this`order, this`state
      ensures Consistent() && state == AddVertex(old(state), id, p)
      ensures id in vertices && fresh(vertices[id]) && vertices == old(vertices)[id := vertices[id]]
      ensures vertices[id].At() == p && vertices[id].edges == map[]
    {
      VertexKeepsWellFormed(state, id, p);
      assert forall x :: x in vertices ==> Placed(x, state);
      var v := new Vertex(id, p);
      vertices := vertices[id := v];
      order := Insert(order, id);
      state := AddVertex(state, id, p);
      assert forall x :: x in vertices ==> Placed(x, state);
    }

    /** One line, listed once and entered in the edge tables of both ends. */
    method CreateEdge(a: nat, b: nat)
      requires Consistent() && a in vertices && b in vertices
      modifies this`edges, this`state, vertices[a], vertices[b]
      ensures Consistent() && state == AddEdge(old(state), a, b)
      ensures var line := Line(vertices[a], vertices[b]);
        && edges == old(edges) + [line]
        && vertices[a].edges == old(vertices[a].edges)[b := line]
        && vertices[b].edges == old(vertices[b].edges)[a := line]
    {
      var line := Line(vertices[a], vertices[b]);
      assert Placed(a, state) && Placed(b, state);
      LinkTo(a, b, line);
      LinkTo(b, a, line);
      edges := edges + [line];
    }

    method LinkTo(a: nat, b: nat, line: Line)
      requires Consistent() && a in vertices
      modifies this`state, vertices[a]
      ensures Consistent() && state == AddHalf(old(state), a, b)
      ensures vertices[a].edges == old(vertices[a].edges)[b := line]
    {
      ghost var was, now := state, AddHalf(state, a, b);
      SameIds(was, now);
      assert forall x :: x in vertices ==> Placed(x, was);
      ghost var table := vertices[a].edges.Keys;
      vertices[a].edges := vertices[a].edges[b := line];
      assert vertices[a].edges.Keys == table + {b} && Placed(a, now);
      assert forall x :: x in vertices ==> Placed(x, now);
      state := now;
    }

    method Offset(i: nat, j: nat, jitter: Jitter) returns (d: Point)
      requires Consistent() && i in vertices && j in vertices
      ensures d == Delta(state, i, j, jitter)
    {
      assert Placed(i, state) && Placed(j, state);
      d := Point(vertices[j].x - vertices[i].x, vertices[j].y - vertices[i].y);
      if d.x * d.x + d.y * d.y < CLOSE {
        d := jitter(i, j);
      }
    }

    /** The body of the inner loop, for one pair. */
    method AddPair(i: nat, j: nat, fx: real, fy: real, distance: real -> real, jitter: Jitter)
      returns (fx': real, fy': real)
      requires Consistent() && i in vertices && j in vertices
      ensures Point(fx', fy') == Plus(Point(fx, fy), PairForce(state, i, j, distance, jitter))
    {
      fx', fy' := fx, fy;
      if i != j {
        var d := Offset(i, j, jitter);
        var d2 := Square(d);
        fx' := fx' - (REPULSION / d2) * d.x;
        fy' := fy' - (REPULSION / d2) * d.y;
        assert Point(fx', fy') == Minus(Point(fx, fy), Push(d));
        assert Placed(i, state);
        if j in vertices[i].edges {
          var root := distance(d2);
          fx' := fx' + (root - SPRING_LENGTH) * d.x;
          fy' := fy' + (root - SPRING_LENGTH) * d.y;
          assert Point(fx', fy') == Plus(Minus(Point(fx, fy), Push(d)), Pull(d, distance));
        }
      }
    }

    /** The inner loop: the force on vertex `i`. */
    method Accumulate(i: nat, distance: real -> real, jitter: Jitter) returns (fx: real, fy: real)
      requires Consistent() && i in vertices
      ensures Point(fx, fy) == Row(AllForces(state, distance, jitter), order, i, |order|)
    {
      fx, fy := 0.0, 0.0;
      for n := 0 to |order|
        invariant Point(fx, fy) == Row(AllForces(state, distance, jitter), order, i, n)
      {
        fx, fy := AddPair(i, order[n], fx, fy, distance, jitter);
      }
    }

    ghost predicate Forced(f: Forces, i: nat)
      reads this`forcex, this`forcey, this`order
    {
      && i in forcex && i in forcey
      && Point(forcex[i], forcey[i]) == Row(f, order, i, |order|)
    }

    /** The first loop: the force on every vertex. */
    method Accelerate(distance: real -> real, jitter: Jitter)
      requires Consistent()
      modifies this`forcex, this`forcey
      ensures forall k :: 0 <= k < |order| ==> Forced(AllForces(state, distance, jitter), order[k])
    {
      ghost var f := AllForces(state, distance, jitter);
      for n := 0 to |order|
        invariant forall k :: 0 <= k < n ==> Forced(f, order[k])
      {
        var fx, fy := Accumulate(order[n], distance, jitter);
        forcex := forcex[order[n] := fx];
        forcey := forcey[order[n] := fy];
      }
    }

    lemma PlacedByOrder(s: State)
      requires WellFormed(s) && s.order == order && vertices.Keys == s.at.Keys
      requires forall k :: 0 <= k < |order| ==> Placed(order[k], s)
      ensures forall id {:trigger Placed(id, s)} :: id in vertices ==> Placed(id, s)
    {
      forall id | id in vertices
        ensures Placed(id, s)
      {
        assert Listed(s, id);
        var k :| 0 <= k < |order| && order[k] == id;
        assert Placed(order[k], s);
      }
    }

    /** The second loop: every vertex moves by the force recorded for it. */
    method Move(ghost f: Forces)
      requires Consistent() && forall k :: 0 <= k < |order| ==> Forced(f, order[k])
      modifies this`state, vertices.Values`x, vertices.Values`y
      ensures Consistent() && state == Displaced(old(state), f)
    {
      ghost var goal := Displaced(state, f);
      MoveAll(f, state, goal);
      PlacedByOrder(goal);
      state := goal;
    }

    method MoveAll(ghost f: Forces, ghost start: State, ghost goal: State)
      requires WellFormed(start) && start.order == order && goal == Displaced(start, f)
      requires forall k :: 0 <= k < |order| ==> order[k] in vertices
      requires forall k :: 0 <= k < |order| ==> Placed(order[k], start)
      requires forall k :: 0 <= k < |order| ==> Forced(f, order[k])
      modifies vertices.Values`x, vertices.Values`y
      ensures forall k :: 0 <= k < |order| ==> Placed(order[k], goal)
    {
      for n := 0 to |order|
        invariant forall k :: 0 <= k < n ==> Placed(order[k], goal)
        invariant forall k :: n <= k < |order| ==> Placed(order[k], start)
      {
        MoveOne(n, vertices[order[n]], f, start, goal);
      }
    }

    method MoveOne(n: nat, v: Vertex, ghost f: Forces, ghost start: State, ghost goal: State)
      requires n < |order| && Ascending(order) && WellFormed(start) && start.order == order
      requires goal == Displaced(start, f)
      requires Placed(order[n], start) && Forced(f, order[n]) && v == vertices[order[n]]
      requires forall k :: 0 <= k < n ==> Placed(order[k], goal)
      requires forall k :: n < k < |order| ==> Placed(order[k], start)
      modifies v`x, v`y
      ensures forall k :: 0 <= k <= n ==> Placed(order[k], goal)
      ensures forall k :: n < k < |order| ==> Placed(order[k], start)
    {
      var i := order[n];
      v.Shift(forcex[i], forcey[i]);
    }

    /** `updateLayout`, without the drawing. */
    method UpdateLayout(distance: real -> real, jitter: Jitter)
      requires Consistent()
      modifies this`forcex, this`forcey, this`state, vertices.Values`x, vertices.Values`y
      ensures Consistent() && state == Moved(old(state), distance, jitter)
    {
      Accelerate(distance, jitter);
      Move(AllForces(state, distance, jitter));
    }
  }
}

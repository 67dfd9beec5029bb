/**
 The retrying queue (`synch`) against a server that may refuse a batch and a
 network that may lose the request or the reply.
 */
module Sync {
  import opened Splices

  /** The globals `queue` and `intransfer`. */
  datatype Client = Client(queue: seq<Change>, intransfer: seq<Change>)

  function Enqueue(c: Client, change: Change): Client {
    c.(queue := c.queue + [change])
  }

  predicate Sends(c: Client) {
    c.intransfer == [] && c.queue != []
  }

  function Ticked(c: Client): Client {
    if Sends(c) then Client([], c.queue) else c
  }

  function Replied(c: Client, status: int): Client {
    if status == 200 then c.(intransfer := []) else Client(c.intransfer + c.queue, [])
  }

  class Network {
    var queue: seq<Change>
    var intransfer: seq<Change>

    function State(): Client
      reads this
    {
      Client(queue, intransfer)
    }

    constructor ()
      ensures State() == Client([], [])
    {
      queue, intransfer := [], [];
    }

    method Push(change: Change)
      modifies this`queue
      ensures State() == Enqueue(old(State()), change)
    {
      queue := queue + [change];
    }

    /** One timer tick; `sent` is the list encoded and posted, if any. */
    method Tick() returns (sent: seq<Change>)
      modifies this
      ensures State() == Ticked(old(State()))
      ensures old(intransfer) == [] ==> sent == old(queue) == intransfer && queue == []
      ensures old(intransfer) != [] ==> sent == [] && unchanged(this)
    {
      sent := [];
      if |intransfer| == 0 && |queue| > 0 {
        intransfer := queue;
        queue := [];
        sent := intransfer;
      }
    }

    /** The request is done, with status 0 if it failed or timed out. */
    method OnDone(status: int)
      modifies this
      ensures State() == Replied(old(State()), status)
      ensures queue == if status == 200 then old(queue) else old(intransfer) + old(queue)
      ensures intransfer == []
    {
      if status == 200 {
        intransfer := [];
      } else {
        queue := intransfer + queue;
        intransfer := [];
      }
    }
  }

  // ---------- the protocol ----------

  /** Where the one request stands: it has not reached the server, or the
      server has written its batch and its reply is on the way. */
  datatype Flight = Idle | Travelling(batch: seq<Change>) | Written(batch: seq<Change>)

  /** `pushed` is every change ever made and `acked` how many of them the client
      knows to be stored. `log` is what the server wrote, batch by batch,
      `starts[i]` the value of `acked` when batch i was written. `failed` is the
      last batch that failed and was not acknowledged since. */
  datatype World = World(
    client: Client, flight: Flight, pushed: seq<Change>, acked: nat,
    log: seq<seq<Change>>, starts: seq<nat>, failed: seq<Change>)

  datatype Event =
    | Make(change: Change)
    | Tick
    | Arrive          // the server writes the batch
    | Done(status: int)  // the client sees the end of the request

  const START := World(Client([], []), Idle, [], 0, [], [], [])

  /** Only a server that has written replies 200. A request may end otherwise at
      any time: refused or lost before it was written, or its reply lost after. */
  predicate Possible(w: World, e: Event) {
    match e
    case Make(_) => true
    case Tick => true
    case Arrive => w.flight.Travelling?
    case Done(status) => if status == 200 then w.flight.Written? else !w.flight.Idle?
  }

  function Next(w: World, e: Event): World {
    match e
    case Make(c) => w.(client := Enqueue(w.client, c), pushed := w.pushed + [c])
    case Tick =>
      if Sends(w.client) then w.(client := Ticked(w.client), flight := Travelling(w.client.queue)) else w
    case Arrive =>
      if w.flight.Idle? then w
      else w.(flight := Written(w.flight.batch), log := w.log + [w.flight.batch], starts := w.starts + [w.acked])
    case Done(status) =>
      var u := w.(client := Replied(w.client, status), flight := Idle);
      if status == 200 then u.(acked := w.acked + |w.client.intransfer|, failed := [])
      else u.(failed := w.client.intransfer)
  }

  function Pending(w: World): seq<Change> {
    w.client.intransfer + w.client.queue
  }

  /** Acknowledged, in transfer and queued changes are those pushed, in order;
      a batch is in transfer exactly while its request is. */
  ghost predicate Conserved(w: World) {
    && w.acked <= |w.pushed|
    && w.pushed[..w.acked] + Pending(w) == w.pushed
    && (w.flight.Idle? <==> w.client.intransfer == [])
    && (!w.flight.Idle? ==> w.flight.batch == w.client.intransfer)
  }

  /** Batch i is what was pushed from `starts[i]` on. */
  ghost predicate Segment(w: World, i: nat)
    requires i < |w.log| == |w.starts|
  {
    && w.log[i] != []
    && w.starts[i] + |w.log[i]| <= |w.pushed|
    && w.pushed[w.starts[i]..w.starts[i] + |w.log[i]|] == w.log[i]
  }

  function EndOf(w: World, i: nat): nat
    requires i < |w.log| == |w.starts|
  {
    w.starts[i] + |w.log[i]|
  }

  /** Each batch continues the one before it, or repeats and extends it. */
  ghost predicate Follows(w: World, i: nat)
    requires i + 1 < |w.log| == |w.starts|
  {
    || w.starts[i + 1] == EndOf(w, i)
    || (w.starts[i + 1] == w.starts[i] && w.log[i] <= w.log[i + 1])
  }

  /** No gaps and no reordering: the log starts at the first change. */
  ghost predicate Ordered(w: World) {
    && |w.log| == |w.starts|
    && (w.log != [] ==> w.starts[0] == 0)
    && (forall i :: 0 <= i < |w.log| ==> Segment(w, i))
    && (forall i {:trigger Follows(w, i)} :: 0 <= i < |w.log| - 1 ==> Follows(w, i))
  }

  /** How the last batch relates to what the client still holds. */
  ghost predicate Resumable(w: World)
    requires |w.log| == |w.starts|
  {
    && (w.log == [] ==> w.acked == 0 && !w.flight.Written?)
    && (w.log != [] ==>
      var n := |w.log| - 1;
      if w.flight.Written? then w.acked == w.starts[n] && w.log[n] == w.flight.batch
      else w.acked == EndOf(w, n) || (w.acked == w.starts[n] && w.log[n] <= w.failed))
    && (w.failed <= if w.flight.Idle? then w.client.queue else w.client.intransfer)
  }

  ghost predicate Inv(w: World) {
    Conserved(w) && Ordered(w) && Resumable(w)
  }

  lemma ConservedStep(w: World, e: Event)
    requires Conserved(w) && Possible(w, e)
    ensures Conserved(Next(w, e))
  {
  }

  lemma PendingSegment(w: World)
    requires Conserved(w)
    ensures w.acked + |w.client.intransfer| <= |w.pushed|
    ensures w.pushed[w.acked..w.acked + |w.client.intransfer|] == w.client.intransfer
  {
  }

  lemma GrownKeepsOrdered(w: World, u: World)
    requires Ordered(w) && u.log == w.log && u.starts == w.starts && w.pushed <= u.pushed
    ensures Ordered(u)
  {
    forall i | 0 <= i < |u.log|
      ensures Segment(u, i)
    {
      assert Segment(w, i);
      assert u.pushed[w.starts[i]..EndOf(w, i)] == w.pushed[w.starts[i]..EndOf(w, i)];
    }
    forall i | 0 <= i < |u.log| - 1
      ensures Follows(u, i)
    {
      assert Follows(w, i);
    }
  }

  lemma ArriveKeepsSegments(w: World, i: nat)
    requires Inv(w) && w.flight.Travelling? && i <= |w.log|
    ensures Segment(Next(w, Arrive), i)
  {
    if i < |w.log| {
      assert Segment(w, i);
    } else {
      PendingSegment(w);
    }
  }

  lemma ArriveFollows(w: World, i: nat)
    requires Inv(w) && w.flight.Travelling? && i < |w.log|
    ensures Follows(Next(w, Arrive), i)
  {
    if i < |w.log| - 1 {
      assert Follows(w, i);
    } else {
      assert w.acked == EndOf(w, i) || w.log[i] <= w.failed <= w.client.intransfer;
    }
  }

  lemma ArriveKeepsOrdered(w: World)
    requires Inv(w) && w.flight.Travelling?
    ensures Ordered(Next(w, Arrive))
  {
    var u := Next(w, Arrive);
    forall i | 0 <= i < |u.log|
      ensures Segment(u, i)
    {
      ArriveKeepsSegments(w, i);
    }
    forall i | 0 <= i < |u.log| - 1
      ensures Follows(u, i)
    {
      ArriveFollows(w, i);
    }
  }

  lemma StepKeepsInv(w: World, e: Event)
    requires Inv(w) && Possible(w, e)
    ensures Inv(Next(w, e))
  {
    var u := Next(w, e);
    ConservedStep(w, e);
    match e
    case Make(c) => GrownKeepsOrdered(w, u);
    case Tick => GrownKeepsOrdered(w, u);
    case Arrive => ArriveKeepsOrdered(w);
    case Done(status) =>
      GrownKeepsOrdered(w, u);
      assert w.failed <= w.client.intransfer;
  }

  ghost predicate IsRun(w: World, events: seq<Event>)
    decreases events
  {
    events == [] || (Possible(w, events[0]) && IsRun(Next(w, events[0]), events[1..]))
  }

  function After(w: World, events: seq<Event>): World
    decreases events
  {
    if events == [] then w else After(Next(w, events[0]), events[1..])
  }

  /** Delivery over every run: nothing is lost or reordered, at most one batch
      is outstanding, and the log only ever continues or restarts at the last
      acknowledged change with an extension of what it last wrote. */
  lemma {:induction false} RunKeepsInv(w: World, events: seq<Event>)
    requires Inv(w) && IsRun(w, events)
    ensures Inv(After(w, events))
    decreases events
  {
    if events != [] {
      StepKeepsInv(w, events[0]);
      RunKeepsInv(Next(w, events[0]), events[1..]);
    }
  }

  lemma EveryRun(events: seq<Event>)
    requires IsRun(START, events)
    ensures Inv(After(START, events))
  {
    RunKeepsInv(START, events);
  }

  /** A batch that failed is a prefix of the next one sent. */
  lemma ResendExtends(w: World)
    requires Inv(w) && Sends(w.client)
    ensures Next(w, Tick).flight.Travelling? && w.failed <= Next(w, Tick).flight.batch
  {
  }

  // ---------- progress ----------

  /** A tick sends all that is queued whenever nothing is out, and otherwise
      leaves everything as it is. */
  lemma TickSendsExactly(w: World)
    requires Inv(w)
    ensures w.flight.Idle? && w.client.queue != [] ==>
      Next(w, Tick) == w.(client := Client([], w.client.queue), flight := Travelling(w.client.queue))
    ensures !w.flight.Idle? || w.client.queue == [] ==> Next(w, Tick) == w
  {
  }

  lemma RunCons(w: World, e: Event, more: seq<Event>, events: seq<Event>)
    requires Possible(w, e) && IsRun(Next(w, e), more) && events == [e] + more
    ensures IsRun(w, events) && After(w, events) == After(Next(w, e), more)
  {
    assert events[1..] == more;
  }

  /** Everything made is acknowledged and nothing is left to send. */
  ghost predicate Drained(w: World) {
    w.acked == |w.pushed| && w.client.queue == [] && w.client.intransfer == [] && w.flight.Idle?
  }

  const ROUND_TRIP := [Tick, Arrive, Done(200)]

  /** One round trip that succeeds delivers all that is queued. */
  lemma RoundTripDrains(w: World)
    requires Inv(w) && w.flight.Idle? && w.client.queue != []
    ensures IsRun(w, ROUND_TRIP)
    ensures var u := After(w, ROUND_TRIP);
      Drained(u) && u.pushed == w.pushed && u.log == w.log + [w.client.queue]
  {
    var q := w.client.queue;
    TickSendsExactly(w);
    var sent := w.(client := Client([], q), flight := Travelling(q));
    var written := sent.(flight := Written(q), log := w.log + [q], starts := w.starts + [w.acked]);
    var done := written.(client := Client([], []), flight := Idle, acked := w.acked + |q|, failed := []);
    assert Next(sent, Arrive) == written && Next(written, Done(200)) == done;
    RunCons(written, Done(200), [], [Done(200)]);
    RunCons(sent, Arrive, [Done(200)], [Arrive, Done(200)]);
    RunCons(w, Tick, [Arrive, Done(200)], ROUND_TRIP);
    assert Pending(w) == q;
  }

  lemma IdleIsDrained(w: World)
    requires Inv(w) && w.flight.Idle? && w.client.queue == []
    ensures Drained(w)
  {
    assert Pending(w) == [];
  }

  /** Nothing is ever stuck: from every state in which a run can be, ending the
      request that is out, if any, and one round trip that succeeds deliver all
      that was made. */
  lemma NothingIsStuck(w: World) returns (events: seq<Event>)
    requires Inv(w)
    ensures events <= [Done(0)] + ROUND_TRIP || events == ROUND_TRIP
    ensures IsRun(w, events)
    ensures Drained(After(w, events)) && After(w, events).pushed == w.pushed
  {
    if !w.flight.Idle? {
      var u := Next(w, Done(0));
      StepKeepsInv(w, Done(0));
      events := [Done(0)] + ROUND_TRIP;
      RoundTripDrains(u);
      RunCons(w, Done(0), ROUND_TRIP, events);
    } else if w.client.queue != [] {
      events := ROUND_TRIP;
      RoundTripDrains(w);
    } else {
      events := [];
      IdleIsDrained(w);
    }
  }

  // ---------- reading the log ----------

  function Concat(log: seq<seq<Change>>): seq<Change> {
    if log == [] then [] else Concat(log[..|log| - 1]) + log[|log| - 1]
  }

  /** The log with each batch taking the place of what was written from its
      start on. */
  function Settled(log: seq<seq<Change>>, starts: seq<nat>): seq<Change>
    requires |log| == |starts|
  {
    if log == [] then []
    else
      var n := |log| - 1;
      Settled(log[..n], starts[..n])[..Min(starts[n], |Settled(log[..n], starts[..n])|)] + log[n]
  }

  lemma Cut(w: World, n: nat) returns (u: World)
    requires Ordered(w) && n <= |w.log|
    ensures u == w.(log := w.log[..n], starts := w.starts[..n]) && Ordered(u)
  {
    u := w.(log := w.log[..n], starts := w.starts[..n]);
    forall i | 0 <= i < n
      ensures Segment(u, i)
    {
      assert Segment(w, i);
    }
    forall i | 0 <= i < n - 1
      ensures Follows(u, i)
    {
      assert Follows(w, i);
    }
  }

  /** Dropping what is repeated leaves exactly the first changes pushed. */
  lemma {:induction false} SettledIsPrefix(w: World)
    requires Ordered(w)
    ensures Delivered(w) <= |w.pushed|
    ensures Settled(w.log, w.starts) == w.pushed[..Delivered(w)]
    decreases |w.log|
  {
    if w.log != [] {
      var n := |w.log| - 1;
      var u := Cut(w, n);
      SettledIsPrefix(u);
      assert Segment(w, n);
      assert n > 0 ==> Follows(w, n - 1) && w.starts[n] <= EndOf(w, n - 1);
      PrefixThen(w.pushed, Delivered(u), w.starts[n], w.log[n]);
    }
  }

  lemma PrefixThen(p: seq<Change>, t: nat, s: nat, b: seq<Change>)
    requires s <= t <= |p| && s + |b| <= |p| && p[s..s + |b|] == b
    ensures p[..t][..s] + b == p[..s + |b|]
  {
  }

  ghost predicate Repeats(w: World, i: nat)
    requires i + 1 < |w.log| == |w.starts|
  {
    w.starts[i + 1] == w.starts[i]
  }

  lemma {:induction false} ConcatLength(w: World)
    requires Ordered(w) && w.log != []
    ensures |Concat(w.log)| >= EndOf(w, |w.log| - 1)
    ensures |Concat(w.log)| == EndOf(w, |w.log| - 1) <==> NoRepeats(w)
    decreases |w.log|
  {
    var n := |w.log| - 1;
    assert Segment(w, n);
    if n > 0 {
      var u := Cut(w, n);
      ConcatLength(u);
      assert Follows(w, n - 1) && Segment(w, n - 1);
      assert Repeats(w, n - 1) ==> |Concat(w.log)| > EndOf(w, n);
      assert forall i {:trigger Repeats(w, i)} {:trigger Repeats(u, i)} ::
        0 <= i < n - 1 ==> Repeats(u, i) == Repeats(w, i);
    } else {
      assert w.log[..0] == [];
    }
  }

  lemma {:induction false} UnrepeatedConcat(w: World)
    requires Ordered(w) && w.log != []
    requires NoRepeats(w)
    ensures EndOf(w, |w.log| - 1) <= |w.pushed|
    ensures Concat(w.log) == w.pushed[..EndOf(w, |w.log| - 1)]
    decreases |w.log|
  {
    var n := |w.log| - 1;
    assert Segment(w, n);
    if n > 0 {
      var u := Cut(w, n);
      assert forall i {:trigger Repeats(u, i)} :: 0 <= i < n - 1 ==> Repeats(u, i) == Repeats(w, i);
      UnrepeatedConcat(u);
      assert Follows(w, n - 1) && !Repeats(w, n - 1);
      assert w.pushed[..EndOf(w, n)] == w.pushed[..w.starts[n]] + w.log[n];
    } else {
      assert w.log[..0] == [];
    }
  }

  ghost predicate NoRepeats(w: World)
    requires |w.log| == |w.starts|
  {
    forall i {:trigger Repeats(w, i)} :: 0 <= i < |w.log| - 1 ==> !Repeats(w, i)
  }

  /** How many of the pushed changes have reached the server. */
  function Delivered(w: World): nat
    requires |w.log| == |w.starts|
  {
    if w.log == [] then 0 else EndOf(w, |w.log| - 1)
  }

  /** The server's log, taken as it is, is the changes delivered exactly when no
      batch was written again. */
  lemma LogIsPrefixExactly(w: World)
    requires Ordered(w)
    ensures Delivered(w) <= |w.pushed|
    ensures Concat(w.log) == w.pushed[..Delivered(w)] <==> NoRepeats(w)
  {
    if w.log != [] {
      assert Segment(w, |w.log| - 1);
      ConcatLength(w);
      if NoRepeats(w) {
        UnrepeatedConcat(w);
      }
    }
  }

  /** Once all is acknowledged the log, each batch in the place of what it
      repeats, is every change ever made. */
  lemma DrainedIsStored(w: World)
    requires Inv(w) && Drained(w)
    ensures Settled(w.log, w.starts) == w.pushed
  {
    SettledIsPrefix(w);
    if w.log != [] {
      assert Segment(w, |w.log| - 1);
    }
    assert Delivered(w) == |w.pushed|;
  }

  // ---------- what the events tell ----------

  /** A watch kept on the events alone: the reply to the last batch written is on
      the way; that reply was lost and nothing has settled the batch since; some
      batch arrived while one before it was lost in this way. */
  datatype Watch = Watch(written: bool, lost: bool, again: bool)

  const QUIET := Watch(false, false, false)

  function Observe(k: Watch, e: Event): Watch {
    match e
    case Make(_) => k
    case Tick => k
    case Arrive => Watch(true, false, k.again || k.lost)
    case Done(status) =>
      if status == 200 then Watch(false, false, k.again) else Watch(false, k.lost || k.written, k.again)
  }

  function Watched(k: Watch, events: seq<Event>): Watch
    decreases events
  {
    if events == [] then k else Watched(Observe(k, events[0]), events[1..])
  }

  /** Some batch arrives while the one written before it is unsettled because its
      reply was lost. */
  predicate WritesAgain(events: seq<Event>) {
    Watched(QUIET, events).again
  }

  /** The last batch written is not acknowledged, and no reply is on the way. */
  predicate Unsettled(w: World)
    requires |w.log| == |w.starts|
  {
    w.log != [] && !w.flight.Written? && w.acked != EndOf(w, |w.log| - 1)
  }

  ghost predicate Agrees(w: World, k: Watch)
    requires |w.log| == |w.starts|
  {
    && (k.written <==> w.flight.Written?)
    && (k.lost <==> Unsettled(w))
    && (k.again <==> !NoRepeats(w))
  }

  lemma SameLogRepeats(w: World, u: World)
    requires |w.log| == |w.starts| && u.log == w.log && u.starts == w.starts
    ensures NoRepeats(u) <==> NoRepeats(w)
  {
    assert forall i {:trigger Repeats(w, i)} {:trigger Repeats(u, i)} ::
      0 <= i < |w.log| - 1 ==> Repeats(u, i) == Repeats(w, i);
  }

  /** A batch that arrives repeats exactly when the one before is unsettled. */
  lemma ArriveRepeatsExactly(w: World)
    requires Inv(w) && w.flight.Travelling?
    ensures NoRepeats(Next(w, Arrive)) <==> NoRepeats(w) && !Unsettled(w)
  {
    var u, n := Next(w, Arrive), |w.log| - 1;
    assert forall i {:trigger Repeats(w, i)} {:trigger Repeats(u, i)} :: 0 <= i < n ==> Repeats(u, i) == Repeats(w, i);
    if n >= 0 {
      assert Segment(w, n);
      assert Repeats(u, n) <==> Unsettled(w);
    }
  }

  lemma QuietStep(w: World, e: Event)
    requires Inv(w) && Possible(w, e) && !e.Arrive?
    ensures var u := Next(w, e); u.log == w.log && u.starts == w.starts
    ensures e.Done? && w.flight.Written? ==> w.log != [] && (Unsettled(Next(w, e)) <==> e.status != 200)
    ensures !(e.Done? && w.flight.Written?) ==>
      (Unsettled(Next(w, e)) <==> Unsettled(w)) && (Next(w, e).flight.Written? <==> w.flight.Written?)
  {
    if w.log != [] {
      assert Segment(w, |w.log| - 1);
    }
  }

  lemma ObserveStep(w: World, e: Event, k: Watch)
    requires Inv(w) && Possible(w, e) && Agrees(w, k)
    ensures Inv(Next(w, e)) && Agrees(Next(w, e), Observe(k, e))
  {
    StepKeepsInv(w, e);
    if e.Arrive? {
      ArriveRepeatsExactly(w);
    } else {
      QuietStep(w, e);
      SameLogRepeats(w, Next(w, e));
    }
  }

  lemma {:induction false} ObserveRun(w: World, events: seq<Event>, k: Watch)
    requires Inv(w) && IsRun(w, events) && Agrees(w, k)
    ensures Inv(After(w, events)) && Agrees(After(w, events), Watched(k, events))
    decreases events
  {
    if events != [] {
      ObserveStep(w, events[0], k);
      ObserveRun(Next(w, events[0]), events[1..], Observe(k, events[0]));
    }
  }

  /** Over every run from the start the log, taken as it is, is the changes
      delivered exactly when no batch arrives while one before it is lost. */
  lemma LogIsPrefixOfRunExactly(events: seq<Event>)
    requires IsRun(START, events)
    ensures Inv(After(START, events))
    ensures var w := After(START, events);
      Delivered(w) <= |w.pushed| && (Concat(w.log) == w.pushed[..Delivered(w)] <==> !WritesAgain(events))
  {
    ObserveRun(START, events, QUIET);
    LogIsPrefixExactly(After(START, events));
  }

  lemma RetryWritesAgain(c: Change)
    ensures var written := World(Client([], [c]), Written([c]), [c], 0, [[c]], [0], []);
      var retry := [Done(0), Tick, Arrive];
      && IsRun(written, retry) && After(written, retry).pushed == [c] && After(written, retry).log == [[c], [c]]
  {
    var written := World(Client([], [c]), Written([c]), [c], 0, [[c]], [0], []);
    var failed := World(Client([c], []), Idle, [c], 0, [[c]], [0], [c]);
    var resent := World(Client([], [c]), Travelling([c]), [c], 0, [[c]], [0], [c]);
    assert Next(written, Done(0)) == failed && Next(failed, Tick) == resent;
    RunCons(resent, Arrive, [], [Arrive]);
    RunCons(failed, Tick, [Arrive], [Tick, Arrive]);
    RunCons(written, Done(0), [Tick, Arrive], [Done(0), Tick, Arrive]);
  }

  /** One lost reply is enough: the change is then stored twice. */
  lemma LostReplyDoubles(c: Change)
    ensures var events := [Make(c), Tick, Arrive] + [Done(0), Tick, Arrive];
      && IsRun(START, events) && After(START, events).pushed == [c]
      && After(START, events).log == [[c], [c]]
  {
    var retry := [Done(0), Tick, Arrive];
    var queued := World(Client([c], []), Idle, [c], 0, [], [], []);
    var sent := World(Client([], [c]), Travelling([c]), [c], 0, [], [], []);
    RetryWritesAgain(c);
    var written := World(Client([], [c]), Written([c]), [c], 0, [[c]], [0], []);
    assert Next(START, Make(c)) == queued && Next(queued, Tick) == sent && Next(sent, Arrive) == written;
    RunCons(sent, Arrive, retry, [Arrive] + retry);
    RunCons(queued, Tick, [Arrive] + retry, [Tick, Arrive] + retry);
    RunCons(START, Make(c), [Tick, Arrive] + retry, [Make(c), Tick, Arrive] + retry);
  }

  /** What is stored then replays to a text nobody typed. */
  lemma DoubledText(x: byte)
    ensures var c := Change(0, [], [x]);
      Replay([], [c]) == [x] && Replay([], Concat([[c], [c]])) == [x, x]
  {
    var c := Change(0, [], [x]);
    assert [[c], [c]][..1] == [[c]] && [[c]][..0] == [];
    assert Concat([[c]]) == [c] && Concat([[c], [c]]) == [c] + [c];
    assert [c] == [] + [c] && Apply([], c) == [x];
    ReplayPush([], [], c);
    ReplayPush([], [c], c);
    assert Apply([x], c) == [x, x];
  }
}

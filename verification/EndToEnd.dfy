/**
 The whole path of an edit: typed in the editor, queued, sent, parsed and kept
 by the server, for any interleaving of edits, timer ticks and requests that
 are served, refused or lost.
 */
module EndToEnd {
  import opened Splices
  import opened Words
  import opened Wire
  import opened Slices
  import opened Diffs
  import opened Branches
  import opened Feed
  import opened Codec
  import Grammar
  import Http
  import Sessions
  import Sync

  /** `session.queue` and `world.pushed` are every change typed, of which
      `world.client` holds what is not acknowledged; `texts[k]` is the editor's
      text when the first k changes had been typed. */
  datatype System = System(session: Sessions.Session, world: Sync.World, files: Files, texts: seq<Text>)

  datatype Event =
    | Edit(event: Sessions.Event)
    | Tick
    | Arrive(beyond: Three)  // `feed` runs; `beyond` follows the payload in memory
    | Done(status: int)      // the client sees the end of the request

  function Start(): (s: System)
    ensures Sessions.Rooted(s.session)
  {
    Sessions.StartIsSafe();
    System(Sessions.Start(), Sync.START, map[], [[]])
  }

  ghost function Serve(payload: seq<byte>, beyond: Three, files: Files, opens: Word -> bool): Grammar.Verdict {
    Grammar.Answer(payload, files, Env(opens, beyond))
  }

  /** The record an input makes has to fit its 32-bit fields. */
  predicate Possible(s: System, e: Event) {
    match e
    case Edit(ev) => Sessions.Possible(s.session, ev) && (ev.Input? ==> Fits32(Diff(s.session.last, ev.text)))
    case Tick => true
    case Arrive(_) => s.world.flight.Travelling?
    case Done(status) => Sync.Possible(s.world, Sync.Done(status))
  }

  function Edited(s: System, e: Sessions.Event): (r: System)
    requires Sessions.Rooted(s.session) && Sessions.Possible(s.session, e)
    ensures Sessions.Rooted(r.session)
  {
    var u := s.(session := Sessions.Step(s.session, e));
    if e.Input? then
      u.(world := Sync.Next(s.world, Sync.Make(Diff(s.session.last, e.text))), texts := s.texts + [u.session.last])
    else u
  }

  /** The server has answered `o`; only if it is ok can its reply be 200. */
  function Answered(s: System, o: Grammar.Verdict): System {
    s.(files := o.files, world := if o.ok then Sync.Next(s.world, Sync.Arrive) else s.world)
  }

  ghost function Next(s: System, e: Event, opens: Word -> bool): (r: System)
    requires Sessions.Rooted(s.session) && Possible(s, e)
    ensures Sessions.Rooted(r.session)
  {
    match e
    case Edit(ev) => Edited(s, ev)
    case Tick => s.(world := Sync.Next(s.world, Sync.Tick))
    case Arrive(beyond) => Answered(s, Serve(Batch(s.world.flight.batch), beyond, s.files, opens))
    case Done(status) => s.(world := Sync.Next(s.world, Sync.Done(status)))
  }

  function Stored(files: Files): seq<byte> {
    Contents(files, BRANCH)
  }

  predicate NoOtherFile(files: Files) {
    files.Keys <= {BRANCH}
  }

  /** The file holds, byte for byte, the batches that arrived, in order, and there
      is no other. */
  ghost predicate Inv(s: System) {
    && Sessions.Rooted(s.session) && Sync.Inv(s.world)
    && s.world.pushed == s.session.queue
    && AllFit32(s.world.pushed)
    && AllFit32(Sync.Concat(s.world.log))
    && Stored(s.files) == KeptAll(Sync.Concat(s.world.log)) && NoOtherFile(s.files)
  }

  lemma StartInv()
    ensures Inv(Start())
  {
  }

  lemma EditQueues(s: Sessions.Session, e: Sessions.Event)
    requires Sessions.Rooted(s) && Sessions.Possible(s, e)
    ensures Sessions.Step(s, e).queue == if e.Input? then s.queue + [Diff(s.last, e.text)] else s.queue
    ensures e.Input? ==> Sessions.Step(s, e).last == e.text
  {
  }

  lemma FitsPush(list: seq<Change>, c: Change)
    requires AllFit32(list) && Fits32(c)
    ensures AllFit32(list + [c])
  {
  }

  lemma InputKeepsInv(s: System, e: Sessions.Event)
    requires Inv(s) && Possible(s, Edit(e)) && e.Input?
    ensures Inv(Edited(s, e))
  {
    var c := Diff(s.session.last, e.text);
    EditQueues(s.session, e);
    Sync.StepKeepsInv(s.world, Sync.Make(c));
    FitsPush(s.world.pushed, c);
  }

  lemma EditKeepsInv(s: System, e: Sessions.Event)
    requires Inv(s) && Possible(s, Edit(e))
    ensures Inv(Edited(s, e))
  {
    if e.Input? {
      InputKeepsInv(s, e);
    } else {
      EditQueues(s.session, e);
    }
  }

  lemma BatchFits(w: Sync.World)
    requires Sync.Inv(w) && AllFit32(w.pushed) && w.flight.Travelling?
    ensures AllFit32(w.flight.batch)
  {
    Sync.PendingSegment(w);
    var b := w.flight.batch;
    forall k | 0 <= k < |b|
      ensures Fits32(b[k])
    {
      assert b[k] == w.pushed[w.acked..w.acked + |b|][k] == w.pushed[w.acked + k];
    }
  }

  /** The server accepts every batch and adds it to what the file holds. */
  lemma ServedIsStored(kept: seq<Change>, batch: seq<Change>, beyond: Three, files: Files, opens: Word -> bool)
    requires AllFit32(kept) && AllFit32(batch) && opens(BRANCH)
    requires Stored(files) == KeptAll(kept) && NoOtherFile(files)
    ensures Serve(Batch(batch), beyond, files, opens).ok
    ensures Stored(Serve(Batch(batch), beyond, files, opens).files) == KeptAll(kept + batch)
    ensures NoOtherFile(Serve(Batch(batch), beyond, files, opens).files)
  {
    CodecRoundTrip(batch, files, Env(opens, beyond));
    FileGrows(kept, batch);
  }

  lemma AnsweredKeepsInv(s: System, o: Grammar.Verdict)
    requires Inv(s) && s.world.flight.Travelling? && o.ok
    requires Stored(o.files) == KeptAll(Sync.Concat(s.world.log) + s.world.flight.batch) && NoOtherFile(o.files)
    ensures Inv(Answered(s, o))
  {
    var u := Answered(s, o).world;
    Sync.StepKeepsInv(s.world, Sync.Arrive);
    BatchFits(s.world);
    assert u.log[..|u.log| - 1] == s.world.log;
  }

  lemma ArriveKeepsInv(s: System, beyond: Three, opens: Word -> bool)
    requires Inv(s) && s.world.flight.Travelling? && opens(BRANCH)
    ensures Serve(Batch(s.world.flight.batch), beyond, s.files, opens).ok
    ensures Inv(Answered(s, Serve(Batch(s.world.flight.batch), beyond, s.files, opens)))
  {
    BatchFits(s.world);
    ServedIsStored(Sync.Concat(s.world.log), s.world.flight.batch, beyond, s.files, opens);
    AnsweredKeepsInv(s, Serve(Batch(s.world.flight.batch), beyond, s.files, opens));
  }

  lemma StepKeepsInv(s: System, e: Event, opens: Word -> bool)
    requires Inv(s) && Possible(s, e) && opens(BRANCH)
    ensures Inv(Next(s, e, opens))
  {
    match e
    case Edit(ev) => EditKeepsInv(s, ev);
    case Tick => Sync.StepKeepsInv(s.world, Sync.Tick);
    case Arrive(beyond) => ArriveKeepsInv(s, beyond, opens);
    case Done(status) => Sync.StepKeepsInv(s.world, Sync.Done(status));
  }

  ghost predicate IsRun(s: System, events: seq<Event>, opens: Word -> bool)
    requires Sessions.Rooted(s.session)
    decreases events
  {
    events == [] || (Possible(s, events[0]) && IsRun(Next(s, events[0], opens), events[1..], opens))
  }

  ghost function After(s: System, events: seq<Event>, opens: Word -> bool): System
    requires Sessions.Rooted(s.session) && IsRun(s, events, opens)
    decreases events
  {
    if events == [] then s else After(Next(s, events[0], opens), events[1..], opens)
  }

  /** The watch of the protocol, which edits do not concern. */
  function Observed(k: Sync.Watch, e: Event): Sync.Watch {
    match e
    case Edit(_) => k
    case Tick => Sync.Observe(k, Sync.Tick)
    case Arrive(_) => Sync.Observe(k, Sync.Arrive)
    case Done(status) => Sync.Observe(k, Sync.Done(status))
  }

  function Watched(k: Sync.Watch, events: seq<Event>): Sync.Watch
    decreases events
  {
    if events == [] then k else Watched(Observed(k, events[0]), events[1..])
  }

  /** Some batch arrives while the one written before it is unsettled because its
      reply was lost. */
  predicate WritesAgain(events: seq<Event>) {
    Watched(Sync.QUIET, events).again
  }

  lemma ObservedEdit(s: System, e: Sessions.Event, k: Sync.Watch)
    requires Inv(s) && Possible(s, Edit(e)) && Sync.Agrees(s.world, k)
    ensures |Edited(s, e).world.log| == |Edited(s, e).world.starts| && Sync.Agrees(Edited(s, e).world, k)
  {
    if e.Input? {
      Sync.ObserveStep(s.world, Sync.Make(Diff(s.session.last, e.text)), k);
    }
  }

  lemma ObservedStep(s: System, e: Event, opens: Word -> bool, k: Sync.Watch)
    requires Inv(s) && Possible(s, e) && opens(BRANCH) && Sync.Agrees(s.world, k)
    ensures var w := Next(s, e, opens).world;
      |w.log| == |w.starts| && Sync.Agrees(w, Observed(k, e))
  {
    match e
    case Edit(ev) => ObservedEdit(s, ev, k);
    case Tick => Sync.ObserveStep(s.world, Sync.Tick, k);
    case Arrive(beyond) =>
      ArriveKeepsInv(s, beyond, opens);
      Sync.ObserveStep(s.world, Sync.Arrive, k);
    case Done(status) => Sync.ObserveStep(s.world, Sync.Done(status), k);
  }

  lemma {:induction false} WatchedRun(s: System, events: seq<Event>, opens: Word -> bool, k: Sync.Watch)
    requires Inv(s) && opens(BRANCH) && IsRun(s, events, opens) && Sync.Agrees(s.world, k)
    ensures var u := After(s, events, opens);
      Inv(u) && Sync.Agrees(u.world, Watched(k, events))
    decreases events
  {
    if events != [] {
      StepKeepsInv(s, events[0], opens);
      ObservedStep(s, events[0], opens, k);
      WatchedRun(Next(s, events[0], opens), events[1..], opens, Observed(k, events[0]));
    }
  }

  /** After any run, with branches and with losses, the server's file decodes to
      the batches that arrived. With each batch taking the place of what was
      written from its start on, they are the first changes typed; taken as they
      are, they are so exactly when no batch arrived while the reply to the one
      before it was lost. */
  lemma FileIsWhatArrived(events: seq<Event>, opens: Word -> bool)
    requires opens(BRANCH) && IsRun(Start(), events, opens)
    ensures var w := After(Start(), events, opens).world;
      && ReadFile(Stored(After(Start(), events, opens).files)) == Some(Sync.Concat(w.log))
      && NoOtherFile(After(Start(), events, opens).files)
      && |w.log| == |w.starts| && Sync.Delivered(w) <= |w.pushed|
      && Sync.Settled(w.log, w.starts) == w.pushed[..Sync.Delivered(w)]
      && (Sync.Concat(w.log) == w.pushed[..Sync.Delivered(w)] <==> !WritesAgain(events))
  {
    StartInv();
    WatchedRun(Start(), events, opens, Sync.QUIET);
    var s := After(Start(), events, opens);
    ReadKeptAll(Sync.Concat(s.world.log));
    Sync.SettledIsPrefix(s.world);
    Sync.LogIsPrefixExactly(s.world);
  }

  /** A posted batch, whole in the connection's buffer, is split off as the
      payload, and `feed` run on it in place stores exactly that list. */
  lemma UploadIsStored(list: seq<Change>, h: seq<byte>, p: nat, verb: seq<byte>, target: seq<byte>,
                       files: Files, env: Env)
    requires AllFit32(list) && env.opens(BRANCH)
    requires Http.Announces(h, |Batch(list)|, p, verb, target)
    ensures var request := h + Http.BLANK_LINE + Batch(list);
      && Http.ParseRequest(request) == Http.Request(h, Batch(list), target)
      && var o := Loop(Begin(request, Slice(|h| + 4, |Batch(list)|), files), |request|, env);
         Grammar.Verdict(o.ok, o.files) == Grammar.Verdict(true, Write(files, Some(BRANCH), KeptAll(list)))
  {
    var payload := Batch(list);
    var request := h + Http.BLANK_LINE + payload;
    Http.IncrementalParse(h, p, verb, target, payload, request);
    PayloadRead(h, payload, request);
    Grammar.FeedIsScan(request, Slice(|h| + 4, |payload|), files, env, |request|);
    CodecRoundTrip(list, files, Grammar.Seen(request, |request|, env));
  }

  lemma PayloadRead(h: seq<byte>, payload: seq<byte>, request: seq<byte>)
    requires request == h + Http.BLANK_LINE + payload
    ensures |request| == |h| + 4 + |payload| && Read(request, Slice(|h| + 4, |payload|)) == payload
  {
  }

  // ---------- sessions on the root branch ----------

  /** The event does not leave the root branch. */
  predicate OnRoot(s: System, e: Event) {
    match e
    case Edit(Input(_, _)) => s.session.position == |s.session.steps|
    case Edit(BranchOut(_)) => false
    case Edit(Reopen(b)) => b == Sessions.ROOT
    case _ => true
  }

  ghost predicate OneBranch(s: Sessions.Session) {
    && s.tree.branches.Keys == {Sessions.ROOT}
    && s.tree.branches[Sessions.ROOT].parent == 0
    && s.tree.branches[Sessions.ROOT].pos == 0
    && s.current == Sessions.ROOT
  }

  ghost predicate TextsReplay(pushed: seq<Change>, texts: seq<Text>) {
    && |texts| == |pushed| + 1
    && forall k :: 0 <= k <= |pushed| ==> texts[k] == Replay([], pushed[..k])
  }

  ghost predicate RootInv(s: System) {
    && Sessions.Safe(s.session) && OneBranch(s.session)
    && s.session.steps == s.world.pushed
    && TextsReplay(s.world.pushed, s.texts)
  }

  lemma StartRootInv()
    ensures RootInv(Start())
  {
  }

  lemma TextsGrow(pushed: seq<Change>, texts: seq<Text>, c: Change, text: Text)
    requires TextsReplay(pushed, texts) && Replay([], pushed + [c]) == text
    ensures TextsReplay(pushed + [c], texts + [text])
  {
    forall k | 0 <= k <= |pushed + [c]|
      ensures (texts + [text])[k] == Replay([], (pushed + [c])[..k])
    {
      if k <= |pushed| {
        assert (pushed + [c])[..k] == pushed[..k];
      } else {
        assert (pushed + [c])[..k] == pushed + [c];
      }
    }
  }

  lemma AppendOnRoot(s: Sessions.Session, c: Change, text: Text)
    requires Sessions.Rooted(s) && OneBranch(s)
    ensures OneBranch(Sessions.Append(s, c, text))
    ensures Sessions.Append(s, c, text).steps == s.steps + [c]
    ensures Sessions.Append(s, c, text).last == text
  {
  }

  lemma RootInput(s: System, e: Sessions.Event)
    requires RootInv(s) && e.Input? && s.session.position == |s.session.steps|
    ensures RootInv(Edited(s, e))
  {
    var c := Diff(s.session.last, e.text);
    Sessions.StepIsSafe(s.session, e);
    Sessions.TypedChangeFits(s.session, e.text);
    Sessions.InputStep(s.session, e.text, e.id, s.session);
    AppendOnRoot(s.session, c, e.text);
    TextsGrow(s.world.pushed, s.texts, c, e.text);
  }

  lemma RootEdit(s: System, e: Sessions.Event)
    requires RootInv(s) && Possible(s, Edit(e)) && OnRoot(s, Edit(e))
    ensures RootInv(Edited(s, e))
  {
    match e
    case Input(_, _) => RootInput(s, e);
    case Slide(_) => Sessions.StepIsSafe(s.session, e);
    case Reopen(_) => Sessions.StepIsSafe(s.session, e);
    case BranchOut(_) => assert false;
  }

  lemma RootStep(s: System, e: Event, opens: Word -> bool)
    requires RootInv(s) && Possible(s, e) && OnRoot(s, e)
    ensures RootInv(Next(s, e, opens))
  {
    if e.Edit? {
      RootEdit(s, e.event);
    }
  }

  ghost predicate IsRootRun(s: System, events: seq<Event>, opens: Word -> bool)
    requires Sessions.Rooted(s.session)
    decreases events
  {
    events == [] || (
      Possible(s, events[0]) && OnRoot(s, events[0]) && IsRootRun(Next(s, events[0], opens), events[1..], opens))
  }

  lemma {:induction false} RootRunKeepsInv(s: System, events: seq<Event>, opens: Word -> bool)
    requires RootInv(s) && IsRootRun(s, events, opens)
    ensures IsRun(s, events, opens) && RootInv(After(s, events, opens))
    decreases events
  {
    if events != [] {
      RootStep(s, events[0], opens);
      RootRunKeepsInv(Next(s, events[0], opens), events[1..], opens);
    }
  }

  // ---------- what the server's file replays to ----------

  /** End to end: whatever happens in a session on the root branch, the server's
      file decodes to its log, and replaying the log, with each batch in the place
      of what it repeats, gives the text the editor held when the last delivered
      change was made. */
  lemma FileReplaysToText(events: seq<Event>, opens: Word -> bool)
    requires opens(BRANCH) && IsRootRun(Start(), events, opens)
    ensures IsRun(Start(), events, opens)
    ensures var s := After(Start(), events, opens); var w := s.world;
      && |w.log| == |w.starts| && Sync.Delivered(w) <= |w.pushed| && Sync.Delivered(w) < |s.texts|
      && ReadFile(Stored(s.files)) == Some(Sync.Concat(w.log))
      && Replay([], Sync.Settled(w.log, w.starts)) == s.texts[Sync.Delivered(w)]
  {
    StartRootInv();
    RootRunKeepsInv(Start(), events, opens);
    FileIsWhatArrived(events, opens);
  }

  /** If no batch arrived while the reply to the one before it was lost, decoding
      the server's file and replaying it as it is gives that text. */
  lemma FileReplaysAsItIs(events: seq<Event>, opens: Word -> bool)
    requires opens(BRANCH) && IsRootRun(Start(), events, opens) && !WritesAgain(events)
    ensures IsRun(Start(), events, opens)
    ensures var s := After(Start(), events, opens);
      && |s.world.log| == |s.world.starts| && Sync.Delivered(s.world) < |s.texts|
      && ReadFile(Stored(s.files)).Some?
      && Replay([], ReadFile(Stored(s.files)).value) == s.texts[Sync.Delivered(s.world)]
  {
    FileReplaysToText(events, opens);
    FileIsWhatArrived(events, opens);
  }

  // ---------- every edit can reach the server ----------

  /** The event as the protocol sees it. */
  function Signal(e: Event): Sync.Event
    requires !e.Edit?
  {
    match e
    case Tick => Sync.Tick
    case Arrive(_) => Sync.Arrive
    case Done(status) => Sync.Done(status)
  }

  /** `u` is the state after event `e` of the network, in which the editor is as it
      was. */
  ghost predicate Leads(s: System, e: Event, u: System, opens: Word -> bool)
    requires Sessions.Rooted(s.session)
  {
    Possible(s, e) && u == Next(s, e, opens) && u.session == s.session && u.texts == s.texts
  }

  lemma NetworkStep(s: System, e: Event, opens: Word -> bool) returns (u: System)
    requires Inv(s) && !e.Edit? && Possible(s, e) && opens(BRANCH)
    ensures Leads(s, e, u, opens) && Inv(u) && u.world == Sync.Next(s.world, Signal(e))
  {
    StepKeepsInv(s, e, opens);
    if e.Arrive? {
      ArriveKeepsInv(s, e.beyond, opens);
    }
    u := Next(s, e, opens);
  }

  lemma EndRequest(s: System, opens: Word -> bool) returns (idle: System)
    requires Inv(s) && opens(BRANCH)
    ensures Inv(idle) && if s.world.flight.Idle? then idle == s else Leads(s, Done(0), idle, opens)
    ensures idle.world == if s.world.flight.Idle? then s.world else Sync.Next(s.world, Sync.Done(0))
  {
    idle := s;
    if !s.world.flight.Idle? {
      idle := NetworkStep(s, Done(0), opens);
    }
  }

  lemma ServeRequest(sent: System, beyond: Three, opens: Word -> bool) returns (written: System, u: System)
    requires Inv(sent) && opens(BRANCH) && sent.world.flight.Travelling?
    ensures Inv(written) && Leads(sent, Arrive(beyond), written, opens)
    ensures Inv(u) && Leads(written, Done(200), u, opens)
    ensures u.world == Sync.Next(Sync.Next(sent.world, Sync.Arrive), Sync.Done(200))
  {
    written := NetworkStep(sent, Arrive(beyond), opens);
    u := NetworkStep(written, Done(200), opens);
  }

  lemma SendRequest(idle: System, opens: Word -> bool) returns (sent: System)
    requires Inv(idle) && opens(BRANCH) && idle.world.flight.Idle? && idle.world.client.queue != []
    ensures Inv(sent) && Leads(idle, Tick, sent, opens)
    ensures sent.world == Sync.Next(idle.world, Sync.Tick) && sent.world.flight.Travelling?
  {
    Sync.TickSendsExactly(idle.world);
    sent := NetworkStep(idle, Tick, opens);
  }

  lemma RoundTripWorld(w: Sync.World, idle: Sync.World, u: Sync.World)
    requires Sync.Inv(w) && Sync.Pending(w) != []
    requires idle == if w.flight.Idle? then w else Sync.Next(w, Sync.Done(0))
    ensures Sync.Inv(idle) && idle.flight.Idle? && idle.client.queue != []
    ensures u == Sync.Next(Sync.Next(Sync.Next(idle, Sync.Tick), Sync.Arrive), Sync.Done(200)) ==>
      Sync.Drained(u) && u.pushed == w.pushed
  {
    if !w.flight.Idle? {
      Sync.StepKeepsInv(w, Sync.Done(0));
    }
    ThreeSteps(idle);
    Sync.RoundTripDrains(idle);
  }

  /** Whatever has happened in a session on the root branch, ending the request
      that is out and then one request that succeeds bring the server's log, with
      each batch in the place of what it repeats, to replay to the text as of the
      last edit. */
  lemma EditsReachTheServer(s: System, beyond: Three, opens: Word -> bool)
    returns (idle: System, sent: System, written: System, u: System)
    requires Inv(s) && RootInv(s) && opens(BRANCH) && Sync.Pending(s.world) != []
    ensures Inv(idle) && if s.world.flight.Idle? then idle == s else Leads(s, Done(0), idle, opens)
    ensures Inv(sent) && Leads(idle, Tick, sent, opens)
    ensures Inv(written) && Leads(sent, Arrive(beyond), written, opens)
    ensures Inv(u) && Leads(written, Done(200), u, opens)
    ensures ReadFile(Stored(u.files)) == Some(Sync.Concat(u.world.log)) && |u.world.log| == |u.world.starts|
    ensures Replay([], Sync.Settled(u.world.log, u.world.starts)) == s.texts[|s.texts| - 1]
  {
    idle := EndRequest(s, opens);
    RoundTripWorld(s.world, idle.world, s.world);
    sent := SendRequest(idle, opens);
    written, u := ServeRequest(sent, beyond, opens);
    RoundTripWorld(s.world, idle.world, u.world);
    DrainedReplays(s, u);
  }

  lemma ThreeSteps(w: Sync.World)
    ensures Sync.After(w, Sync.ROUND_TRIP)
      == Sync.Next(Sync.Next(Sync.Next(w, Sync.Tick), Sync.Arrive), Sync.Done(200))
  {
    assert Sync.ROUND_TRIP[1..] == [Sync.Arrive, Sync.Done(200)];
    assert [Sync.Arrive, Sync.Done(200)][1..] == [Sync.Done(200)];
  }

  lemma DrainedReplays(s: System, u: System)
    requires RootInv(s) && Inv(u) && Sync.Drained(u.world) && u.world.pushed == s.world.pushed
    ensures ReadFile(Stored(u.files)) == Some(Sync.Concat(u.world.log)) && |u.world.log| == |u.world.starts|
    ensures Replay([], Sync.Settled(u.world.log, u.world.starts)) == s.texts[|s.texts| - 1]
  {
    ReadKeptAll(Sync.Concat(u.world.log));
    Sync.DrainedIsStored(u.world);
    assert s.world.pushed[..|s.world.pushed|] == s.world.pushed;
  }
}

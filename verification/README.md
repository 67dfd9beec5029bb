# Sleepytext: a verified model

Sleepytext is a branching, replayable text editor. Its browser side records each
edit as a reversible splice, keeps the splices of a document in a tree of
branches and ships them in a binary format through a retrying queue; its C server
parses that format in place and appends it to one file per branch.

The project models five linked parts and proves that they fit together:

- **Edits and replay** (`Splices`, `Diffs`, `Histories`): the splice `oninput`
  computes, and the cursor that plays a list of splices forward and back.
- **Branches and the editor session** (`Branches`, `Sessions`, `Editor`): a
  branch's history is rebuilt from ancestors that may still grow. `Sessions` is
  the state machine, `Editor` the same operations on shared, mutable objects.
- **Wire format, feed parser, synchronisation** (`Words`, `Wire`, `Feed`,
  `Grammar`, `Codec`, `Sync`): `Feed` is the server's loop with its 32-bit
  arithmetic and its in-place byte swaps, `Grammar` the stream reader that it
  amounts to on every payload and the language this reads, `Sync` the retry
  protocol with lost requests and lost replies.
- **Byte slices and HTTP** (`Slices`, `Find`, `Decimal`, `Http`).
- **Force layout** (`Layout`), over exact reals.

`EndToEnd` joins the session, the protocol and the server: after any run on the
root branch, replaying the server's log, with each batch in the place of what it
repeats, gives the text the editor held when the last delivered change was made;
the server's file decodes to that log, and replays to that text as it is unless a
batch arrived while the reply to the one before it was lost. From every state one
request that succeeds brings that log up to the last edit.

Where the code falls short of what it is for, the model keeps the code and states
exactly when it succeeds; where it takes a run or a payload to see it fail, one is
given:

- forking before the start of the current branch (`Sessions.ForkExactly`,
  `Sessions.ForkBefore`, `Sessions.ForkTakesTooMuch`);
- sliding in or reopening a branch in which nothing was typed
  (`Sessions.SlideOnFreshExactly`, `Sessions.ReopenExactly`,
  `Sessions.FreshBranchBlanks`);
- a random id that is already taken (`Branches.TakenIdLoopsExactly`,
  `Branches.TakenIdElsewhere`, `Sessions.RootIdLoops`);
- a negative argument to `slice` (`Branches.SliceStableExactly`);
- batches written twice after a lost reply (`Sync.LogIsPrefixOfRunExactly`,
  `Sync.LostReplyDoubles`);
- truncated headers and wrapping lengths in `feed` (`Grammar.FeedIsScan`,
  `Grammar.TruncatedHeaderAccepted`, `Grammar.HugeLengthsAccepted`,
  `Grammar.ShortRecordReadOn`);
- lengths beyond 32 bits and values that are no number in a request
  (`Http.CompleteExactlyModulo`, `Http.CompleteWithoutNumber`);
- needles `bfind` cannot find and occurrences it misses (`Find.CompleteExactly`,
  `Find.ReportedExactly`, `Http.SplitExactly`);
- unchecked slice ends (`Slices.BsliceInsideExactly`).

Texts are sequences of one-byte characters, so that a text and its encoding have
one length. Random ids, first positions and displacements, the time of network
events, the ids whose files can be opened, the bytes that follow a payload in
memory and the square root are parameters. Numbers in JavaScript are integers; the
32-bit and 64-bit widths that matter (`encode_int32`, the length fields of `feed`,
`btoi64`, `btoi`, `size_t`) are written out. The server is a little-endian host.

Verify the whole project with `dafny verify dfyconfig.toml`.

## Model

| member | source | states |
|---|---|---|
| Splices.SpliceIs | html/js/history.js:14-27 | what the `substr` expressions of `forward` and `back` make of any text, even one too short for the change |
| Splices.UndoRestoresExactly | html/js/history.js:14-27 | undoing a change right after applying it restores the text if and only if the change's old part stood at its place (or it is an idle change beyond the end) |
| Splices.UndoStep | html/js/history.js:19-28 | on a chain of fitting steps one step back leads to the replay of the shorter prefix |
| Diffs.ComputeDiff | html/js/editorview.js:42-62 | the loops compute the splice between the longest common prefix and the longest common suffix that still fits beside it |
| Diffs.DiffConnects | html/js/editorview.js:42-62 | the splice turns the old text into the new one and its reverse turns it back |
| Diffs.DiffOptimal | html/js/editorview.js:46-60 | no single splice between the two texts removes fewer or inserts fewer characters, and none starts further right |
| Diffs.DiffUnique | html/js/editorview.js:46-60 | these two properties single out the computed splice |
| Histories.History.StepForward | html/js/history.js:8-17 | one step forward: the next step is applied and the position grows by one, at the end nothing changes |
| Histories.History.StepBack | html/js/history.js:19-28 | one step back: the last step is undone and the position shrinks by one, at the start nothing changes |
| Histories.History.Go | html/js/history.js:30-40 | the loop ends at the target if it is in range, else at 0 or at the end, having walked there step by step |
| Histories.GoShows | html/js/history.js:30-40 | on a chain `go(k)` for k in range shows the replay of the first k steps |
| Histories.ReplayIsPathIndependent | html/js/history.js:8-40 | on a chain, after any sequence of forward, back and go the rendered text is the replay of the first `position` steps |
| Histories.PathIndependentExactlyOnChains | html/js/history.js:8-40 | that holds for a list of steps if and only if it is a chain |
| Branches.SliceFrontIs | html/js/branch.js:37-38 | what `slice(0, k)` reads is a prefix: k elements, all but -k for a negative k, all or none where there are not so many |
| Branches.SliceStableExactly | html/js/branch.js:37-38 | reading the front of a list that grows always gives the same answer if and only if the length asked for is neither negative nor beyond the list |
| Branches.PrecedingLength | html/js/branch.js:32-42 | a rebuilt preceding history has length exactly `pos` |
| Branches.PrecedingIsParentPrefix | html/js/branch.js:32-42 | it equals the first `pos` steps of the parent's full history |
| Branches.PrecedingExactlyFrom | html/js/branch.js:37-38 | for a child within the history of a parent whose own rebuilt preceding history has length `pos`, this holds if and only if the child does not start before its parent does |
| Branches.PrecedingIsStable | html/js/branch.js:32-42 | however any branches grow later, the preceding history of a branch never changes |
| Branches.StepsAfterPush | html/js/editorview.js:64-65 | pushing a change extends the history of that branch by one step and alters no other |
| Branches.AgreesWithAncestor | html/js/branch.js:28-42 | a branch agrees with every ancestor up to where the path between them leaves the ancestor |
| Branches.AgreesForever | html/js/branch.js:28-42 | that point never moves and the agreement survives all growth |
| Branches.RankedTerminates | html/js/branch.js:32-42 | with fresh nonzero ids and existing parents the recursion ends, within as many calls as the branch has elders |
| Branches.TakenIdLoopsExactly | html/js/editorview.js:78-82 | with an id already in use the recursion for the new branch ends if and only if the id is not that of the branch left or one of its ancestors |
| Branches.TakenIdElsewhere | html/js/branch.js:16-42 | if it ends, the branches that do not descend from the one replaced keep their preceding history, and those that do get the one rebuilt on the new branch |
| Branches.TakenIdChild | html/js/branch.js:16-42 | ... so that a child of the one replaced begins with the new branch's steps and with none of the old one's |
| Sessions.StepIsSafe | html/js/editorview.js:13-86 | input, slide, branch and reopen under the stated guards keep the safety invariant: steps equal the rebuilt history, the editor's text is the replay up to the cursor, and every branch typed in renders its whole history |
| Sessions.RunIsSafe | html/js/editorview.js:13-86 | safety over every guarded run |
| Sessions.SlideShows | html/js/editorview.js:13-18 | in a branch typed in, sliding to k shows the replay of the first k steps and changes nothing else |
| Sessions.HistoriesAreStable | html/js/branch.js:32-42 | over every guarded run a branch keeps its preceding history and its agreement with every ancestor |
| Sessions.ForkExactly | html/js/editorview.js:71-83 | a fork keeps the steps before the cursor if and only if the cursor is not before the start of the current branch |
| Sessions.ForkBefore | html/js/editorview.js:71-83 | a fork made n steps before the start of the current branch takes over all before that start and, of the changes since, all but the last n |
| Sessions.SlideOnFreshExactly | html/js/editorview.js:13-18 | in a branch nothing was typed in, the slider shows the right text for every target if and only if the inherited text is empty |
| Sessions.ReopenExactly | html/js/editorview.js:20-28 | reopening shows the text of the branch's history if and only if something was typed in it or it inherits the empty text |
| Sessions.FreshBranchBlanks | html/js/editorview.js:13-28 | after one character and a branch, a slide that goes nowhere and reopening both show the empty text in place of that character |
| Sessions.ForkTakesTooMuch | html/js/editorview.js:71-83 | after typing, branching, typing and sliding to the start, a fork takes over a step that lies ahead of the cursor |
| Sessions.RootIdLoops | html/js/editorview.js:78-82 | a first branch that draws the root's id never finds a history |
| Editor.Forest.NewBranch | html/js/branch.js:7-22 | the constructor files the object under its id and appends it to the document's list; the tree becomes that tree with the branch added |
| Editor.Forest.GetPrecedingHistory | html/js/branch.js:32-42 | the recursion over the shared objects yields the preceding history of the tree they stand for |
| Editor.EditorView.constructor | html/js/editorview.js:20-28 | opening the editor on empty globals is the start of the session machine |
| Editor.EditorView.Branchout | html/js/editorview.js:71-86 | takes exactly the session's fork step |
| Editor.EditorView.OnInput | html/js/editorview.js:33-69 | takes exactly the session's input step, forking first if the cursor is not at the end |
| Editor.EditorView.OnSlide | html/js/editorview.js:13-18 | takes exactly the session's slide step |
| Editor.EditorView.Enter | html/js/editorview.js:20-28 | takes exactly the session's reopen step |
| Words.EncodeInt32 | html/js/network.js:19-26 | the array holds n modulo 2^32 in big-endian for every integer n, despite the signed shift, the truncating remainder and the Uint8 store |
| Words.BigRoundTrip | src/server.c:246-283 | big-endian and little-endian words read back as the number written |
| Wire.TransferEncode | html/js/network.js:28-50 | the pieces join to one header for branch 1337 and one record per change |
| Wire.BatchInBytes | html/js/network.js:28-50 | the batch for one character typed, and what is kept of it, byte by byte |
| Wire.ReadKeptAll | src/server.c:37-42 | what the server keeps of a list, read as big-endian position and host-order lengths, is exactly that list |
| Wire.OnlyKeptReadsAll | src/server.c:37-42 | and a file that reads as a list is, byte for byte, what is kept of that list |
| Feed.NoDoubleWrap | src/server.c:281-285 | two lengths and the same lengths byte-swapped cannot both sum to -13 modulo 2^32 |
| Feed.RoundsBounded | src/server.c:232-299 | the loop ends on every payload, within two rounds per byte, even when a record's length wraps to 0 |
| Feed.LoopKeepsOutside | src/server.c:280-283 | no byte of memory outside the payload is changed |
| Feed.CreateEffect | src/server.c:250 | opening a branch file makes it if it was not there and leaves every file's contents, that one's too |
| Feed.WriteEffect | src/server.c:236-301 | a write appends to its own file and leaves every other |
| Feed.HandleFeed | src/server.c:221-304 | the handler's answer, the memory it leaves and the files it writes are those of the loop function, for every payload anywhere in memory |
| Feed.OnHeader | src/server.c:234-266 | one `b` step: the previous section is written first, then the id is read and its file opened |
| Feed.OnRecord | src/server.c:267-294 | one `i` step: both length fields are swapped in memory, then the record is rejected or added to the section |
| Grammar.LoopIsScan | src/server.c:232-303 | from every state the in-place loop answers and writes as a reader of a byte stream does that knows no buffer and no slice: lengths modulo 2^32, swapped once more where their sum wraps to 0, and a header accepted from its second byte on |
| Grammar.FeedIsScan | src/server.c:221-304 | hence that reader, given the payload and the three bytes behind it, says what `feed` answers and writes for every payload, regular or not |
| Grammar.RecordScanned | src/server.c:281-294 | one record, regular or not: how long it is taken to be, what of it is kept, when it is refused and what is read on |
| Grammar.CutId | src/server.c:238-246 | the id of a header that is cut off is completed by the bytes behind the payload |
| Grammar.FeedOnlyAppends | src/server.c:221-304 | whatever the payload, no file is lost or shortened, and none is made or written but those of headers that were reached and could be opened |
| Grammar.WriteAllByFile | src/server.c:236-301 | what sections leave, file by file: what was there, and then the records of the sections for that file in order |
| Grammar.FeedAcceptsExactly | src/server.c:232-303 | a payload is answered ok and is regular (no header cut off after two to four bytes, no lengths that overflow) if and only if it consists of sections of whole records |
| Grammar.FeedWritesSections | src/server.c:236-303 | then each section's records, lengths in host order, reach its own file in order, and no other file changes |
| Grammar.FeedRejects | src/server.c:236-298 | on rejection of a regular payload each file has got exactly the records of its sections that a later `b` closed, and of the failing one nothing |
| Grammar.TruncatedHeaderAccepted | src/server.c:238-259 | after any whole sections a last header cut off after two to four bytes is accepted if and only if the id completed from the memory behind the payload opens, and creates that file; no list of sections is such a payload |
| Grammar.WrappedRecordAccepted | src/server.c:281-293 | a record whose lengths overflow is accepted and stored when it is as long as their sum modulo 2^32 says; no list of sections is such a payload |
| Grammar.HugeLengthsAccepted | src/server.c:281-293 | eighteen bytes that announce two texts of 2^31 bytes are accepted |
| Grammar.ShortRecordReadOn | src/server.c:281-294 | of a record that claims eleven bytes the last two, swapped, are read as the next header |
| Codec.CodecRoundTrip | src/server.c:267-301 | for every list whose fields fit 32 bits `feed` accepts what `transferencode` makes of it and appends to file 1337 bytes that decode to exactly the list; every other file is there if it was, with the same bytes |
| Sync.Network.Tick | html/js/network.js:81-89 | with nothing in transfer the whole queue moves into transfer and is sent; otherwise nothing changes and nothing is sent |
| Sync.Network.OnDone | html/js/network.js:64-69 | status 200 forgets the batch, anything else puts it back before the queue |
| Sync.RunKeepsInv | html/js/network.js:54-93 | over every run with lost requests and replies, acknowledged, in-transfer and queued changes are those pushed, in order; at most one batch is outstanding; the log only continues or restarts at the last acknowledged change |
| Sync.EveryRun | html/js/network.js:54-93 | ... in particular over every run from an empty queue |
| Sync.ResendExtends | html/js/network.js:68-82 | a batch that failed is a prefix of the next one sent |
| Sync.TickSendsExactly | html/js/network.js:81-89 | in every reachable state a tick puts the whole nonempty queue on its way if no request is out, and changes nothing otherwise |
| Sync.NothingIsStuck | html/js/network.js:54-93 | from every reachable state, ending the request that is out and one round trip that succeeds leave everything acknowledged and nothing to send |
| Sync.DrainedIsStored | html/js/network.js:64-89 | the log, each batch in the place of what it repeats, is then every change ever made |
| Sync.SettledIsPrefix | html/js/network.js:64-89 | the log with each batch taking the place of what was written from its start on is exactly the first changes pushed |
| Sync.LogIsPrefixExactly | html/js/network.js:64-89 | in every ordered state the log as it is has that property if and only if no batch was written again |
| Sync.ArriveRepeatsExactly | html/js/network.js:64-89 | an arriving batch repeats what is in the log if and only if the batch before it is neither acknowledged nor has its reply on the way |
| Sync.LogIsPrefixOfRunExactly | html/js/network.js:54-93 | over every run from an empty queue the log as it is is the changes delivered if and only if, by the events alone, no batch arrives while the reply to the one before it is lost |
| Sync.LostReplyDoubles | html/js/network.js:54-93 | one change, one lost reply and one retry leave that change in the log twice |
| Sync.DoubledText | html/js/history.js:8-17 | what is stored then replays to a character typed once standing there twice |
| EndToEnd.FileIsWhatArrived | html/js/network.js:28-92 | after every run, with branches and losses, file 1337 decodes to the batches that arrived and there is no other file; these batches are the first changes typed if and only if none arrived while the reply to the one before it was lost |
| EndToEnd.FileReplaysToText | html/js/editorview.js:33-69 | on the root branch the file decodes to the server's log, and replaying the log with each batch in the place of what it repeats gives the editor's text as of the last delivered change |
| EndToEnd.FileReplaysAsItIs | html/js/network.js:54-93 | unless a batch arrived while the reply to the one before it was lost, the decoded file replays to that text as it is |
| EndToEnd.EditsReachTheServer | html/js/network.js:54-93 | from every state of a session on the root branch with changes not yet acknowledged, ending the request that is out and one request that succeeds bring the server's log to replay to the text as of the last edit |
| EndToEnd.UploadIsStored | src/http.c:68-112 | a posted batch in the connection's buffer is split off whole and stored by `feed` run in place |
| Slices.BsliceInsideExactly | src/bytes.c:159-174 | the result lies within the slice if and only if `end` is 0 or in range or `start` is past the end |
| Slices.BsliceUnchecked | src/bytes.c:159-174 | an `end` before `start` makes a slice of almost 2^64 bytes, one past the end a slice that runs on behind it |
| Slices.BsliceReads | src/bytes.c:159-174 | in range it reads as the named subsequence |
| Slices.PutReads | src/bytes.c:43-50 | what copying into a stretch of memory leaves at every address |
| Slices.Bcpy | src/bytes.c:43-50 | copies what fits and changes no other byte |
| Slices.Bcat | src/bytes.c:194-204 | saturating concatenation: the first bytes of a ++ b that fit, no write outside the destination |
| Decimal.Itob | src/bytes.c:107-133 | writes exactly the decimal text of every non-negative number, through digit extraction and in-place reversal |
| Decimal.DecimalText | src/bytes.c:107-133 | that text is not empty, has digits only and no leading zero but in 0 itself |
| Decimal.TextInBytes | src/bytes.c:107-133 | the text of -105, byte by byte |
| Decimal.ReverseInPlace | src/bytes.c:124-128 | the second loop reverses the stretch and nothing else |
| Decimal.ReadNumber | src/bytes.c:135-155 | the loop over local variables computes the reading function, overflow included |
| Decimal.DecimalRoundTrip | src/bytes.c:135-155 | the signed decimal text of n reads back as n, every accumulator in range, if and only if the magnitude of n is below 2^63 |
| Decimal.ReadsExactly | src/bytes.c:135-155 | any text: up to its first byte that is no digit it is read as a numeral, and that byte makes the number 0, unless the accumulator overflowed before |
| Find.FindLoop | src/bytes.c:210-233 | the loop reports the match of the scanning function, splitting the input there |
| Find.Bfind | src/bytes.c:210-233 | a reported match is the needle, and before, found and after make up the input |
| Find.CleanOccurrenceFound | src/bytes.c:210-233 | an occurrence at the start or after a byte not in the needle forces a match at or before it |
| Find.ReportedExactly | src/bytes.c:210-233 | an occurrence is the one reported if and only if the scan comes to it with nothing matched and nothing reported |
| Find.CompleteExactly | src/bytes.c:210-233 | a needle is found in every text that contains it if and only if all its bytes are equal |
| Find.NeedleDefeated | src/bytes.c:210-233 | any other needle is missed in its first byte followed by itself |
| Http.SplitExactly | src/http.c:72-86 | a buffer is split into the header part, the blank line and the body if and only if the scan leaves the header part with nothing matched |
| Http.PlainHeaderPart | src/http.c:72-86 | that holds for every header part without a blank line whose last byte is neither CR nor LF |
| Http.LastByteDoesNotDecide | src/http.c:72-86 | ... and for some whose last byte is CR or LF, but not for all |
| Http.ParamExtracted | src/http.c:61-66 | a field given once at a line start is extracted whole |
| Http.ParamAbsent | src/http.c:61-66 | a field that does not occur has the empty value |
| Http.FieldName | src/http.c:88 | the name that announces a body, with its colon and space |
| Http.TargetWithoutSpaces | src/http.c:107-110 | without a second space the rest of the header is the target, without any there is none |
| Http.CompleteExactlyAtLength | src/http.c:88-111 | a request with a proper Content-Length is complete if and only if exactly that many body bytes are there |
| Http.CompleteExactlyModulo | src/http.c:92-104 | for any announced number, negative or beyond 32 bits, the low 32 bits decide, sign-extended to 64 |
| Http.CompleteWithoutNumber | src/http.c:92-104 | a value that is empty or begins with no digit and no sign completes with the empty body only |
| Http.IncrementalParse | src/http.c:68-112 | of all prefixes and extensions of a well-formed request only the request itself is complete, and it yields its header, body and target |
| Http.UnannouncedBodyAccepted | src/http.c:88-111 | without the field any body is taken as complete |
| Layout.PairsCancel | html/js/graph.js:63-85 | the forces of two vertices on each other are opposite |
| Layout.ForceAlongLine | html/js/graph.js:63-85 | the force of a vertex on another has no part across the line between them (drawn at random for vertices closer than 0.1); along it, it is the constant repulsion plus, for an edge, a pull by as much as it is longer than its rest length |
| Layout.CentroidConserved | html/js/graph.js:58-95 | one update leaves the sums of x and y unchanged when no two vertices are displaced at random and edges pull on both ends |
| Layout.RunConservesCentroid | html/js/graph.js:58-95 | so does every run in which the vertices stay apart |
| Layout.MovesAlongForce | html/js/graph.js:90-94 | an update moves every vertex straight where the force on it points, and leaves it only without force; vertices and edges stay |
| Layout.RepelledMoveApart | html/js/graph.js:58-94 | two vertices without an edge are farther apart after an update |
| Layout.StepInNumbers | html/js/graph.js:58-94 | at a distance of 100 each goes 1 away without an edge, 1.5 nearer with one |
| Layout.VertexKeepsSymmetricExactly | html/js/graph.js:21-36 | making a vertex keeps edges two-sided if and only if no other vertex is linked to its id |
| Layout.BuiltGraphIsSymmetric | html/js/graph.js:38-56 | in every graph of vertices made first and edges after, edges pull on both ends |
| Layout.Graph.CreateVertex | html/js/graph.js:21-36 | a new vertex stands at the given place without edges, replaces any with its id and enters the enumeration in ascending place |
| Layout.Graph.CreateEdge | html/js/graph.js:38-56 | one line is appended to the list of edges and entered in the edge tables of both its ends, all else is unchanged |
| Layout.Graph.UpdateLayout | html/js/graph.js:58-95 | the nested force loops and the moving loop put every vertex where the force on it says, and change nothing but coordinates and recorded forces |

## Left out

- Sockets, TLS, epoll, SQLite, signals, path dispatch, login and user handlers: foreign calls and thin wrappers.
- `bprintf`, `bscanf`, `http_assemble_response`: their meaning is libc formatting.
- `http_websocket_parse`: its loop guard never lets the body run, and what was intended is not decided by the code.
- `fetchupdates` (html/js/user.js): it reads every other line of what the server prints; branches loaded from the server are not part of this model.
- `entereditorview` called again without a branch: it makes a second root with id 1; a session starts from empty globals here.
- UTF-16 and UTF-8: texts are sequences of one-byte characters, so splices that cut a surrogate pair do not occur.
- DOM views, the slider widget, drawing, the `time` of changes and branches.
- Partial or failing writes, an id whose file opens at one time and not at another, and a second writer of the same branch.
- The 4096-byte connection buffer, which no larger upload completes in.
- A request that the client gave up on and that reaches the server later: in `Sync` a request whose end the client has seen is gone.
- EndToEnd.FileReplaysToText: does not cover sessions that branch, because `transferencode` names branch 1337 for the changes of every branch; for those `EndToEnd.FileIsWhatArrived` speaks of the list of changes only.
- Layout.CentroidConserved: does not cover rounding or the random displacement of vertices closer than 0.1.
- Find.FindLoop: does not model the empty needle, for which the C loop reads beyond it, nor inputs over 2^31 bytes, where its `int` counter overflows.
- Http.ParseRequest: is undefined where `btoi64` overflows, as signed overflow is in C.
- Layout.Graph.CreateEdge: leaves out the colour and the size of a line, which only drawing reads.
- Editor.EditorView.OnInput: the global `queue` is a field of the view here and of `Sync.Network` there; `EndToEnd` joins the two as values.

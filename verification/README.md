# FOMO: a verified model of the workbench and its control plane

A Dafny model of the parts of FOMO in which state, ordering and fail-closed decisions meet, with proofs of what they
promise. `dafny verify dfyconfig.toml` checks the whole project.

## What is modelled

**Event delivery and replay.** A run's events are an append-only log. `EventStream` is the server's polling stream over
it, `Sse` the browser's chunked stream parser (a class proved against a reference parser; the format is that of sections
9.2.5 and 9.2.6 of the WHATWG HTML Living Standard, with the deviations of the code), `SseWire` what the server prints,
`SseLines` how any other line is read, `SseChunks` how it arrives in arbitrary chunks, `SseRoundTrip` and `SseCuts`
which frames come out of it, whole or cut, `DomainEventStream` its way to domain events, `Transport` the object that
decides what to resume. `Presentation` is the reducer, field by field and as the imperative switch;
`PresentationMeaning` and `WorklogMeaning` read what it shows off the list of events alone. `Replay` puts one writer,
any number of overlapping streams, one browser, answer responses, snapshots and stops into one step system;
`ReplayHistory` and `ReplayProofs` prove exactly-once replay over all its runs, `ReplayMeaning` what the browser then
shows. `WorklogView` and `WorklogProjection` are the visual filter over the worklog.

**The goal machine.** `GoalManager` is the execution of a frozen goal graph; `GoalRuns` proves it refines a counter,
from which safety, absence of deadlock and an exact step count follow, and `GoalGraphs` what its operations do to any
graph; `RegressionSuites`, `RouteScopes`, `FullValidation`, `RegressionSoundness` and `LastAcceptanceRuns` prove what
the selected verification suites are and guarantee over whole runs with arbitrary edits.

**Recognisers and accounting.** `StructuredOutput` proves the tool-trace automaton equal to a grammar, and
`StructuredFaults` each of its errors the first departure from it; `UsageLedger` the conservation of usage and
`SpendLimit` what bounds overspending, and when; `PlaywrightReport` the stack-based report parser equal to a recursive
reading, and `PlaywrightTrees` that reading to what a report prints.

**Builders and rewriters.** `LegacyAssets`, `LegacyTags`, `LinkPass` and `LegacyAssetsProofs` treat the tag rewriter of
the preview gateway; `CanonicalText`, `Starter`, `StarterOverlays`, `StarterDigests`, `StarterSelection` and
`StarterRefusals` the starter's digests, overlays and checks; `Acceptance`, `AcceptanceProofs`, `AcceptanceSuites`,
`AcceptanceFaults`, `AcceptanceNavigation` and `AcceptanceChecks` the acceptance compiler and its route checks.
`Ordered` is sorting by string keys, `Common` shared small types.

Objects and loops of the source are classes and loops here, each proved against a function of its input or old state;
expression code is functions. Errors are `Result` values. Clocks, the network, the database, hashing and the text of
generated tests are parameters.

## Where the code does not keep what one might expect

- A stream that closes because the run's status is terminal need not have yielded everything that existed at that
  status read: a listing holds at most 500 events (`services/control-plane/src/fomo/persistence/repository.py:2729`).
  It has exactly when no more than 500 were outstanding (`EventStream.StreamRunEvents`,
  `EventStream.TerminalStreamMayStopShort`).
- Reconnecting is refused after any event whose payload status reads as terminal, such as a failed check of a live run
  (`Transport.FailedCheckBlocksReconnect`); `Transport.ReconnectWhileLive` gives the exact condition.
- A CR-LF pair split over two chunks is read as two line ends (`Sse.ChunkInvariance`), which for a pair between two data
  lines makes two frames of one (`SseWire.SplitPairCutsFrameInTwo`). `SseRoundTrip.WireRoundTrip` says exactly which
  split pairs change what is dispatched; data printed on one line, as the server's JSON is, is never affected
  (`DomainEventStream.OneLineWireDeliversAll`).
- An answer response and its event do not commute completely: run status, answer time and message id come from
  whichever applies last (`PresentationProofs.AnswerRaceConfluence` says when the results are equal).
- Regression soundness holds for the content on which a goal's acceptance last *passed*, not always for the one it last
  *ran* on: a full suite may fail on a workspace that is then restored, after which a focused suite passes without the
  earlier goals (`LastAcceptanceRuns.LastRunMayBeStale`, in any graph of three goals or more).
  `LastAcceptanceRuns.LastRunIsSoundExactlyWhen` gives the exact condition, over every run; a full suite, and so the
  verification that makes the graph verified, always meets it (`LastAcceptanceRuns.VerifiedGraphRanOnItsFiles`).
- Goals whose ids differ need not compile together: route checks are written to the directory `navigation-v1`, which is
  also a goal id that no validator reserves. `AcceptanceNavigation.NavigationNameIsNotReserved` is the collision,
  `AcceptanceNavigation.ScopedGoalsCompile` when there is none.
- The spend limit bounds a run's overspend to one turn only while every reserved turn has been settled. As long as one
  is not, the usage totals of the run read as zero
  (`services/control-plane/src/fomo/persistence/repository.py:2495-2511`); a turn that was lost with its worker is never
  settled, and the run goes on under the same id. `SpendLimit.OverspendIsUnbounded` is the run;
  `SpendLimit.StartsOverLimitExactlyWhen` says when a turn starts over the limit and `SpendLimit.OverspendIsOneTurn`
  when the overspend is one turn, both over every run.
- A report nested beyond the recursion limit makes the report parser raise instead of failing closed: a `RecursionError`
  is not among the errors it catches (`services/control-plane/src/fomo/agent_runtime/playwright_reporter.py:157-160`).
- Reconnecting passes the cursor of whatever run the browser shows with the run the transport was given
  (`apps/web/lib/transport/agent-event-transport.ts:59-61` and `85-88`). When the workbench switches runs, it may resume
  the new run before its presentation is in place
  (`apps/web/components/workbench/project-workbench.tsx:466-521`). A stream opened above the run's own cursor skips
  events for good (`ReplayProofs.ForeignCursorSkips`); `ReplayProofs.OpenIsSafeExactlyWhen` is the exact condition.

## Assumptions

- Streams are opened at or below the cursor the browser has for that run (`Replay.Enabled`); the last point above says
  what happens otherwise.
- Appends of a run become visible in number order, numbered 1, 2, 3, ... (row lock and unique constraint:
  `services/control-plane/migrations/versions/0001_p0_baseline.py:86`), and a listing returns what is visible.
- A snapshot reports a last number no larger than the last event it lists.
- In `RegressionSoundness` the caller passes the union of what earlier goals changed, and an untrusted goal boundary
  forces a full suite, as the orchestrator does.
- SHA-256 is a function parameter. Where a theorem needs it to tell inputs apart, its injectivity is a precondition.
- Cost arithmetic is over real numbers.
- The prefix of the link rewriter is the path of an accepted preview URL: a slash, then no underscore, and no quote or
  angle bracket (`services/control-plane/src/fomo/preview_gateway.py:36-38` and the identifier appended to it).
- Where a theorem of `DomainEventStream` needs it, a proper prefix of an encoded event is not valid JSON
  (`PartsFail`).
- A verification that fails ran the acceptance of either all goals of its suite or of none: the acceptance gates follow
  all others and none of them is skipped (`services/control-plane/src/fomo/direct_pi/verification.py:405-421`).

## Model

| member | source | states |
|---|---|---|
| `Presentation.AdvanceStages` | apps/web/lib/events/reducer.ts:389-426 | the in-place stage loops give every stage the status its position relative to the phase calls for; `ready` completes all but an idle repair stage |
| `Presentation.ProjectWorklogEvent` | apps/web/lib/events/reducer.ts:976-1161 | the running worklog and active-message variables end as the item-by-item projection says, for every event kind |
| `Presentation.ReduceDomainEvent` | apps/web/lib/events/reducer.ts:1163-1309 | the switch that reassigns fields of a fresh copy equals the field-by-field reducer; foreign and old events change nothing |
| `PresentationProofs.UpsertCommutesWithTruncation` | apps/web/lib/events/reducer.ts:377-381 | truncating to the last n before or after a move-to-end gives the same last n |
| `PresentationProofs.WorklogIsMostRecentlyTouched` | apps/web/lib/events/reducer.ts:377-381 | over any event sequence the bounded worklog is exactly the 80 most recently touched items of the unbounded list, in touch order |
| `PresentationProofs.WorklogInvariant` | apps/web/lib/events/reducer.ts:924-934 | at most 80 items, distinct ids, event numbers strictly increasing and at or below the cursor |
| `PresentationProofs.AtMostOneStageWorks` | apps/web/lib/events/reducer.ts:389-426 | no event sequence ever leaves two stages working |
| `PresentationProofs.CreatedIsOk` | apps/web/lib/events/reducer.ts:428-458 | a created presentation meets what every property of runs starts from, stage by stage; its one request is the pending one |
| `PresentationProofs.ReplaceKeepsRequests` | apps/web/lib/events/reducer.ts:239-247 | merging or appending a request keeps ids distinct, the bound of 80 and at most one pending request |
| `PresentationProofs.AtMostOneOpenQuestion` | apps/web/lib/events/reducer.ts:592-640 | under any interleaving of events, answer responses, snapshots and stops: distinct ids, at most 80 requests, at most one pending |
| `PresentationProofs.AnswerPostIsLocal` | apps/web/lib/events/reducer.ts:592-611 | an answer response changes nothing but one request, and the run status only while that request is still pending |
| `PresentationProofs.AnswerRaceConfluence` | apps/web/lib/events/reducer.ts:1235-1248 | response-then-event and event-then-response agree on position, status, both event numbers and the cursor; the two states are equal if and only if run status, answer time and message id agree at their sources |
| `PresentationProofs.PostThenEvent` | apps/web/lib/events/reducer.ts:1235-1248 | the exact state after the response followed by the event |
| `PresentationProofs.EventThenPost` | apps/web/lib/events/reducer.ts:592-611 | the exact state after the event followed by the response: the run status is not overwritten any more |
| `PresentationMeaning.RefusedExactlyWhen` | apps/web/lib/events/reducer.ts:1163-1176 | an event is refused if and only if it is of another run or not past the cursor; otherwise it moves run, cursor and goal graph as stated |
| `PresentationMeaning.EventDecidesStatus` | apps/web/lib/events/reducer.ts:1187-1234 | the run status after each kind of event: completed, cancelled, waiting, failed, or the word it carries |
| `PresentationMeaning.StatusOfReplay` | apps/web/lib/events/reducer.ts:1187-1234 | over every event sequence the run status is what the last event that counts and says anything of it says |
| `PresentationMeaning.EventMovesStages` | apps/web/lib/events/reducer.ts:389-426 | what each event makes of each stage: completion completes, failure fails exactly what was working, a change of phase starts one stage |
| `PresentationMeaning.StagesOfReplay` | apps/web/lib/events/reducer.ts:1187-1212 | over every event sequence a stage works exactly when the last event that moved the stages started it, since then |
| `PresentationMeaning.QuestionIsAsked` | apps/web/lib/events/reducer.ts:1222-1234 | the question is open, at the number of the event, and every other one that was open lapses |
| `PresentationMeaning.QuestionIsSettled` | apps/web/lib/events/reducer.ts:1213-1248 | a cancellation cancels exactly the open questions and an answer settles exactly the one it names, at the number of the event |
| `PresentationMeaning.OpenQuestionOfReplay` | apps/web/lib/events/reducer.ts:1213-1248 | over every event sequence a question is open exactly when the last event that concerns it asks it |
| `PresentationMeaning.SnapshotNamesTheOpenQuestion` | apps/web/lib/events/reducer.ts:614-632 | after a snapshot with a question that one is in the list as the server has it, and every other open one has lapsed |
| `PresentationMeaning.SnapshotWithoutQuestion` | apps/web/lib/events/reducer.ts:633-639 | after a snapshot without one exactly the open questions have lapsed |
| `PresentationMeaning.AnswerIsRecorded` | apps/web/lib/events/reducer.ts:592-611 | an answer response settles its question, known before or not, and the run status follows exactly while it was open |
| `PresentationMeaning.StopCancels` | apps/web/components/workbench/project-workbench.tsx:610-622 | stopping the run cancels it and exactly its open questions |
| `WorklogMeaning.EventShows` | apps/web/lib/events/reducer.ts:976-1161 | an event with something to show is the newest item of the worklog, of the stated kind, name and status; any other leaves the worklog alone |
| `WorklogMeaning.EventFiles` | apps/web/lib/events/reducer.ts:936-945 | messages and tool calls keep the stage they began in; every other item has that of its event |
| `WorklogMeaning.WorklogOfReplay` | apps/web/lib/events/reducer.ts:976-1161 | over every event sequence each item of the worklog shows an event that counts, with its number |
| `WorklogMeaning.MessageOfReplay` | apps/web/lib/events/reducer.ts:985-1031 | over every event sequence all deltas between two closings add to one message, named after the first of them |
| `WorklogMeaning.MessageShows` | apps/web/lib/events/reducer.ts:985-1031 | a delta and its completion show as one item |
| `EventStream.ListIsNextSlice` | services/control-plane/src/fomo/persistence/repository.py:2728-2743 | a listing is the next contiguous slice of the log after the cursor, at most 500 events long |
| `EventStream.StartCursor` | services/control-plane/src/fomo/api/app.py:769-774 | the stream starts at the larger of the query cursor and the header cursor; an unreadable header is refused |
| `EventStream.YieldBatch` | services/control-plane/src/fomo/api/app.py:108-115 | one pass yields the listed events in order and moves the cursor to the last of them |
| `EventStream.StreamRunEvents` | services/control-plane/src/fomo/api/app.py:89-118 | the polls that list are those before the first disconnected or revoked one and up to the first terminal one; they yield the gap-free run of the log up to where their listings lead, and nothing else is yielded; which end is reported, and on a terminal close when everything up to the status read was yielded |
| `EventStream.TerminalStreamMayStopShort` | services/control-plane/src/fomo/api/app.py:108-117 | with 501 unread events the terminal listing leaves one behind |
| `EventStream.ListsIsUnique` | services/control-plane/src/fomo/api/app.py:99-117 | there is one answer to which polls of a stream list |
| `EventStream.EachPollYields` | services/control-plane/src/fomo/api/app.py:108-115 | each listing yields all it can up to 500 events, and the cursor goes neither back nor past what was listed |
| `EventStream.PollsCatchUp` | services/control-plane/src/fomo/api/app.py:99-118 | n polls reach 500 n further events, or all there were |
| `Replay.PollKeepsStream` | services/control-plane/src/fomo/api/app.py:108-115 | a poll keeps what is in flight equal to the log between what was delivered and the cursor |
| `Replay.PollsAreTheGenerator` | services/control-plane/src/fomo/api/app.py:99-118 | for any polls the step system puts in flight exactly what the generator yields |
| `Replay.AcceptExtendsFold` | apps/web/lib/events/reducer.ts:1163-1176 | an event with the next number extends the fold by one, an older one changes nothing |
| `Replay.ReplayPrefix` | apps/web/components/workbench/project-workbench.tsx:487-489 | replaying a snapshot onto any consistent client brings it to the larger of the two positions of the fold |
| `Replay.StepKeepsConsistent` | apps/web/lib/transport/agent-event-transport.ts:82-141 | every step of writer, streams, browser and reconciliations keeps the replay invariant |
| `ReplayProofs.ExactlyOnceReplay` | apps/web/lib/transport/agent-event-transport.ts:78-120 | in every reachable state the client is what the first `lastSeq` events of the log, each once and in order, and the answers, snapshots and stops of the run among them make of the initial one; on all they never touch it is the plain fold; no live stream has delivered beyond that cursor |
| `ReplayHistory.StepExplained` | apps/web/lib/transport/agent-event-transport.ts:82-141 | every step adds to the history of the client the next event of the log, what the step itself does to it, or nothing |
| `ReplayProofs.ReachableClientIsOk` | apps/web/lib/events/reducer.ts:1163-1309 | every reachable client keeps its requests well formed, at most one stage working, and a bounded ordered worklog |
| `ReplayProofs.StreamedClientIsTheFold` | apps/web/lib/events/reducer.ts:1163-1176 | while only streams touch the client, the whole presentation equals that fold |
| `ReplayProofs.CursorIsMonotone` | apps/web/lib/events/reducer.ts:1163-1176 | no step moves the cursor back |
| `ReplayProofs.OpenIsSafeExactlyWhen` | apps/web/lib/transport/agent-event-transport.ts:82-89 | opening a stream keeps replay free of gaps if and only if it is opened at or below the cursor of the browser for that run |
| `ReplayProofs.ForeignCursorSkips` | apps/web/lib/transport/agent-event-transport.ts:85-88 | a stream opened above that cursor folds a later event first, after which the events between are never accepted |
| `ReplayProofs.EndedStreamsStayEnded` | services/control-plane/src/fomo/api/app.py:99-118 | whatever the steps, a stream that stopped polling lists nothing more and one that was cut never delivers again |
| `ReplayProofs.StopAndCut` | apps/web/lib/transport/agent-event-transport.ts:106-141 | what stopping and cutting a stream does, and that it does nothing else |
| `ReplayProofs.Drain` | services/control-plane/src/fomo/api/app.py:99-118 | from any consistent state deliveries and polls of one stream that bring the client to the end of the log |
| `ReplayProofs.EveryFairScheduleCatchesUp` | services/control-plane/src/fomo/api/app.py:99-118 | under every schedule of everything that goes on, a stream that stays connected has brought the client to the end of the log after two advancing turns for each event; while it has not, such a turn is possible |
| `ReplayProofs.ReconnectCatchesUp` | apps/web/lib/transport/agent-event-transport.ts:82-89 | from any reachable state a reconnect at the client cursor can recover every missing event |
| `ReplayProofs.EveryReconnectCatchesUp` | apps/web/lib/transport/agent-event-transport.ts:82-89 | after a reconnect two advancing turns for each missing or appended event recover everything, under every schedule |
| `ReplayMeaning.ClientShowsTheLog` | apps/web/lib/events/reducer.ts:1163-1309 | in every reachable state the stages, the worklog and the open message are read off the events of the log up to the cursor; each worklog item shows the event of its number |
| `ReplayMeaning.StreamedClientShowsTheLog` | apps/web/lib/events/reducer.ts:1163-1309 | while only streams touch the client, so are the run status and the open question |
| `ReplayMeaning.CompletedRunShowsCompleted` | apps/web/lib/events/reducer.ts:1193-1196 | a client with the whole log of a completed run shows it completed |
| `ReplayMeaning.SnapshotSettlesQuestions` | apps/web/lib/events/reducer.ts:614-640 | in every reachable state a snapshot leaves exactly the question of the server open |
| `Transport.AgentEventTransport.constructor` | apps/web/lib/transport/agent-event-transport.ts:53-57 | starts with no run and nothing finished |
| `Transport.AgentEventTransport.Hydrate` | apps/web/lib/transport/agent-event-transport.ts:59-61 | replaces the active run and nothing else |
| `Transport.AgentEventTransport.SendMessages` | apps/web/lib/transport/agent-event-transport.ts:63-80 | makes the started run active, forgets that it looked finished, and opens it at cursor zero |
| `Transport.AgentEventTransport.ReconnectToStream` | apps/web/lib/transport/agent-event-transport.ts:82-89 | offers the active run at the last cursor unless there is none or it looked finished since it was started |
| `Transport.AgentEventTransport.Consume` | apps/web/lib/transport/agent-event-transport.ts:115-124 | hands every event on in order and remembers exactly the runs of the terminal-looking ones |
| `Transport.RefusedExactlyWhenLookedTerminal` | apps/web/lib/transport/agent-event-transport.ts:46-51 | a run is refused if and only if a terminal-looking event of it arrived after it was last started |
| `Transport.FailedCheckBlocksReconnect` | apps/web/lib/transport/agent-event-transport.ts:46-51 | one failed check of a live run is enough to have its reconnect refused |
| `Transport.ReconnectWhileLive` | apps/web/lib/transport/agent-event-transport.ts:85-88 | a run that has not ended stays resumable exactly when no event of it said one of the five words for an end |
| `Transport.EndedRunIsRefused` | apps/web/lib/transport/agent-event-transport.ts:46-51 | a run whose completion, failure or cancellation was received, with a status or without, is not resumed until it starts anew |
| `Sse.SseParser.constructor` | apps/web/lib/events/sse.ts:17-21 | an empty parser |
| `Sse.SseParser.Feed` | apps/web/lib/events/sse.ts:23-30 | the parser state after any chunks is that of the reference parser on the normalised text so far |
| `Sse.SseParser.Finish` | apps/web/lib/events/sse.ts:32-38 | the frames of a finished stream are those of the reference parser, the unterminated last frame included |
| `Sse.SseParser.ConsumeLine` | apps/web/lib/events/sse.ts:40-58 | blank lines dispatch, comments are skipped, one leading space of a value is dropped, unknown fields are ignored |
| `Sse.SseParser.Emit` | apps/web/lib/events/sse.ts:60-69 | only frames with data are dispatched, and nothing carries over |
| `Sse.SplitResumes` | apps/web/lib/events/sse.ts:25-26 | splitting can be resumed from the unfinished last line |
| `Sse.NormalizeAppend` | apps/web/lib/events/sse.ts:24 | line ends normalise across a chunk boundary as within a chunk if and only if the boundary splits no CR-LF pair |
| `Sse.ChunkInvariance` | apps/web/lib/events/sse.ts:23-30 | the text the parser sees is that of the unchunked stream if and only if no boundary splits a CR-LF pair, and longer otherwise; then the frames are the same too |
| `SseWire.NormalizedText` | apps/web/lib/events/sse.ts:24 | all three line endings read alike |
| `SseChunks.ChunksArrive` | apps/web/lib/events/sse.ts:24 | normalising chunk by chunk is normalising each pair as one line end unless its line feed starts a chunk |
| `SseChunks.WireArrives` | apps/web/lib/events/sse.ts:23-30 | what has arrived of a wire reads as its whole lines, with a blank one behind each split pair, and a piece of the next |
| `SseRoundTrip.WireRoundTrip` | apps/web/lib/events/sse.ts:23-69 | printed frames, with comments anywhere between them, in any chunks: they parse back to the same data in the same order if and only if no pair is split between two data lines of a frame, and to the same frames if and only if none is split inside a frame |
| `SseRoundTrip.OneLineDataIsNeverTorn` | apps/web/lib/events/sse.ts:23-69 | data without line feeds is torn by no chunking |
| `SseCuts.CutWireIsTrueUpToLast` | apps/web/lib/events/sse.ts:32-38 | a connection cut anywhere, in any chunks, gives true data up to a frame whose data is cut short; nothing follows that one unless a pair was split between data lines, and names are kept unless one was split inside a frame |
| `SseWire.SplitPairCutsFrameInTwo` | apps/web/lib/events/sse.ts:24 | a pair split between two data lines turns one frame into two, for every such frame |
| `SseLines.LineReads` | apps/web/lib/events/sse.ts:40-58 | of any line: the field before the first colon, and the value behind it less one leading space |
| `SseLines.NoiseIsIgnored` | apps/web/lib/events/sse.ts:40-58 | comments and unknown fields can be taken out of a stream anywhere and the frames stay the same |
| `SseLines.BlockGivesItsFrame` | apps/web/lib/events/sse.ts:32-69 | fields in any order give one frame with the data joined and the last event and id, ended by a blank line or by the end; without data, none |
| `DomainEventStream.HandOn` | apps/web/lib/events/sse.ts:80-85 | events are handed on in frame order until the first malformed frame |
| `DomainEventStream.ConsumeDomainEventStream` | apps/web/lib/events/sse.ts:72-96 | reading to the end delivers what the frames of the whole text decode to, up to the first malformed one |
| `DomainEventStream.IntactWireDeliversAll` | apps/web/lib/events/sse.ts:72-96 | an intact wire, in any chunks, delivers exactly the printed events unless a pair is split between two data lines of a frame, and if parts of events fail to parse only then |
| `DomainEventStream.OneLineWireDeliversAll` | apps/web/lib/events/sse.ts:72-96 | events printed on one line are all delivered, whatever the chunks |
| `DomainEventStream.CutWireDeliversPrefix` | apps/web/lib/events/sse.ts:72-96 | a cut wire, in any chunks, delivers a prefix of the events, although the parser dispatches the unterminated frame and torn frames in pieces |
| `SseLines.IgnoredIsSkipped` | apps/web/lib/events/sse.ts:80-85 | a frame that is JSON but no event is skipped, wherever it stands |
| `SseLines.MalformedEndsTheStream` | apps/web/lib/events/sse.ts:80-85 | a frame that is not JSON ends the stream, keeping what was delivered |
| `GoalManager.ValidateGoalTopology` | services/control-plane/src/fomo/direct_pi/goalgraph.py:253-268 | accepts exactly the graphs with unique ids whose dependencies come earlier |
| `GoalManager.FirstRunnable` | services/control-plane/src/fomo/direct_pi/goal_manager.py:233-241 | the first pending goal in frozen order with all dependencies verified, or none if there is none |
| `GoalManager.SetGoalStatus` | services/control-plane/src/fomo/direct_pi/goal_manager.py:201-205 | the copying loop changes the first goal of that id and nothing else |
| `GoalRuns.OpRefinesMove` | services/control-plane/src/fomo/direct_pi/goal_manager.py:213-311 | each operation is one move of a counter (goals verified, phase of the next) and raises exactly when there is no such move |
| `GoalRuns.RunRefinesCounter` | services/control-plane/src/fomo/direct_pi/goal_manager.py:192-311 | every run of operations is a run of the counter, with its changes and retries accounted for |
| `GoalRuns.GoalMachineSafety` | services/control-plane/src/fomo/direct_pi/goal_manager.py:172-311 | at most one current goal, dependencies verified before work, verified goals a prefix, and the graph verified exactly when all goals are |
| `GoalRuns.VerifiedNeverRegresses` | services/control-plane/src/fomo/direct_pi/goal_manager.py:192-210 | a verified goal stays verified |
| `GoalRuns.VerificationOrderExtendsDependencies` | services/control-plane/src/fomo/direct_pi/goal_manager.py:292-311 | a goal becomes verified only by verification and only after everything it depends on |
| `GoalRuns.NeverBlocked` | services/control-plane/src/fomo/direct_pi/goal_manager.py:244-261 | activation succeeds in every reachable state exactly while a goal is unverified |
| `GoalRuns.ExactStepCount` | services/control-plane/src/fomo/direct_pi/goal_manager.py:244-311 | the graph is verified exactly after three changes a goal plus two a retry, and never more happen |
| `GoalRuns.SelectionNeverBlocksWhenAcyclic` | services/control-plane/src/fomo/direct_pi/goal_manager.py:213-241 | on any acyclic graph, whatever its order, selection finds a runnable goal while one is pending |
| `GoalGraphs.GoalHistoriesAreOrderly` | services/control-plane/src/fomo/direct_pi/goalgraph.py:795-811 | along every path of the transition table a goal is verified only after a claim, claimed only after it was active, never pending again, and ends where the table ends |
| `GoalGraphs.GraphHistoriesEndAtOnce` | services/control-plane/src/fomo/direct_pi/goalgraph.py:780-793 | a graph changes its status at most once |
| `GoalGraphs.InactiveGraphIsRefused` | services/control-plane/src/fomo/direct_pi/goal_manager.py:172-174 | no operation and no suite for a graph that is not active, with the stated error |
| `GoalGraphs.ConflictingGraphIsRefused` | services/control-plane/src/fomo/direct_pi/goal_manager.py:164-169 | nor for one with two current goals |
| `GoalGraphs.WrongOperationIsRefused` | services/control-plane/src/fomo/direct_pi/goal_manager.py:225-311 | with one current goal exactly the operations of its status are let through |
| `GoalGraphs.IdleGraphOnlyActivates` | services/control-plane/src/fomo/direct_pi/goal_manager.py:244-261 | with none only an activation can succeed, and it is blocked exactly when no goal is runnable |
| `GoalGraphs.UnorderedGraphIsRefused` | services/control-plane/src/fomo/direct_pi/goal_manager.py:177-210 | the right operation is refused on a graph that is not well ordered or repeats the id |
| `GoalGraphs.OperationsReturnValidGraphs` | services/control-plane/src/fomo/direct_pi/goal_manager.py:185-210 | of any graph at all: an operation returns it as it was, or moves one goal along the table into a well ordered graph with one current goal at most |
| `RegressionSuites.NavigationDerives` | services/control-plane/src/fomo/direct_pi/goalgraph.py:709-738 | the route checks of every suite the machine selects can be derived, and whether there are any |
| `RegressionSuites.RootIsSelected` | services/control-plane/src/fomo/direct_pi/goalgraph.py:271-372 | a full suite that owns a route owns the root route |
| `RegressionSuites.SuiteAtClaim` | services/control-plane/src/fomo/direct_pi/goal_manager.py:314-372 | with a goal claimed the suite exists unless a wrong reason for a full one is given early; it passes its constructor, covers the goal alone or the whole verified prefix with it, and gives the first reason that applies |
| `RegressionSuites.FinalSuiteVerifiesGraph` | services/control-plane/src/fomo/direct_pi/goal_manager.py:292-372 | over every run: when a suite can be built, that the graph turns verified on exactly the step whose suite was the final one, with all goals once, and that every suite checks the routes its goals own |
| `RegressionSuites.SuiteNavigationAtClaim` | services/control-plane/src/fomo/direct_pi/goal_manager.py:357-372 | a suite has route checks if and only if the schema is current and one of its goals owns a route; they are for exactly those routes, each once and in frozen order, in the mode of the suite |
| `RouteScopes.NavigationOfAnyGraph` | services/control-plane/src/fomo/direct_pi/goalgraph.py:709-738 | of any graph and any scope: exactly when deriving the route checks raises |
| `FullValidation.ConfigurationIs` | services/control-plane/src/fomo/direct_pi/goal_manager.py:375-411 | the test for changed configuration finds exactly the package and workspace files, the configurations of the four tools in three languages, and any `tsconfig*.json` at the root |
| `FullValidation.FullExactlyWhen` | services/control-plane/src/fomo/direct_pi/orchestrator.py:1313-1329 | over every run of edits: a suite is full if and only if the goal is the last, the boundary is not trusted, configuration changed, or a file that a verified goal had changed; and for which reason |
| `FullValidation.DistrustLasts` | services/control-plane/src/fomo/direct_pi/orchestrator.py:1317-1403 | over every run distrust in the boundary lasts until a verification passes or a restart from a listed checkpoint |
| `FullValidation.WhatDistrusts` | services/control-plane/src/fomo/direct_pi/orchestrator.py:840-858 | which events take trust from the boundary |
| `FullValidation.ChangesAreRecorded` | services/control-plane/src/fomo/direct_pi/orchestrator.py:1390-1403 | over every run a verification records every path on which the workspace differs from the last checkpoint, if the audit of a distrusted boundary is true |
| `RegressionSoundness.SkippedGoalsAreUntouched` | services/control-plane/src/fomo/direct_pi/goal_manager.py:398-414 | a suite leaves a verified goal out only when none of the files it changed was changed |
| `RegressionSoundness.VerificationKeepsSound` | services/control-plane/src/fomo/direct_pi/orchestrator.py:1279-1329 | a passing verification keeps what every verified goal changed equal to what its acceptance last passed on |
| `RegressionSoundness.RegressionSoundness` | services/control-plane/src/fomo/direct_pi/goal_manager.py:314-414 | over every run of edits, drift, resumes, restarts from the checkpoint, retries and verifications: after each verification every file a verified goal changed has the content under which that goal last passed |
| `LastAcceptanceRuns.LastRunIsSoundExactlyWhen` | services/control-plane/src/fomo/direct_pi/orchestrator.py:1313-1480 | over every run, after a passing verification a file that a goal changed is as its acceptance last ran on it, whatever came of that, if and only if the suite ran the goal again, or no verification that ran it failed since it passed, or the last that did had the file as in the checkpoint |
| `LastAcceptanceRuns.LastRunMayBeStale` | services/control-plane/src/fomo/direct_pi/goal_manager.py:314-414 | in any graph of three goals or more a run in which a goal last ran on a broken file that was restored before a focused suite passed |
| `LastAcceptanceRuns.FullSuiteRunsEverything` | services/control-plane/src/fomo/direct_pi/goal_manager.py:314-372 | after a full suite passed every verified goal last ran, and passed, on the files in the workspace |
| `LastAcceptanceRuns.VerifiedGraphRanOnItsFiles` | services/control-plane/src/fomo/direct_pi/goal_manager.py:292-372 | the verification that makes the graph verified has run every goal on the files it leaves |
| `StructuredOutput.StructuredOutputText` | services/control-plane/src/fomo/direct_pi/session.py:650-739 | the event loop returns the scan verdict, and only on accepted traces |
| `StructuredOutput.StepExtends` | services/control-plane/src/fomo/direct_pi/session.py:663-718 | an accepted tool event extends the trace grammar by exactly that event |
| `StructuredOutput.FittingTraceIsScanned` | services/control-plane/src/fomo/direct_pi/session.py:663-718 | every trace of the grammar survives the scan and yields its successful attempt |
| `StructuredOutput.RecogniserIsExact` | services/control-plane/src/fomo/direct_pi/session.py:650-739 | a text is returned if and only if the tool events are failed attempts, one success and nothing more, and the text is that of the success |
| `StructuredOutput.SuccessIsUnique` | services/control-plane/src/fomo/direct_pi/session.py:713-718 | a trace has at most one successful result |
| `StructuredFaults.ErrorIsTheFirstFault` | services/control-plane/src/fomo/direct_pi/session.py:650-739 | a trace is refused with an error if and only if, up to some event, it fits the grammar and that event is this fault, or it fits as a whole and is this kind of no answer |
| `StructuredFaults.NothingSucceedsTwice` | services/control-plane/src/fomo/direct_pi/session.py:709-715 | the check for a second success can never fail |
| `UsageLedger.Round` | services/control-plane/src/fomo/direct_pi/session.py:537 | nearest integer, ties to even |
| `UsageLedger.UsageTelescopes` | services/control-plane/src/fomo/direct_pi/session.py:491-541 | over a chained run recorded counters are non-negative and sum to last minus first; recorded cost is off by at most half a micro-unit a turn |
| `UsageLedger.SettleIsIdempotent` | services/control-plane/src/fomo/persistence/repository.py:2516-2649 | settling twice changes nothing, settling differently is refused |
| `UsageLedger.UsageDeltaMeans` | services/control-plane/src/fomo/direct_pi/session.py:491-541 | a turn is charged exactly what lies between two well-formed reports, if nothing moved backwards; natural counters, and from zero without initial ones |
| `UsageLedger.SettleMeans` | services/control-plane/src/fomo/persistence/repository.py:2588-2649 | only the holder of the token settles a reservation, once, and nothing but that entry changes |
| `UsageLedger.UnknownIsNotSettled` | services/control-plane/src/fomo/persistence/repository.py:2618-2619 | a request without a reservation is refused as unknown |
| `UsageLedger.DirectPiSession.constructor` | services/control-plane/src/fomo/direct_pi/session.py:117-131 | a session on the durable ledger of its run, which earlier sessions may have left, and the spend limit |
| `UsageLedger.DirectPiSession.CheckDurableBudget` | services/control-plane/src/fomo/direct_pi/session.py:463-489 | a new turn needs the spend that is read below the limit, a finished one not above it; nothing is read while a reservation is unsettled |
| `UsageLedger.RemainingSpendBudget` | services/control-plane/src/fomo/direct_pi/orchestrator.py:1984-1999 | what a new key may spend: settled spend and it make up the limit, and it is the full limit again while a reservation is unsettled |
| `UsageLedger.DirectPiSession.ReserveUsage` | services/control-plane/src/fomo/direct_pi/session.py:163-167 | a reservation is recorded at zero cost |
| `UsageLedger.DirectPiSession.Invoke` | services/control-plane/src/fomo/direct_pi/session.py:137-240 | check, reserve, re-check, run, settle, check again: a turn succeeds if and only if it was charged, is active afterwards and leaves the spend within the limit; cancelled, over budget and failed transport are each reported exactly when the first failing check is one of that kind |
| `SpendLimit.SpendIsMonotone` | services/control-plane/src/fomo/direct_pi/session.py:463-489 | settled spend never goes down over a run, whatever ledger it started from |
| `SpendLimit.UnsettledExactlyWhen` | services/control-plane/src/fomo/persistence/repository.py:2495-2511 | over every run the totals can be read exactly as long as no call reserved a turn and left it unsettled |
| `SpendLimit.StartsOverLimitExactlyWhen` | services/control-plane/src/fomo/direct_pi/session.py:463-489 | over every run a turn starts with the spend at or over a positive limit if and only if it is active and some turn, of an earlier call or an earlier session, was left unsettled |
| `SpendLimit.AtMostOneTurnCrosses` | services/control-plane/src/fomo/direct_pi/session.py:137-138 | at most one turn of a run crosses the limit, and after it another starts if and only if it is active and some turn before it was left unsettled |
| `SpendLimit.OverspendIsOneTurn` | services/control-plane/src/fomo/direct_pi/session.py:219-225 | a run over the limit has spent what was below it plus one turn if and only if no later call was active, cost something and came after an unsettled turn |
| `SpendLimit.SettledRunOverspendsOneTurn` | services/control-plane/src/fomo/direct_pi/session.py:137-138 | while every reserved turn was settled the overspend is one turn and no later turn starts |
| `SpendLimit.OverspendIsUnbounded` | services/control-plane/src/fomo/persistence/repository.py:2495-2511 | after one turn that was lost any number of turns start, each of the whole limit, and the next key has the full budget |
| `PlaywrightReport.ResultStatus` | services/control-plane/src/fomo/agent_runtime/playwright_reporter.py:55-76 | valid exactly for a non-empty list of results with statuses; the last one decides |
| `PlaywrightReport.CollectSpecs` | services/control-plane/src/fomo/agent_runtime/playwright_reporter.py:172-193 | the stack loop ends, fails exactly on a malformed suite, and collects every spec of the tree once |
| `PlaywrightReport.ReadSpec` | services/control-plane/src/fomo/agent_runtime/playwright_reporter.py:196-222 | one spec gives its tests in order and its load errors, or fails exactly when malformed |
| `PlaywrightReport.ReadSpecs` | services/control-plane/src/fomo/agent_runtime/playwright_reporter.py:195-222 | the list loop equals the recursive reading |
| `PlaywrightReport.ShapesAndSpecs` | services/control-plane/src/fomo/agent_runtime/playwright_reporter.py:172-193 | a tree is well formed exactly when its shape and all its specs are |
| `PlaywrightReport.OrderIsIrrelevant` | services/control-plane/src/fomo/agent_runtime/playwright_reporter.py:174-222 | visiting the specs in another order finds the same tests and errors |
| `PlaywrightReport.ParsePlaywrightJson` | services/control-plane/src/fomo/agent_runtime/playwright_reporter.py:143-244 | fails closed exactly on an oversized, unparsable or somewhere malformed report and raises exactly on one too deep to parse; otherwise counts are the recursive ones, and the status is passed, failed or did not run exactly for one test of the stated kind |
| `PlaywrightTrees.WellFormedExactly` | services/control-plane/src/fomo/agent_runtime/playwright_reporter.py:161-222 | a report is refused if and only if its top is malformed or some suite of it is, at whatever depth, with its specs, tests and results |
| `PlaywrightTrees.PrintedReportReadsBack` | services/control-plane/src/fomo/agent_runtime/playwright_reporter.py:161-222 | a printed report reads back as its tests in document order, each with its last result, and its load errors |
| `LegacyAssets.FindClosing` | services/control-plane/src/fomo/preview_gateway.py:495-505 | the quote-aware scan finds the first `>` outside quotes |
| `LegacyTags.ClosesExactlyWhen` | services/control-plane/src/fomo/preview_gateway.py:494-505 | a tag closes at a bracket if and only if nothing but tag text lies before it: plain characters and values in quotes of their own kind |
| `LegacyTags.OpenExactlyWhen` | services/control-plane/src/fomo/preview_gateway.py:494-508 | and stays open exactly when there is no such bracket |
| `LegacyAssets.ReplaceAttributes` | services/control-plane/src/fomo/preview_gateway.py:509-514 | the four replacements one after another |
| `LegacyAssets.RewriteLegacyNextAssets` | services/control-plane/src/fomo/preview_gateway.py:483-517 | the growing output is the body with every closed tag rewritten |
| `LinkPass.ReplaceIsPass` | services/control-plane/src/fomo/preview_gateway.py:514 | one replacement of a head is a single pass inserting the prefix at the links that head introduces |
| `LinkPass.PassesCompose` | services/control-plane/src/fomo/preview_gateway.py:510-514 | pass after pass inserts what one pass with both sets of heads inserts: the replacements neither feed nor hide one another |
| `LinkPass.RewriteTagIsPass` | services/control-plane/src/fomo/preview_gateway.py:509-514 | a rewritten tag is one pass of all four heads over the original tag |
| `LegacyAssetsProofs.RewriteIsExpansion` | services/control-plane/src/fomo/preview_gateway.py:483-517 | the result is the body with the prefix put in at links of the original text, and every other byte unchanged |
| `LegacyAssetsProofs.RewriteIsUndone` | services/control-plane/src/fomo/preview_gateway.py:483-517 | deleting the inserted prefixes gives the body back |
| `LegacyAssetsProofs.LinksAre` | services/control-plane/src/fomo/preview_gateway.py:510-514 | a link is rewritten if and only if it lies in a closed tag right behind `src` or `href`, an equals sign and a quote of either kind |
| `LegacyAssetsProofs.NothingAfterAnOpenTag` | services/control-plane/src/fomo/preview_gateway.py:506-508 | from an opening that never closes on, nothing is rewritten |
| `LegacyAssetsProofs.RewriteIsIdempotent` | services/control-plane/src/fomo/preview_gateway.py:483-517 | rewriting a rewritten body changes nothing |
| `Ordered.SortIsCanonical` | services/control-plane/src/fomo/starter.py:565-569 | with distinct keys only the members decide a sorted list |
| `CanonicalText.LinesRoundTrip` | services/control-plane/src/fomo/starter.py:566-569 | the NUL- and newline-separated digest text reads back to its rows, newlines in paths included |
| `Starter.PathSet` | services/control-plane/src/fomo/starter.py:497-502 | the path set is as large as the list exactly when no path comes twice |
| `Starter.CombineFiles` | services/control-plane/src/fomo/starter.py:493-506 | the overlay loop collides exactly when some overlay repeats a path or meets a known one, and else sorts everything |
| `Starter.VerifyTree` | services/control-plane/src/fomo/starter.py:254-271 | which of the checks of a copied tree fails first, or none |
| `StarterOverlays.CombinedIsDisjointUnion` | services/control-plane/src/fomo/starter.py:493-506 | overlays combine if and only if all paths differ; the files are the sorted disjoint union of base and overlays |
| `StarterDigests.TreeTextPins` | services/control-plane/src/fomo/starter.py:565-570 | two file sets have the same digest input if and only if they have the same paths, digests and sizes |
| `StarterDigests.TreeDigestPinsContents` | services/control-plane/src/fomo/starter.py:565-570 | with injective hashes, equal tree digests mean the same bytes at the same paths, and conversely |
| `StarterDigests.VerifiesExactlyTheTree` | services/control-plane/src/fomo/starter.py:254-271 | a copy verifies if and only if it holds the manifest bytes at the manifest paths and nothing else |
| `StarterDigests.CompositeTextPins` | services/control-plane/src/fomo/starter.py:573-581 | the composite text tells apart base trees and capabilities by id, version and tree digest |
| `StarterSelection.SelectMeans` | services/control-plane/src/fomo/starter.py:372-392 | a selection passes exactly when it is free of duplicates, unknown names and conflicts, and then holds exactly the requested capabilities by id |
| `StarterSelection.ResolveIgnoresOrder` | services/control-plane/src/fomo/starter.py:367-421 | manifest or error do not depend on the order of the selection, import lists and protected paths included |
| `StarterSelection.ManifestLists` | services/control-plane/src/fomo/starter.py:398-414 | a manifest lists each import of the base and of the selected capabilities once, and protects the paths of either; those of the base come first |
| `StarterSelection.ResolvedManifestVerifiesItsTree` | services/control-plane/src/fomo/starter.py:367-421 | a resolved manifest accepts exactly the copies holding base and overlays byte for byte |
| `StarterRefusals.SelectionIsRefusedWith` | services/control-plane/src/fomo/starter.py:372-392 | which error a selection is refused with, for every selection and catalogue |
| `StarterRefusals.CopyIsRefusedWith` | services/control-plane/src/fomo/starter.py:247-271 | which error a copy is refused with: other paths, the first file that differs in size or digest, or else only a manifest that is wrong itself |
| `StarterRefusals.CompositeTextOpens` | services/control-plane/src/fomo/starter.py:573-576 | the digest text opens with the name and version of the starter and the digest of the base |
| `StarterRefusals.ManifestDigestPins` | services/control-plane/src/fomo/starter.py:396-404 | two manifests with the same digest hold the same base tree and the same capabilities, wherever they were resolved |
| `AcceptanceProofs.KeyIsInjective` | services/control-plane/src/fomo/direct_pi/goalgraph.py:823-828 | a durable key names its goal and its criterion |
| `AcceptanceProofs.PathIsInjective` | services/control-plane/src/fomo/direct_pi/goalgraph.py:831-836 | a test path names its goal and its test |
| `AcceptanceProofs.AddTestsMeans` | services/control-plane/src/fomo/direct_pi/acceptance.py:455-480 | the tests of a goal go in exactly when they are well scoped, differ, and find their places free |
| `Acceptance.Merge` | services/control-plane/src/fomo/direct_pi/acceptance.py:436-446 | one dictionary goes into another unless they share a path |
| `Acceptance.CompileSources` | services/control-plane/src/fomo/direct_pi/acceptance.py:425-502 | the nested loops over dictionaries give the compiled suite, or the first conflict |
| `AcceptanceSuites.CompilesExactlyWhen` | services/control-plane/src/fomo/direct_pi/acceptance.py:425-502 | a suite compiles if and only if its goals differ and each fits the shared sources |
| `AcceptanceSuites.SuiteCompilesWhenItsGoalsDo` | services/control-plane/src/fomo/direct_pi/acceptance.py:539-565 | a suite compiles if and only if its goals differ and each compiles alone |
| `AcceptanceSuites.SuiteIsItsGoalsTogether` | services/control-plane/src/fomo/direct_pi/acceptance.py:539-565 | a file is in the suite if and only if it is in one of the goals compiled alone |
| `AcceptanceSuites.GoalsShareOnlyTheBase` | services/control-plane/src/fomo/direct_pi/acceptance.py:466-467 | two goals of a suite share exactly the shared sources |
| `AcceptanceSuites.CriteriaAreOneToOne` | services/control-plane/src/fomo/direct_pi/acceptance.py:463-467 | different criteria run different files |
| `AcceptanceSuites.EveryTestIsEmitted` | services/control-plane/src/fomo/direct_pi/acceptance.py:472-479 | every test is emitted under its key, at its path, with its title and text |
| `AcceptanceSuites.EveryCriterionIsListed` | services/control-plane/src/fomo/direct_pi/acceptance.py:480 | a criterion is listed by its own name in a suite of one goal and by its key otherwise |
| `AcceptanceSuites.DigestsCoverTheFiles` | services/control-plane/src/fomo/direct_pi/acceptance.py:482-496 | files come in path order, each path once, and the digests are those of exactly these files |
| `AcceptanceSuites.SuiteIgnoresOrder` | services/control-plane/src/fomo/direct_pi/acceptance.py:539-565 | whenever a suite compiles it compiles to the same in any order of its goals |
| `AcceptanceSuites.NoTestAtFixedPaths` | services/control-plane/src/fomo/direct_pi/acceptance.py:411-422 | no test path is one of the fixed verification assets |
| `AcceptanceNavigation.NavigationSources` | services/control-plane/src/fomo/direct_pi/acceptance.py:199-343 | the registering loop gives the direct checks of the routes and, in full modes with a root and another route, the three shared ones |
| `AcceptanceNavigation.RouteChecksPlaced` | services/control-plane/src/fomo/direct_pi/acceptance.py:211-215 | the checks are those of the ids of the suite, each at its own path under `navigation-v1` |
| `AcceptanceNavigation.ScopedGoalsCompile` | services/control-plane/src/fomo/direct_pi/acceptance.py:425-480 | validated contracts compile together with the route checks if and only if their goal ids differ and no goal named `navigation-v1` has a test named like a check of the suite |
| `AcceptanceNavigation.ValidatedSuiteCompiles` | services/control-plane/src/fomo/direct_pi/acceptance.py:539-565 | the same of a whole suite, whatever order its goals come in |
| `AcceptanceNavigation.NavigationNameIsNotReserved` | services/control-plane/src/fomo/direct_pi/acceptance.py:211-215 | a valid goal named `navigation-v1` with a test named like a check does not compile |
| `AcceptanceFaults.SuiteIsRefusedWith` | services/control-plane/src/fomo/direct_pi/acceptance.py:425-480 | which error a suite is refused with: that of its first fault, goal by goal and test by test |
| `AcceptanceChecks.EveryRouteIsLoaded` | services/control-plane/src/fomo/direct_pi/acceptance.py:217-243 | every route of a suite is loaded by a check of its own, under its title |
| `AcceptanceChecks.SharedNavigationIsChecked` | services/control-plane/src/fomo/direct_pi/acceptance.py:245-343 | the three checks of shared navigation are there exactly in a full suite with the root and another route, and nothing else but the direct loads |
| `AcceptanceChecks.RouteChecksAreEmitted` | services/control-plane/src/fomo/direct_pi/acceptance.py:436-446 | a suite that compiles emits its route checks and lists them under their own names |
| `WorklogView.CollapseFileRuns` | apps/web/lib/worklog-view.ts:66-84 | the run-and-flush loop equals the grouping of runs |
| `WorklogProjection.ProjectWorklogView` | apps/web/lib/worklog-view.ts:86-99 | the view shows every item, or without routine every item but those of the system that did not fail, each once and in event order, with their runs of file writes grouped; what its entries stand for and what it hides add up to the worklog |
| `WorklogViewProofs.CollapseGroupsMaximalRuns` | apps/web/lib/worklog-view.ts:66-84 | the entries stand, in order, for exactly the maximal runs of three or more finished file writes and for every other item by itself |
| `WorklogViewProofs.EntriesTell` | apps/web/lib/worklog-view.ts:44-84 | an entry stands for a whole run of three or more finished file writes, named after its ends and failed if any failed, or for an item in no such run |
| `WorklogViewProofs.CollapseConserves` | apps/web/lib/worklog-view.ts:66-84 | the sizes of what the entries stand for add up to the number of items |
| `WorklogViewProofs.OthersAreKept` | apps/web/lib/worklog-view.ts:74-81 | everything but finished file writes stays as it was, in order |
| `WorklogViewProofs.CollapseKeepsSeqOrder` | apps/web/lib/worklog-view.ts:44-59 | entries keep the order of event numbers |
| `WorklogViewProofs.CollapseIsIdempotent` | apps/web/lib/worklog-view.ts:66-84 | collapsing twice is collapsing once |
| `WorklogProjection.OrderedIsIdentity` | apps/web/lib/worklog-view.ts:33-36 | on a list with increasing event numbers the sort changes nothing, whatever the locale |
| `WorklogProjection.TiesGoByLocale` | apps/web/lib/worklog-view.ts:33-36 | items with the same event number stand in the order of the locale, if it compares consistently |
| `WorklogProjection.ViewOfReplay` | apps/web/lib/worklog-view.ts:86-99 | on the worklog of any replay the view is its signal entries collapsed, in event order, and shown plus hidden make up the worklog |

## Left out

- Display text: titles, details, redaction, stage details, failure wording and group titles are not modelled; only
  ids, numbers, kinds, statuses and stages are.
- Presentation fields without ordering content: commands, verifications, problems, versions, preview, roles, context
  usage and runtime are plain replacements by id.
- The goal graph inside a presentation, beyond its id, and a snapshot's replacement of it.
- `hydrateRunPresentationFromSnapshot`: the first load of a project; only later reconciliations of the same run, and
  the stop of a run by its user, are modelled.
- `normalizeEvent` and the other JSON normalisers: decoding is a parameter of the stream consumer.
- UTF-8 decoding: text is a sequence of characters, bodies and files are sequences of bytes.
- ReplayProofs.EveryFairScheduleCatchesUp: counts the advancing turns a stream gets; that the network grants them is not
  part of the model.
- Route contracts of older graph schemas, versions of a navigation suite other than 1 and the grammar of acceptance
  paths in goalgraph.py.
- Failed, superseded and cancelled goals and graphs beyond the transition tables: no modelled operation enters them.
- Recovery of the changed paths of legacy checkpoints: they arrive as a parameter.
- UsageLedger.DirectPiSession.Invoke: the request id is new, as a fresh UUID is; two sessions spending from one ledger
  at once, and a settlement that arrives after its session lost the run, are not modelled.
- Recovery runs that are seeded from the checkpoint of another run.
- Turn attestation, receipts and the cancel watcher of a session.
- The assertion diagnostic of a failed Playwright test.
- Which responses the preview gateway rewrites at all, and its other header and URL handling.
- Loading starter assets from the package: the base and the catalogue are parameters.
- The text of generated tests and route checks: their printers are parameters.
- AcceptanceSuites.SuiteIgnoresOrder: for goal ids that repeat, which of several errors comes first does depend on the
  order.
- The advisory and single-contract entry points of the acceptance compiler, which call the modelled one with other
  assets.
- React components, routing, authentication, sandboxes and transports.

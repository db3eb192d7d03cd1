# Verified model of Oyster's protocols

Oyster is a browser client and a set of agent extensions. This project models the parts of it that have a real
protocol, refinement or termination argument, and proves what they promise for all inputs, all schedules of the
outside world and all runs. Pure source code is modelled by functions and lemmas; code that works step by step is
modelled by methods and classes, each proved against a function whose laws are lemmas. Fetches, timers, stores,
disks, git and agents are inputs chosen by an adversary, restricted only where a theorem says so.

Check it with `dafny verify dfyconfig.toml` (Dafny 4.11).

## The parts

- **Resumable chunked upload** (`UploadServer`, `UploadServerFiles`, `UploadClient`, `UploadFinishing`,
  `UploadEnding`). The server's partial and finished file for one name under chunk requests and disk failures; the
  client's retry, resynchronise (409, section 15.5.10 of RFC 9110) and halve (413, section 15.5.14 of RFC 9110) loop;
  a network that loses requests or replies, answers for the server (429 is section 4 of RFC 6585), and may apply any
  request ever sent again later. A file reported as uploaded has the exact bytes, exactly unless the server's retry
  check is deceived by an older file of the same size and tail. Over a clean network an upload finishes exactly when
  no more than six setbacks in a row strike it. Once the network is clean every upload ends; without that exactly the
  uploads of one smallest chunk are sure to end, and of two when the disk never fails, even if no request is applied
  twice.
- **Tail-first rendering** (`TranscriptTurns`, `ToolCards`, `TranscriptRender`, `TranscriptJobs`,
  `TranscriptBackfill`). Turns, tail chunks, reversed and batched prepends across awaits, live messages in between,
  and renders that supersede each other: a render that completes shows what plain in-order rendering shows, tool
  cards included, although their results may come before their calls.
- **Replay gate and stale reloads** (`ReplayRuntime`, `ReplayGate`, `ReplayObjects`). Which events are dropped,
  buffered, flushed or dispatched in a connection epoch, and exactly which reload continuations may still act.
- **OAuth flows** (`CloudAuthorization`, `CloudAuthorizationService`). Start, cancel, callback suspended during the
  exchange, expiry and close (section 4.1 of RFC 6749, sections 4.1 to 4.6 of RFC 7636).
- **The checklist loop** (`ChecklistText`, `ChecklistLines`, `Checklist`, `ChecklistLoop`). The plan's pattern with
  its backtracking, the rewriting of one line, and the loop over plan, subagent, validation and commit.
- **Session families** (`SessionRoots`, `SessionFamilies`). Root finding over a parent graph with cycles, grouping,
  and the split into active and inactive.
- **Focus boundaries** (`FocusBoundary`, `FocusBoundaryStack`). Inert flags put aside and given back.
- **Capped cost** (`UtcMonths`, `InstanceCost`), **activity stacks** (`TranscriptActivity`, `ActivityPlan`),
  **overlap merge** (`TranscriptMerge`), **RPC waiters** (`RpcClient`, `RpcClientObject`), **snippet highlighting**
  (`SearchTerms`, `SearchSegments`, `SearchHighlight`) and the **SSE deduper** (`SseDeduper`).

## Properties that fail

The code is modelled as it is; a lemma shows an input for which each of these properties fails, and another says
exactly when it holds:

- A finished upload need not have the new bytes (`OldFileReportedAsUploaded`): if the disk fails on the last chunk
  the partial file is removed, and the retried last chunk is compared only with the size and the tail of an older
  finished file. `FinishedIsExactUnlessDeceived` says exactly when.
- An upload need not end, because every success resets the retry count: a late first chunk takes the partial copy
  back, again and again (`LargeMayNotEnd`, `LargeMayNotEndCalmly`). Whatever network and disk do, an upload is sure
  to end exactly when the file fits in one chunk of the smallest size (`SureToEndExactlyInOneChunk`), and on a disk
  that never fails exactly when it fits in two (`SureToEndCalmlyExactlyInTwoChunks`); so it is, too, when every
  request is applied at most once. Over a clean network it ends anyway (`UploadEnds`).
- Six missed requests in a row can be one too many, although the client makes six retries: a 413 that comes with the
  chunk already applied sends the client back with a 409, which counts as a retry, too (`TooLargeMayComeTooLate`).
  An upload finishes exactly when no seven setbacks in a row, 409 included, strike it (`FinishesExactlyWithinRetries`).
- Gated events before `replay_done` do reach the transcript when a current reload answers before them, be it one
  from before the connection (`OldReloadLetsThrough`) or one begun during the replay (`NewReloadLetsThrough`), or
  while the gate is not required. `ReplayIsSilentExactlyUnlessAnswered` says that nothing else lets them through;
  when no reload is begun during the replay, they stay out of the transcript whatever arrives exactly when none was
  in flight before (`ReplayIsSilentExactlyWithoutOldReload`).
- Events buffered after `replay_done` are not always delivered ahead of later ones (`FailedReloadReorders`,
  `WaitingIsReachable`): they are exactly when the reload that ends the wait is answered with its messages
  (`BufferedComesFirstExactlyWhenAnswered`). After a failure they wait for the next reload that is answered
  (`FailedReloadDeliversLate`).
- A superseded render may report completion (`SupersededReportsCompletion`): it does exactly when it had no turns
  left (`SupersededResult`).
- Cancelling a flow does not always stop its credential from being saved (`CancelDoesNotStopTheExchange`): it does
  exactly when the code is not being exchanged (`CancelStopsExactlyWithoutExchange`).
- A later occurrence of a term that overlaps itself can stay plain (`OverlappingTermIsMissed`): exactly when it
  starts inside a passed-over range of its own term and in no kept range (`MissedExactlyWhenPassedOver`), the kept
  ranges being the one greedy choice of those found (`KeptOfSearch`).
- A reply that overtakes its failing request is lost on the caller (`OvertakingReplyIsLost`); the caller is served
  exactly when the reply comes first and the request is acknowledged (`ServedExactlyWhenAcked`).
- A repeated live message can be swallowed by the overlap merge (`RepeatedPromptIsSwallowed`): exactly when an
  alignment longer than the true one fits (`NoRepeat`).
- The monthly cap is not always applied to every month on its own: `Date.UTC` takes the years 0 to 99 for 1900 to
  1999, so a span there is one segment (`FirstCenturyIsBilledTooLow`). The bill is the month-by-month cost exactly
  when every segment lies in one month or is not worth a cap, which is so outside those years (`BilledByTheMonth`).
- A quoted phrase is not always searched for as it stands (`BackslashIsNotTheTerm`): it is exactly when it does not
  end with a backslash (`QuotedPhraseIsTheTerm`).

Where the code and `docs/workspace-upload-data-path.md:137-162` disagree, the model follows the code: the partial file
has another name, and the retry check of a final chunk compares its bytes as well as the size of the finished file.

## Model

| member | source | states |
|---|---|---|
| UploadServer.SavedIsExactUnlessDeceived | server/http/routes/fileRoutes.mjs:79-111 | A `saved` answer means the finished file has exactly the file's bytes, if and only if the retry check is not looking at an older finished file of the same size and tail with no partial file left |
| UploadServer.SucceedsExactlyWhenHeld | server/http/routes/fileRoutes.mjs:79-111 | Whatever the files hold, a request on a working disk succeeds exactly when the copy then holds its bytes where it says, ending there if it is the last; only a chunk that begins where the copy ends is added, and any other answer tells how much there is |
| UploadServer.FailuresAreReported | server/http/routes/fileRoutes.mjs:99-161 | A request that a disk failure strikes answers 500; a failed write leaves the copy removed, longer by what was written or as it was, a failed rename the copy removed or complete; other requests are as on a working disk |
| UploadServer.HandleKeeps | server/http/routes/fileRoutes.mjs:79-161 | Every request, under any disk failure, leaves a prefix of the file as partial copy or changes nothing and answers 500; the finished file changes only to the exact bytes; `received` and `have` tell the true partial size |
| UploadServerFiles.UploadFiles.WriteUploadChunk | server/http/routes/fileRoutes.mjs:61-71 | A write replaces or extends the partial file by the chunk, or fails having written a part of it or nothing |
| UploadServerFiles.UploadFiles.ContinuePartialUpload | server/http/routes/fileRoutes.mjs:79-97 | A later chunk is answered at once with nothing changed, or appended, or fails, as the endpoint the lemmas are about |
| UploadServerFiles.UploadFiles.ApplyUploadChunk | server/http/routes/fileRoutes.mjs:99-161 | The sequence of write, rename, removal after an exception and answer leaves both files and answers as that endpoint |
| UploadClient.ApplyKeeps | public/src/lib/fileExplorerController.js:86-90 | Any piece of a file applied now or later keeps every slot trustworthy and replaces finished copies only by exact ones |
| UploadClient.LateKeeps | docs/workspace-upload-data-path.md:143-154 | Requests sent earlier and applied again at any later time keep all of that |
| UploadClient.ExchangeKeeps | public/src/lib/fileExplorerController.js:90-96 | One exchange over the adversarial network, whatever its fate, keeps the network invariant |
| UploadClient.ExchangeTellsTruth | public/src/lib/fileExplorerController.js:96-108 | What a reply that reached the client lets it conclude about the server's copy is true |
| UploadClient.IterateKeeps | public/src/lib/fileExplorerController.js:86-121 | One turn of the loop keeps the offset within the file, chunks between 64 KiB and 8 MiB, at most seven halvings, and reports a file as finished only with its exact bytes stored |
| UploadClient.FinishedIsExactUnlessDeceived | public/src/lib/fileExplorerController.js:97-103 | With nothing known about disks or older files, the request that ends a file leaves exactly its bytes if and only if the retry check was not deceived |
| UploadClient.TraceKeeps | public/src/lib/fileExplorerController.js:83-121 | The same after any number of requests |
| UploadClient.CleanIterationIsProgress | public/src/lib/fileExplorerController.js:97-121 | Over a clean network - the request meets no disk failure, and no first or last chunk of the file arrives late - each request of a steady upload, whose partial copy is a prefix, ends it or lowers (chunk size, lag behind the server, bytes left, retries left) lexicographically |
| UploadClient.CleanEnds | public/src/lib/fileExplorerController.js:86-121 | So a steady upload ends when the network is clean from now on |
| UploadClient.UploadEnds | public/src/lib/fileExplorerController.js:86-121 | Whatever happened before, an upload is over after finitely many requests once the network is clean; late chunks from the middle and of other files may keep arriving for ever |
| UploadFinishing.SetbackLaw | public/src/lib/fileExplorerController.js:90-119 | After a lost request, a 409 that says where the server is, a 429 or any status from 500 on, the chunk size stays, the attempts rise by one, the offset is where the server is or what it was, and the client gives up exactly on the seventh attempt |
| UploadFinishing.TooLargeLaw | public/src/lib/fileExplorerController.js:110-114 | A 413 above 64 KiB halves the chunk, not below 64 KiB, and resets the attempts; at 64 KiB it ends the upload |
| UploadFinishing.SuccessLaw | public/src/lib/fileExplorerController.js:97-104 | A success resets the attempts and ends the upload at the last chunk or with `saved`; otherwise the offset is the one received, or the end of the chunk |
| UploadFinishing.OtherwiseGivesUp | public/src/lib/fileExplorerController.js:120-120 | Any other status ends the upload at once |
| UploadFinishing.FailsExactlyAfterSeven | public/src/lib/fileExplorerController.js:86-121 | Over a clean network an upload fails if and only if seven setbacks in a row strike it |
| UploadFinishing.FinishesExactlyWithinRetries | public/src/lib/fileExplorerController.js:83-122 | From any fresh start it finishes, with exactly its bytes stored, if and only if there are never more than six setbacks in a row |
| UploadFinishing.FinishesUnlessSevenMissed | public/src/lib/fileExplorerController.js:83-122 | So it does behind a proxy with any body limit of 64 KiB or more, as long as no seven requests in a row are lost or answered with 429 or a status from 500 on |
| UploadFinishing.TooLargeMayComeTooLate | public/src/lib/fileExplorerController.js:105-114 | A file and a schedule with never more than six missed requests in a row, and a 413 with the chunk already applied, after which the upload has failed |
| UploadEnding.KeptUpForEver | public/src/lib/fileExplorerController.js:83-121 | Any way for the network to answer that keeps up an invariant under which the upload goes on, letting go only of requests it held back, is a schedule under which the upload never ends and no request is applied twice |
| UploadEnding.LargeMayNotEnd | public/src/lib/fileExplorerController.js:97-118 | A larger file can be kept uploading for ever with every request applied at most once: a first chunk held back arrives late and fails on the disk, and the next success resets the retries |
| UploadEnding.LargeMayNotEndCalmly | public/src/lib/fileExplorerController.js:97-118 | So can a file of more than two smallest chunks without any disk failure: first and last chunk, each held back once, send the client back and to the start |
| UploadEnding.SureToEndExactlyInOneChunk | public/src/lib/fileExplorerController.js:83-121 | From any store and any requests sent before, the upload of a file ends under every schedule if and only if the file fits in one chunk of the smallest size, and likewise under every schedule that applies every request at most once |
| UploadEnding.SureToEndCalmlyExactlyInTwoChunks | public/src/lib/fileExplorerController.js:83-121 | It ends under every schedule without disk failures, and likewise under every such schedule that applies every request at most once, if and only if the file fits in two such chunks |
| UploadClient.OldFileReportedAsUploaded | server/http/routes/fileRoutes.mjs:82-108 | A concrete schedule with one disk failure after which an old look-alike is reported as the uploaded file |
| UploadClient.TakeAnswer | public/src/lib/fileExplorerController.js:91-121 | The branches of the loop change the client exactly as the reaction that UploadFinishing.SetbackLaw, TooLargeLaw, SuccessLaw and OtherwiseGivesUp describe |
| UploadClient.SendChunk | public/src/lib/fileExplorerController.js:87-121 | One turn of the loop is one step of the run the lemmas are about |
| UploadClient.UploadFile | public/src/lib/fileExplorerController.js:83-122 | The loop over one file ends and is the run of that file up to its end |
| UploadClient.SizeIsKept | public/src/lib/fileExplorerController.js:73-84 | The first file starts with chunks of 8 MiB, a later one with the size that the one before left, at its beginning and with all retries |
| UploadClient.UploadFiles | public/src/lib/fileExplorerController.js:68-132 | Every file reported as uploaded has its exact bytes on the server at the end, unless disks fail and look-alikes exist; the reported files are exactly those whose run finished; chunks are halved at most seven times in all |
| TranscriptTurns.SplitTurnsLaw | public/src/lib/transcriptUtils.js:5-17 | Turns joined give the messages back; no turn is empty, a user message only opens a turn, every turn but the first is opened by one |
| TranscriptTurns.ProperTurnsAreUnique | public/src/lib/transcriptUtils.js:5-17 | There is no other such division |
| TranscriptTurns.SplitIntoTurns | public/src/lib/transcriptUtils.js:5-17 | The loop with its open turn computes that division |
| TranscriptTurns.TakeTailLaw | public/src/lib/transcriptUtils.js:19-40 | A chunk is the tail of the messages still held, not empty while there are any, at most the maximum unless one oversized turn is kept whole, and what is left stays free of empty turns |
| TranscriptTurns.TurnQueue.TakeTailChunk | public/src/lib/transcriptUtils.js:19-40 | Popping and splicing the shared turns in place does exactly that |
| ToolCards.RunDescribes | public/src/runtime/transcriptRuntime.js:435-483 | After any run without a clash the registry holds what the set of calls and results says, and nothing else: a card for each call, failed or succeeded as its result says or still running, and the results without a call |
| ToolCards.DescribedIsUnique | public/src/runtime/transcriptRuntime.js:435-483 | Only one registry fits such a set |
| ToolCards.OrderIndependence | public/src/runtime/transcriptRuntime.js:468-479 | With at most one call and one result for each id, every order of calls and results ends in the same cards |
| ToolCards.ToolCardRegistry.EnsureStore | public/src/runtime/transcriptRuntime.js:439-454 | The call's card takes over a result that came first, or keeps its status and text |
| ToolCards.ToolCardRegistry.FinishResult | public/src/runtime/transcriptRuntime.js:468-479 | A result goes to its card, or waits for it |
| TranscriptRender.ReverseSameOps | public/src/runtime/transcriptRuntime.js:577-585 | A chunk rendered in reverse does the same tool-card operations, in another order |
| TranscriptRender.ShownIsSifted | public/src/features/transcript/createTranscriptAssembly.js:107-122 | What is rendered are exactly the messages that are neither tool results nor empty notes, each once and in order |
| TranscriptRender.ShownCount | public/src/features/transcript/createTranscriptAssembly.js:107-122 | A message that is shown at all is shown as often as it occurs |
| TranscriptRender.CardsOfMessages | public/src/features/transcript/createTranscriptAssembly.js:107-122 | With one call and one result for each id, the cards are those of the calls in the messages, failed or succeeded as their results say |
| TranscriptRender.GrowIsOrdered | public/src/lib/transcriptActions.js:12-33 | Prepending a reversed chunk and appending it in order both leave its items in message order, next to what was there |
| TranscriptRender.Transcript.Insert | public/src/lib/transcriptActions.js:12-20 | Items go to the open batch or to the store, at the side of the direction |
| TranscriptRender.Transcript.FillBatch | public/src/lib/transcriptActions.js:23-33 | Rendering inside a batch leaves the store alone and collects the chunk's items in order |
| TranscriptRender.Transcript.RenderChunk | public/src/runtime/transcriptRuntime.js:577-585 | Rendering a chunk puts its messages that are neither tool results nor empty notes, in message order and with ids never used, in front of or behind the transcript, and runs its tool-card operations |
| TranscriptJobs.RunInv | public/src/runtime/transcriptRuntime.js:587-619 | Over every interleaving of renders, continuations, live messages and clears, the current job's screen is the tail of its messages already taken followed by the live ones |
| TranscriptJobs.CompletedRenderIsInOrder | public/src/lib/transcriptBackfill.js:16-24 | A current render that has completed shows exactly the messages of the render and then the live ones that are neither tool results nor empty notes, in order, with the cards of their calls and results |
| TranscriptJobs.SupersededNeverInserts | public/src/runtime/transcriptRuntime.js:557-565 | A superseded job stays superseded and never changes the screen again |
| TranscriptJobs.NewRenderSupersedes | public/src/runtime/transcriptRuntime.js:587-590 | A new render or a clear supersedes every job there is |
| TranscriptJobs.SupersededResult | public/src/lib/transcriptBackfill.js:16-24 | The value a superseded render returns is whether it had no turns left, and nothing more |
| TranscriptJobs.SupersededReportsCompletion | public/src/lib/transcriptBackfill.js:16-24 | A render of nothing, superseded before it went on, reports completion |
| TranscriptJobs.CurrentJobCompletes | public/src/lib/transcriptBackfill.js:16-24 | A current job that keeps being resumed completes, chunk sizes being at least one |
| TranscriptBackfill.Backfill | public/src/lib/transcriptBackfill.js:16-24 | The loop over the shared turns, live messages arriving at every await, ends with all messages in order in front of what came live |
| TranscriptBackfill.RenderTranscript | public/src/runtime/transcriptRuntime.js:587-619 | The whole render leaves exactly those of all messages and then the live ones, in order, whatever was shown before, and their cards |
| ReplayRuntime.CurrentExactlyWhenUndisturbed | public/src/runtime/transcriptRuntime.js:299-303 | A job is current after a run exactly when it was and nothing since has started a reload or changed the runner |
| ReplayRuntime.StaleContinuationIsInert | public/src/runtime/transcriptRuntime.js:348-363 | A reply, failure or settled render of a job that is not current applies, renders, flushes and ends nothing |
| ReplayRuntime.ReplyActsExactlyWhenUndisturbed | public/src/runtime/transcriptRuntime.js:298-358 | Over any interleaving, a reply of a reload not answered before applies its state or renders its messages if and only if no other reload has begun and no other runner has been selected since it began; otherwise it changes nothing |
| ReplayRuntime.SettlingActsExactlyWhenUndisturbed | public/src/runtime/transcriptRuntime.js:358-365 | Its settled render acts if and only if it is complete and nothing disturbed the reload until then |
| ReplayRuntime.EachActsOnce | public/src/runtime/transcriptRuntime.js:298-365 | Over every run a reload renders at most once, and acts after its render at most once |
| ReplayRuntime.RunnerIsSelected | public/src/runtime/sessionRuntime.js:21-38 | Selecting takes the runner, `replay_done` the one it names; the generation counts the changes, but not the adoption of the first runner |
| ReplayRuntime.GatedKinds | public/src/runtime/transcriptRuntime.js:6-11 | Message, tool and agent events are gated, and nothing else |
| ReplayRuntime.PhaseIsTrue | public/src/platform/createPlatformEventDispatch.js:11-17 | Over every run the phase is none without a replay, and else canonical exactly since the replay was done or the connection opened without one |
| ReplayRuntime.SwitchAndBackStaysStale | public/src/runtime/sessionRuntime.js:21-38 | Switching from A to B and back to A does not revive a reload begun before |
| ReplayRuntime.ReachableJobsKnown | public/src/runtime/transcriptRuntime.js:299-302 | Every reachable job carries a number and a generation that have existed |
| ReplayGate.ConnectStartsEpoch | public/src/runtime/eventConnectionController.js:8-10 | From any state, a connection leaves nothing seen and nothing buffered, and replays behind the gate exactly unless it skips the replay |
| ReplayGate.DroppedBeforeDone | public/src/runtime/eventStream.js:79-86 | Over every run before `replay_done`, reloads, selections and replies included: nothing is buffered, the replay goes on exactly until a current reload answers, and delivered are exactly the gated events that arrive after that or while the gate is not required |
| ReplayGate.ReplayIsSilentExactlyUnlessAnswered | public/src/runtime/eventStream.js:79-86 | So replayed events stay out of the transcript exactly when none arrives after such an answer or while the gate is not required |
| ReplayGate.ReplayIsSilentExactlyWithoutOldReload | public/src/platform/createPlatformEventDispatch.js:52-63 | When no reload is begun during the replay, they stay out whatever arrives if and only if no current reload from before the connection is in flight |
| ReplayGate.OldReloadLetsThrough | public/src/platform/createPlatformEventDispatch.js:52-63 | A reload begun and not answered when the connection is made anew lets an event of the replay through |
| ReplayGate.NewReloadLetsThrough | public/src/features/settings/createSettingsLayoutRuntime.js:29-29 | So does a reload begun during the replay, with none in flight before |
| ReplayGate.DoneStartsWaiting | public/src/platform/createPlatformEventDispatch.js:31-41 | `replay_done` starts a reload that is current, with an empty buffer |
| ReplayGate.BufferedWhileWaiting | public/src/runtime/eventStream.js:79-86 | Until a current reload answers, whichever was begun meanwhile, gated events are buffered, all of them and in order, except that those arriving while the gate is not required are delivered |
| ReplayGate.LiveAfterReload | public/src/platform/createPlatformEventDispatch.js:61-75 | After it, events are delivered as they come |
| ReplayGate.EpochDelivers | public/src/runtime/transcriptRuntime.js:93-113 | From any state, over a whole epoch that begins with a connection and whose first answer is the messages of a current reload after `replay_done`, whatever else happens: what was held back before `replay_done` is never delivered, what was held back after it is delivered by that answer, once, in order and filtered, and then all later events |
| ReplayGate.EpochDeliversInOrder | public/src/runtime/transcriptRuntime.js:93-113 | From any state, when the gate stays closed until then, gated events between the connection and `replay_done` are never delivered, those after it exactly once, in order and ahead of later ones, except those the filter drops |
| ReplayGate.EndedEarlyDeliversAll | public/src/runtime/eventStream.js:79-86 | When a reload answers between a connection and `replay_done`, all gated events after that are delivered as they come |
| ReplayGate.SkippedEpochDeliversAll | public/src/runtime/eventConnectionController.js:8-10 | From any state, a connection that skips the replay delivers every gated event as it comes |
| ReplayGate.FailedReloadDeliversLate | public/src/platform/createPlatformEventDispatch.js:27-31 | When the reload fails, buffered events are delivered with the next current reload that is answered, behind all that arrived meanwhile, and until then not at all |
| ReplayGate.FailedReloadReorders | public/src/platform/createPlatformEventDispatch.js:27-31 | So an event that comes after the failure overtakes all buffered ones |
| ReplayGate.WaitingIsReachable | public/src/platform/createPlatformEventDispatch.js:27-41 | A state with an event buffered and a reload that may fail is reachable |
| ReplayGate.BufferedComesFirstExactlyWhenAnswered | public/src/runtime/transcriptRuntime.js:106-113 | Buffered events are delivered ahead of the next one exactly when the reload is answered with its messages |
| ReplayGate.FilterDropsExactly | public/src/runtime/transcriptRuntime.js:100-104 | The filter drops nothing unless a finished assistant message that is on screen is among the events, and then exactly assistant and tool events |
| ReplayObjects.PlatformRuntime.Connect | public/src/runtime/eventConnectionController.js:8-10 | A connection is the step that ReplayGate.ConnectStartsEpoch describes: nothing seen, nothing buffered |
| ReplayObjects.PlatformRuntime.Opened | public/src/runtime/eventStream.js:96-105 | An open connection reloads at once exactly when there is no replay to wait for |
| ReplayObjects.PlatformRuntime.ReplayEventGate | public/src/runtime/eventStream.js:79-86 | The gate takes an event exactly while replaying with the gate required, and keeps it only after `replay_done` |
| ReplayObjects.PlatformRuntime.Dispatch | public/src/platform/createPlatformEventDispatch.js:61-75 | Dispatching an event is one step of the machine the lemmas are about |
| ReplayObjects.PlatformRuntime.HandleReplayDone | public/src/platform/createPlatformEventDispatch.js:31-41 | So is handling `replay_done`, the runner it names included |
| ReplayObjects.PlatformRuntime.FlushBufferedEvents | public/src/runtime/transcriptRuntime.js:93-98 | Flushing delivers what the filter leaves, in order |
| ReplayObjects.PlatformRuntime.MessagesArrive | public/src/runtime/transcriptRuntime.js:352-361 | The messages of a reload render, end the replay and flush, or do nothing when the job is stale |
| ReplayObjects.PlatformRuntime.SelectRunner | public/src/runtime/sessionRuntime.js:21-38 | Selecting another runner invalidates reloads, adopting the first one does not |
| ReplayObjects.BufferHoldsGatedEvents | public/src/platform/createPlatformEventDispatch.js:52-59 | Only gated events are ever buffered |
| CloudAuthorization.SweepInv | oyster-hub/cloud-authorization.mjs:153-164 | Expiry keeps all of the invariant: exact index, secrets only while authorizing, one authorizing flow for each provider, histories without repeats |
| CloudAuthorization.StepInv | oyster-hub/cloud-authorization.mjs:180-286 | So does every call, callbacks suspended at the exchange included |
| CloudAuthorization.RunInv | oyster-hub/cloud-authorization.mjs:150-286 | Over every run with fresh random values each flow is accepted at most once and its credential saved at most once |
| CloudAuthorization.RunLinks | oyster-hub/cloud-authorization.mjs:159-252 | The link to the provider is shown only until the callback, a cancel or expiry |
| CloudAuthorization.StatusAfter | oyster-hub/cloud-authorization.mjs:153-275 | How the status of a flow changes, call by call: expired when a call finds its time up, cancelled while authorizing, failed by a callback without a usable code, and after an exchange succeeded exactly when the credential was saved; nothing else changes it |
| CloudAuthorization.StoredExactlyWhenSaved | oyster-hub/cloud-authorization.mjs:255-271 | When an exchange ends the store is asked to save exactly if the exchange worked; it has the credential, and the status is succeeded, exactly when the save worked, too; otherwise it is failed |
| CloudAuthorization.SucceededIsStored | oyster-hub/cloud-authorization.mjs:255-271 | In every reachable service a flow reported as succeeded has its credential in the store |
| CloudAuthorization.ExchangingAfter | oyster-hub/cloud-authorization.mjs:243-275 | An exchange runs exactly from an accepted callback with a code, for a configured provider, until it ends |
| CloudAuthorization.ListedAfter | oyster-hub/cloud-authorization.mjs:153-164 | A flow stays listed until it has been expired for twenty minutes, or the service is closed |
| CloudAuthorization.SecretsAfter | oyster-hub/cloud-authorization.mjs:153-285 | A flow keeps its provider, state and time limit; it has its verifier exactly while authorizing, its link exactly while no callback was accepted besides, and neither once a listed flow is closed |
| CloudAuthorization.StartsAuthorizing | oyster-hub/cloud-authorization.mjs:190-228 | A flow just started is authorizing, with its secrets, for twenty minutes |
| CloudAuthorization.AdmittedExactlyWhenFree | oyster-hub/cloud-authorization.mjs:180-189 | A provider can be started exactly when it is supported and configured and no flow of it is authorizing within its time |
| CloudAuthorization.AdmissionAnswers | oyster-hub/cloud-authorization.mjs:180-189 | A start is refused for what is wrong with the provider first, and else exactly when a flow of it is authorizing |
| CloudAuthorization.LimitIsNeverReached | oyster-hub/cloud-authorization.mjs:184-189 | At most two flows are authorizing, so the limit of eight never refuses a start |
| CloudAuthorization.MatchedExactlyWhenOpen | oyster-hub/cloud-authorization.mjs:245-250 | The index finds exactly the open flow of that state and provider |
| CloudAuthorization.AcceptedExactlyWhenOpen | oyster-hub/cloud-authorization.mjs:243-252 | A callback is accepted exactly for an open, unexpired flow of its provider and state |
| CloudAuthorization.ClosedFlowsStayClosed | oyster-hub/cloud-authorization.mjs:236-250 | Once a flow is cancelled, failed or expired, no callback of any later run is accepted for it |
| CloudAuthorization.HopelessIsNeverSaved | oyster-hub/cloud-authorization.mjs:234-274 | Once no exchange of a flow runs and no callback may start one, its credential is saved in no later run |
| CloudAuthorization.SavedLaterExactlyWhenSavable | oyster-hub/cloud-authorization.mjs:234-274 | Some continuation saves the credential of a flow if and only if its exchange runs, or the flow is open and its provider configured |
| CloudAuthorization.CancelStopsExactlyWithoutExchange | oyster-hub/cloud-authorization.mjs:234-274 | After a cancel, no continuation saves the credential if and only if the code was not being exchanged |
| CloudAuthorization.ExchangingIsReachable | oyster-hub/cloud-authorization.mjs:180-274 | A start and its callback lead to a running exchange |
| CloudAuthorization.CancelDoesNotStopTheExchange | oyster-hub/cloud-authorization.mjs:234-274 | A cancel during that exchange stops neither the save nor the final `succeeded` |
| CloudAuthorizationService.SweepOneMore | oyster-hub/cloud-authorization.mjs:155-163 | What the sweep does to one flow is independent of the order of the others |
| CloudAuthorizationService.AuthorizationService.Sweep | oyster-hub/cloud-authorization.mjs:153-164 | The loop over the listed flows, in any order, is the sweep the lemmas are about |
| CloudAuthorizationService.AuthorizationService.Start | oyster-hub/cloud-authorization.mjs:180-228 | A start keeps the invariant, never meets the limit, lists the flow exactly when it is admitted, and says why it is not |
| CloudAuthorizationService.AuthorizationService.Status | oyster-hub/cloud-authorization.mjs:166-232 | A status query sweeps first and then tells the status of a listed flow, or that there is none |
| CloudAuthorizationService.AuthorizationService.Cancel | oyster-hub/cloud-authorization.mjs:234-241 | A cancel is one step of the machine; an unknown flow is reported as such |
| CloudAuthorizationService.AuthorizationService.Callback | oyster-hub/cloud-authorization.mjs:243-261 | A callback is accepted at most for one flow, and suspends exactly with a code for a configured provider |
| CloudAuthorizationService.AuthorizationService.ExchangeEnds | oyster-hub/cloud-authorization.mjs:262-275 | The resumed callback saves a credential that was not saved before; the status is succeeded exactly when exchange and save have worked, and else failed |
| CloudAuthorizationService.AuthorizationService.Close | oyster-hub/cloud-authorization.mjs:278-285 | Closing forgets every flow and every secret of a listed flow |
| Prelude.SpacesExactly | extensions/loop.ts:38-38 | White space, as `\s` matches it and trimming removes it, is the 25 characters of section 12 of ECMA-262 |
| ChecklistText.LazyLaw | extensions/loop.ts:38-38 | The lazy text group takes the shortest text after which only white space is left, or none exists |
| ChecklistText.GapLaw | extensions/loop.ts:38-38 | Backtracking finds the longest gap that leaves a text, and then the shortest text |
| ChecklistText.PatternFindsAll | extensions/loop.ts:38-38 | Every line that can be taken apart as the pattern says, however its parts are found, is matched with that prefix and box |
| ChecklistText.PatternFindsOnly | extensions/loop.ts:51-51 | A matched line is the prefix, box, gap and text it was split into, and white space |
| ChecklistText.GapIgnoresTail | extensions/loop.ts:51-53 | White space after the text plays no part in where gap and text are found |
| ChecklistText.RewriteParses | extensions/loop.ts:51-53 | A rewritten line matches again with the same prefix, gap and text, and its box checked |
| ChecklistText.ParseOfReturn | extensions/loop.ts:37-38 | A carriage return at the end of a line changes nothing the pattern finds |
| ChecklistLines.LinesAreDelimited | extensions/loop.ts:37-37 | A plan is its lines, none with a line feed in it, each but the last with its end: a line feed, and the carriage return before it when there is one |
| ChecklistLines.JoinOfLines | extensions/loop.ts:48-54 | Without carriage returns, joining the lines of a plan gives the plan back |
| ChecklistLines.LinesOfJoin | extensions/loop.ts:48-54 | Splitting what was joined gives the lines back, but for carriage returns at their ends |
| Checklist.ItemAt | extensions/loop.ts:36-41 | Every item has the number and the match of its line |
| Checklist.ItemsExactly | extensions/loop.ts:36-41 | The items are those of the lines that match, one for each, and an item is checked exactly when the mark in its box is an x or an X |
| Checklist.ReplaceMarks | extensions/loop.ts:53-53 | Checking the box of one line marks its item and no other |
| Checklist.CheckingMarks | extensions/loop.ts:47-55 | Checking an item of the plan succeeds, and the new plan has the same items with that one checked |
| Checklist.CheckedExactlyWhenPresent | extensions/loop.ts:50-52 | A target can be checked exactly when the plan still has an item with its line and text; the error says whether the line is gone |
| ChecklistLoop.FirstIsHead | extensions/loop.ts:43-45 | The first unchecked item is the head of the list of unchecked ones |
| ChecklistLoop.MarkingPops | extensions/loop.ts:43-55 | Marking it takes exactly it off that list |
| ChecklistLoop.AdvanceLaw | extensions/loop.ts:391-392 | Advancing a plan n times checks its first n unchecked items, keeps every line number and text and unchecks nothing |
| ChecklistLoop.AtMostTwentyEach | extensions/loop.ts:340-434 | A run takes at most twenty iterations for each item unchecked at its start |
| ChecklistLoop.TwentyEachIsReached | extensions/loop.ts:419-433 | That bound is reached for every plan |
| ChecklistLoop.RecordsAreFaithful | extensions/loop.ts:366-416 | Every record names its iteration and the item that was then first, and is a success exactly when the subagent worked, HEAD was restored, the validation passed and the commit worked |
| ChecklistLoop.CompleteWhenAllDone | extensions/loop.ts:343-347 | Successes never exceed the items; a complete run did them all, a stalled one did not |
| ChecklistLoop.StalledAfterTwentyFailures | extensions/loop.ts:419-433 | The run stalls only after twenty failures in a row |
| ChecklistLoop.NeverAbortedUnasked | extensions/loop.ts:341-341 | Without a signal the run is not aborted |
| ChecklistLoop.Attempted | extensions/loop.ts:366-407 | Whatever subagent and validation leave in the plan file, it ends as the plan with the item checked exactly when the subagent worked, HEAD was restored, the validation passed and the commit worked, and else as it was read |
| ChecklistLoop.RunLoop | extensions/loop.ts:335-434 | The loop with its stall counter ends and is the course the lemmas are about |
| ChecklistLoop.RunIsWorkedFor | extensions/loop.ts:384-407 | An item checked at the end and not at the start has an iteration of its own in which the subagent worked, HEAD was restored, the validation passed and the commit worked |
| ChecklistLoop.RunChecklist | extensions/loop.ts:324-435 | The plan file ends advanced by exactly the number of successes, within twenty iterations for each unchecked item; the records are faithful, and every box newly checked has an iteration in which all four held |
| SessionRoots.RootLaw | public/src/features/sessions/sessionPickerViewModel.js:146-154 | A session is its own root exactly when it has no listed parent or is its own ancestor; any other has the root of its parent |
| SessionRoots.RootIsIdempotent | public/src/features/sessions/sessionPickerViewModel.js:146-154 | The root of a root is itself, cycles included |
| SessionRoots.FindRoot | public/src/features/sessions/sessionPickerViewModel.js:146-154 | The walk with its set of identities seen ends at that root |
| SessionFamilies.GroupSessionFamilies | public/src/features/sessions/sessionPickerViewModel.js:144-164 | Grouping gives one family for each root in the order the roots are met, its forks in input order |
| SessionFamilies.MemberCount | public/src/features/sessions/sessionPickerViewModel.js:156-163 | A session is in the family of its root, once, and in no other |
| SessionFamilies.RootComesFirst | public/src/features/sessions/sessionPickerViewModel.js:160-161 | The first member of a family is the root of all its members |
| SessionFamilies.ForksComeInOrder | public/src/features/sessions/sessionPickerViewModel.js:157-162 | The other members come in the order in which they were given |
| SessionFamilies.FamiliesInOrder | public/src/features/sessions/sessionPickerViewModel.js:156-163 | Families come in the order in which one of their members is first met |
| SessionFamilies.GroupSessionEntriesByFamily | public/src/features/sessions/sessionPickerViewModel.js:167-188 | The loop over sidebar entries groups them as their sessions are grouped, a runner without a session having no parent |
| SessionFamilies.EachSessionOnce | public/src/features/sessions/sessionPickerViewModel.js:156-163 | The families partition the sessions |
| SessionFamilies.PartitionSessionFamilies | public/src/features/sessions/sessionPickerViewModel.js:216-225 | Each side is whole families one after the other |
| SessionFamilies.PartitionKeepsFamiliesTogether | public/src/features/sessions/sessionPickerViewModel.js:216-225 | Both sides together are all sessions, and a session is active exactly when one of its family is alive |
| FocusBoundary.TopLaw | public/src/lib/focusBoundaryStack.js:12-14 | The top entry has the highest priority and is the latest of those |
| FocusBoundary.BesideExactly | public/src/lib/focusBoundaryStack.js:22-29 | What is made inert is exactly the siblings of the elements on the path from the active surface to the body |
| FocusBoundary.PathIsNeverBeside | public/src/lib/focusBoundaryStack.js:20-25 | The active surface and everything that contains it are never made inert |
| FocusBoundary.RunIsRight | public/src/lib/focusBoundaryStack.js:16-43 | However boundaries are registered and released, every element's own flag can be told, the inert ones are exactly those beside the top entry, and without entries the document is as it was |
| FocusBoundary.InertExactly | public/src/lib/focusBoundaryStack.js:16-43 | However boundaries come and go, an element is inert exactly when it was to begin with or lies beside the path from the entry of the highest priority, the latest of those, up to the body |
| FocusBoundary.OnStackUntilReleased | public/src/lib/focusBoundaryStack.js:32-40 | An entry is on the stack exactly when it was registered and not released since |
| FocusBoundary.EntriesExactly | public/src/lib/focusBoundaryStack.js:32-40 | The entries on the stack are exactly those registered and not released since, each with its own node and priority |
| FocusBoundaryStack.BoundaryStack.Restore | public/src/lib/focusBoundaryStack.js:17-18 | Every flag put aside is given back |
| FocusBoundaryStack.BoundaryStack.SetAside | public/src/lib/focusBoundaryStack.js:23-27 | No element is put aside twice, so no own flag is overwritten |
| FocusBoundaryStack.BoundaryStack.Isolate | public/src/lib/focusBoundaryStack.js:16-30 | The two loops leave exactly the flags the top entry requires |
| FocusBoundaryStack.BoundaryStack.RegisterFocusBoundary | public/src/lib/focusBoundaryStack.js:32-33 | Registering is one step of the machine |
| FocusBoundaryStack.BoundaryStack.Release | public/src/lib/focusBoundaryStack.js:36-42 | So is releasing; releasing again changes nothing |
| FocusBoundaryStack.BoundaryStack.IsTop | public/src/lib/focusBoundaryStack.js:35-35 | A boundary owns the focus exactly when it is the latest of the highest priority |
| UtcMonths.YearLength | public/src/features/cloud/instanceCost.js:39-40 | The day formula of section 21.4.1 of ECMA-262 gives 366 days exactly to leap years |
| UtcMonths.MonthLength | public/src/features/cloud/instanceCost.js:39-40 | Every month of UTC is as long as the Gregorian calendar says |
| UtcMonths.Epoch | public/src/features/cloud/instanceCost.js:39-40 | January 1970 starts at instant 0 |
| InstanceCost.CostBounds | public/src/features/cloud/instanceCost.js:35-46 | Without a cap the cost is elapsed hours times rate; with one it is at most that and at most the cap for every month touched |
| InstanceCost.CostIsMonotone | public/src/features/cloud/instanceCost.js:35-46 | A later end never lowers the cost |
| InstanceCost.CostSplits | public/src/features/cloud/instanceCost.js:35-46 | Billing in two parts never costs less, and the same when they meet at the start of a month |
| InstanceCost.CostOverMore | public/src/features/cloud/instanceCost.js:38-45 | The cost is the sum over all months of the capped fee for the overlap, months outside charging nothing |
| InstanceCost.MonthlyBill | public/src/features/cloud/instanceCost.js:24-47 | For hourly rates and the months of UTC: these bounds, the cap for every month touched included, monotonicity and the law of splitting |
| InstanceCost.SegmentLaw | public/src/features/cloud/instanceCost.js:41-44 | Charging a span in one piece never costs more than month by month, and the same exactly when it stays in its month or is not worth more than a cap |
| InstanceCost.BillIsCostExactlyWhenFair | public/src/features/cloud/instanceCost.js:38-46 | The segments billed one by one never come to more than the cost, and to the same exactly when each lies in one period or is not worth a cap |
| InstanceCost.BilledByTheMonth | public/src/features/cloud/instanceCost.js:38-46 | The program's bill, `Date.UTC` included, is at most the month-by-month cost, and the same outside the years 0 to 99 |
| InstanceCost.UncappedBill | public/src/features/cloud/instanceCost.js:36-46 | Without a cap the bill of any span is its hours times the rate |
| InstanceCost.BillWithinMonth | public/src/features/cloud/instanceCost.js:41-43 | Within one month of UTC the bill is hours times rate, but not more than the cap |
| InstanceCost.SegmentOfFirstCentury | public/src/features/cloud/instanceCost.js:40-44 | A segment that starts in the years 0 to 99 runs on for 1900 years and to the next month |
| InstanceCost.FirstCenturyIsBilledTooLow | public/src/features/cloud/instanceCost.js:41-41 | Every two months of the years 0 to 99 that are worth more than one cap are billed too low |
| InstanceCost.AddUp | public/src/features/cloud/instanceCost.js:36-46 | The loop over segments ends and adds up that bill |
| InstanceCost.CumulativeInstanceCost | public/src/features/cloud/instanceCost.js:29-47 | Nothing without a positive rate, zero for missing or reversed times, otherwise that bill |
| TranscriptActivity.GroupingShowsAll | public/src/lib/transcriptActivity.js:9-57 | Expanding the groups gives exactly the activity and non-empty text blocks in their order, and no stack is empty |
| TranscriptActivity.SameStackExactlyWhenUnbroken | public/src/lib/transcriptActivity.js:13-50 | Two activity blocks share a stack exactly when no visible text, turn boundary or error comes between them |
| TranscriptActivity.OneStackExactly | public/src/lib/transcriptActivity.js:1-50 | Told from the items: two activity blocks are in one stack exactly when between them there is no non-empty text, no user entry or compaction, and no message with an error ends |
| ActivityPlan.DrawBlock | public/src/lib/transcriptActivity.js:27-48 | One block joins the pending stack, starts one where it stands, or ends it; stacks of an item are numbered from 0, and texts are keyed by their position among all its texts |
| ActivityPlan.TextPartExactly | public/src/lib/transcriptActivity.js:40-47 | A text part is listed exactly for the non-empty text at that position, empty texts counting |
| ActivityPlan.TextsAreAll | public/src/lib/transcriptActivity.js:40-43 | The texts that are counted are all text blocks, empty ones included |
| ActivityPlan.InterleaveTranscriptActivity | public/src/lib/transcriptActivity.js:9-57 | The parts listed under the items, stacks expanded, are exactly the groups; under each item its texts with their positions; stack keys are distinct; the current key is that of the stack still open |
| TranscriptMerge.MergeClaudeTranscriptMessages | public/src/runtime/transcriptRuntime.js:58-76 | The nested search appends to durable history what is left of the live tail after the longest overlap |
| TranscriptMerge.OneIsMergedExactly | public/src/runtime/transcriptRuntime.js:47-76 | One live message is taken for the one durable message exactly unless they differ in role or content, in ids that both have, or by more than ten seconds |
| TranscriptMerge.NewIsKept | public/src/runtime/transcriptRuntime.js:47-76 | A live message that differs so from all durable ones is kept, and so is all that follows it |
| TranscriptMerge.LiveIsSuffix | public/src/runtime/transcriptRuntime.js:62-73 | The whole live tail is there at the end, each message itself or a durable one that is the same |
| TranscriptMerge.MergeIsIdempotent | public/src/runtime/transcriptRuntime.js:58-76 | Merging the same live tail again changes nothing |
| TranscriptMerge.MergeOfShared | public/src/runtime/transcriptRuntime.js:62-73 | When the live tail goes on from the end of durable history, what a longer alignment covers of it is lost, and nothing else |
| TranscriptMerge.NoRepeat | public/src/runtime/transcriptRuntime.js:58-76 | It is joined without a repeat and without a loss exactly when no alignment longer than the shared part fits |
| TranscriptMerge.SameIsNotTransitive | public/src/runtime/transcriptRuntime.js:47-55 | Two messages may each be the same as a third without being the same |
| TranscriptMerge.RepeatedPromptIsSwallowed | public/src/runtime/transcriptRuntime.js:62-73 | A repeated live message is taken for an older one, and one of three prompts is lost |
| RpcClient.RunConserves | public/src/runtime/rpcClient.js:6-59 | Over every interleaving waiters are pending with a live timer or settled exactly once, and no other timer is live |
| RpcClient.CancelledForGood | public/src/runtime/rpcClient.js:46-56 | After a cancel or dispose no waiter issued so far is pending, now or later |
| RpcClient.FirstVerdictDecides | public/src/runtime/rpcClient.js:6-52 | The first event that concerns a waiter settles it, and it alone |
| RpcClient.WithoutWaiter | public/src/runtime/rpcClient.js:9-35 | A command without a waiter never has one; its call returns or throws by what its request does first |
| RpcClient.ServedExactlyWhenAcked | public/src/runtime/rpcClient.js:15-35 | The caller is handed its reply exactly when the reply comes first and the request is acknowledged |
| RpcClient.OvertakingReplyIsLost | public/src/runtime/rpcClient.js:28-30 | A reply that overtakes its failing request is lost on the caller |
| RpcClientObject.WaitingClient.Rpc | public/src/runtime/rpcClient.js:6-14 | Issuing a command is one step of the machine |
| RpcClientObject.WaitingClient.FailRequest | public/src/runtime/rpcClient.js:28-35 | So is a failed request |
| RpcClientObject.WaitingClient.HandleResponse | public/src/runtime/rpcClient.js:38-44 | So is a reply, for a waiter that is no longer pending a step that changes nothing |
| RpcClientObject.WaitingClient.FireTimer | public/src/runtime/rpcClient.js:10-12 | So is a timeout |
| RpcClientObject.WaitingClient.CancelPending | public/src/runtime/rpcClient.js:46-52 | The loop over pending waiters, in any order, rejects each once |
| SearchTerms.SearchTerms | public/src/lib/sessionSearchHighlight.js:1-32 | The scanner's loop reads the terms the lemmas are about |
| SearchTerms.TermsAreProper | public/src/lib/sessionSearchHighlight.js:7-13 | Terms are not empty, have no space around them, and differ even when case is ignored |
| SearchTerms.QuotedPhraseIsTheTerm | public/src/lib/sessionSearchHighlight.js:15-25 | Asking for a quoted phrase gives that phrase and nothing else, exactly when it does not end with a backslash |
| SearchTerms.BackslashIsNotTheTerm | public/src/lib/sessionSearchHighlight.js:15-25 | A backslash cannot be asked for as a quoted phrase |
| SearchTerms.PartsAreTerms | public/src/lib/sessionSearchHighlight.js:1-32 | The terms of a query of words and quoted phrases, however mixed and spaced, are in their order the phrases and the words of three UTF-16 code units or more, leaving out what is a term already but for case |
| SearchSegments.CutLosesNothing | public/src/lib/sessionSearchHighlight.js:52-61 | Whatever the ranges, the segments joined are the text and none is empty |
| SearchSegments.MarkedExactlyWhenKept | public/src/lib/sessionSearchHighlight.js:54-59 | A character is highlighted exactly when a range that was not passed over covers it |
| SearchSegments.StartsAreKept | public/src/lib/sessionSearchHighlight.js:50-55 | Of sorted ranges every one starts inside a highlighted one |
| SearchSegments.KeptIsGreedy | public/src/lib/sessionSearchHighlight.js:50-55 | Of sorted ranges exactly those are highlighted that no highlighted one reaches into which starts earlier, or at the same place and is longer |
| SearchSegments.GreedyIsUnique | public/src/lib/sessionSearchHighlight.js:50-55 | No other choice of ranges has that property |
| SearchSegments.CutSnippet | public/src/lib/sessionSearchHighlight.js:52-61 | The loop with its cursor cuts exactly so |
| SearchHighlight.ScanTerm | public/src/lib/sessionSearchHighlight.js:45-47 | The search that goes on after each occurrence finds the ranges the lemmas are about |
| SearchHighlight.ScanFindsAll | public/src/lib/sessionSearchHighlight.js:45-47 | Every occurrence starts inside one that was found |
| SearchHighlight.HighlightSearchSnippet | public/src/lib/sessionSearchHighlight.js:35-62 | The whole function computes the segments the lemmas are about |
| SearchHighlight.SegmentsMakeTheSnippet | public/src/lib/sessionSearchHighlight.js:35-62 | Nothing of the snippet is lost and no segment is empty |
| SearchHighlight.OnlyTermsAreHighlighted | public/src/lib/sessionSearchHighlight.js:43-49 | Only terms are highlighted, or what the server matched when none occurs |
| SearchHighlight.MatchWhenNothingOccurs | public/src/lib/sessionSearchHighlight.js:49-49 | When no term occurs, exactly what the server matched is highlighted |
| SearchHighlight.EveryOccurrenceIsTouched | public/src/lib/sessionSearchHighlight.js:43-59 | Every occurrence starts inside one of the same term whose first character is highlighted |
| SearchHighlight.UnborderedTermsAreHighlighted | public/src/lib/sessionSearchHighlight.js:43-59 | The first character of every occurrence of a term that cannot overlap itself is highlighted |
| SearchHighlight.ApartOccurrencesAreHighlighted | public/src/lib/sessionSearchHighlight.js:43-59 | So is that of any term when no found occurrences overlap |
| SearchHighlight.SingleTermIsApart | public/src/lib/sessionSearchHighlight.js:43-50 | Which is so for every query of one term |
| SearchHighlight.KeptOfSearch | public/src/lib/sessionSearchHighlight.js:43-55 | The ranges highlighted for a query are that greedy choice of the ranges found |
| SearchHighlight.MissedExactlyWhenPassedOver | public/src/lib/sessionSearchHighlight.js:54-55 | The first character of an occurrence stays plain exactly when it lies inside a passed-over range of its own term and in no kept range |
| SearchHighlight.AllHighlightedExactlyWhenRecovered | public/src/lib/sessionSearchHighlight.js:43-55 | All first characters are highlighted exactly when every occurrence inside a passed-over range of its own term starts in a kept range |
| SearchHighlight.OverlappingTermIsMissed | public/src/lib/sessionSearchHighlight.js:54-55 | A snippet and a query of two terms with an occurrence whose first character stays plain |
| SseDeduper.AcceptedExactlyWhenNew | public/src/runtime/eventStreamUtils.js:18-26 | Exactly the ids are accepted that are not empty and not among the last `maxIds` accepted |
| SseDeduper.RepeatsAreFarApart | public/src/runtime/eventStreamUtils.js:18-26 | An id is accepted again only after at least `maxIds` others |
| SseDeduper.Deduper.Dedupe | public/src/runtime/eventStreamUtils.js:18-26 | A message is a duplicate exactly when its id, not empty, is among the last `maxIds` accepted |
| SseDeduper.Deduper.Trim | public/src/runtime/eventStreamUtils.js:24-24 | Trimming keeps the newest ids, the set and the queue the same ids |

## Left out

- Uploads: the progress percentage, the sleeps between retries, the older `.name.upload` partial file, removal of
  abandoned partial files, read errors during the retry check, request validation, and two uploads of one name at once.
- UploadClient.UploadEnds: needs the network to be clean from some point on; without that the claim is false, and
  UploadEnding.SureToEndExactlyInOneChunk says for which files it holds.
- UploadClient.UploadFiles: files of one call have different names; the schedule is total, so a request that never
  settles is not modelled.
- Rendering: prompt memory, scroll positions and focus; `prepend` (load earlier) overlapping an unfinished render; the
  `start` and `updateResult` calls of tool cards and streamed updates of a live assistant.
- Reloads: the history cursor and optimistic previews.
- ReplayGate.EpochDeliversInOrder: assumes that the gate stays closed until the reload is answered;
  ReplayGate.EpochDelivers is without that.
- OAuth: URLs, hashing, token requests, error texts and randomness beyond freshness; the status after cancel or expiry
  during an exchange, which completion overwrites. Flows are values in a map instead of shared objects, so aliasing of
  a flow by a suspended callback is modelled by its id.
- Checklist loop: prompts, commit messages, restoring HEAD, errors thrown in the middle of an iteration, and commit
  hooks that rewrite the plan. An item is an ECMA-262 string of code units; characters here are code points.
- Sessions: null or repeated identities, labels and the sorting of loop iterations.
- Focus: real elements, documents that change shape while a boundary is registered, and others writing `inert`.
- Cost: rounding of floating point, dates outside the range of the time value, and the catalog lookup.
- Activity: stacks shared between items are numbered, so aliasing is modelled by number.
- RpcClient: command payloads, the `pendingResume` hook, and a command that brings its own id.
- SearchHighlight.UnborderedTermsAreHighlighted: a sufficient condition on one term; the exact statement for all terms
  is SearchHighlight.AllHighlightedExactlyWhenRecovered.
- SearchTerms.Lower: keeps the length of a text; case mappings that change it are not modelled. The library sort is an
  insertion sort.
- Dialogs, gestures, layout, voice, cloud provisioning, Mermaid and KaTeX: no protocol of their own.

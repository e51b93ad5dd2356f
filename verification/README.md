# Verified model of the finance agent's control plane and query pipeline

The project models the parts of the finance agent that have to be right whatever the language
model answers: the run store with its leased action receipts and the API workers that use it, the
side-thread store with its event log and shared workflow artifacts, the run graph with its repair
loop and guard, the chain from user filters to bound SQL parameters, the time ranges, and the
smaller index, parser and log cores around them.

`dafny verify dfyconfig.toml` checks everything.

## How it is built

| files | what they model |
|---|---|
| `RunDb`, `RunStore`, `RunHistory`, `RunEvents`, `RunWrites`, `WorkerProtocol`, `ActionEndpoint`, `RequestKeys` | run snapshots, action receipts with leases, status events, the workers of the confirmation endpoints, one request from start to end, and what different requests have to do with each other |
| `ThreadDb`, `SideThreadStore`, `ThreadLog`, `ThreadHistory`, `ThreadRules`, `SkillTurns`, `LostUpdates`, `SideAgent`, `SkillAgent` | side threads as event-sourced conversations, shared artifacts with optimistic revisions, concurrent turns, `open` and `respond` |
| `RunGraph`, `RunPaths` | the query run as a node-level state machine, the older confirmation loop, execution of a method set |
| `OrderedDict`, `SlotIds`, `Placeholders`, `FilterBinding`, `SlotOrder`, `BindingChain` | filter specifications, opaque slots and their order, bound values and the placeholder check, for the planning of a run and for the revision of its method |
| `Calendar`, `CountWords` | relative time ranges and the counts inside them |
| `SqlLiteral`, `LiteralReader`, `ToolSchema`, `JsonEquality`, `ColumnSplitter`, `EntityColumns` | SQL literal printer, scanner and reader, the JSON schema check of tool arguments and its equality, the DDL splitter, inherited entity columns |
| `QueryHistory`, `CandidateSelector`, `SessionTimeline` | the query history index, the choice of an earlier query, the timeline of a session file |

Each store is written twice: as functions from one table value to the next, and as a class whose
methods run the statements of the original one after the other and are proved to leave the tables
exactly as the function says. The properties are proved about the functions, over whole histories:
sequences of atomic calls by any number of callers in any order.

### Assumptions

* A store call is one atomic step. `claim_action` and `complete_action` run in an immediate
  transaction; `save` opens none, so its atomicity is an assumption here.
* The clock does not run backwards from one store call to the next.
* Each read of a side-agent turn, its begin and its commit are one step each; anything may happen
  between two of them.
* A review id is never used for two reviews, and the digests of two different texts that a revision
  of one run is keyed by differ.
* The step limit of the graph is a parameter. The repository sets none, so that of the installed
  LangGraph applies: 25 nodes per invocation in its 0.x releases.
* Model output, validators, the database, hashes, JSON encoding and the resolution of a range value
  are arbitrary values or functions. Recognising a time phrase or the wording of a question is not
  modelled; what a recognised phrase means is.
* A run status is one of the fourteen terminal ones or any other text.
* In the graph, analysis planning either raises or ends in the status that leads on to method
  generation, as its code does; the route to the audit behind it is never taken.

### What turned out not to hold

These are consequences of the code as it stands. Each has a lemma with an input, and one that says
exactly when the property does hold.

* A request that comes again is not always answered with the response of the first. After any
  history its answer depends on the review that the run has by then
  (`ActionEndpoints.RepetitionFollowsTheReview`): it is replayed exactly if it carries an idempotency
  header or the completed state kept the review (`ActionEndpoints.RepetitionIsReplayedIffKeyIsKept`). Approving
  an analysis plan and revising a method renew the review, so without a header the second approval
  is rejected, and the same revision is applied twice (`ActionEndpoints.RevisionIsAppliedTwice`).
* A lease has no fencing token. The worker that was granted a key last completes it exactly if no
  earlier holder finished or gave up since (`WorkerProtocol.LastHolderCounts`); a late worker's
  completion can be the one that counts (`WorkerProtocol.LateWorkerWins`). A completed receipt loses
  its answer exactly by a failure report or the deletion of its run
  (`RunHistory.AnswerIsLostOnlyByFailureOrDeletion`), and a late failure report does that
  (`WorkerProtocol.LateFailureReopens`).
* Deleting a workflow artifact restarts its revisions (`ThreadHistory.DeletionRestartsRevisions`). A
  turn's commit is safe against everything that may happen meanwhile exactly if it expects revision
  0 or neither its session nor its artifact can be deleted (`LostUpdates.SafetyIsExact`); for every
  other revision there is a run in which it overwrites what it never read
  (`LostUpdates.LostUpdate`).
* Two `open` calls that both look before either creates leave two live threads
  (`SideAgent.RacingOpensMakeTwo`): a creation keeps the one live thread exactly if there is none
  yet when it creates (`SideAgent.CreationNeedsNoLiveThread`).
* A method revision makes its slots from the specifications of the proposal alone, while the plan
  used those of the base query too. A filter keeps its operator exactly if the proposal specifies it
  or it was an equality anyway (`BindingChain.RevisionKeepsFilterIff`); a time range inherited from
  the base query becomes an equality with the phrase itself (`BindingChain.RevisionLosesARange`).
* The comment at `src/finance_agent/graph/runtime.py:1785` says that at most three rounds are run,
  the first included; the code allows three repairs, hence four guard visits. The fourth is within
  reach exactly from a limit of 29 steps on (`RunGraph.FourthGuardVisitNeeds29Steps`), so under 25
  there are three (`RunGraph.GuardVisitsUnderLimit`), and some run is cut off exactly below 31
  (`RunGraph.LimitMattersBelow31`).
* Of all spellings of a Chinese numeral below one thousand exactly those below one hundred are read
  correctly (`CountWords.ReadsExactlyBelowHundred`).
* Two printed texts with nothing in between are scanned back as one (`SqlLiteral.AdjacentTextsMerge`);
  the scan returns the strings that were printed exactly if that occurs nowhere
  (`SqlLiteral.InterleavedRoundTrip`).
* The argument check does not look at oneOf, anyOf and enum at the top of a schema
  (`ToolSchema.TopAlternativesAreIgnored`); its acceptance differs from conformance exactly where
  those decide otherwise (`ToolSchema.AcceptanceDiffersExactly`).
* A bare candidate number resolves to the record that was shown exactly if it is at most 50 and no
  query repeats up to it (`QueryHistory.NumberAgreesIffNoRepeats`).
* A review card whose request has no reply yet is hung on the last reply, which then counts as that
  request's, even if it was given to another (`SessionTimeline.SnapshotTakesOverAReply`); request
  ids stop agreeing exactly then (`SessionTimeline.RequestsAgreeUnlessRebound`).

## Model

| member | source | states |
|---|---|---|
| RunStores.RunStore.Save | src/finance_agent/session/run_store.py:138-187 | the whole new state of a save: refused for a foreign owner or a terminal status, otherwise version up by one and an event exactly on a status change |
| RunStores.RunStore.ClaimAction | src/finance_agent/session/run_store.py:197-252 | the answer and the new receipts of a claim: not found, already completed with the stored response, busy, or claimed with a fresh lease and one more attempt |
| RunStores.RunStore.CompleteAction | src/finance_agent/session/run_store.py:254-308 | completing updates receipt, run and events together, or rolls back |
| RunStores.RunStore.DeleteSession | src/finance_agent/session/run_store.py:317-320 | the runs of a session go with their receipts and events, and are counted |
| RunHistory.SaveIsReadBack | src/finance_agent/session/run_store.py:138-195 | a save changes nothing exactly for a foreign owner, another status after a terminal one, or a missing id; otherwise its owner and no one else reads the payload back, and every other run reads as before |
| RunHistory.FailureFreesTheKey | src/finance_agent/session/run_store.py:310-315 | a failure report frees its key: the next claim by the owner is granted whatever the clock says, as one attempt more, the old response stays stored, and no other receipt, run or event changes |
| RunHistory.RenewalKeepsOthersOut | src/finance_agent/session/run_store.py:322-341 | renewing succeeds exactly for a receipt in progress; until the new end every claim is refused, from then on the owner's is granted, and the holder can complete as before |
| RunHistory.LeaseExclusion | src/finance_agent/session/run_store.py:197-252 | two granted claims of one key are separated by a failure report, by the deletion of the run, or by the end of the last lease that was written |
| RunHistory.LeaseLastsItsFullLength | src/finance_agent/session/run_store.py:225-252 | until a granted lease ends, every other claim of the key is refused and changes nothing |
| RunHistory.AttemptsCountClaims | src/finance_agent/session/run_store.py:232-252 | the attempts of a receipt are the claims granted since the receipt came into being |
| RunHistory.CompletionsNeverExceedAttempts | src/finance_agent/session/run_store.py:274-308 | effective completions never outnumber attempts, and one attempt is still open while the receipt is in progress |
| RunHistory.CompletionIsAllOrNothing | src/finance_agent/session/run_store.py:264-308 | receipt, run row and event change together or not at all, and nothing else changes |
| RunHistory.AtMostOneCompletion | src/finance_agent/session/run_store.py:254-315 | without a failure report or deletion a key is completed at most once, even by a stale worker |
| RunHistory.LaterClaimsGetTheStoredResponse | src/finance_agent/session/run_store.py:210-226 | after a completion every claim by the owner returns exactly the stored response, and by anyone else not found |
| RunHistory.ResponseIsKept | src/finance_agent/session/run_store.py:254-315 | the stored response and the owner survive everything but a failure report or deletion |
| RunHistory.AnswerIsLostOnlyByFailureOrDeletion | src/finance_agent/session/run_store.py:254-320 | after a completion the stored response is missing or unusable at some later point exactly if in between a failure is reported for the key or its run is deleted |
| RunHistory.OwnerNeverChanges | src/finance_agent/session/run_store.py:147-178 | while a run exists its owner is fixed, its version never drops, and an equal version means an unchanged row |
| RunHistory.TerminalStatusSticks | src/finance_agent/session/run_store.py:157-160 | only an effective completion takes a run out of a terminal status |
| RunHistory.RowDiscipline | src/finance_agent/session/run_store.py:138-308 | one call keeps the owner, raises the version by at most one and by one whenever the row changes |
| RunEvents.AlwaysConsistent | src/finance_agent/session/run_store.py:179-187 | in every reachable store each run's events start from nothing, each starts where the last ended, the last is the row's status, versions ascend, and nothing is left of deleted runs |
| RunEvents.StepKeepsConsistent | src/finance_agent/session/run_store.py:138-320 | every store call keeps all event chains |
| RunEvents.EventVersionsAscend | src/finance_agent/session/run_store.py:343-353 | of any two events of a run the later has the higher version, and none exceeds the row's |
| RunEvents.EventsOfRemaining | src/finance_agent/session/run_store.py:317-320 | deleting runs removes exactly their events and leaves the others in order |
| RunWrites.SaveIsRecorded | src/finance_agent/session/run_store.py:138-187 | a save that is not ignored stores session, owner, status and payload as given, one version up, and adds exactly one event, from the earlier status or none, if and only if the status was another; an ignored save and a save of another run change nothing of a run |
| RunWrites.RowIsItsLastWrite | src/finance_agent/session/run_store.py:138-353 | in every reachable store a run is there exactly if it was written since its session was last deleted; session, owner, status and payload are those of the last save or completion that had effect, the version is their number, and `list_events` is the sequence of their status changes, every completion included |
| RunWrites.LastEventIsTheStatus | src/finance_agent/session/run_store.py:182-187 | the last event of a run carries the status of the last write that had effect |
| RunWrites.ReceiptsAreShaped | src/finance_agent/session/run_store.py:197-341 | in every reachable store a receipt has a lease exactly while it is in progress, an answer once it is completed, and at least one attempt |
| WorkerProtocol.TimelyWorkersCompleteOnce | src/finance_agent/api/routes/runs.py:264-386 | from any tables, and whatever happens to other keys, runs and sessions: if the holders of a key finish, give up and renew inside their lease and its run is not deleted, the key is finished at most once, with effect, and its response is kept ever after |
| WorkerProtocol.TimelyRunsKeepInv | src/finance_agent/api/routes/runs.py:264-386 | at every point of such a run at most one live worker holds the key, under the lease of its receipt |
| WorkerProtocol.TimelyStep | src/finance_agent/api/routes/runs.py:264-386 | one act, the deletion of other runs included, keeps the holder of the key alone and its stored answer untouched, and a finish takes effect |
| WorkerProtocol.WorkingUntilEnded | src/finance_agent/session/run_store.py:197-341 | from a grant on, late workers and all, the receipt is in progress exactly until the first holder finishes or gives up |
| WorkerProtocol.LastHolderCounts | src/finance_agent/session/run_store.py:276-282 | the completion of the worker that was granted the key last takes effect exactly if no holder finished or gave up the key since that grant |
| WorkerProtocol.LateWorkerWins | src/finance_agent/session/run_store.py:276-282 | an input of the failing case: after a takeover the late worker's completion is the one that counts, and the new holder's is dropped |
| WorkerProtocol.LateFailureReopens | src/finance_agent/session/run_store.py:310-315 | an input of the failing case: after a failure report on a completed receipt the key is granted and completed again, with another response |
| WorkerProtocol.ImportDecides | src/finance_agent/api/app.py:182-216 | claiming with the import of an older pending run reports a missing run exactly for a foreign owner or a state that is not the caller's |
| ActionEndpoints.ActionEndpoint.ClaimAction | src/finance_agent/api/app.py:182-216 | the claim under a derived key, with the import of the loaded state and the second claim if the run is not known |
| ActionEndpoints.ActionEndpoint.Act | src/finance_agent/api/routes/runs.py:264-386 | one confirmation request: the reply and the whole new store after load, key, claim, work, and completion, failure or crash |
| ActionEndpoints.KeyIsKept | src/finance_agent/api/app.py:147-159 | the key of a request is the same for two states exactly if a header is given or their reviews are the same |
| ActionEndpoints.RepetitionFollowsTheReview | src/finance_agent/api/app.py:147-216 | after any history of store calls that does not undo the completion, the request that comes again is answered with the stored response and changes nothing if it has a header or the run still has the review it was about; otherwise it gets a new key, is replayed only if that is answered, and done again if that is new |
| ActionEndpoints.RepetitionIsReplayedIffKeyIsKept | src/finance_agent/api/app.py:147-216 | while no other call renews the review, it is answered with the stored response, changing nothing, if and only if it has a header or its own completion kept the review |
| ActionEndpoints.WhichActionsAreReplayed | src/finance_agent/graph/runtime.py:659-777 | hence approving a method, its data or a prior result is always replayed, approving a plan and revising a method only with a header |
| ActionEndpoints.RevisionIsAppliedTwice | src/finance_agent/graph/runtime.py:674-777 | an input of the failing case: the same revision sent twice without a header is done twice, under two receipts, whatever the digest, if it tells the two reviews apart |
| ActionEndpoints.TakenUpAgain | src/finance_agent/session/run_store.py:225-252 | a receipt without an answer is granted again exactly after a failure or from the end of its lease on, as one attempt more; otherwise the request waits |
| ActionEndpoints.CrashWaitsForTheLease | src/finance_agent/api/routes/runs.py:278-281 | a request whose work ended in an error that is not reported waits exactly until its 300 seconds are over, and is then done again |
| ActionEndpoints.RejectionCanBeRetried | src/finance_agent/api/routes/runs.py:279-281 | after rejected work the same request is claimed again at once, as one attempt more, and can be completed |
| ActionEndpoints.RunningRequestIsNotRepeated | src/finance_agent/api/app.py:208-215 | while the lease runs, a repeated request waits and changes nothing |
| ActionEndpoints.StrangersLearnNothing | src/finance_agent/api/app.py:191-209 | for anyone but the owner an existing run is not found and nothing changes |
| RequestKeys.KeysAgreeExactly | src/finance_agent/api/app.py:147-159 | two requests share a receipt if and only if they are for the same action on the same run and have headers with the same first 256 characters, or have none, answer the same review and, for a revision, give the same instruction; a header that equals what the other request is keyed by is stated as the one other case |
| RequestKeys.ColonsConfuseRevisions | src/finance_agent/api/app.py:157 | revisions of two reviews have the same text if and only if review and instruction are the same, or one review goes on with a colon where the other ends and the instruction makes up for it; review ids of this program, being UUIDs, never do |
| RequestKeys.OtherReceiptsDoNotMatter | src/finance_agent/session/run_store.py:96 | whatever the receipt of one key holds, a request with another key gets the same reply and does the same to everything else |
| RequestKeys.RevisionsDoNotDelayEachOther | src/finance_agent/api/app.py:147-159 | after one revision has crashed and kept its lease, another revision of the same review is done at once |
| RequestKeys.DoneIsRecorded | src/finance_agent/api/routes/runs.py:264-293 | a request that is done leaves the state its work returned, two versions up, with one event from the status before, and its response as the answer of its receipt |
| RequestKeys.OnlyDoneChangesTheRun | src/finance_agent/api/routes/runs.py:264-293 | a request that ends in any other way leaves every run and event as it was |
| RequestKeys.StoredRunIsPreferred | src/finance_agent/api/app.py:965-1002 | the stored run decides whatever copy is kept; without one the copy serves its own owner alone |
| RequestKeys.OlderRunIsImported | src/finance_agent/api/app.py:182-216 | a run that is not stored yet is imported as it is, claimed and done |
| SideThreadStores.SideThreadStore.AppendEvent | src/finance_agent/session/thread_store.py:156-173 | asking for the maximum and adding one keeps every log numbered from 1 without gaps |
| SideThreadStores.SideThreadStore.CreateThread | src/finance_agent/session/thread_store.py:179-214 | a new thread at version 1 with its creation event, or the error that leaves the store unchanged |
| SideThreadStores.SideThreadStore.ImportMessages | src/finance_agent/session/thread_store.py:235-250 | old user and assistant messages are logged in order, others are skipped, and the row is not touched |
| SideThreadStores.SideThreadStore.GetMessages | src/finance_agent/session/thread_store.py:132-153 | the conversation is the message events in log order |
| SideThreadStores.SideThreadStore.BeginTurn | src/finance_agent/session/thread_store.py:272-293 | a resumable thread becomes active, with a status event only if it was not, and then logs the start of the turn |
| SideThreadStores.SideThreadStore.AppendMessage | src/finance_agent/session/thread_store.py:295-326 | one message event and one version, for user and assistant only |
| SideThreadStores.SideThreadStore.CompleteTurn | src/finance_agent/session/thread_store.py:328-400 | all events of a commit in order, the checkpoint reference, and the artifact one revision up exactly if its state changes; a stale revision raises and changes nothing |
| SideThreadStores.SideThreadStore.Transition | src/finance_agent/session/thread_store.py:445-467 | a transition the table allows, or an error that changes nothing |
| SideThreadStores.SideThreadStore.FailTurn | src/finance_agent/session/thread_store.py:469-490 | an active turn fails with its reason logged before the status change |
| SideThreadStores.SideThreadStore.SetWorkflowState | src/finance_agent/session/thread_store.py:402-428 | a direct write raises the revision by one, a deletion removes the artifact |
| SideThreadStores.SideThreadStore.GetWorkflowState | src/finance_agent/session/thread_store.py:430-438 | a missing artifact reads as no state at revision 0 |
| SideThreadStores.SideThreadStore.DeleteParent | src/finance_agent/session/thread_store.py:492-498 | threads, logs and artifacts of a parent session are removed, and no others |
| ThreadHistory.RowsAgreeWithLogs | src/finance_agent/session/thread_store.py:156-490 | in every reachable store a row's status is the replay of its log, its checkpoint the last one logged, and its version 1 + status changes + messages - 2 * checkpoints, less imported messages |
| ThreadHistory.StepKeepsThread | src/finance_agent/session/thread_store.py:156-498 | every operation keeps the agreement of every row with its log |
| ThreadHistory.RaisingChangesNothing | src/finance_agent/session/thread_store.py:272-490 | an operation that raises or finds no thread leaves the store as it was |
| ThreadHistory.LogIsAppendOnly | src/finance_agent/session/thread_store.py:156-173 | a log only grows at its end |
| ThreadHistory.ConversationIsWhatWasSaid | src/finance_agent/session/thread_store.py:132-153 | in every reachable store the messages of a thread are exactly what was said in it since it was created, in order; a turn adds its question and its answer |
| ThreadHistory.ConversationStep | src/finance_agent/session/thread_store.py:156-490 | one operation adds exactly its own messages to a conversation |
| ThreadHistory.CommitAnnouncesItsRevision | src/finance_agent/session/thread_store.py:366-383 | a commit logs a handoff with the new revision exactly when it changes the artifact |
| ThreadHistory.StatusMovesAreAllowed | src/finance_agent/session/thread_store.py:26-33 | every status change of any operation is in the transition table, although begin, complete and fail never consult it |
| ThreadHistory.FinalThreadsStayFinal | src/finance_agent/session/thread_store.py:26-33 | completed and cancelled threads stay so in every history |
| ThreadHistory.RevisionIdentifiesState | src/finance_agent/session/thread_store.py:352-376 | while an artifact is not deleted its revision never drops and one revision is only ever one state |
| ThreadHistory.DeletionRestartsRevisions | src/finance_agent/session/thread_store.py:402-428 | the first write after a deletion has revision 1 again, whatever revision there was before; SafetyIsExact says exactly which commits this endangers |
| ThreadRules.TransitionTable | src/finance_agent/session/thread_store.py:26-33 | the transition table by its targets: a thread that is not final may be cancelled and, unless it already did, fail or become active; only an active one waits, and one that waits for the user cannot complete |
| ThreadRules.MovesSucceedExactly | src/finance_agent/session/thread_store.py:445-467 | a transition succeeds if and only if the table allows it, and then sets the status, one version up |
| ThreadRules.ClosingSucceedsUntilFinal | src/finance_agent/session/thread_store.py:445-467 | a thread can be closed exactly while it is neither completed nor cancelled |
| ThreadRules.FailingSucceedsExactlyInTurn | src/finance_agent/session/thread_store.py:469-490 | failing a turn succeeds if and only if the thread is active; it has then failed, and its reason is the first thing logged |
| ThreadRules.TurnsBeginExactly | src/finance_agent/session/thread_store.py:272-293 | a turn begins if and only if the thread is resumable; it is then active, one version up if it was not |
| ThreadRules.CommitsSucceedExactly | src/finance_agent/session/thread_store.py:328-360 | a commit goes through if and only if the thread is active, the turn ends in a completion status and the artifact has the expected revision; a conflict is raised exactly for another revision |
| ThreadRules.MessagesAreTakenExactly | src/finance_agent/session/thread_store.py:295-326 | a message is taken exactly from the user or the assistant, in any thread there is |
| ThreadRules.CreationSucceedsExactly | src/finance_agent/session/thread_store.py:179-214 | a thread is created if and only if its id is new and its status known, with every field as given |
| ThreadRules.ThreadsKeepTheirIdentity | src/finance_agent/session/thread_store.py:179-498 | in every reachable store a thread is there exactly if it was created since its parent session was last deleted, with the parent, skill, state key and handler it was created with |
| ThreadRules.ArtifactIsItsLastWrite | src/finance_agent/session/thread_store.py:352-428 | in every reachable store an artifact is the last state written to it since it was deleted, at the revision that counts those writes |
| ThreadRules.WrittenStateIsRead | src/finance_agent/session/thread_store.py:402-438 | a direct write is read back one revision up, a deleted artifact as the empty state, and no other artifact changes |
| ThreadRules.DeletionIsComplete | src/finance_agent/session/thread_store.py:492-498 | after the deletion of a session none of its threads, logs and artifacts are left, and those of all others are as they were |
| ThreadLog.EveryEventFollows | src/finance_agent/session/thread_store.py:156-173 | event i of a log has sequence i, only the first creates, and a status change starts from the replayed status and is allowed |
| ThreadLog.CheckpointIsFollowed | src/finance_agent/session/thread_store.py:385-396 | the event after a checkpoint is the status change it announces |
| ThreadLog.CheckpointsAreSeparated | src/finance_agent/session/thread_store.py:284-290 | between two checkpoints the thread was made active again |
| ThreadLog.CheckpointReference | src/finance_agent/session/thread_store.py:385-393 | the reference names the last checkpoint of the log, and there is none exactly if the log has none |
| ThreadLog.FinalStatusIsKept | src/finance_agent/session/thread_store.py:26-33 | replaying past a final status changes nothing |
| SkillTurns.NoLostUpdate | src/finance_agent/skills/agent.py:475-553 | over every interleaving of turns and other callers, between the two reads of a turn too: a commit that goes through replaces exactly the state its turn had read and raises the revision by one if it changes it, unless the session was deleted since the thread was found, or the artifact since it was read |
| SkillTurns.FirstWriterIsSafe | src/finance_agent/skills/agent.py:475-553 | a turn that read revision 0 replaces what it read, whatever is deleted, created or written meanwhile |
| SkillTurns.CommitMeetsItsRevision | src/finance_agent/session/thread_store.py:344-376 | a commit that goes through finds the revision it expects and leaves the state it writes, one revision up exactly if the state changes |
| LostUpdates.SafetyIsExact | src/finance_agent/skills/agent.py:475-553 | in every run every commit that expects revision r replaces what its turn had read, if and only if r is 0 or neither the session nor the artifact can be deleted during the turn |
| LostUpdates.LostUpdate | src/finance_agent/skills/agent.py:475-553 | for every revision from 1 on, and for either deletion, a run in which a stale commit goes through and overwrites a state that its turn never read |
| SkillTurns.TurnBeginsIfResumable | src/finance_agent/skills/agent.py:500-509 | a turn begins exactly if its thread is still resumable, whatever happened since it was found; otherwise it is over and nothing has changed |
| SkillTurns.FailureEndsTheTurn | src/finance_agent/skills/agent.py:500-509 | a handler that fails ends the turn and fails the thread that is still active, and changes no artifact |
| SkillTurns.OneWriterPerRevision | src/finance_agent/session/thread_store.py:352-376 | of two turns that read the same revision at most one commits a change |
| SkillTurns.RevisionsIdentify | src/finance_agent/session/thread_store.py:352-428 | in any interleaving a revision identifies a state as long as the artifact is not deleted |
| SkillTurns.WorkerKeepsItsRead | src/finance_agent/skills/agent.py:483-553 | from its read to its commit a turn keeps thread, artifact, state and revision |
| SideAgent.AtMostOneLiveThread | src/finance_agent/skills/agent.py:418-454 | in every sequential use of open, respond and close, a parent session has at most one live thread per skill |
| SideAgent.OpenReturnsTheLiveThread | src/finance_agent/skills/agent.py:425-454 | open returns the live thread and changes nothing if there is one, and its result is the only live thread afterwards |
| SideAgent.NewThreadGreets | src/finance_agent/skills/agent.py:438-454 | a thread that open creates is active, is what was asked for, and has said its opening message and nothing else |
| SideAgent.CreationNeedsNoLiveThread | src/finance_agent/skills/agent.py:425-454 | a creation keeps at most one live thread per parent and skill if and only if its own parent and skill have none when it creates |
| SkillAgents.SkillAgentExecutor.Open | src/finance_agent/skills/agent.py:418-454 | the first live thread of the skill is handed out, else a new one with its opening message is made |
| SkillAgents.SkillAgentExecutor.Respond | src/finance_agent/skills/agent.py:463-553 | the whole new store after read, begin, handler, and commit or failure, and which of the replies is given, each exactly when |
| SkillAgents.NextTurnSeesTheAnswer | src/finance_agent/skills/agent.py:483-553 | after an answered turn the next turn on the artifact, in that thread or another, hands its handler exactly the state that the answer left |
| SkillAgents.TurnsPassTheStateOn | src/finance_agent/skills/agent.py:483-553 | over a whole conversation the draft passes through the changes of all handlers, one after the other |
| SkillAgents.UnchangedStateIsNotWritten | src/finance_agent/skills/agent.py:483-553 | a handler that hands back the state it was given changes no artifact and no revision |
| SkillAgents.FirstTurnStartsEmpty | src/finance_agent/session/thread_store.py:430-438 | the first turn on an artifact is given the empty state |
| SkillAgents.FailedTurnKeepsTheArtifact | src/finance_agent/skills/agent.py:500-509 | a handler that raises fails its thread and touches no artifact |
| SkillAgents.TurnsKeepToThemselves | src/finance_agent/skills/agent.py:463-553 | a turn touches no other thread |
| SkillAgents.TurnsKeepToTheirLog | src/finance_agent/skills/agent.py:463-553 | a turn writes to no other thread's log |
| SkillAgents.TurnsKeepToTheirArtifact | src/finance_agent/skills/agent.py:463-553 | a turn changes no artifact but that of its thread's parent and state key |
| SideAgent.RespondGoesThrough | src/finance_agent/skills/agent.py:463-553 | without a rival the commit of respond always succeeds and its state is the current one |
| SideAgent.RacingOpensMakeTwo | src/finance_agent/skills/agent.py:425-454 | an input of the failing case: two opens that both look first break the single live thread |
| RunGraph.GraphHalts | src/finance_agent/graph/runtime.py:149-207 | for every sequence of answers the graph halts within seven steps per remaining repair plus the rank of the node |
| RunGraph.VisitsAreBounded | src/finance_agent/graph/runtime.py:1776-1841 | from the entry, 31 steps, at most three repairs and at most one guard visit more than repairs |
| RunGraph.BoundsAreReached | src/finance_agent/graph/runtime.py:1776-1841 | without a step limit the bounds are sharp: one run is not over after 30 steps, with three repairs and four guard visits |
| RunGraph.GuardNeedsSteps | src/finance_agent/graph/runtime.py:149-207 | the n-th guard visit takes place in step 1 + 7 n at the earliest |
| RunGraph.GuardVisitsUnderLimit | src/finance_agent/graph/runtime.py:287 | under a step limit there is at most one guard visit for every seven steps after the first, at most three under 25 |
| RunGraph.FourthGuardVisitNeeds29Steps | src/finance_agent/graph/runtime.py:1784-1786 | some run visits the guard four times within the limit if and only if the limit is 29 steps or more |
| RunGraph.LimitMattersBelow31 | src/finance_agent/graph/runtime.py:287 | some run is cut off by the limit if and only if it is below 31 steps |
| RunGraph.AlwaysPaired | src/finance_agent/graph/runtime.py:1568-1592 | until the run has ended the method drafts are exactly the methods of the compiled queries |
| RunGraph.DraftsAreTheLastGeneration | src/finance_agent/query/compiler.py:11-28 | on every path, until they are executed, the drafts are those of the last generation that succeeded, each with exactly the values bound in it |
| RunGraph.GuardAcceptsExactlyClean | src/finance_agent/query/guard.py:29-66 | the guard reports no error exactly when every method is free of review and dry-run errors |
| RunGraph.OnlyValidatedMethodsRun | src/finance_agent/graph/runtime.py:1736-1781 | execution is entered exactly from a guard visit in which every method that will run was clean, and with those same methods |
| RunGraph.StaleDraftsAreRevalidated | src/finance_agent/graph/runtime.py:1587-1592 | after a failed regeneration the earlier drafts stay and are executed exactly if that guard finds them clean; without any draft the run ends abnormally |
| RunPaths.RouteDecides | src/finance_agent/graph/runtime.py:149-207 | search, generation, guard and execution can be visited if and only if the second answer, unless it raises, decides on the method flow |
| RunPaths.DirectAnswerIsRendered | src/finance_agent/graph/runtime.py:181-189 | with another route a run in which nothing raises renders the direct answer, is audited and ends |
| RunPaths.OtherRoutesStayOut | src/finance_agent/graph/runtime.py:967-974 | with another route no node of the method flow is ever visited |
| RunPaths.StatusNamesTheLastStep | src/finance_agent/graph/runtime.py:149-207 | at every node the status of a run in progress is the one that its last step gives |
| RunPaths.RunsEndInThreeWays | src/finance_agent/graph/runtime.py:149-207 | a run that has ended was executed once with the status of the execution, or refused and audited once and says so, or answered directly and audited, and nothing else |
| RunPaths.FindingsAreRepairedOrRefused | src/finance_agent/graph/runtime.py:1776-1800 | a guard visit with a finding leads back to the search if and only if fewer than three repairs were visited and the finding is not marked, else to the refusal; it reports all findings of the reviews, then of the dry runs |
| RunPaths.RefusedRunsNameTheirErrors | src/finance_agent/graph/runtime.py:1736-1841 | a refused run ends with exactly the findings of its last round |
| RunPaths.QueriesAreTheirMethods | src/finance_agent/query/compiler.py:11-28 | at every point every compiled query has the text and the values of its own method |
| RunPaths.ExecutionNeedsAPassedGuard | src/finance_agent/graph/runtime.py:480-489 | execution ends a run exactly if its guard has passed and there is a method, and raises otherwise |
| RunPaths.ExecutionEndsTheRun | src/finance_agent/graph/runtime.py:480-635 | what is executed is what the guard found clean; the run ends as executed, in the mode all methods ran in or mixed, if and only if every method passed, and shows exactly those that did, if any did |
| RunPaths.DependentMethodNeedsPriorResult | src/finance_agent/graph/runtime.py:2143-2232 | from an old checkpoint, a dependent method replaces the drafts exactly if the prior result is found; if not, both nodes note it and the old drafts are checked |
| RunPaths.RepairReplacesDrafts | src/finance_agent/graph/runtime.py:1843-1905 | a repair counts whether it succeeds or not; if it does, its methods replace the drafts and the errors are cleared, else nothing is lost |
| RunPaths.RoundReports | src/finance_agent/graph/runtime.py:1676-1728 | a round of the older loop adds exactly what its reviews report, and if that is nothing, what its checks report |
| RunGraph.PrepareMethodAfterAnalysisPlan | src/finance_agent/graph/runtime.py:2358-2375 | the older loop shows the methods of the first round that finds nothing, those of the last repair that came up with any, or else of the generation; it refuses the last ones if no round did, after all repairs that are left |
| RunGraph.RoundIsDecided | src/finance_agent/graph/runtime.py:1676-1728 | one round of review and check passes exactly for a clean method set and repairs nothing itself |
| RunGraph.ExecuteMethods | src/finance_agent/graph/runtime.py:486-532 | every method is tried; the passed ones are kept in order, the failed steps are reported, and one failure decides the status |
| RunGraph.OnlyFailuresAreReported | src/finance_agent/graph/runtime.py:499-524 | a step is reported as failed exactly if its execution failed |
| RunGraph.CommonMode | src/finance_agent/graph/runtime.py:613-614 | the mode is that of all executions or mixed |
| FilterBinding.MergeFilterSpecs | src/finance_agent/graph/input_binding.py:10-22 | the loop computes the ordered merge of the usable specifications |
| FilterBinding.MergeAssociative | src/finance_agent/graph/input_binding.py:10-22 | merging is associative, order of entries included |
| FilterBinding.MergeAbsorbs | src/finance_agent/graph/runtime.py:1456-1466 | merging the current specifications a second time changes nothing |
| FilterBinding.MergeLastWins | src/finance_agent/graph/input_binding.py:10-22 | the last usable specification of a name wins |
| FilterBinding.MergedLastUsable | src/finance_agent/graph/input_binding.py:10-22 | of the merged specifications the last usable current one of a name decides, and failing that the last usable base one |
| FilterBinding.FindIsLastUsable | src/finance_agent/graph/input_binding.py:70-74 | the dictionary of specifications holds, for each name, operator and value type of the last usable one |
| FilterBinding.MergeKeepsNames | src/finance_agent/graph/input_binding.py:10-22 | no usable name is lost or invented |
| OrderedDict.WritingTwice | src/finance_agent/graph/input_binding.py:15-22 | writing the same entries twice into an insertion-ordered dictionary is writing them once |
| FilterBinding.SqlInputSlots | src/finance_agent/graph/input_binding.py:65-128 | the loop yields the slots of the non-null parameters in sorted order, numbered from 1; EveryFilterHasSlots says what they are |
| SlotOrder.SortedIsOrdered | src/finance_agent/graph/input_binding.py:81 | the sorted parameters are in the order of their names |
| SlotOrder.SlotsIgnoreInsertionOrder | src/finance_agent/graph/input_binding.py:65-128 | the slots, ids and all, are the same for every insertion order of the parameters |
| FilterBinding.SlotIdsDistinct | src/finance_agent/graph/input_binding.py:65-128 | all slot ids are pairwise distinct |
| FilterBinding.EveryFilterHasSlots | src/finance_agent/graph/input_binding.py:65-128 | a non-null parameter whose specification has operator between or value type date_range has a gte start slot and an lt end slot side by side, every other one slot under its own operator or eq; id, type and wording of each are those of the parameter, its number its rank among the non-null ones |
| FilterBinding.SlotCount | src/finance_agent/graph/input_binding.py:65-128 | two slots per parameter with operator between or value type date_range, one per other value, none for null |
| FilterBinding.BoundInputParams | src/finance_agent/graph/input_binding.py:171-196 | the loop with its cache binds every slot, each range through one resolution, or raises |
| FilterBinding.OnlySlotsAreBound | src/finance_agent/graph/input_binding.py:171-196 | exactly the slot ids are bound |
| FilterBinding.SlotIsBound | src/finance_agent/graph/input_binding.py:171-196 | each slot is bound to its own value |
| SlotIds.NumeralRoundTrip | src/finance_agent/graph/input_binding.py:99-127 | a printed index reads back as itself |
| SlotIds.SlotIdInjective | src/finance_agent/graph/input_binding.py:99-127 | equal slot ids have equal index and part |
| BindingChain.PlanUsesMergedSpecs | src/finance_agent/graph/runtime.py:1354-1417 | the slots of a plan are those that merging the stored and the current specifications once more would give |
| BindingChain.GenerationBindsShownSlots | src/finance_agent/graph/runtime.py:1456-1466 | method generation binds exactly the slots that the SQL planner was shown, whichever specifications they were made from, although it merges again |
| BindingChain.BoundNamesAreTheSlots | src/finance_agent/graph/runtime.py:1568-1578 | binding yields one distinct name per slot and no other |
| BindingChain.AcceptedMeansAllSlots | src/finance_agent/harness/method_validator.py:112-123 | a SQL text passes the binding check exactly when its placeholders are the slot ids |
| BindingChain.NoFilterIsDropped | src/finance_agent/harness/method_validator.py:112-123 | in accepted SQL, after planning or a revision, every non-null filter is a placeholder: if its last usable specification has operator between or value type date_range, a gte and an lt slot bound to the two ends of one resolution, else one slot bound to its value under its operator |
| BindingChain.OwnParamsWin | src/finance_agent/graph/runtime.py:1355 | the value of a parameter is that of the question at hand, and failing that that of the query it builds on |
| BindingChain.AddedParamsWin | src/finance_agent/graph/runtime.py:685-708 | in a revision the values it adds win over those of the proposal, and those over the base query's |
| BindingChain.UsingAllSlotsIsAccepted | src/finance_agent/harness/method_validator.py:112-123 | any text written with all slots and no other placeholder is accepted |
| BindingChain.SlotIdsAreIdentifiers | src/finance_agent/graph/input_binding.py:99-127 | every slot id matches the placeholder pattern, so it can be written as a placeholder |
| BindingChain.RevisionKeepsFilterIff | src/finance_agent/graph/runtime.py:708-712 | a revision serves a filter as the plan did if and only if the proposal itself specifies it or the plan served it as a plain equality |
| BindingChain.RevisionLosesARange | src/finance_agent/graph/runtime.py:708-712 | an input of the failing case: a date range of the base query has two limits in the plan, and in the revision one equality slot bound to the phrase itself |
| Placeholders.RenderedPlaceholders | src/finance_agent/harness/method_validator.py:114 | in SQL written from placeholders, casts and texts whose colons begin no name, as in a time of day, scanning finds exactly the placeholders, in order |
| Placeholders.ReportNamesBothSides | src/finance_agent/harness/method_validator.py:112-123 | missing are exactly the placeholders that nobody binds, unused exactly the bound names that are no placeholder |
| Placeholders.AcceptedIffEqual | src/finance_agent/harness/method_validator.py:115-123 | neither missing nor unused means equal sets |
| Calendar.ThisMonthIsTheMonth | src/finance_agent/graph/input_binding.py:221-224 | this month runs from its first to the first of the next month and contains today; it raises only in December of the last year |
| Calendar.LastMonthEndsWhereThisStarts | src/finance_agent/graph/input_binding.py:225-228 | last month runs from the first of the month before to where this month starts |
| Calendar.HalvesTileTheYear | src/finance_agent/graph/input_binding.py:213-232 | the halves tile their year and meet on 1 July; the first contains exactly the first six months, and last year ends where this year starts |
| Calendar.YearRangesRaiseAtTheEdges | src/finance_agent/graph/input_binding.py:213-232 | this year and its second half raise exactly in the last year there is, the ranges of last year exactly in the first, the first half never |
| Calendar.MonthsBackIsExact | src/finance_agent/graph/input_binding.py:242-247 | n months start exactly n calendar months back, on the same day or the last of a shorter month, or raise exactly before year 1 |
| Calendar.MoreMonthsStartEarlier | src/finance_agent/graph/input_binding.py:242-247 | more months always start earlier |
| Calendar.YearsAreTwelveMonths | src/finance_agent/graph/input_binding.py:242-250 | n years are 12 n months |
| Calendar.DaysBackIsExact | src/finance_agent/graph/input_binding.py:251-255 | n days start exactly n days ago, raise exactly before year 1, and weeks are seven days |
| Calendar.RollingRangesEndTomorrow | src/finance_agent/graph/input_binding.py:239-255 | every rolling range is valid, contains today and ends tomorrow |
| Calendar.OrdinalOrders | src/finance_agent/graph/input_binding.py:251-255 | the day count orders dates exactly as year, month and day do |
| CountWords.ReadsNumerals | src/finance_agent/graph/input_binding.py:259-262 | decimal numerals are read as their number |
| CountWords.NumeralsAreRead | src/finance_agent/graph/input_binding.py:263-275 | each of the eleven single numerals, both for two included, is read as its number, and no other character is one |
| CountWords.ReadsExactlyBelowHundred | src/finance_agent/graph/input_binding.py:263-276 | of all spellings of the numbers below one thousand, with either character for two, with or without a one before the tens and a zero before the rest, exactly those of numbers below one hundred are read correctly |
| CountWords.HundredsAreNeverRead | src/finance_agent/graph/input_binding.py:263-276 | any text with the character for hundred in it is refused or read as less than one hundred |
| CountWords.MisreadsHundreds | src/finance_agent/graph/input_binding.py:263-276 | inputs of the failing case: one hundred is refused, one hundred and twenty is read as 0 |
| QueryHistory.MemoryStore.Upsert | src/finance_agent/memory/memory_store.py:228-239 | a known id is replaced in place with its creation time kept, a new one goes last |
| QueryHistory.MemoryStore.DeleteSession | src/finance_agent/memory/memory_store.py:420-429 | the records of a namespace, of one kind or all, are removed and counted |
| QueryHistory.UpsertedIsFound | src/finance_agent/memory/memory_store.py:228-239 | an upserted record is found under its id with its first creation time, and every other record stays in its place |
| QueryHistory.OtherHistoriesStay | src/finance_agent/memory/memory_store.py:420-429 | deleting the records of one session leaves the history of every other session as it was |
| QueryHistory.DeletedHistoryIsEmpty | src/finance_agent/memory/memory_store.py:420-429 | and empties its own, unless only its other memories were deleted |
| QueryHistory.PlacedAreRecords | src/finance_agent/memory/memory_store.py:262-270 | the history holds exactly the query records of the session |
| QueryHistory.WindowIsOrdered | src/finance_agent/memory/memory_store.py:262-270 | the history is newest first, later positions first among equal stamps |
| QueryHistory.LatestQueryIsFirst | src/finance_agent/memory/memory_store.py:228-270 | a query just recorded heads the history |
| QueryHistory.GroupRecords | src/finance_agent/memory/memory_store.py:272-279 | the loop groups records by query id in first-occurrence order |
| QueryHistory.GroupsPartition | src/finance_agent/memory/memory_store.py:272-279 | groups partition the window: each is exactly its query's records, headed by the first, in order of first occurrence |
| QueryHistory.ContextShowsTheNewestQueries | src/finance_agent/memory/memory_store.py:268-285 | at most as many queries are shown as asked for, fewer only if the newest records hold no more, each with all its records among the newest ten times as many, 50 at least |
| QueryHistory.UnnamedStandsAlone | src/finance_agent/memory/memory_store.py:278 | a record without a query id is a group of its own |
| QueryHistory.NamedBelongsToItsQuery | src/finance_agent/memory/memory_store.py:278 | a record with a query id belongs to that query and to no other |
| QueryHistory.ContextAgreesWithResolution | src/finance_agent/graph/runtime.py:1476-1496 | the query id of a shown candidate resolves to the head of its group exactly if that head is among the 50 newest records, hence always in a context of five, the only size asked for |
| QueryHistory.NumberAgreesIffNoRepeats | src/finance_agent/graph/runtime.py:1497-1501 | in a store with distinct record ids, the bare number of a shown candidate resolves to the head of its group if and only if it is at most 50 and no query repeats up to there |
| QueryHistory.MemoryIdsAreDistinct | src/finance_agent/memory/memory_store.py:228-239 | record ids are distinct in every store ever reached by upserts and deletions |
| CandidateSelector.ScoreChoosesTheClearWinner | src/finance_agent/memory/query_candidate_selector.py:306-340 | on the scoring path a candidate among several is chosen exactly if it is the one asked for, scores at least 2 and beats all others by at least 2 |
| CandidateSelector.OrderDoesNotMatter | src/finance_agent/memory/query_candidate_selector.py:222-340 | the choice depends on which candidates there are and not on their order, unless the latest query is meant |
| CandidateSelector.RankingRunsDown | src/finance_agent/memory/query_candidate_selector.py:222-233 | the ranking runs from the highest score down, and from the lowest number up among equal scores |
| CandidateSelector.SameRanking | src/finance_agent/memory/query_candidate_selector.py:222-233 | the ranking is a function of the set of candidates |
| CandidateSelector.ChosenWasShown | src/finance_agent/memory/query_candidate_selector.py:237-304 | a chosen candidate was shown; the latest phrase overrides everything; several requested ids choose nothing; one requested id chooses that query or nothing |
| CandidateSelector.IdsDecide | src/finance_agent/memory/query_candidate_selector.py:245-285 | one requested id chooses the candidate of that id exactly if one is shown; several never choose, and the reason says whether all are shown |
| CandidateSelector.ConfirmedIsChosen | src/finance_agent/memory/query_candidate_selector.py:287-304 | a number the user confirmed is chosen if it is shown, and counts for nothing otherwise |
| CandidateSelector.SingleCandidateNeedsNoScore | src/finance_agent/memory/query_candidate_selector.py:306-340 | a single candidate is chosen without any score, by its number or by a follow-up |
| CandidateSelector.ScoresThatDoNotChoose | src/finance_agent/memory/query_candidate_selector.py:306-340 | where the scores choose none of several, the reason is an unknown number, no reference at all, or no clear winner, each exactly when |
| CandidateSelector.NothingWasShown | src/finance_agent/memory/query_candidate_selector.py:222-236 | without a history the answer is ambiguous exactly if something was referred to |
| CandidateSelector.SelectedCandidateResolves | src/finance_agent/graph/runtime.py:1007-1025 | whatever is selected from the shown context later resolves to the record that headed its group |
| SessionTimeline.SessionFile.AddMessage | src/finance_agent/session/manager.py:210-255 | conversation, timeline and, for a first user message, title after adding a message |
| SessionTimeline.SessionFile.AddPrivateAnalysis | src/finance_agent/session/manager.py:277-311 | a result and its timeline event |
| SessionTimeline.SessionFile.SetReviewSnapshot | src/finance_agent/session/manager.py:389-424 | the reverse search finds the last reply of the request, else rebinds the last reply, else reports failure |
| SessionTimeline.SessionFile.SetReviewStatus | src/finance_agent/session/manager.py:426-453 | the status of the last matching card, and nothing else, changes |
| SessionTimeline.SessionFile.ClearReviewSnapshot | src/finance_agent/session/manager.py:455-472 | the last card of the request goes, and nothing else |
| SessionTimeline.SessionFile.ClearReviewSnapshots | src/finance_agent/session/manager.py:474-498 | all cards but those of the kept request go, and are counted |
| SessionTimeline.SessionFile.GetTimeline | src/finance_agent/session/manager.py:323-387 | a read returns and stores the timeline without closed cards, or one rebuilt in time order |
| SessionTimeline.TimelineMerges | src/finance_agent/session/manager.py:210-498 | in every session ever reached the message events are the conversation in order and the result events the results in order |
| SessionTimeline.TimelineIsWhatHappened | src/finance_agent/session/manager.py:210-498 | in every session ever reached conversation and results are what was said and computed, in order, and the timeline has every message and every result at its own time, whatever was done to cards |
| SessionTimeline.TitleIsTheFirstQuestion | src/finance_agent/session/manager.py:240-255 | a session is named by the first 50 characters of its first message if that is the user's, and keeps its title otherwise |
| SessionTimeline.ReadsShowOnlyPendingCards | src/finance_agent/session/manager.py:374-387 | a read shows exactly the cards that await a decision on a plan, a method, data or a prior result, unchanged |
| SessionTimeline.OnlyTheKeptRequestHasCards | src/finance_agent/session/manager.py:474-498 | after clearing, exactly the cards of the kept request are left |
| SessionTimeline.SnapshotIsFound | src/finance_agent/session/manager.py:389-424 | after setting, the card is on the last reply of its request, exactly if there is any reply at all |
| SessionTimeline.StatusReachesTheSnapshot | src/finance_agent/session/manager.py:426-453 | setting a status reaches the card that was set last for the request, by request or by review id |
| SessionTimeline.StatusGoesToItsCard | src/finance_agent/session/manager.py:426-453 | a status goes to the last card of its request that is not empty and, if an id is given, carries it, and to nothing else |
| SessionTimeline.ClearingRemovesTheLastCard | src/finance_agent/session/manager.py:455-472 | clearing a request removes its last card and no other, and changes nothing if it has none |
| SessionTimeline.ClearedAreCounted | src/finance_agent/session/manager.py:474-498 | the number reported is that of the cards that are gone |
| SessionTimeline.OnlyRepliesHaveCards | src/finance_agent/session/manager.py:389-424 | in every session ever reached only replies carry cards |
| SessionTimeline.RequestsAgreeUnlessRebound | src/finance_agent/session/manager.py:413-424 | timeline and conversation keep agreeing on request ids except exactly when a snapshot takes over the reply of another request |
| SessionTimeline.SnapshotTakesOverAReply | src/finance_agent/session/manager.py:413-424 | an input of the failing case: the card of one request is hung on the reply that was given to another |
| SessionTimeline.RebuildKeepsOrderedSides | src/finance_agent/session/manager.py:336-372 | a rebuilt timeline is in time order, holds everything once, and keeps the order of a side exactly if that side's stamps do not run back |
| SessionTimeline.RebuiltFromSession | src/finance_agent/session/manager.py:336-372 | a rebuilt timeline holds exactly every message with its role, text, request and time and every result with its own |
| ColumnSplitter.SplitColumnDefinitions | scripts/extract_schema.py:135-157 | the loop splits at the commas outside all parentheses |
| ColumnSplitter.DepthIsOpenLessClosed | scripts/extract_schema.py:141-150 | the depth is the number of opening parentheses less that of closing ones |
| ColumnSplitter.JoinOfSplit | scripts/extract_schema.py:135-157 | joining the parts gives the body back, but for one final top-level comma |
| ColumnSplitter.PartsAreTopFree | scripts/extract_schema.py:135-157 | no part holds a top-level comma |
| ColumnSplitter.DepthIsOfCurrent | scripts/extract_schema.py:139-150 | the depth counted since the last split is the depth from the start of the body, although it is carried on through the split |
| ColumnSplitter.SplitOfJoin | scripts/extract_schema.py:135-157 | splitting the join of balanced parts returns the parts |
| EntityColumns.ResolveInheritedColumns | scripts/extract_schema.py:428-455 | the recursion with its visited set ends, even on a cycle, and collects the columns of the classes read |
| EntityColumns.MergeInheritedColumns | scripts/extract_schema.py:524-535 | the merge loop adds each inherited column whose name is not there yet |
| EntityColumns.EveryAncestorIsRead | scripts/extract_schema.py:428-455 | every class up the chain is read, even around a cycle |
| EntityColumns.OnlyAncestorsAreRead | scripts/extract_schema.py:428-455 | the k-th class read is the one k steps up |
| EntityColumns.NearestDeclarationWins | scripts/extract_schema.py:524-535 | the column of a name is that of the nearest class that declares it |
| EntityColumns.MergedAddsOnce | scripts/extract_schema.py:530-535 | own columns stay as they are and every other name is added once |
| SqlLiteral.PrintScanRoundTrip | src/finance_agent/builder/sql_builder.py:20-29 | scanning a printed literal returns exactly its strings, quotes and all |
| SqlLiteral.InterleavedRoundTrip | src/finance_agent/harness/method_validator.py:127 | in SQL with printed literals between quote-free texts, empty ones too, the scan returns exactly the strings in order if and only if no two texts are printed side by side |
| SqlLiteral.AdjacentTextsMerge | src/finance_agent/harness/method_validator.py:127 | an input of the failing case: two texts printed side by side are scanned as one, with a quote between them |
| SqlLiteral.UnescapeEscape | src/finance_agent/builder/sql_builder.py:20-29 | undoubling quotes undoes doubling them |
| LiteralReader.ReadPrinted | src/finance_agent/builder/sql_builder.py:20-29 | a reader of SQL literals gets every printed value back, nested lists, keywords, numbers and texts alike |
| LiteralReader.PrintIsInjective | src/finance_agent/builder/sql_builder.py:20-29 | two values print alike if and only if they are the same |
| ToolSchema.ValidIffConforms | src/finance_agent/skills/registry.py:98-135 | no error exactly for values that conform at every depth |
| ToolSchema.TypeCheckIsRight | src/finance_agent/skills/registry.py:82-95 | the type check accepts exactly values that have one of the listed types |
| JsonEquality.SameScalars | src/finance_agent/skills/registry.py:98-110 | two scalars are equal for an enumeration if they are one number, true and false counting as 1 and 0, one text, or both null |
| JsonEquality.SameObjects | src/finance_agent/skills/registry.py:98-110 | two objects are equal, in whatever order, if and only if they have the same names with the same values |
| JsonEquality.SameIsSymmetric | src/finance_agent/skills/registry.py:98-110 | on decoded values the equality is symmetric |
| JsonEquality.SameIsReflexive | src/finance_agent/skills/registry.py:98-110 | on decoded values the equality is reflexive |
| ToolSchema.OneOfGoesFirst | src/finance_agent/skills/registry.py:98-110 | a non-empty oneOf is looked at instead of anyOf, an empty or missing one leaves the choice to anyOf |
| ToolSchema.OwnErrorsAreExact | src/finance_agent/skills/registry.py:98-110 | a wrong type or value is reported at a path exactly for the type or value found there |
| ToolSchema.MissingIsExact | src/finance_agent/skills/registry.py:111-118 | a missing argument is reported exactly for a required name without a field |
| ToolSchema.UnknownIsExact | src/finance_agent/skills/registry.py:119-124 | an unknown argument is reported exactly for an undeclared field of a closed schema |
| ToolSchema.ErrorsMove | src/finance_agent/skills/registry.py:98-135 | the errors of a value depend on where it sits only in their paths |
| ToolSchema.ValidateArguments | src/finance_agent/skills/registry.py:55-70 | the argument check is the validation of the argument object against the object part of the schema |
| ToolSchema.ArgumentsAreFullyValidated | src/finance_agent/skills/registry.py:55-70 | for an object schema without top-level alternatives and enumeration it is the full validation, and accepts exactly conforming arguments |
| ToolSchema.ArgumentsConformToObjectPart | src/finance_agent/skills/registry.py:55-70 | for an object schema without alternatives, arguments conform if and only if they are accepted and the enumeration, if any, lists them |
| ToolSchema.AcceptanceDiffersExactly | src/finance_agent/skills/registry.py:55-70 | acceptance differs from conformance if and only if accepted arguments are missing from the enumeration, or, where there are alternatives, none of them admits accepted arguments or one admits refused ones |
| ToolSchema.TopAlternativesAreIgnored | src/finance_agent/skills/registry.py:55-70 | inputs of the failing case: a oneOf, an anyOf and an enum at the top, each of which refuses arguments that are accepted |

## Left out

- Language model calls, prompts, narration and reply texts are arbitrary values.
- SQLite, SQLAlchemy, JSON encoding and file access are maps, sequences and atomic steps; time stamps that no rule reads are dropped.
- The keyword, column, join and business-rule checks of the method validator are one opaque list of errors per method.
- SQL text is scanned for placeholders and string literals only; identifier characters are the ASCII ones.
- Redaction of planning goals and of stored payloads is not modelled.
- The cache of pending runs in the API process is a copy of the run that the caller supplies; how it is filled is not modelled.
- RunGraph.LimitMattersBelow31: the graph library counts its steps; that one node is one step is its documented behaviour and not modelled further.
- WorkerProtocol.TimelyWorkersCompleteOnce: is about keys whose run is not deleted; a deleted and re-imported run has no receipts, so a second worker may claim while the first still works.
- ActionEndpoints.ActionEndpoint.Act: what a run state holds besides its ids, status and review is one text; the session file that the endpoint also updates is modelled apart, in `SessionTimeline`; the clock stands still during the claim.
- SkillAgents.SkillAgentExecutor.Respond: the message text is given; attachments are names.
- RunGraph.OnlyValidatedMethodsRun: review and dry run are functions of the method within one guard visit; the referenced result tables are part of them.
- RunGraph.PrepareMethodAfterAnalysisPlan: the stored reviews, the mock results and the rendered card are not part of the state.
- RequestKeys.KeysAgreeExactly: is about reviews without a colon, as UUIDs are; ColonsConfuseRevisions says what happens with one.
- RunPaths.StatusNamesTheLastStep: statuses that no rule reads, such as those before planning, are not told apart.
- LiteralReader.ReadPrinted: is about numbers that print in digits, sign, point and exponent; infinities and NaN are not.
- CandidateSelector.ScoreChoosesTheClearWinner: scores and phrase recognition are inputs; the texts of the clarification question are not modelled.
- QueryHistory.ContextAgreesWithResolution: agreement is about the history record; the private result record looked up afterwards is not modelled.
- FilterBinding.BoundInputParams: resolving a range may give a different answer at each slot, because it reads the date; a value that raises ends the binding.
- CountWords.ReadsExactlyBelowHundred: is about spellings of numbers below one thousand; strings that spell no number and digits outside ASCII are not considered.
- EntityColumns.ResolveInheritedColumns: which class a base name refers to and which columns a class declares are inputs.
- SessionTimeline.TimelineMerges: is about sessions made by `create_session`; for older files see RebuildKeepsOrderedSides.
- ToolSchema.OneOfGoesFirst: a oneOf that is neither missing nor a list is not considered.
- HTTP routing, streaming, sandbox providers, uploads, OCR, tokens and tracing.

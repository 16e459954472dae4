# A verified model of the mpvqml backend protocols

mpvqml puts a libmpv player into Qt Quick. Behind its QML item lie several
hand-written protocols that no single function shows: a worker that restores
playback after an OpenGL context dies, a pool that destroys libmpv cores off
the GUI thread, wakeups that must not be lost, requests that must be answered
once, trees handed to libmpv that must not leak, a guard that must agree with
OpenGL's addressing, and a facade whose setters may be called again from their
own signals. This project models them in Dafny and proves what each of them
promises over all runs.

`dafny verify dfyconfig.toml` checks everything.

## The parts

* **Render-loss recovery** (`Recovery`, `RecoveryHistory`, `RecoveryInvariant`,
  `RecoveryEntries`, `RecoveryPause`, `RecoveryPosition`, `RecoveryTheorems`,
  `RecoveryLedger`, `RecoveryProgress`, `RecoveryLag`, `ControllerObject`).
  `Recovery` gives every submission and event of `MpvController` as a function on
  its state; the class `ControllerObject.MpvController` updates its fields as the
  original does, is proved equal to those functions call by call, and so keeps
  their invariant.
  The functions also keep a history of what the worker was told and what it did.
  `RecoveryHistory`, `RecoveryEntries`, `RecoveryPause` and `RecoveryPosition` read
  such a history on its own, without looking at the controller's fields, and the
  theorems are about every history that any order of events can produce.
* **Core retirement** (`RetirementPool`): one atomic operation of a lease or of
  a destroying worker per step, any number of leases and workers.
* **Core lease** (`CoreLease`, `TokenCounter`): the renderer claim, the
  retirement marker with its sequence counter, and the native token counter,
  one atomic operation per step.
* **Wakeup and drain** (`Drain`): the pending bit, the queued closures, the
  single event loop and its redrain, with handlers that shut the client down
  and set it up again while the loop runs. One model covers the log client, the
  hook manager and the controller; the controller differs in that it never gets
  a second client.
* **Requests** (`Requests`, `RequestsProofs`, `RequestsProgress`,
  `RequestsAnswers`, `RequestsObject`): admission in the GUI thread, submission
  in the worker, replies from libmpv, two queues, core loss and shutdown at any
  point. `RequestsAnswers` keeps a journal of what was answered under each token.
  `RequestsObject.Session` updates the tables of the facade and of the adapter
  in place.
* **Node trees** (`Nodes`, `NodeMemory`, `NodeConversion`, `NodeRoundTrip`): the
  conversion to `mpv_node` trees on a memory where every allocation may fail,
  freeing, and reading back.
* **Upload guard** (`UploadGuard`): the scan in front of `glTexImage*` and the
  unpack addressing of section 8.4.4.1 of the OpenGL 4.6 core profile
  specification.
* **Facade** (`Player`, `PlayerCalls`, `PlayerFacade`): property intents, the
  synchronisation when a renderer becomes ready, and the queue of deferred
  actions, under any finite nesting of calls made from signal handlers.
  `PlayerCalls` gives the state after a call with all that its handlers do; the
  methods of `PlayerFacade.MpvPlayer` reach exactly that state.

`Native` holds the status codes and small values the others share.

## What the proofs found

* A recovery never sends a pause once the user has paused after its opening, but
  what it sends is the state libmpv last *reported* when the snapshot's pause was
  put on record. That report is newer than the user's last pause if and only if
  no file started or was loaded between that pause and the report of it
  (`RecoveryPause.PauseSentIsCurrentExactlyWhen`). Otherwise the recovery sends
  the state from before that pause, and so undoes it where the two differ;
  `RecoveryLag.ReportedPauseMayLag` is such a run.
* A seek made while the lost renderer is known, before the recovery has sent its
  own, is restored to its target (`RecoveryPosition.SeekSentIsTheUsers`). A seek
  made before has the same lag as the pause: it counts as done with the first `time-pos` report that arrives after
  it, even one libmpv made before it sought, and the last position reported is
  restored (`RecoveryTheorems.LossRestoresWhatWasReported`;
  `RecoveryLag.ReportedPositionMayLag` is such a run). Without a report, and unless
  a later seek names a target, the recovery restores no position.
* The two notices of one lost context commute
  (`RecoveryTheorems.OneNoticeCommutes`). Only a second notice for the same
  renderer, which no renderer posts, could tell the orders apart, and
  `RecoveryTheorems.LossNoticesCommute` says in which states.
* An empty screenshot directory or shader list that is set while there is no
  renderer is passed over by the next synchronisation. If another value was
  handed over before, that one stays: `Player.DeliveredExactlyWhen` is the
  condition, `PlayerFacade.EmptyListStaysBehind` a sequence of calls.
* A value comes back whole from a node tree exactly when its texts and keys hold
  no zero byte (`NodeRoundTrip.WholeExactlyWhenNulFree`).

## Model

| member | source | states |
|---|---|---|
| RecoveryTheorems.NoStall | mpvcontroller.cpp:468-612 | No order of submissions, replies, notices and file events leaves an available, terminated recovery with a ready renderer, nothing outstanding and nothing to wait for: it always has a request out, or is acknowledged and awaits only FILE_LOADED |
| RecoveryTheorems.SubmissionGrammar | mpvcontroller.cpp:509-612 | In every run each recovery revision sends a prefix of Pause? Replay Seek?, announces success at most once, and at most one recovery request is out across all revisions |
| RecoveryTheorems.StepsWaitForReplies | mpvcontroller.cpp:582-612 | A replay sent after a pause request follows that request's success; a seek follows the replay's success and, after the replay was asked for, a FILE_LOADED whose last START_FILE was of the entry the recovery was opened for |
| RecoveryEntries.SeekWaitsForItsEntry | mpvcontroller.cpp:563-567 | In every run a seek follows a FILE_LOADED, noted apart from what is made of it, after the replay and of the snapshot's own entry |
| RecoveryEntries.StepsWaitForNewerRenderer | mpvcontroller.cpp:494-499 | In every run each step a recovery sends follows the announcement, after its opening, of a renderer newer than the lost one |
| RecoveryEntries.IntentChangesExactlyWhen | mpvcontroller.cpp:672-679 | In every run the source intent advances directly after one of the commands and writes that play another file, listed by their words, or after a START_FILE of an entry that is not the one at play, not the one being replayed and not libmpv's own advance after the loss, and at no other point |
| RecoveryTheorems.ForeignStartCancels | mpvcontroller.cpp:672-679 | After such a START_FILE no recovery opened before it sends or announces anything again |
| RecoveryEntries.RecoveryLivesExactlyWhile | mpvcontroller.cpp:429-492 | In every run a recovery is valid exactly from its opening until it fails, succeeds, the intent advances, another is opened or the controller closes, and its entry, renderer and knowledge of the loss are those the history shows |
| RecoveryEntries.ReplayNamesItsEntry | mpvcontroller.cpp:541-561 | In every run a replay names the first place, in the playlist reported last, of the entry its recovery was opened for |
| RecoveryEntries.OpeningsAndFailures | mpvcontroller.cpp:468-531 | In every run a recovery is opened for the entry at play or else the one that ended last, and a failure has the cause and the error the history shows: its entry is gone, its native call or its reply failed, or tokens are used up |
| RecoveryEntries.StepTold | mpvcontroller.cpp:337-757 | Every event keeps the fields for the entry at play, the ended entry and the recovery equal to what the worker was told |
| RecoveryTheorems.NeverRevived | mpvcontroller.cpp:582-595 | A recovery that is over in some past of a history sends and announces nothing in the rest of it |
| RecoveryTheorems.InvalidatedStaysSilent | mpvcontroller.cpp:429-436 | After a source-intent change, shutdown or newer recovery, an older recovery revision never sends or announces anything again |
| RecoveryTheorems.CommandChangesIntentExactlyWhen | mpvcontroller.cpp:341-352 | With a core, a command advances the source intent by one and ends the recovery if and only if its first word is loadlist, stop, quit, playlist-next, playlist-prev or playlist-play-index, or it is a loadfile whose mode (by default replace) is neither append nor, with a file loaded, append-play; it moves the seek revision exactly for seek and revert-seek |
| RecoveryTheorems.WriteChangesIntentExactlyWhen | mpvcontroller.cpp:379-394 | A property write does so if and only if it names playlist-pos, playlist-current-pos or path; pause and time-pos move the pause and the seek revision, and nothing else does |
| RecoveryTheorems.ValidRecoveryIsCurrent | mpvcontroller.cpp:488-491 | In every run a valid recovery's intent is the current source intent, and it counts as terminated only after a VO-loss END_FILE under that intent |
| RecoveryTheorems.SubmissionsAreCurrent | mpvcontroller.cpp:533-580 | Every native submission of a recovery carries the source intent of that moment, no earlier intent was larger, and a VO-loss END_FILE happened since that intent began |
| RecoveryTheorems.RestoresOnlyWhatIsNewest | mpvcontroller.cpp:553-580 | A submitted seek restores a position recorded after the user's last seek; a submitted pause a state recorded after the user's last pause, and the user has not paused since the recovery was opened |
| RecoveryPause.PauseSentIsTheSnapshots | mpvcontroller.cpp:553-558 | In every run, a pause is sent only if no user pause lies between it and the opening of its recovery, nor between it and the note that put the snapshot's pause state on record, and it is the state libmpv had reported last by that note |
| RecoveryPause.PauseSentIsCurrentExactlyWhen | mpvcontroller.cpp:553-558 | The state sent was reported after the user's last pause if and only if no START_FILE or FILE_LOADED put the snapshot's pause on record between that pause and the next report |
| RecoveryPause.RunTells | mpvcontroller.cpp:450-466 | Every run keeps the pause states of the playing entry, the ended entry and the recovery tied to the notes that put them on record, and to the user's pauses since |
| RecoveryTheorems.NavigationCancels | mpvcontroller.cpp:341-351 | Each of those commands advances the source intent by exactly one and drops the recovery, the snapshots, the termination error and the remembered seek |
| RecoveryTheorems.NavigatingWriteCancels | mpvcontroller.cpp:392-394 | So do writes of playlist-pos, playlist-current-pos and path |
| RecoveryTheorems.SeekIsAbsorbedOrLeftOlder | mpvcontroller.cpp:352-366 | A user seek before the position is restored is absorbed exactly when its target is a number and the marker still names the lost renderer; otherwise the recovery is left with an older seek revision and its other fields as they were |
| RecoveryTheorems.PositionWriteIsAbsorbedOrLeftOlder | mpvcontroller.cpp:382-391 | The same for a write of time-pos, which has a target exactly when it is a finite number that is not negative |
| RecoveryTheorems.AbsorbedSeekGoesWhereAsked | mpvcontroller.cpp:352-366 | An absolute seek to a finite number that is absorbed moves the recovery to that number, a relative one to the recovery's position plus it, both no lower than 0; any other mode leaves the recovery |
| RecoveryTheorems.RememberedSeekGoesWhereAsked | mpvcontroller.cpp:352-366 | The same for a seek that is remembered before the recovery opens, relative to the playing or else the ended entry |
| RecoveryTheorems.OlderSeekIsNotRestored | mpvcontroller.cpp:571-576 | A loaded and acknowledged recovery with an older seek revision is announced as recovered without sending a seek; before that point nothing happens at all |
| RecoveryTheorems.NewerPauseIsNotOverridden | mpvcontroller.cpp:553-558 | With a newer user pause, whether a pause was asked for before or not, the steps sent grow by the replay alone, and by it exactly when the recovery may advance, finds the entry and has a token |
| RecoveryTheorems.LossRestoresWhatWasReported | mpvcontroller.cpp:468-487 | After a seek made while the marker names no lost renderer, the recovery of a later loss starts with the current seek revision if and only if time-pos was reported in between, any number of times, and then with the last position reported, whenever libmpv made that report |
| RecoveryPosition.SeekSentIsTheUsers | mpvcontroller.cpp:438-448 | In every run, if the user's last seek was made for the renderer a recovery lost, the seek it sends goes to that target, and it does not end without a seek; any other seek it sends goes to a position reported after the user's last seek or asked for another renderer |
| RecoveryPosition.StepAims | mpvcontroller.cpp:438-492 | Every event keeps the remembered seek and the recovery's position equal to what the user asked last |
| RecoveryTheorems.LossNoticesCommute | mpvcontroller.cpp:705-728 | END_FILE(VO_INIT_FAILED) and the retiring notice of one loaded entry lead to the same controller state in either order, if and only if no earlier recovery of that renderer fails at once in between |
| RecoveryTheorems.OneNoticeCommutes | mpvrenderer.cpp:243-245 | In every run in which the renderer's notice has not come yet, the two orders always lead to the same state |
| RecoveryTheorems.AttemptOutcome | mpvcontroller.cpp:533-561 | A recovery attempt under a current intent ends the recovery exactly when it may advance but the entry is gone, tokens are exhausted or the native call fails, and leaves playback, revisions and playlist alone |
| RecoveryTheorems.UnavailableStaysSilent | mpvcontroller.cpp:533-535 | Once the core is unavailable, whatever follows adds no step and no success to any recovery |
| RecoveryLedger.EveryTokenIsSettledOnce | mpvcontroller.cpp:332-335 | Over any run every native token given out is held by the application, pending in libmpv, or settled, and the settled ones are settled exactly once |
| RecoveryLedger.RepliesReachTheirSender | mpvcontroller.cpp:640-659 | A reply is consumed by recovery only for the revision and step that asked under that token, and delivered to the adapter only if recovery never used the token |
| RecoveryLedger.RepliesArePassedOn | mpvcontroller.cpp:582-586 | A reply recovery did not ask for is delivered under its token with its own error, and nothing else happens |
| RecoveryLedger.RefusalsArePassedOn | mpvcontroller.cpp:332-335 | A refused command is answered at once under its token with the error of the refusal; an accepted one waits under its token |
| RecoveryProgress.RestoresEntryPauseAndPosition | mpvcontroller.cpp:533-612 | A possible run without failures or newer intent: ready, pause reply, replay reply, START_FILE, FILE_LOADED and seek reply make the worker send the snapshot's pause, the entry's playlist index and the snapshot's position, then announce recovery of that entry with that renderer |
| RecoveryProgress.ReloadAsksForSeek | mpvcontroller.cpp:670-701 | START_FILE of the replayed entry takes over the snapshot's position, and only its FILE_LOADED sends the seek to it |
| RecoveryProgress.FindIsFirst | mpvcontroller.cpp:541-548 | The playlist search yields the first index of the entry, and none exactly when the entry is absent |
| RecoveryLag.ReportedPauseMayLag | mpvcontroller.cpp:690-693 | A run from the initial state in which the user pauses, the file loads before the report, and the recovery sends the copy of the state from before the pause |
| RecoveryLag.ReportedPositionMayLag | mpvcontroller.cpp:459-465 | A run from the initial state in which the user seeks to 50, a report of 10 arrives after the seek, the output is lost, and the recovery seeks to 10 |
| RecoveryInvariant.InitialHolds | mpvcontroller_p.h:91-150 | The initial values of the controller satisfy the invariant |
| RecoveryInvariant.StepKeeps | mpvcontroller.cpp:337-757 | Every event possible in a state keeps the invariant that ties flags, revisions, requests and intent to what the history shows |
| RecoveryInvariant.RunKeeps | mpvcontroller.cpp:337-757 | Every run from a state that satisfies the invariant ends in one |
| RecoveryHistory.PhaseBoundsSteps | mpvcontroller.cpp:509-612 | A recovery whose notes follow the protocol sent one of the prefixes its phase allows and succeeded at most once |
| RecoveryHistory.IntentGrows | mpvcontroller.cpp:429-436 | Along an orderly history the source intent never goes back |
| ControllerObject.MpvController.constructor | mpvcontroller_p.h:91-150 | A controller starts with no playback, no recovery, no requests and token 1 |
| ControllerObject.MpvController.SubmitCommand | mpvcontroller.cpp:337-375 | Updates the object as the proved transition does: intent change for file-changing commands, seek revision and seek target for seeks, and a reply of its own exactly when the submission fails |
| ControllerObject.MpvController.SubmitPropertySet | mpvcontroller.cpp:377-402 | Updates the object as the proved transition does: pause and seek revisions, navigation, and a reply of its own exactly when the submission fails |
| ControllerObject.MpvController.SubmissionResult | mpvcontroller.cpp:332-335 | A refused submission is answered at once, an accepted one waits for libmpv |
| ControllerObject.MpvController.InvalidatePlaybackIntent | mpvcontroller.cpp:429-436 | Leaves no trace of the old intent but the advanced source intent |
| ControllerObject.MpvController.RememberSeekIntent | mpvcontroller.cpp:438-448 | Records a seek for the marked renderer only, and moves a matching recovery's position and seek revision together |
| ControllerObject.MpvController.CachePlaybackProperty | mpvcontroller.cpp:450-466 | Pairs an observed position with the seek revision and an observed pause with the pause revision of that moment, for a loaded entry only |
| ControllerObject.MpvController.RenderContextRetiring | mpvcontroller.cpp:468-492 | Opens a recovery from the loaded or last terminated entry of the current intent, once per renderer |
| ControllerObject.MpvController.RenderContextReady | mpvcontroller.cpp:494-499 | Only a renderer newer than the lost one lets the recovery advance |
| ControllerObject.MpvController.FailRecovery | mpvcontroller.cpp:501-507 | A valid recovery ends with one reported failure, an invalid one reports nothing |
| ControllerObject.MpvController.SubmitRecovery | mpvcontroller.cpp:509-531 | A request is in the table exactly when libmpv accepted it; otherwise the recovery failed and the table is as before |
| ControllerObject.MpvController.FindEntry | mpvcontroller.cpp:541-548 | The loop finds what the playlist search promises |
| ControllerObject.MpvController.TryRecoverPlayback | mpvcontroller.cpp:533-561 | Sends at most one request, and does so exactly as the proved transition |
| ControllerObject.MpvController.TryRestorePosition | mpvcontroller.cpp:563-580 | Finishes, seeks or waits exactly as the proved transition |
| ControllerObject.MpvController.HandleRecoveryReply | mpvcontroller.cpp:582-612 | Takes a recovery's reply out of the table before anything else and reports whether the reply was one |
| ControllerObject.MpvController.ReplyEvent | mpvcontroller.cpp:640-659 | A reply goes to the recovery or to the adapter, never to both |
| ControllerObject.MpvController.StartFileEvent | mpvcontroller.cpp:670-689 | A foreign entry invalidates the intent, the replayed one resumes the snapshot, and the new playback belongs to the current intent |
| ControllerObject.MpvController.FileLoadedEvent | mpvcontroller.cpp:690-701 | Marks the entry loaded, notes the reload of a replayed entry and goes on with the recovery |
| ControllerObject.MpvController.EndFileEvent | mpvcontroller.cpp:705-739 | Classifies a lost output by the marker, keeps the terminated playback, and starts a matching recovery |
| ControllerObject.MpvController.CoreShutdownEvent | mpvcontroller.cpp:740-744 | The core is unavailable from here on |
| ControllerObject.MpvController.Shutdown | mpvcontroller.cpp:321-330 | Closes the controller and ends its recovery |
| ControllerObject.MpvController.AllocateNativeToken | mpvrenderbridge.cpp:242-249 | Hands out the counter's token and moves it on, or 0 for good once it is exhausted |
| ControllerObject.MpvController.Dispatch | mpvcontroller.cpp:337-757 | Whatever the object is handed next, it does what the proved transition does and keeps the invariant the theorems rest on |
| RetirementPool.ScanNeverFails | mpvrenderbridge.cpp:145-164 | In every interleaving a woken worker finds a queued slot before its scan runs past the last one |
| RetirementPool.HandleIsInOnePlace | mpvrenderbridge.cpp:119-164 | Every published handle is either destroyed and in no slot, or in exactly one slot that is not free |
| RetirementPool.DestroyedOnce | mpvrenderbridge.cpp:155-161 | No handle is destroyed twice |
| RetirementPool.OutstandingIsBounded | mpvrenderbridge.cpp:109-117 | At most 32 handles are published and not yet destroyed |
| RetirementPool.FreeSlotsAreEmpty | mpvrenderbridge.cpp:159-160 | No free slot ever holds a handle for its next owner |
| RetirementPool.ClaimKeepsBalance | mpvrenderbridge.cpp:153-158 | At every index, the queued slots from there on stay at least as many as the workers scanning there, whether a compare-exchange claims or moves on |
| RetirementPool.WorkerStepDescends | mpvrenderbridge.cpp:145-164 | Every step of a worker lowers a measure of the work left |
| RetirementPool.DrainIsBounded | mpvrenderbridge.cpp:145-164 | Without new retirements the workers come to rest within the measure |
| RetirementPool.RestIsClean | mpvrenderbridge.cpp:145-164 | Once the workers rest, every slot is free or still owned by a live lease |
| RetirementPool.StepKeeps | mpvrenderbridge.cpp:109-164 | Each atomic step keeps ownership, handle conservation and the balance of semaphore, scanners and queued slots |
| RetirementPool.RunKeeps | mpvrenderbridge.cpp:109-164 | So does every run |
| RetirementPool.ReserveFindsFreeSlot | mpvrenderbridge.cpp:109-117 | If some slot stays free from the start of a reserve until that reserve ends, it ends with a slot that is reserved for it, in every interleaving |
| RetirementPool.ReserveFailsAfterAll | mpvrenderbridge.cpp:109-117 | A reserve that ends without a slot has found each of the 32 slots not free, each at a step of its own |
| CoreLease.ReadIsCoherent | mpvrenderbridge.cpp:268-276 | A read returns a generation exactly when no write came between, some mark was completed, and the last one is for that intent; it then returns that mark's generation |
| CoreLease.UndisturbedReadReturnsTheMark | mpvrenderbridge.cpp:268-276 | In every run a read gives up at once exactly while a renderer is between its sequence bumps; otherwise, undisturbed, it returns the last completed mark's generation if that mark is for its intent |
| CoreLease.ReturnedWasMarked | mpvrenderbridge.cpp:261-276 | A nonzero generation returned for an intent was marked together with that intent in one call |
| CoreLease.ClaimIsExclusive | mpvrenderbridge.cpp:232-240 | One renderer at most owns the claim, only the owner's release ends it, and a claim succeeds exactly when nobody owns it |
| CoreLease.StepKeepsClaim | mpvrenderer.cpp:239-266 | Every step keeps the owner field, the sequence number and the marker in agreement with the claim holder |
| CoreLease.RunKeeps | mpvrenderbridge.cpp:232-276 | Every run keeps claim, marker and readers right |
| TokenCounter.TokensAreFresh | mpvrenderbridge.cpp:242-259 | A token is larger than every token allocated or noted before it in compare-exchange order, and none is handed out after exhaustion |
| TokenCounter.TokensLeaveNoGaps | mpvrenderbridge.cpp:242-259 | In every run an allocated token is 1 or one more than a token allocated or noted before, and tokens are exhausted only after 2^64-1 was allocated or noted |
| TokenCounter.StepKeeps | mpvrenderbridge.cpp:242-259 | Each loop turn of each thread keeps the counter above all that took effect |
| Drain.NoLostWakeup | mpvlogclient.cpp:17-84 | While the registered client has events, a callback is under way, a closure of its generation is queued, the running loop reads again, or a redrain is due |
| Drain.OneLoopForOneClient | mpvlogclient.cpp:58-84 | At most one loop runs per receiver, and a loop of the current generation belongs to the current client |
| Drain.StepDescends | mpvlogclient.cpp:45-84 | Without new events, setup or shutdown every step lowers a measure |
| Drain.DrainingEnds | mpvlogclient.cpp:45-84 | So draining ends within that measure |
| Drain.RestIsDrained | mpvcontroller.cpp:614-757 | When nothing but new events can happen, every event has been read, no closure is queued and no loop runs |
| Drain.LoopHandsOver | mpvlogclient.cpp:58-84 | A client set up, or a current wakeup delivered, while a loop runs leads to a posted drain of the then registered client when that loop leaves, whatever happens in between |
| Drain.EventsAreReadOnce | mpvlogclient.cpp:45-84 | Until the client is shut down, the events that came in are, in number, those read and those still waiting |
| Drain.MessagesAreHandledOnce | mpvlogclient.cpp:58-84 | In every run each message read is handled once, whatever the handlers do |
| Drain.CallbacksCoalesce | mpvlogclient.cpp:45-60 | However often libmpv calls back, its callbacks post one drain at most, and one more for each drain delivered |
| Drain.StepKeeps | mpvhookmanager.cpp:18-88 | Every step of receiver, libmpv and callback threads, re-entrant shutdown and setup included, keeps the wakeup invariant |
| RequestsProofs.AdmittedIdsGrow | mpvcontroller_adapter.cpp:40-57 | In every run the next positive id is larger than all before it and at most INT_MAX; a refused action changes neither table nor deliveries |
| RequestsProofs.DeliveredAtMostOnce | mpvplayer.cpp:475-490 | No id is delivered twice, none that was not admitted, and each in the kind it was admitted with |
| RequestsProofs.DeliveredExactlyOnce | mpvplayer.cpp:654-681 | Once the queues are empty and libmpv has answered or is gone, every admitted id has been delivered exactly once |
| RequestsAnswers.DeliveredErrorIsTheAnswer | mpvcontroller_adapter.cpp:80-104 | In every run the error delivered for an id is the one libmpv or the worker answered under that id's token, or UNINITIALIZED, and that only after core loss or shutdown; and it goes to the kind of caller that asked |
| RequestsAnswers.AnswersStay | mpvcontroller_adapter.cpp:80-88 | Under a token one answer is given at most |
| RequestsAnswers.ActionsAreNumbered | mpvcontroller_adapter.cpp:40-57 | While the core lives and the worker takes what is posted, the n-th action is admitted under the id n, up to INT_MAX |
| RequestsAnswers.RefusalsSayWhy | mpvcontroller_adapter.cpp:40-57 | In every run without core loss and shutdown an action is refused with MPV_ERROR_NOMEM exactly when the ids or the tokens are used up, otherwise with MPV_ERROR_UNINITIALIZED exactly when the worker does not take it |
| RequestsProofs.RequestsAreUnderway | mpvcontroller_adapter.cpp:80-114 | A request in the adapter's table has an answer coming from the worker, libmpv or a queue |
| RequestsProofs.StepKeeps | mpvcontroller_adapter.cpp:40-114 | Each turn of GUI thread, worker and libmpv, core loss and shutdown keeps one of table entry, settlement or delivery per admitted id |
| RequestsProofs.RunKeeps | mpvcontroller_adapter.cpp:40-114 | So does every run |
| RequestsProgress.StepDescends | mpvcontroller_adapter.cpp:80-114 | Every turn of a thread, native reply and core loss uses up a measure of the answers still under way |
| RequestsProgress.SettlingEnds | mpvcontroller_adapter.cpp:80-114 | So without new actions a run is no longer than that measure |
| RequestsProgress.RestIsSettled | mpvplayer.cpp:475-490 | Where none of these steps is possible any more, every admitted id has been delivered exactly once |
| RequestsObject.Session.Admit | mpvcontroller_adapter.cpp:40-57 | Id, token, table entry and post together, or an error and the table as before |
| RequestsObject.Session.Receive | mpvcontroller_adapter.cpp:80-88 | A reply of the request's kind and generation, and no other, takes it out of the table and queues its signal with the reply's error |
| RequestsObject.Session.SettleRequests | mpvcontroller_adapter.cpp:101-104 | Every request of the detached table is finished once, in whatever order the table yields them |
| RequestsObject.Session.ShutdownAdapter | mpvcontroller_adapter.cpp:106-114 | The first shutdown moves to a new generation and settles everything; later ones do nothing |
| RequestsObject.Session.LoseCore | mpvcontroller_adapter.cpp:18-22 | A lost core settles every request of the adapter and leaves the facade without one, as the proved transition does |
| RequestsObject.Session.Act | mpvplayer.cpp:448-474 | An id is in the facade's table exactly when the adapter admitted it |
| RequestsObject.Session.CompleteRequest | mpvplayer.cpp:475-490 | An entry of the matching kind is erased and signalled once; anything else is ignored |
| RequestsObject.Session.ShutdownFacade | mpvplayer.cpp:654-677 | Every waiting id gets one queued settlement, then the adapter shuts down |
| NodeConversion.Memory.ConvertInput | mpvcontroller.cpp:25-99 | Whatever allocation fails or part is rejected, the place holds the root of a tree that owns exactly the cells allocated; success means the value is supported and reads back normalized, rejection that it is not supported |
| NodeConversion.Memory.FreeInputNode | mpvcontroller.cpp:103-135 | Frees each cell of the tree once, nothing else, and leaves a NONE node |
| NodeConversion.MpvInputNode.Assign | mpvcontroller.cpp:139-152 | The previous tree is gone, other allocations are untouched, success owns a tree that reads as the normalized value, every error leaves a NONE node and no cell |
| NodeConversion.MpvInputNode.Destroy | mpvcontroller.cpp:137 | The destructor gives every cell back |
| NodeConversion.Memory.CopyNodeValue | mpvcontroller.cpp:154-196 | Reads exactly the value a tree stands for, the defensive cases included |
| NodeRoundTrip.WholeExactlyWhenNulFree | mpvcontroller.cpp:25-99 | A value survives the round trip whole if and only if no text and no key has a zero byte; byte arrays always survive |
| NodeRoundTrip.TextSurvives | mpvcontroller.cpp:29 | What `qstrdup` keeps of a text is its longest prefix without a zero byte |
| NodeRoundTrip.IntegersWrap | mpvcontroller.cpp:35-41 | Every integer kind arrives as the signed 64-bit number congruent to it |
| Nodes.Frame | mpvcontroller.cpp:103-196 | A tree reads the same in any memory that agrees on the cells it owns |
| NodeMemory.FillSlot | mpvcontroller.cpp:62-97 | When one element of a list gets its tree, the list owns exactly that much more and its other elements read as before |
| NodeMemory.FillKey | mpvcontroller.cpp:91 | The same when one key gets its text |
| UploadGuard.ExtentOf | mpvrenderer.cpp:139-148 | The 64-bit extent is, modulo 2^64, four times one past the last float OpenGL fetches under the unpack state |
| UploadGuard.FloatComponents | mpvrenderer.cpp:73-86 | The floats per texel are as many as the components the format names, and none for any other format |
| UploadGuard.HalfFloatStorage | mpvrenderer.cpp:88-92 | Exactly the internal formats that store half floats limit the range |
| UploadGuard.FetchedIsScanned | mpvrenderer.cpp:139-148 | Every float of every texel, also where rows overlap, lies before the end of the extent, which the last one reaches |
| UploadGuard.RowBytes | mpvrenderer.cpp:140-142 | The padded row length is OpenGL's row stride for every legal alignment |
| UploadGuard.ImageIsRepaired | mpvrenderer.cpp:153-173 | A repaired extent shows OpenGL the source image with exactly the bad values replaced and none left |
| UploadGuard.RepairIsSafe | mpvrenderer.cpp:90-96 | A replacement is storable, a storable float stays, one too large becomes 65504 with its sign, and what is not finite becomes zero |
| UploadGuard.FirstBad | mpvrenderer.cpp:153-162 | The scan stops at the first float that needs replacement |
| UploadGuard.RepairInto | mpvrenderer.cpp:170-173 | The copy differs from the source exactly in the bad floats |
| UploadGuard.ReplaceBad | mpvrenderer.cpp:153-174 | Clean floats are not copied; a failed allocation hands on the original; otherwise the copy is repaired |
| UploadGuard.GuardedPixels | mpvrenderer.cpp:101-174 | Passes through what it must not inspect, returns the original for a clean extent, and never writes the source |
| UploadGuard.GuardedTexImage | mpvrenderer.cpp:182-215 | What reaches OpenGL shows the client's image with exactly the bad floats replaced, unless the copy could not be allocated |
| Player.QueueIsCompaction | mpvplayer.cpp:492-512 | Dropping the waiting entry of the same key and appending equals compacting the whole log of deferrals: each key at its latest position, every command in order |
| Player.KeysWaitOnce | mpvplayer.cpp:499-507 | At most one entry of a key waits |
| Player.OnePlaceEach | mpvplayer.cpp:433-437 | The order names every property once, fill mode first and pause last |
| Player.FollowsIsTransitive | mpvplayer.cpp:343-368 | What finished calls promise composes, so it holds for any sequence of nested calls |
| Player.IntentOwes | mpvplayer.cpp:343-350 | A new intent leaves every other property alone and is pending until its own setter flushes it |
| Player.FlushPays | mpvplayer.cpp:352-360 | A flush settles its own intent and is void once a newer one exists |
| Player.TurnIsThrifty | mpvplayer.cpp:439-441 | The submission a synchronisation makes in turn is the first of its intent |
| Player.NoIntentTwice | mpvplayer.cpp:352-360 | No two submissions of a property carry the same intent, and none carries an older one than a submission before it |
| Player.CallsStayQuiet | mpvplayer.cpp:343-368 | A finished call leaves no intent lost, and none pending while the renderer is ready |
| Player.SyncDelivers | mpvplayer.cpp:415-443 | A synchronisation leaves nothing pending, delivers every newest intent it does not pass over, and leaves the others to their own setters |
| Player.DeliveredExactlyWhen | mpvplayer.cpp:440 | After a synchronisation, for a property without a newer intent, the newest value was handed to the controller last if and only if it is not passed over or had been handed over last before |
| Player.CancellationSilences | mpvplayer.cpp:444-448 | In a replay, the action during which the media revision changed is the last that ran, and the replay ends in the state that action left |
| PlayerFacade.MpvPlayer.constructor | mpvplayer.cpp:153-156 | A new facade is quiet and holds the four intents it makes by itself, and no other |
| PlayerCalls.HandlersRunInOrder | mpvplayer.cpp:362-369 | Each handler of a signal runs once, in order, from the state its predecessor left, and nothing else happens |
| PlayerCalls.SignalRuns | mpvplayer.cpp:362-413 | A setter that changes something runs the handlers of its signal with the new value, mode or source in place, its revision counted and nothing submitted yet; what it submits comes after them |
| PlayerCalls.SourceIsLoadedExactlyWhen | mpvplayer.cpp:370-378 | A new source is submitted or deferred after its handlers if and only if none of them, at any depth, moved the media revision; otherwise nothing happens after them |
| PlayerCalls.CancelledSourceStaysUnloaded | mpvplayer.cpp:370-378 | A stop or navigation in any handler of sourceChanged keeps the setter from submitting or deferring its url |
| PlayerCalls.RefusalAddsItsHandlers | mpvplayer.cpp:456-460 | A refused stop, navigation or load does what the accepted one does and then runs the handlers of the refusal |
| PlayerFacade.MpvPlayer.Execute | mpvplayer.cpp:343-413 | Each call does what it is for, case by case: a setter's value is taken and handed over or pending, a stop or navigation command is submitted under a larger media revision, a file or track is asked for or deferred under its key; and the state is that of the call with all that its handlers do, every property untouched or with its newest intent settled |
| PlayerFacade.MpvPlayer.Emit | mpvplayer.cpp:362-369 | A signal leaves the state its handlers lead to one after the other (`PlayerCalls.HandlersRunInOrder`) |
| PlayerFacade.MpvPlayer.Invoke | mpvplayer.cpp:343-413 | The same for a call of the application, which leaves a quiet facade quiet |
| PlayerFacade.MpvPlayer.SetProperty | mpvplayer.cpp:362-369 | A setter does nothing for the value its member has; otherwise the member and the newest intent take exactly its value unless a newer intent came, with everything its handlers do |
| PlayerFacade.MpvPlayer.SetFillMode | mpvplayer.cpp:404-413 | Both intents of a new fill mode take the values the mode stands for, unless newer ones came, under one signal |
| PlayerFacade.MpvPlayer.FlushProperty | mpvplayer.cpp:352-360 | Submits the pending value of its revision when the renderer is ready, and nothing otherwise |
| PlayerFacade.MpvPlayer.DeferUntilRendererReady | mpvplayer.cpp:492-512 | Defers exactly when the renderer is not ready, and keeps the queue the compaction of the log |
| PlayerFacade.MpvPlayer.Load | mpvplayer.cpp:514-518 | Submits the file at once when the renderer is ready and otherwise defers exactly this load, unless cancelled in between |
| PlayerFacade.MpvPlayer.EraseFirst | mpvplayer.cpp:502-506 | The loop removes the first entry of the key and nothing else |
| PlayerFacade.MpvPlayer.SetSource | mpvplayer.cpp:370-378 | Cancels what was deferred; unless another cancelling call came in between, the source stays and its loading is asked for or deferred |
| PlayerFacade.MpvPlayer.SelectTrack | mpvplayer.cpp:569-579 | A known track is submitted when the renderer is ready, with the source loaded again for video, and otherwise deferred under its own key; an unknown type does nothing |
| PlayerFacade.MpvPlayer.SendMousePosition | mpvplayer.cpp:593-597 | Both coordinates are submitted in order when the renderer is ready, and otherwise the position is deferred under its key |
| PlayerFacade.MpvPlayer.SyncProperties | mpvplayer.cpp:415-449 | Submits each dirty property at most once in the fixed order, all before the first deferred action; then replays exactly what was deferred, unless cancelled; ends with nothing pending or deferred |
| PlayerFacade.MpvPlayer.SubmitDirty | mpvplayer.cpp:438-443 | Each dirty property is submitted with its newest value, passed over, or overtaken by a newer intent, and its last submission is the newest value exactly when it was not passed over or the core had it |
| PlayerFacade.MpvPlayer.ReplayDeferred | mpvplayer.cpp:444-448 | Runs the detached actions in order, each under the media revision it captured and from the state its predecessor left; all of them if nothing cancels, none after a cancellation |
| PlayerFacade.MpvPlayer.ReplayOne | mpvplayer.cpp:496-498 | One detached action runs if it finds the media revision it captured, and otherwise changes nothing |
| PlayerFacade.MpvPlayer.RendererStatus | mpvplayer.cpp:244-277 | When the renderer becomes ready, every intent is delivered or passed over and none is pending, and what was deferred is replayed, all of it unless cancelled; no other status submits anything but newer intents, and none loses one |
| PlayerFacade.MpvPlayer.BecomeReady | mpvplayer.cpp:159-165 | Synchronises after the ready signal: the queue as it was before the signal is replayed unless a handler cancels |
| PlayerFacade.EmptyListStaysBehind | mpvplayer.cpp:440 | A sequence of calls from the constructor (ready, set, renderer lost, set empty, ready) that ends quiet with the core on the old shader list and the newest intent empty |
| PlayerFacade.MpvPlayer.PropertyChanged | mpvplayer.cpp:112-118 | An observed value does not replace a member whose intent waits for the renderer |
| PlayerFacade.MpvPlayer.CoreUnavailable | mpvplayer.cpp:94-103 | Nothing waits for a core that is gone |
| PlayerFacade.MpvPlayer.Stop | mpvplayer.cpp:548-555 | Bumps the media revision, so everything deferred before is void, and asks an available core to stop |
| PlayerFacade.MpvPlayer.Navigate | mpvplayer.cpp:560-561 | The same for next and previous, with their own command |

## Left out

- libmpv, Qt's event loop, OpenGL and pthreads are environments: events in any order the interfaces allow, FIFO queues, calls that succeed or fail at will. A result from them (`native`, `posts`, a reply's error) is a parameter.
- Weak memory orders: each atomic operation is one sequentially consistent step.
- Classes for `RetirementService`, `MpvCoreLease`, `MpvLogClient`, `MpvHookManager` and the wakeup part of `MpvController`: other threads run between any two of their operations, so they are relations over single steps and not methods.
- Delivery of a controller signal to handlers that call back into the controller: its receivers live in another thread and get it queued. A handler that deletes its sender is not modelled.
- Wrap-around of the 64-bit recovery, pause, seek, intent and wakeup-generation counters; native tokens and public ids are bounded as in the source.
- END_FILE carries a nonzero error only with the error reason, as libmpv documents.
- RecoveryTheorems.RestoresOnlyWhatIsNewest: a position counts as recorded when libmpv's report of it arrived, and a pause when the last report was put on record, because that is what the controller keeps (see `RecoveryPosition.SeekSentIsTheUsers` and `RecoveryPause.PauseSentIsCurrentExactlyWhen`).
- RecoveryProgress.RestoresEntryPauseAndPosition: states the run without failures and with no newer user intent; that every other run does not stall is `RecoveryTheorems.NoStall`.
- Text forms: `toDouble` of a seek or a property is a parameter, a position is a real number and its 17-digit printing is exact, playlist entries are their ids.
- Property reads and configuration loads inside the recovery machine (they touch none of its fields but the cache); they are part of the request model.
- Reply values: the request model carries the error only, the node model carries values.
- Worker bootstrap and `m_stop`, the reaper of worker threads, module pinning, `postRedraw`, snapshots for renderers, hook ids and hook continuation.
- Failure of a queued post: the wakeup model assumes `invokeMethod` succeeds; admission models a failing post.
- Renderer status changes, core loss or deletion of the facade inside one of its own signal handlers, and so the early returns of `syncProperties` for them; filtering of statuses by renderer generation and by an already reported failure.
- Player.DeliveredExactlyWhen: the log holds what was handed to the controller; one it refuses is reported through `operationFailed`, not repeated, and counts as handed over.
- PlayerFacade.MpvPlayer.RendererStatus: a status with an error is never a ready one, as its sender guarantees.
- PlayerFacade.MpvPlayer.Load: paths are taken as cleaned; `loadDirectory`, thin command wrappers, range clamps, the position to seek to after a track change and the QML getters only pass values on.
- Qt strings are byte sequences as `toUtf8` yields them; UTF-8 decoding on the way back is the identity. Floating-point numbers are reals, infinities and a not-a-number; negative zero is zero.
- Trees that libmpv itself builds are read under the same shape predicate as trees built here; a header with a size beyond `qsizetype` or a negative count is handled, a cyclic or shared tree is not.
- UploadGuard.GuardedPixels: requires what OpenGL requires of the caller, that the client's pixels reach to the last float fetched, and that no object exceeds SIZE_MAX; extents that wrap 64 bits therefore never arise (`UploadGuard.ExtentOf` states the wrapped value for all inputs).

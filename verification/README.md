# Models of the telemetry pipeline and of four server data structures

The repository adds a research telemetry pipeline to Open WebUI. These Dafny modules model the parts of it
whose correctness does not show in any single function, and four server data structures that have to agree with
a simpler view. Everything is stated for all inputs, all random draws, all answers of a server and all
interleavings.

**Delivery (`DeliveryQueue`, `DeliveryText`, `DeliveryMachine`, `DeliverySafety`, `DeliveryTheorems`, `DeliveryOverflow`,
`DeliveryWorker`, `SerialChain`).** The extension's service worker keeps a bounded queue in local storage and its session in session
storage. The machine has one step for each storage write, for an ok answer, for the death of the worker and for
the loss of session storage; a ghost history records every accepted event and the fate of every departed one.
`Background` is the worker itself: its methods may die at every `await`, unless the worker is not mortal, and each one
is shown to perform a run of the machine, so the theorems about runs hold of it. `SerialChain` shows that at any moment, also that of the
worker's death, the promise chain behind `runSerial` has the store of running the jobs one after the other, which is
why the machine may treat jobs as not overlapping; and that it goes on exactly as long as no job awaits its own or a
later promise. `DeliveryOverflow` is one run in full: a queue filled to its limit, one drop, one restart.

**Capture (`CaptureControl`, `Capture`).** The content script: an asynchronous status check that can be overtaken
at each `await`, listeners, held keys, and a buffer that is swapped out and put back. `CaptureControl` is the
decision when to track; `ContentScript` is the script, each method one uninterrupted piece of it, tied to the
move it makes in `CaptureControl`.

**Synthetic participants (`Typing`, `Simulator`, `EssayPlan`, `EssayOrder`, `EssayExtras`, `EssayRun`).** An essay is cut into
typed and pasted pieces, compiled to key presses with errors and corrections, and played on a discrete-event loop
with three timers, against a server that may give any status to any request. The partner of the compiler is the
replay of the recorded events; whether the essay is written depends only on the statuses.

**Demonstration timeline (`Timeline`, `TimelinePlan`, `TimelineBatch`).** Integer interval arithmetic of the builder
against the file's own validator, and what the events report of the run against what the run is made of.

**Data structures.** `MessageTree` (upsert of rows, tree with childrenIds), `Mentions` (two scanners of one
syntax), `ChannelMembers` (rows changed by five operations, lookup by counting), `AccessFormats` and
`AccessGrants` (dictionary and grants, single check against batch, query and user-list forms).

`Common` and `Random` hold small shared types; a random draw is any value in its range.

## Properties that do not hold, and when they do

- A pair of browser session id and sequence number can be given twice: a telemetry_loss event takes the newest number
  but is sent first, so a recovery from the leftover queue may restart below it. `RecoverySafe` is the exact
  condition (`RecoverySafeExactly`); `UnsafeRecoveryIsReachable` gives a run that violates it, with events of a few
  hundred bytes and the queue filled to its 10000 events. Without
  queue-limit drops there is never a repetition, and two tab events never share a number at all.
- The recorded essay is not the essay when a paste is longer than 20000 characters, because the event keeps only that
  many (`EssayComesBackExactly`; `LongPasteIsCut` is the case of one paste of 20001 characters).
- A comment in `essay_task` says that copies and absences never come before the first piece. They never come before
  the first operation; they come behind some drafting in every draw exactly if that operation is a piece
  (`ExtraAfterDraftingExactly`), which it is not when the first chat brings no paste (`FirstChatLeads`,
  `ChatThenPiece`).
- A chat does not always come before the paste taken from it; `ChatBeforePieceExactly` says when, and
  `PasteBeforeItsChat` gives an essay whose first piece is pasted before the chat it is taken from.
- The two mention scanners disagree on some message exactly for the trigger `>` (`ScannersAgreeExactly`).
- A history stored in a new chat is not returned when a key is taken: chat ids and message ids are joined by a dash, so
  `a` + `b-c` and `a-b` + `c` are one key (`HistoryReturnsExactly`, `DashesCollide`). With chat ids of one length, as
  the uuids are, no key is ever taken (`EqualLengthsReturn`).
- Joining a channel after leaving it makes the user active exactly if there was no row to leave (`RejoiningExactly`).
- An access-control dictionary cannot hold write grants next to the public read grant (`GrantsReturnExactly`,
  `GrantsMeanTheirDictionary`; `WriteGrantIsLost` and `WriterIsShutOut` are such grants); a document listed as
  read-only is writable exactly when everyone may write it (`ReadOnlyIsWritableExactly`, `ReadOnlyButWritable`).

## Model

| member | source | states |
|---|---|---|
| DeliveryQueue.TrimKeepsLongestSuffix | browser-extension/experiment-telemetry/background.js:68-78 | a suffix of the queue meets both limits exactly if it leaves out at least as many events as the loop drops, so the loop keeps the longest suffix within the limits |
| DeliveryQueue.EnforceQueueLimit | browser-extension/experiment-telemetry/background.js:68-78 | the loop keeps that suffix and adds what it dropped to the drop count |
| DeliveryQueue.MakeBatch | browser-extension/experiment-telemetry/background.js:128-142 | a prefix of the queue that is not empty unless the queue is, at most 100 events, within the byte estimate unless single, and cannot be extended |
| DeliveryQueue.BatchSizeUnique | browser-extension/experiment-telemetry/background.js:128-142 | that description determines the batch |
| DeliveryQueue.BatchBodyWithinLimit | browser-extension/experiment-telemetry/background.js:128-142 | the body really sent, array commas (section 5 of RFC 8259) included, is within MAX_BATCH_BYTES unless it is a single event; the estimate is one byte too large |
| DeliveryText.NumeralReads | browser-extension/experiment-telemetry/background.js:68-78 | a numeral has the number's value, no leading zero and as many digits as the size counts |
| DeliveryText.QueueTextLength | browser-extension/experiment-telemetry/background.js:68-78 | the size of the stored queue is the length of its JSON text |
| DeliveryText.FitsExactly | browser-extension/experiment-telemetry/background.js:68-78 | the loop stops exactly at 10000 events and, unless the queue is empty, 8 MiB of JSON text |
| DeliveryText.BatchTextWithinLimit | browser-extension/experiment-telemetry/background.js:128-142 | a batch has at most 100 events and its request body is below 220 KiB of JSON text unless it is a single event; with one more event it would not be |
| DeliverySafety.PushKeepsQueue | browser-extension/experiment-telemetry/background.js:80-94 | under the invariant, the branch that discards another session's queue never discards anything |
| DeliverySafety.StepKeepsInv | browser-extension/experiment-telemetry/background.js:52-246 | every step, a crash included, keeps conservation, order, the drop ledger, the place of the loss event and the facts about numbers |
| DeliverySafety.RecoveryCoversTabs | browser-extension/experiment-telemetry/background.js:213-232 | the browser id and the maximum found in the leftover queue cover every tab number ever given under that id |
| DeliverySafety.MaxNumberOccurs | browser-extension/experiment-telemetry/background.js:219-222 | the number recovered from a queue is 0 or occurs in it |
| DeliverySafety.NoDropsNoLoss | browser-extension/experiment-telemetry/background.js:169-174 | as long as nothing was dropped no telemetry_loss event exists |
| DeliveryTheorems.EveryRunAccountsForEveryEvent | browser-extension/experiment-telemetry/background.js:68-94 | in every run, every accepted event left with exactly one fate or is queued; delivered ones were in an answered batch; other than loss events they leave in order of acceptance; drops = unreported + reported + thrown away with a queue; at most one loss event, in front |
| DeliveryTheorems.JobsKeepAccounts | browser-extension/experiment-telemetry/background.js:29-32 | the same after any sequence of jobs of the worker from empty storages, finished or killed |
| DeliveryTheorems.StepAbandonsExactly | browser-extension/experiment-telemetry/background.js:223-223 | a step abandons something exactly if it removes a stored queue that holds something |
| DeliveryTheorems.NothingAbandonedExactly | browser-extension/experiment-telemetry/background.js:164-246 | a run abandons nothing exactly if it removes the stored queue only while that holds nothing, as a first start does; then every accepted event is delivered, dropped by the limit or queued |
| DeliveryTheorems.JobsAbandonNothing | browser-extension/experiment-telemetry/background.js:210-269 | the same over any sequence of jobs that start with nothing or their own queue stored and do not clear |
| DeliveryTheorems.NumbersUniqueWithoutDrops | browser-extension/experiment-telemetry/background.js:52-66 | without drops no pair of browser session id and sequence is given twice, however often session storage is lost |
| DeliveryTheorems.RepeatedNumbersNeedAnUnsafeRecovery | browser-extension/experiment-telemetry/background.js:210-232 | tab events never share a pair; no event does if all recoveries were safe |
| DeliveryTheorems.RecoverySafeExactly | browser-extension/experiment-telemetry/background.js:213-232 | the condition on queue and history under which a recovery is harmless: exactly then no continuation without another recovery repeats a number |
| DeliveryOverflow.ManyPages | browser-extension/experiment-telemetry/background.js:80-94 | two hundred messages of fifty events fill the queue to its limit without a drop |
| DeliveryOverflow.UnsafeRecoveryIsReachable | browser-extension/experiment-telemetry/background.js:169-173 | a run with one drop and one restart reaches a leftover queue that violates the condition |
| DeliveryTheorems.CollisionAhead | browser-extension/experiment-telemetry/background.js:52-66 | from a session whose number is below that of an accepted loss event, numbering tab events repeats it |
| DeliveryWorker.FetchWithRetries | browser-extension/experiment-telemetry/background.js:144-162 | the first reply among three that is ok or has status 401, 403, 409 or 422; otherwise none, after three attempts |
| DeliveryWorker.Background.NextEvent | browser-extension/experiment-telemetry/background.js:52-66 | is a step of the machine: the number is stored first; without an active session nothing changes |
| DeliveryWorker.Background.EnqueueUnlocked | browser-extension/experiment-telemetry/background.js:80-94 | is a run of the machine; unless it dies the queue is the trimmed queue with the events, flushed at once from fifty events on |
| DeliveryWorker.Background.TabEventUnlocked | browser-extension/experiment-telemetry/background.js:97-110 | numbers and stores one tab event for a normal tab of an active session, else nothing |
| DeliveryWorker.Background.Snapshot | browser-extension/experiment-telemetry/background.js:121-126 | is a run of the machine that numbers and stores exactly one event per normal tab of an active session, in order |
| DeliveryWorker.Background.ReportDrops | browser-extension/experiment-telemetry/background.js:169-174 | one loss event with the drop count goes in front and the count is reset, both in one write |
| DeliveryWorker.Background.SendBatch | browser-extension/experiment-telemetry/background.js:176-196 | of a finished turn: ok exactly if there is a response and it is ok; exactly then the batch has been answered and leaves the queue as delivered; the session ends exactly if there is a response that is not ok; without a response nothing changes |
| DeliveryWorker.Background.RemoveBatch | browser-extension/experiment-telemetry/background.js:193-196 | the answered batch leaves the stored queue, or stays if the worker dies first |
| DeliveryWorker.Background.SendAll | browser-extension/experiment-telemetry/background.js:175-198 | the loop ends; the responses are those of the server to one batch after the other; what was sent is a prefix, is what was answered, and is all exactly if every response was ok; the session ends exactly by a last response that is not ok |
| DeliveryWorker.Background.FlushUnlocked | browser-extension/experiment-telemetry/background.js:164-199 | what was sent and what is left make up the loss event and the old queue; a finished flush has reported all drops, counts what was answered, and says ok exactly if every response was, and then the session's queue is empty; only a response that is not ok ends the session |
| DeliveryWorker.Background.OpenSession | browser-extension/experiment-telemetry/background.js:213-234 | identity and number come from what the queue of that session shows; nothing is abandoned if that queue or nothing is stored |
| DeliveryWorker.Background.StartUnlocked | browser-extension/experiment-telemetry/background.js:210-246 | identity comes from the open session, else from the leftover queue of that session, else it is new; numbering starts at the largest number of that queue; with that queue or nothing stored nothing is abandoned |
| DeliveryWorker.Background.StopUnlocked | browser-extension/experiment-telemetry/background.js:249-269 | a final snapshot numbers every normal tab, then one flush is made, then the session ends; the queue that the flush leaves stays, or is abandoned if clearing is asked for |
| SerialChain.OnlyFirstResumable | browser-extension/experiment-telemetry/background.js:29-32 | only the first unsettled job can go on, and it can exactly if it does not await its own or a later promise |
| SerialChain.ActKeepsSerial | browser-extension/experiment-telemetry/background.js:29-32 | every submission and every resumption keeps the chain equal to running the jobs one by one |
| SerialChain.EveryScheduleIsSerial | browser-extension/experiment-telemetry/background.js:29-32 | at any moment of any interleaving the store is that of the first jobs run one at a time in order of submission and some turns of the next; when all have settled, of all of them |
| SerialChain.GoesOnExactly | browser-extension/experiment-telemetry/background.js:29-32 | the chain goes on exactly if its first unsettled job does not await its own or a later promise |
| SerialChain.AwaitingLaterIsForEver | browser-extension/experiment-telemetry/background.js:92-92 | a job that awaited the flush it submits would stop the chain for ever |
| SerialChain.NeverStuck | browser-extension/experiment-telemetry/background.js:80-94 | as no job awaits a promise of the chain, it is never stuck |
| CaptureControl.EveryRunConsistent | browser-extension/experiment-telemetry/content.js:295-410 | in every run listeners are attached once while enabled and not disposed, else not at all, and one check runs while statusCheck is set |
| CaptureControl.ListenersFollowEnabled | browser-extension/experiment-telemetry/content.js:179-299 | from a fresh script: never two sets of listeners, never two checks |
| CaptureControl.EnabledOnlyByCurrentCheck | browser-extension/experiment-telemetry/content.js:334-387 | tracking starts exactly in an ok reply to session-start of a check that is then on an eligible page and has the current revision and token |
| CaptureControl.DisabledExactly | browser-extension/experiment-telemetry/content.js:324-410 | tracking ends exactly when a state event takes the eligibility, a new check finds no token or no eligible page, the current check gets a reply that is not good, the reply to session-start comes too late, or the service worker stops it |
| CaptureControl.StepKeepsInformed | browser-extension/experiment-telemetry/content.js:348-365 | a check that waits for its status has got a ready heartbeat in progress, one that waits for session-start a good status as well |
| CaptureControl.RecordsAreReplies | browser-extension/experiment-telemetry/content.js:348-358 | what a check has recorded are the replies it got |
| CaptureControl.EnabledOnlyByGoodReplies | browser-extension/experiment-telemetry/content.js:348-381 | in every run of a fresh script tracking begins only if the check in flight got a heartbeat that is ready and in progress and a status that is enabled, in progress and names a session |
| CaptureControl.GoodRepliesStartTracking | browser-extension/experiment-telemetry/content.js:334-382 | for a fresh script on an eligible page with a token, a check with good replies ends with tracking on and one set of listeners |
| CaptureControl.BadRepliesStopTracking | browser-extension/experiment-telemetry/content.js:350-365 | a current check whose heartbeat or status is not good leaves tracking off |
| CaptureControl.LateRepliesEndTheCheck | browser-extension/experiment-telemetry/content.js:349-375 | a check that is no longer current ends at its next reply without a change; only after session-start does it first stop, unless disposed |
| CaptureControl.BeginsExactly | browser-extension/experiment-telemetry/content.js:334-347 | a check begins exactly if none runs and there are requests to make or tracking to stop |
| CaptureControl.DisposedExactly | browser-extension/experiment-telemetry/content.js:343-386 | the script is disposed exactly on request or when a new or a failed check finds the runtime gone |
| CaptureControl.FailureEndsTheCheck | browser-extension/experiment-telemetry/content.js:383-395 | a failed request ends its check, whichever it was, and changes nothing else unless the runtime is gone |
| CaptureControl.RevisionCounts | browser-extension/experiment-telemetry/content.js:438-458 | the revision counts the state events with a new key and the storage events of the token |
| CaptureControl.OvertakenCheckNeverEnables | browser-extension/experiment-telemetry/content.js:334-395 | checks that began before the last state or token event never start tracking, however late their replies come |
| CaptureControl.InvalidationStopsRunningChecks | browser-extension/experiment-telemetry/content.js:438-458 | a state or token event while tracking is off keeps the checks then in flight from ever turning it on |
| Capture.PressKeepsKeys | browser-extension/experiment-telemetry/content.js:198-208 | per signature, presses depart in order and once: departed + held = pressed; one to ten are held |
| Capture.LiftKeepsKeys | browser-extension/experiment-telemetry/content.js:216-228 | the same for a release |
| Capture.OfferKeeps | browser-extension/experiment-telemetry/content.js:108-118 | accepted = delivered + in flight + pending + cut + wiped, event for event |
| Capture.RecordingExactly | browser-extension/experiment-telemetry/content.js:108-109 | queue takes events exactly while tracking is on for an eligible page with a token |
| Capture.TakeQueues | browser-extension/experiment-telemetry/content.js:108-118 | queue accepts an event exactly while it takes events, as the last of all under way and pending, and sends the buffer exactly from fifty on |
| Capture.OfferJoins | browser-extension/experiment-telemetry/content.js:110-111 | an accepted event joins the end of the line of all events under way and pending; fifty pending ones are sent, fewer are not |
| Capture.TakeAllJoins | browser-extension/experiment-telemetry/content.js:119-128 | all holds handed over join the line in order, each with its duration of at most 600000 ms, exactly if queue takes events |
| Capture.SettledJoins | browser-extension/experiment-telemetry/content.js:314-326 | after flush and stop nothing is pending and what queue took is under way behind all that was |
| Capture.SwapKeeps | browser-extension/experiment-telemetry/content.js:130-135 | the same when the buffer is swapped out |
| Capture.RejectKeeps | browser-extension/experiment-telemetry/content.js:134-138 | the same when a message fails; what is cut are the oldest beyond 500 |
| Capture.ResolveKeeps | browser-extension/experiment-telemetry/content.js:134-136 | the same when a message is received |
| Capture.HandOverAll | browser-extension/experiment-telemetry/content.js:119-128 | every held press is handed to queue once, each signature's in order |
| Capture.ContentScript.OtherEvent | browser-extension/experiment-telemetry/content.js:108-118 | a clipboard, answer, focus or visibility event is accepted, as the last of the line, exactly while tracking is on, the script not disposed, the path allowed, the state unset or one of three, and there is a token; else nothing changes |
| Capture.ForgetKeepsKeys | browser-extension/experiment-telemetry/content.js:459-472 | dispose forgets exactly the held presses |
| Capture.ContentScript.HandOne | browser-extension/experiment-telemetry/content.js:203-206 | one hold goes to queue with its duration, and joins the line exactly if queue takes events |
| Capture.ContentScript.KeyDown | browser-extension/experiment-telemetry/content.js:183-209 | the press is held; the eleventh of a signature hands over the oldest with its duration, accepted exactly if queue takes events |
| Capture.ContentScript.KeyUp | browser-extension/experiment-telemetry/content.js:215-228 | the oldest press of the signature is handed over with its duration, accepted exactly if queue takes events |
| Capture.ContentScript.FinalizePendingHolds | browser-extension/experiment-telemetry/content.js:119-128 | nothing stays held; all of it went to queue at that time and joined the line exactly if queue takes events |
| Capture.ContentScript.SendPending | browser-extension/experiment-telemetry/content.js:130-139 | the whole buffer is under way and the buffer is empty |
| Capture.ContentScript.SendRejected | browser-extension/experiment-telemetry/content.js:134-138 | of the failed message and what came meanwhile the last 500 are pending again, in order, and the others are cut |
| Capture.ContentScript.Flush | browser-extension/experiment-telemetry/content.js:314-322 | all holds and all pending events are under way |
| Capture.ContentScript.Stop | browser-extension/experiment-telemetry/content.js:324-332 | holds are handed over while tracking is still on, then tracking is off and everything is under way |
| Capture.ContentScript.DisposeScript | browser-extension/experiment-telemetry/content.js:459-472 | listeners, holds and buffer are gone, and a second call does nothing |
| Capture.ContentScript.OnTelemetryStopped | browser-extension/experiment-telemetry/content.js:404-410 | what detach hands over is thrown away with the buffer |
| Capture.ContentScript.OnStateEvent | browser-extension/experiment-telemetry/content.js:438-448 | makes the move StateEvent; stops only if tracking was on and the page is no longer eligible, when queue takes nothing more |
| Capture.ContentScript.Check | browser-extension/experiment-telemetry/content.js:334-395 | makes the move CheckStatus; a running check is not started again; if its runtime is gone the script is disposed with its holds and buffer |
| Capture.ContentScript.PresenceArrived | browser-extension/experiment-telemetry/content.js:348-357 | makes the move OnPresence; an overtaken check ends without effect, and a heartbeat that is not ready and in progress stops tracking |
| Capture.ContentScript.StatusArrived | browser-extension/experiment-telemetry/content.js:358-365 | makes the move OnStatus |
| Capture.ContentScript.StartAnswered | browser-extension/experiment-telemetry/content.js:366-382 | tracking begins only if the check is current; an overtaken one stops what it started |
| Capture.ContentScript.RequestFailed | browser-extension/experiment-telemetry/content.js:383-386 | makes the move OnFailure: holds and buffer stay, unless the runtime is gone, when they go with the script |
| Typing.ReplayConcat | scripts/generate_grade10_cohort_export.py:482-496 | replaying two plans is replaying one after the other |
| Typing.TypesCorrection | scripts/generate_grade10_cohort_export.py:469-472 | a wrong letter and its backspace leave no trace, whatever stood before |
| Typing.PlanTyping | scripts/generate_grade10_cohort_export.py:441-480 | for every text and draw the replayed plan types exactly the text; offsets increase strictly and stay below the duration |
| Simulator.ReadyOrLater | scripts/generate_grade10_cohort_export.py:411-417 | a flush splits the queue without loss or repetition by the time of readiness |
| Simulator.ByReadySorts | scripts/generate_grade10_cohort_export.py:418-418 | the events sent are a sorted rearrangement of the ready ones |
| Simulator.FlushedKeepsEvents | scripts/generate_grade10_cohort_export.py:405-434 | what a flush posts and what it leaves are the old queue; posted in order; the timer is set while anything waits |
| Simulator.FlushedExactly | scripts/generate_grade10_cohort_export.py:405-434 | outside an outage a forced flush leaves only events later than its time, any other only those later than one second before; it posts the others; the timer is two and a half seconds after the first event left |
| Simulator.FlushedMovesPast | scripts/generate_grade10_cohort_export.py:405-434 | after a flush its timer is off or more than a second ahead |
| Simulator.MovedLags | scripts/generate_grade10_cohort_export.py:319-338 | a handler that moves its timer more than a second ahead shortens the total lag, so advance ends |
| Simulator.ServedThen | scripts/generate_grade10_cohort_export.py:306-317 | stretches of requests compose: the whole goes well exactly if each status was fine |
| Simulator.Participant.SetClock | scripts/generate_grade10_cohort_export.py:134-136 | simulated time never goes back and is then at least the value; it is the value, or nothing changed |
| Simulator.Participant.Request | scripts/generate_grade10_cohort_export.py:306-310 | one request is added and gets the server's next status |
| Simulator.Participant.Emit | scripts/generate_grade10_cohort_export.py:372-393 | an event is queued exactly while tracking; if no flush was due one is, 2505 to 2680 ms after the event is ready |
| Simulator.Participant.Post | scripts/generate_grade10_cohort_export.py:419-432 | goes through exactly if the server's status is 200 or 409 for every batch; then the batches are the events in order, all but the last of 100, none empty, one request each |
| Simulator.Participant.Flush | scripts/generate_grade10_cohort_export.py:405-434 | nothing is posted in an outage; else exactly the events ready by the time of a forced flush, or by one second before that of any other, in sorted batches |
| Simulator.Participant.Heartbeat | scripts/generate_grade10_cohort_export.py:340-356 | moves only its own timer, twenty seconds ahead up to 40 ms; it is off exactly if the extension is gone or the server says 409 |
| Simulator.Participant.Activity | scripts/generate_grade10_cohort_export.py:358-367 | reports the milliseconds since the last report, at most 30 seconds, nothing while away; its timer is off exactly if a report was not answered by 200 |
| Simulator.Participant.Fire | scripts/generate_grade10_cohort_export.py:330-337 | only the timer that fired changes, and it moves past its firing time; a timed flush posts only what was ready a second before, and nothing else posts |
| Simulator.Participant.Advance | scripts/generate_grade10_cohort_export.py:319-338 | goes through exactly if every status is fine; then no timer is due; fires in non-decreasing order of time, never after the target, and not at all if nothing is due; what it posts was ready at least a second before the target |
| EssayPlan.Find | scripts/generate_grade10_cohort_export.py:1228-1228 | the place found is an occurrence |
| EssayPlan.FindsLowest | scripts/generate_grade10_cohort_export.py:1228-1228 | no occurrence comes before the place found |
| EssayPlan.SplitSegments | scripts/generate_grade10_cohort_export.py:1223-1237 | each paste in turn is cut out where it stands first in the rest, or passed over if it does not occur |
| EssayPlan.SplitSpells | scripts/generate_grade10_cohort_export.py:1223-1237 | the segments spell the text, and the pasted ones are some of the pastes in their order |
| EssayPlan.ChunksSpell | scripts/generate_grade10_cohort_export.py:978-982 | the paragraphs with their breaks spell the segment; each has a break at its very end or nowhere |
| EssayPlan.MakePieces | scripts/generate_grade10_cohort_export.py:973-982 | the loop makes the pieces of the segments in order |
| EssayPlan.PiecesSpell | scripts/generate_grade10_cohort_export.py:973-982 | the pieces spell the text and leave pastes whole |
| EssayOrder.SpreadFits | scripts/generate_grade10_cohort_export.py:989-989 | the rounded place of a chat without paste is never behind the last piece |
| EssayOrder.MakeSlots | scripts/generate_grade10_cohort_export.py:984-992 | fails exactly if a paste is not among the pieces; else each slot is the largest asked for up to its chat |
| EssayOrder.PushedRises | scripts/generate_grade10_cohort_export.py:991-992 | slots never decrease and never exceed the number of pieces |
| EssayOrder.LineUp | scripts/generate_grade10_cohort_export.py:993-1004 | every chat and every piece is placed exactly once, in order; before a piece stand exactly the chats with a slot up to it; plans type their pieces |
| EssayOrder.PiecesSpellText | scripts/generate_grade10_cohort_export.py:970-982 | the pieces of an essay spell it, leave its pastes whole, and typed ones end at their paragraph |
| EssayExtras.PlacedInsert | scripts/generate_grade10_cohort_export.py:1009-1011 | an inserted operation leaves every piece behind the same pieces and chats |
| EssayExtras.InsertExtras | scripts/generate_grade10_cohort_export.py:1005-1011 | without the inserted operations the list is the one lined up; every piece keeps its place among pieces and chats, and the first operation stays first |
| EssayExtras.ExtraAfterDraftingExactly | scripts/generate_grade10_cohort_export.py:1009-1011 | an inserted operation comes behind some drafting in every draw exactly if the first operation is a piece |
| EssayExtras.FirstChatLeads | scripts/generate_grade10_cohort_export.py:986-997 | if the first chat brings no paste it leads the line, and an inserted operation may come before all drafting |
| EssayExtras.ChatThenPiece | scripts/generate_grade10_cohort_export.py:993-1011 | a list made by the loop for which it may |
| EssayOrder.ChatBeforePieceExactly | scripts/generate_grade10_cohort_export.py:984-997 | in any list with the pieces in their places, extras included, a chat stands before a piece exactly if neither it nor an earlier chat asks for a later slot |
| EssayOrder.PasteBeforeItsChat | scripts/generate_grade10_cohort_export.py:970-997 | an essay and three chats such that in every list made of them the paste of the third stands before the third chat |
| EssayRun.EmitTyping | scripts/generate_grade10_cohort_export.py:482-496 | one event per press, at its offset, ready when the key is released |
| EssayRun.KeysWrite | scripts/generate_grade10_cohort_export.py:482-496 | the events of a plan write the plan's text |
| EssayRun.KeysStamped | scripts/generate_grade10_cohort_export.py:482-496 | their times are at least a millisecond apart and within the duration |
| EssayRun.EmitPaste | scripts/generate_grade10_cohort_export.py:498-501 | the shortcut writes nothing, the paste its first 20000 characters |
| EssayRun.SaveDraft | scripts/generate_grade10_cohort_export.py:1101-1105 | goes through exactly if every status is fine, the one for the draft included |
| EssayRun.RunWrite | scripts/generate_grade10_cohort_export.py:1099-1105 | a typed piece adds exactly its text to the log, between the times before and after |
| EssayRun.RunInsert | scripts/generate_grade10_cohort_export.py:1106-1115 | a pasted piece adds its shortened text |
| EssayRun.RunOp | scripts/generate_grade10_cohort_export.py:1038-1119 | draft and log grow by what the operation adds to the essay, nothing for chats, absences and copies |
| EssayRun.RunOps | scripts/generate_grade10_cohort_export.py:1017-1021 | goes through exactly if every status is fine; then the log writes the pieces in order, with increasing timestamps |
| EssayRun.PlanEssay | scripts/generate_grade10_cohort_export.py:966-1011 | fails exactly if a paste is not among the pieces; else the operations hold all chats and pieces once, in order and in their places |
| EssayRun.EssayTask | scripts/generate_grade10_cohort_export.py:966-1021 | for every text, chats, draws and server: written exactly if no paste is missing and every status is fine; then the draft is the text, and the log writes the text with its pastes shortened |
| EssayRun.LoggedExactly | scripts/generate_grade10_cohort_export.py:1109-1110 | shortened pieces spell the text exactly if no paste is longer than the limit |
| EssayRun.EssayComesBackExactly | scripts/generate_grade10_cohort_export.py:966-1021 | replaying the log gives the essay exactly if every paste cut out of it has at most 20000 characters |
| EssayRun.LongPasteIsCut | scripts/generate_grade10_cohort_export.py:1109-1110 | an essay that is one paste of 20001 characters does not come back |
| EssayRun.ArrivalOrderDoesNotMatter | scripts/generate_grade10_cohort_export.py:405-434 | the events in any order of arrival, sorted by time, replay to the same text |
| EssayRun.WhatWasSentReadsAsTheEssay | scripts/generate_grade10_cohort_export.py:405-434 | what was posted and what is still queued, sorted by time, gives what was written |
| EssayRun.WriteAndRead | scripts/generate_grade10_cohort_export.py:966-1021 | from text, chats and draws to the reader: if written, what was posted and what is queued, sorted by time, shows the essay exactly if every paste cut out of it has at most 20000 characters |
| Timeline.TaskIntervals | scripts/seed_grade10_runs.py:357-399 | the six intervals tile start+75s to finish-15s exactly, each beginning after the floored shares before it |
| Timeline.LastTakesTheRest | scripts/seed_grade10_runs.py:357-363 | what rounding down leaves goes to the last task |
| Timeline.DrawTyping | scripts/seed_grade10_runs.py:615-625 | the presses leave as many characters as the text has, with one corrected error every 89 characters, and take between the least and the most milliseconds that the draws allow |
| Timeline.TypingTimeExactly | scripts/seed_grade10_runs.py:615-625 | the least and the most time for a text: so much per character, a longer pause every 137 and 300 ms for an error every 89 |
| Timeline.RequestPasses | scripts/seed_grade10_runs.py:679-684 | every request of a drawn duration satisfies the validator's chain, delayed or not, and is not visible before it is emitted |
| Timeline.TaskInside | scripts/seed_grade10_runs.py:656-814 | the events of a task come in order of time between its first operation and its end |
| Timeline.RequestsPass | scripts/seed_grade10_runs.py:674-735 | all requests of a task pass the validator |
| Timeline.RequestsNumbered | scripts/seed_grade10_runs.py:675-711 | request numbers have no gaps |
| Timeline.NeverOverflows | scripts/seed_grade10_runs.py:651-655 | the gaps fit: the overflow check never fires and less than a nanosecond per gap is lost |
| Timeline.LayOut | scripts/seed_grade10_runs.py:651-815 | fails exactly in the duration check; else each operation stands where the gaps put it |
| TimelinePlan.OpTally | scripts/seed_grade10_runs.py:658-812 | the events of an operation report it: characters left by the keys, one paste or copy with its length, two focus and two visibility events per absence |
| TimelinePlan.TaskTally | scripts/seed_grade10_runs.py:656-814 | the events of a task report its operations |
| TimelinePlan.RunPlanTotal | scripts/seed_grade10_runs.py:613-650 | what the operations of a run come to, task by task |
| TimelinePlan.CountsAreReported | scripts/seed_grade10_runs.py:613-815 | essay keys leave the essay without the pasted text, chat keys all messages, question keys all answers; one paste if anything is pasted, one copy for five runs, and a return of the given length for every absence |
| TimelinePlan.TypedLength | scripts/seed_grade10_runs.py:638-638 | what is typed of the essay is shorter by the pasted text exactly if that occurs in it |
| TimelinePlan.ChatsAtExactly | scripts/seed_grade10_runs.py:599-601 | the chats of a task are those with its position, in order |
| TimelineBatch.Compile | scripts/seed_grade10_runs.py:613-650 | the operations of a task in kind and order: typing and request per chat; then absences, one paste of all pasted texts, the rest of the essay typed, and a copy for runs 1, 4, 7, 8 and 9; or per question its text typed, if any, and its answer |
| TimelineBatch.FittingTaskIsOk | scripts/seed_grade10_runs.py:651-815 | whatever was drawn, operations that fit give events inside the task with their context and requests in order |
| TimelineBatch.TaskAnswers | scripts/seed_grade10_runs.py:646-650 | the answer events of a task are those of its answers, in order |
| TimelineBatch.TaskAsks | scripts/seed_grade10_runs.py:627-631 | there is a request for each that is planned |
| TimelineBatch.BuildRun | scripts/seed_grade10_runs.py:305-815 | a run never overflows; it is built if its longest possible operations fit and not if the shortest do not; if built, its tasks tile the session, its events come in order of time, no request or answer is missing, requests are numbered from 1, every row is accepted, and the events report every character typed, paste, copy and absence of the plan |
| TimelineBatch.AddRunKeepsSound | scripts/seed_grade10_runs.py:300-303 | adding a run keeps all rows of the batch acceptable |
| TimelineBatch.Validate | scripts/seed_grade10_runs.py:921-953 | reports no fault exactly if every session, event and request is in order |
| TimelineBatch.Batch.Build | scripts/seed_grade10_runs.py:300-303 | a batch is built if all its runs have room; then it has every session, in order and 27 s apart by run number, and satisfies all conditions of the validator |
| TimelineBatch.BuildAndValidate | scripts/seed_grade10_runs.py:895-953 | a batch whose runs all have room is built, and a built batch passes validation exactly if every session ended more than a second ago |
| MessageTree.ChatMessageTable.UpsertMessage | backend/open_webui/models/chat_messages.py:153-234 | a new row has every field of the data, user as role and the parent under either name; a row that exists takes over the fields present and keeps the others, new token counts winning; every other row stays; rows stay under keys of their chat |
| MessageTree.UpsertedExactly | backend/open_webui/models/chat_messages.py:172-231 | the same field by field for the function that specifies the method |
| MessageTree.UpsertKeepsValid | backend/open_webui/models/chat_messages.py:166-170 | every row is stored under its chat's prefix |
| MessageTree.UsageKeysStay | backend/open_webui/models/chat_messages.py:196-202 | an update loses no token count |
| MessageTree.CollectMessages | backend/open_webui/models/chat_messages.py:277-300 | the messages are those of the chat, each once, with their rows' fields |
| MessageTree.GetMessagesMap | backend/open_webui/models/chat_messages.py:259-320 | None exactly if the chat has no row; else childrenIds is the inverse of parentId, without duplicates, whatever the order of rows |
| MessageTree.LinkKeepsLinked | backend/open_webui/models/chat_messages.py:305-313 | after each turn every list holds the children among the messages seen |
| MessageTree.StoreAllAt | backend/open_webui/models/chat_messages.py:172-231 | a stored message has every field of its data under a free key and takes over the fields present under a taken one |
| MessageTree.HistoryReturnsExactly | backend/open_webui/models/chat_messages.py:166-320 | a history with distinct ids stored in a new chat returns with its ids, parents, roles, contents, models and token counts exactly if no key is taken |
| MessageTree.ChildrenReturn | backend/open_webui/models/chat_messages.py:302-318 | it then has exactly the children that its parents imply |
| MessageTree.ReturnedIsMirrored | backend/open_webui/models/chat_messages.py:259-320 | a tree has the history's messages and the children they imply exactly if the rows have its messages |
| MessageTree.StoreAndRead | backend/open_webui/models/chat_messages.py:153-320 | a history stored message by message in a new chat and read back is mirrored by the tree, content and all, exactly if no key is taken |
| MessageTree.EqualLengthsReturn | backend/open_webui/models/chat_messages.py:166-167 | with chat ids of one length it always is |
| MessageTree.DashesCollide | backend/open_webui/models/chat_messages.py:166-167 | two chats whose messages share a key; the second message is lost |
| Mentions.OpeningIsLongestMatch | backend/open_webui/utils/channels.py:6-9 | the first scanner takes exactly the longest span that matches its pattern |
| Mentions.ClosingIsTheMatch | backend/open_webui/utils/channels.py:29-31 | the second pattern has at most one match at a place, the scanner's |
| Mentions.PiecesSpellMessage | backend/open_webui/utils/channels.py:29-31 | the substitution leaves everything outside of mentions as it was |
| Mentions.UnchangedExactly | backend/open_webui/utils/channels.py:13-31 | the result is the message itself exactly if it has no complete mention, else shorter |
| Mentions.LabelReplacesMention | backend/open_webui/utils/channels.py:14-27 | a mention with a label becomes the label, or the id if labels are not wanted |
| Mentions.NoMentionInsideBrokenOpening | backend/open_webui/utils/channels.py:4-31 | inside an opening that is not closed no mention begins |
| Mentions.ScannersAgreeExactly | backend/open_webui/utils/channels.py:4-31 | the mentions replaced are among the mentions found, in order, in every message, exactly for triggers other than the closing bracket |
| Mentions.BracketTriggerDisagrees | backend/open_webui/utils/channels.py:4-31 | a message on which they disagree for that trigger |
| ChannelMembers.CountsAreSizes | backend/open_webui/models/channels.py:437-450 | without double rows the two counts are the size of the member set and of its part among the requested users |
| ChannelMembers.SelectedExactly | backend/open_webui/models/channels.py:442-463 | the HAVING clauses select exactly the channels whose users are the requested, non-empty set |
| ChannelMembers.DoubleRowsMislead | backend/open_webui/models/channels.py:442-450 | with a double row they would select a wrong channel |
| ChannelMembers.UsersAfter | backend/open_webui/models/channels.py:466-582 | what each change does to the users of every channel |
| ChannelMembers.ApplyKeepsUnique | backend/open_webui/models/channels.py:466-582 | no change makes a second row for a channel and user |
| ChannelMembers.LookupExactInEveryRun | backend/open_webui/models/channels.py:430-464 | after any sequence of changes the lookup is exact |
| ChannelMembers.RejoiningExactly | backend/open_webui/models/channels.py:526-582 | joining after leaving makes the user active exactly if there was no row to leave |
| ChannelMembers.CollectUniqueUserIds | backend/open_webui/models/channels.py:273-293 | the loop collects the requested users |
| ChannelMembers.RequestedExactly | backend/open_webui/models/channels.py:273-293 | these are exactly the named users, those of the groups, and the inviter |
| ChannelMembers.ChannelTable.InsertNewChannel | backend/open_webui/models/channels.py:341-375 | a group or direct channel starts with exactly the requested users; other channels keep theirs |
| ChannelMembers.ChannelTable.AddMembersToChannel | backend/open_webui/models/channels.py:466-490 | rows are added exactly for the requested users who have none |
| ChannelMembers.ChannelTable.RemoveMembersFromChannel | backend/open_webui/models/channels.py:492-506 | exactly the named rows are deleted, and counted |
| ChannelMembers.ChannelTable.JoinChannel | backend/open_webui/models/channels.py:526-562 | an existing row is returned, else one is added |
| ChannelMembers.ChannelTable.LeaveChannel | backend/open_webui/models/channels.py:564-582 | the row stays, inactive |
| ChannelMembers.ChannelTable.UpdateMemberActiveStatus | backend/open_webui/models/channels.py:649-671 | only the flag of that row changes |
| ChannelMembers.ChannelTable.GetDmChannelByUserIds | backend/open_webui/models/channels.py:430-464 | returns a direct channel with exactly these users if there is one, else none; never one for no users |
| ChannelMembers.ChannelTable.GetOrCreateDm | backend/open_webui/routers/channels.py:233-283 | the result is a direct channel of exactly the two; none is created if one exists |
| AccessFormats.AccessControlToGrants | backend/open_webui/models/access_grants.py:80-144 | the loops make the grants of the dictionary |
| AccessFormats.GrantsToAccessControl | backend/open_webui/models/access_grants.py:239-281 | None exactly if a public read grant is among them; else each list has its ids once, in order of first occurrence |
| AccessFormats.DictionaryReturns | backend/open_webui/models/access_grants.py:80-144 | to grants and back gives the dictionary with duplicates removed and missing keys filled, {} for no ids, and the public one for the wildcard reader |
| AccessFormats.GrantsReturnExactly | backend/open_webui/models/access_grants.py:239-281 | to the dictionary and back keeps the set of proper triples exactly if none is the public read, or it is the only one and the resource is no file |
| AccessFormats.WriteGrantIsLost | backend/open_webui/models/access_grants.py:239-281 | a user's write grant next to the public read grant is lost |
| AccessGrants.NormalizeAccessGrants | backend/open_webui/models/access_grants.py:147-183 | the result has unique, proper triples with non-empty ids |
| AccessGrants.KeepsExactlyTheAccepted | backend/open_webui/models/access_grants.py:147-183 | a triple is kept exactly if an accepted element has it |
| AccessGrants.LastIdWins | backend/open_webui/models/access_grants.py:176-181 | of several elements with one triple the last id is kept |
| AccessGrants.NormalizingTwiceIsOnce | backend/open_webui/models/access_grants.py:147-183 | normalizing a normalized list changes nothing |
| AccessGrants.BatchIsSingle | backend/open_webui/models/access_grants.py:564-618 | the batch query returns exactly the resources that has_access accepts |
| AccessGrants.FilterIsOwnedOrSingle | backend/open_webui/models/access_grants.py:665-772 | with a user the filter keeps exactly the documents owned or accepted by has_access |
| AccessGrants.FilterWithoutUser | backend/open_webui/models/access_grants.py:683-716 | without a user the filter keeps all documents, or with groups those accepted for somebody known only by them |
| AccessGrants.SinglePublicOrPersonal | backend/open_webui/models/access_grants.py:504-562 | has_access is everyone's grant or one's own |
| AccessGrants.ReadOnlyExactly | backend/open_webui/models/access_grants.py:774-877 | listed as read-only are exactly the documents of others that are not public and that the user may read and not write by grants of their own |
| AccessGrants.ReadOnlyIsWritableExactly | backend/open_webui/models/access_grants.py:774-877 | a document listed as read-only is readable, and writable exactly if everyone may write it |
| AccessGrants.ReadOnlyButWritable | backend/open_webui/models/access_grants.py:774-877 | a table with such a document |
| AccessGrants.CollectUserIds | backend/open_webui/models/access_grants.py:650-658 | the loop collects exactly the users reached by a grant, directly or through a group |
| AccessGrants.ReachedIsSingle | backend/open_webui/models/access_grants.py:504-562 | for a resource that is not public these are exactly the users that has_access accepts |
| AccessGrants.GetUsersWithAccess | backend/open_webui/models/access_grants.py:620-663 | exactly the accounts that has_access accepts, without the pending ones if the resource is public |
| AccessGrants.DictionaryMeansItsGrants | backend/open_webui/models/access_grants.py:80-144 | the grants made from a dictionary let in exactly whom the dictionary lets in |
| AccessGrants.GrantsMeanTheirDictionary | backend/open_webui/models/access_grants.py:239-281 | the dictionary made from grants lets in the same users, except that next to public read all else is lost |
| AccessGrants.WriterIsShutOut | backend/open_webui/models/access_grants.py:239-281 | a user who may write by the grants but not by their dictionary |

## Left out

- Browser, network and storage interfaces: a storage access is one atomic step, an answer of the server is any answer, a uuid is one that occurs nowhere yet, and clocks and timers are inputs.
- Sizes of events are given numbers; the modelled sizes count the JSON around them but assume that ids need no escapes.
- Of the session object only id, browser session id and sequence are modelled; tab caches, token, heartbeat time and alarms do not influence what is proved.
- Events of the page are assumed unnumbered and never of type telemetry_loss, which content.js guarantees.
- DeliveryWorker.Background.TabEventUnlocked: whether a tab is normalized and in a normal window is an input.
- The content script's variables that decide when to track are grouped in one datatype; the field and key class of a key event are given as its signature, and away times and key intervals are not modelled.
- Capture.HandOverAll: the order in which different signatures are handed over is left open.
- Capture.ContentScript.Stop: the message session-stop behind its first await is not modelled; the check that waits for it ends in a later move.
- Floating point: the keystroke clock is a real, and the quotient that spreads chats is rounded exactly.
- EssayRun.EssayTask: a participant without tracking, whose log stays empty, is left out, as are the questions of a question task and the distribution of spare time (gaps are any non-negative numbers).
- EssayRun.RunOther: chats, absences and copies may take any time, make any calls and record any events outside the essay's text.
- SerialChain.EveryScheduleIsSerial: jobs are arbitrary functions on an arbitrary store; that the methods of the worker are such jobs is not stated in Dafny.
- Simulator.Participant.Post: after a status other than 200 and 409, which ends the simulation with an error, nothing is said about the queue.
- Simulator.Participant.Activity: field values of requests and responses other than the status are not modelled.
- TimelineBatch.Compile: a typing interval below -35 ms, for which the draw's range would be empty, is excluded.
- TimelineBatch.Validate: row counts, the publication date, survey states and payload keys are not modelled; they are constants of the fixture.
- TimelineBatch.BuildRun: identifiers are pairs of run and position instead of hashes, the sort of events by time and identifier (they are already in order of time) and the chat history are not modelled.
- MessageTree.ChatMessageTable.UpsertMessage: columns treated like content (output, files, sources, embeds, done, status history, error, session task) and the timestamps are not modelled; null and empty parents are one value.
- Mentions.ScannersAgreeExactly: triggers of more than one character and the regular-expression engine itself are not modelled; the patterns are given as predicates on spans.
- ChannelMembers.ChannelTable.InsertNewChannel: the drawn id is assumed to occur nowhere; concurrent transactions are not modelled.
- AccessFormats.AccessControlToGrants: the resource fields, the same in all grants of a call, are dropped; a missing list is an empty one.
- AccessGrants.FilterIsOwnedOrSingle: SQL is read as a condition on sets of rows.
- Plan progression, prompt budgets, reports, perturbations and the telemetry tables of the server are not part of this model.
- `backend/open_webui/tasks.py`: stopping tasks walks a list that cleanup shrinks, so no all-stopped property is claimed.

# USB/IP transfer engine: a Dafny model

This project models the part of the repository that carries USB transfers between a USB/IP client and a device, and
proves what it guarantees. A USB/IP client sends CMD_SUBMIT and CMD_UNLINK on a TCP connection; the server turns the
former into transfers of the ESP32 USB host stack (or of a virtual device), answers each with RET_SUBMIT, and answers
unlinks with RET_UNLINK. A receiver thread, a sender thread and the host stack's completion callbacks share the tables
and queues in between.

| files | part of the system |
|---|---|
| `UrbProtocol`, `UrbInvariant`, `UrbLifeCycle`, `UrbTheorems`, `UrbUnlinks`, `UrbOutcomes`, `UrbReceiver`, `UrbShutdown`, `UrbExamples`, `UrbHandler` | `Esp32DeviceHandler` with chunking off: a step relation with one step per mutex-protected section, its invariant, the life cycles its steps allow, theorems over all runs (URBs, unlinks, what the client is told, what the receiver does, the end of a session), runs that show the exceptions, and the handler's fields updated in place against it |
| `SessionQueue`, `WireOrder` | the session's two deques, flag and condition variable; handler and session together |
| `MassStorage`, `MassStorageCommands`, `MassStorageTheorems`, `MassStorageReplies`, `MassStorageHandler` | the Bulk-Only mass-storage device: a block-disk reference, the host's packets byte by byte, the theorems, the handler and the disk image in place |
| `RingBuffer`, `RequestQueue`, `RequestLedger`, `CdcTransmit`, `CdcDelivery`, `CdcHandler` | the CDC-ACM transmit path over a circular array and queues of waiting requests |
| `HidReports`, `HidHandler` | the HID report rendezvous |
| `Chunking` | chunked transfers (written in the source, switched off) |
| `Bytes`, `Framing`, `FramingTheorems`, `FramingFormat`, `NetworkFields` | USB/IP command framing: reader and writer, their round trips, and the wire format byte by byte |
| `ObjectPool` | the callback-argument pool |
| `ConfigDescriptor` | the configuration descriptor builder and a host that walks the result |
| `LineSplitter`, `FormDecoding`, `DeviceRegistry` | the GPIO line splitter, the Wi-Fi form reader, the device collections |

Code that updates objects step by step is modelled by classes and methods whose contracts equate the new fields with
a step of a specification; the theorems are about that specification and so about the fields. Concurrency is a step
relation: threads, the host stack, the condition variable and the network are nondeterministic choices of steps.

## What the proofs found

- **RET_SUBMIT after RET_UNLINK.** The documented order can be inverted. The branch for a refused resubmission leaves
  the table, drops the mutex, and only then enqueues RET_SUBMIT; an unlink looked up in between misses the URB and is
  answered first. `UrbTheorems.OrderHoldsExactlyWithoutRace` proves that this race is the only way, in both directions;
  `UrbExamples.RaceExample` is a run.
- **A CMD_UNLINK without RET_UNLINK.** There are three ways: a second CMD_UNLINK of the same URB overwrites its mark, the
  command arrives after an unplug, or the URB it is recorded on completes into a stopping session.
  `UrbUnlinks.LostExactlyWhen` and `UrbUnlinks.UnansweredExactlyWhenLost` prove that there is no other way
  for it not to be enqueued; `UrbExamples.LostToOverwrite`, `LostToUnplug` and `LostToDrain` are runs. (A reply that is
  enqueued can still be cleared with the session's deques.)
- **A completed URB whose RET_SUBMIT is still queued** gets both its RET_SUBMIT and a RET_UNLINK with status 0. The
  interface comment (state 2 in `DeviceHandler.h:124-126`) wants the RET_SUBMIT withheld; the model follows the code.
  `UrbUnlinks.QueuedAnswerIsNotWithheld` proves it of every such run, `UrbUnlinks.BothRepliedExactlyWhen` says exactly
  when both go out, and `UrbExamples.BothRepliesExample` is a run.
- **After the disconnection's wait.** The wait looks at the counter, which callbacks decrement before they answer or
  free. So when it has passed, a callback can still own a transfer (`UrbExamples.StillOwnedAfterWait`) or enqueue a
  response (`UrbExamples.AnsweredAfterWait`): exactly those that have left the table and not finished
  (`UrbShutdown.WaitLeavesExactlyCallbacks`, `LateResponsesAreOwed`, `OwedIsAnsweredLate`).
- **Before it.** The disconnection cancels every endpoint once. A callback that found its URB cancelled before the stop
  flag was set can resubmit it after that, and the wait then lasts until the device completes it.
  `UrbShutdown.HoldsUpExactlyWhen` says exactly which URBs are still with the host stack, `PastFlushIsResubmitted` that
  this is the only way past a flush, and `UrbExamples.ResubmittedPastCancel` is a run.
- **A lost wakeup.** `wakeup_sender` sets the flag and then notifies, both without the mutex, so the notification can
  fall between the sender's test of the flag and its going to sleep. `SessionQueue.SleepsOnWokenExactlyWhenMissed` gives
  the exact condition; the response then waits for the next one, a stop or a spurious wakeup. The stop's notification
  can be lost the same way: `SessionQueue.SleepsThroughStopExactlyWhenMissed`.
- **A spinning sender.** A producer that raises the flag for a response already exchanged leaves it up with nothing to
  send, and the flag is cleared only in an exchange. `SessionQueue.FlagWithoutDataExactlyWhen` says exactly when;
  `SessionQueue.SpinExample` is a run after which the sender's wait passes again and again.
- **An IN submit encoded with its buffer attached**, or an OUT submit encoded without one, cannot be read back:
  `FramingTheorems.ReadBackExactlyWhenSelfFraming` gives the exact condition.
- **Holes in chunked IN data.** A chunk that fails but counts bytes advances the total without a copy, so the reply
  contains memory nobody wrote: `Chunking.InDataIsReliableExactlyWithoutHoles`; `Chunking.HoleExample` is an input. And
  a STALL after a chunk with a status that ranks above it does not stop the transfer: `Chunking.EndsExactlyWhen` gives
  the condition; `Chunking.StallIsMissed` shows it of every transfer of three or more chunks whose first overflows and
  whose second stalls, and `MissedStallExample` of one.
- **A stranded CDC byte.** If the subclass over-supplies one bulk-IN endpoint while another has a request waiting, the
  excess waits in the buffer beside that request: `CdcTransmit.SettledExactlyUnlessStranded`.
- **Supplied CDC bytes can vanish.** The handler ignores how much of a subclass's surplus the buffer took; and a buffer
  made smaller than its contents drops bytes. `CdcTransmit.NothingLostExactlyWhen` gives the exact condition over runs,
  `CdcTransmit.LossExample` an input.
- **NUL bytes in the GPIO stream** make what the client does depend on how recv cuts the stream
  (`LineSplitter.CutsDecide`); `LineSplitter.AgreesExactlyWhen` says exactly when it does not.
- **A packet too short for a CBW** is answered under the tag of the command before it:
  `MassStorageTheorems.StatusEchoesTagExactlyWhen` gives the exact condition, `ShortCbwExample` an input.
- **Two devices with one busid.** An import of the second while the first is in use overwrites the in-use entry.
  `DeviceRegistry.ExclusiveExactlyWithoutClash` proves that the table names the session that imported each busid exactly
  as long as no import clashes, and `NoDeviceIsLostExactlyWhen` that a device is lost exactly if it is overwritten so.
  Without a clash no two sessions hold one device (`NoDeviceIsHeldTwice`); with one, `SharedBusidExample` ends with a
  device held twice and another lost.

## Assumptions

- Sequence numbers of commands are fresh; transfer and argument allocation succeeds.
- A transfer handle is freed through `TransferHandle::reset` only, and the endpoint of a completed transfer is read
  before its memory is released (the handler's arguments record it).
- The host stack completes each accepted transfer at most once, with any status, and reports no more bytes than the
  buffer holds. Flushing an endpoint completes everything in flight on it as cancelled, or fails and changes nothing.
- The status values of the host stack are ordered as in ESP-IDF's `usb_transfer_status_t`, whose header is not part of
  this model.
- A disk image is at least block_count * block_size bytes.
- A new CDC or HID connection starts after the previous one has been torn down.

## Model

| member | source | states |
|---|---|---|
| UrbTheorems.EveryRunIsSafe | components/usbipdcpp/src/esp32_handler/Esp32DeviceHandler.cpp:354-450 | After every run, under every interleaving of receiver, callbacks, host stack and sender, the protocol invariant holds |
| UrbTheorems.EveryUrbIsAccountedFor | components/usbipdcpp/src/esp32_handler/Esp32DeviceHandler.cpp:672-725 | On every run, every URB received is in exactly one place: in `transfers_`, answered by one RET_SUBMIT, consumed by a RET_UNLINK, owed an answer by a thread on its way to enqueue it, or given up by a session that ended; it is answered at most once; `pending_count_` is the size of `transfers_` |
| UrbTheorems.QuietUrbHasOnePlace | components/usbipdcpp/src/esp32_handler/Esp32DeviceHandler.cpp:1269-1385 | With no command or callback half done: registered, answered by exactly one RET_SUBMIT, or consumed by its unlink |
| UrbUnlinks.EveryUnlinkIsAccountedFor | components/usbipdcpp/src/esp32_handler/Esp32DeviceHandler.cpp:386-450 | On every run a CMD_UNLINK gets at most one RET_UNLINK and is exactly one of: being processed, recorded on a URB that can still respond, replied to, lost |
| UrbUnlinks.LostExactlyWhen | components/usbipdcpp/src/esp32_handler/Esp32DeviceHandler.cpp:1252-1258 | On every run a CMD_UNLINK has lost its reply if and only if it arrived after the device was unplugged (386-388), a second CMD_UNLINK for the same registered URB overwrote its mark (435-436), or the URB it was recorded on completed into a stopping session (1252-1258) |
| UrbUnlinks.UnansweredExactlyWhenLost | components/usbipdcpp/src/esp32_handler/Esp32DeviceHandler.cpp:354-385 | When a session is disconnected, its table empty and its callbacks returned, a CMD_UNLINK is without its RET_UNLINK if and only if it lost it in one of these three ways |
| UrbUnlinks.BothRepliedExactlyWhen | components/usbipdcpp/usbipdcpp/include/DeviceHandler/DeviceHandler.h:112-138 | On every run a URB gets its RET_SUBMIT and a CMD_UNLINK that targets it its RET_UNLINK if and only if the receiver replied to the unlink after its lookup had missed the URB in one of two states: RET_SUBMIT enqueued (still queued or taken by the sender), or owed by the failed-resubmission branch and enqueued since |
| UrbUnlinks.QueuedAnswerIsNotWithheld | components/usbipdcpp/usbipdcpp/include/DeviceHandler/DeviceHandler.h:124-126 | State 2 of the contract: for every run in which the lookup finds the RET_SUBMIT enqueued but not taken by the sender, that RET_SUBMIT stays, and a RET_UNLINK with status 0 follows it |
| UrbExamples.LostToUnplug | components/usbipdcpp/src/esp32_handler/Esp32DeviceHandler.cpp:386-388 | A run that ends with every callback returned and a CMD_UNLINK unanswered because it came after an unplug |
| UrbExamples.LostToOverwrite | components/usbipdcpp/src/esp32_handler/Esp32DeviceHandler.cpp:430-440 | ... because a second CMD_UNLINK of its URB was recorded over it |
| UrbExamples.LostToDrain | components/usbipdcpp/src/esp32_handler/Esp32DeviceHandler.cpp:1252-1258 | ... because its URB's callback started when the session was stopping |
| UrbExamples.BothRepliesExample | components/usbipdcpp/usbipdcpp/include/DeviceHandler/DeviceHandler.h:124-126 | A run on which a URB whose RET_SUBMIT is still queued gets a RET_UNLINK as well |
| UrbOutcomes.ResubmittedExactlyWhen | components/usbipdcpp/src/esp32_handler/Esp32DeviceHandler.cpp:1281-1316 | On every run a callback of the connected session gives its URB back to the host stack, or is refused there, exactly if it was cancelled and no CMD_UNLINK is recorded on it, whatever its direction; any other URB leaves the table to be answered |
| UrbOutcomes.EveryReplyTellsTheOutcome | components/usbipdcpp/src/esp32_handler/Esp32DeviceHandler.cpp:905-921 | On every run each response was enqueued for one of five reasons, with the status that belongs to it in errno numbers: a tweaked request (0), a refused submission or resubmission (-32), an unlink that missed (0), or a callback that reports how the host stack last completed its URB, on the RET_UNLINK if the URB is marked and otherwise on a RET_SUBMIT, which carries the transfer of an IN URB and none of an OUT URB |
| UrbOutcomes.NoSubmitIsReset | components/usbipdcpp/src/esp32_handler/Esp32DeviceHandler.cpp:1281-1316 | On no run is a CMD_SUBMIT answered with ECONNRESET |
| UrbOutcomes.SuccessIsCompletion | components/usbipdcpp/src/esp32_handler/Esp32DeviceHandler.cpp:905-908 | A CMD_SUBMIT is answered with success only if it was tweaked or the host stack last completed it so |
| UrbOutcomes.CallbacksGoOn | components/usbipdcpp/src/esp32_handler/Esp32DeviceHandler.cpp:1252-1384 | On every run, while no other callback holds the mutex, each callback's next section is open and moves its URB on |
| UrbReceiver.UnlinkCancelsItsTarget | components/usbipdcpp/src/esp32_handler/Esp32DeviceHandler.cpp:430-440 | On every run: when a lookup has found its target, the receiver's next step is a flush; a successful one takes the target and everything else on the target's endpoint back from the host stack as cancelled, and no URB of another endpoint |
| UrbReceiver.ReceiverFollowsItsProgram | components/usbipdcpp/src/esp32_handler/Esp32DeviceHandler.cpp:455-725 | On every run, whatever the other threads do in between: the steps open to the receiver after its last one are exactly those its program has there, once the mutex is free, the table empty, or a command has come |
| UrbReceiver.RemovedExactlyWhen | components/usbipdcpp/src/esp32_handler/Esp32DeviceHandler.cpp:719-722 | The device counts as gone exactly after an unplug, a submission that did not find it, or a URB that ended with NO_DEVICE |
| UrbReceiver.GoneIsTurnedAway | components/usbipdcpp/src/esp32_handler/Esp32DeviceHandler.cpp:458-461 | From then on every CMD_SUBMIT is turned away for good, without an answer and without reaching the table |
| UrbTheorems.LateUnlinkReportsSuccess | components/usbipdcpp/usbipdcpp/include/DeviceHandler/DeviceHandler.h:108-113 | A RET_UNLINK with a non-zero status belongs to a URB that gets no RET_SUBMIT; after a RET_SUBMIT the unlink status is 0 |
| UrbTheorems.OrderHoldsExactlyWithoutRace | components/usbipdcpp/usbipdcpp/include/DeviceHandler/DeviceHandler.h:108-113 | For every run: RET_UNLINK of a command is enqueued before RET_SUBMIT of its target if and only if the receiver replied while that URB was in the failed-resubmission branch |
| UrbTheorems.OrderHoldsWithoutRefusal | components/usbipdcpp/src/esp32_handler/Esp32DeviceHandler.cpp:1281-1321 | If the host stack never refuses a resubmission of the URB, RET_SUBMIT always comes first |
| UrbExamples.RaceExample | components/usbipdcpp/src/esp32_handler/Esp32DeviceHandler.cpp:1296-1304 | A run on which the order is inverted: an unlink of one URB flushes the endpoint and cancels another, whose resubmission is refused, and which is unlinked before its answer is enqueued |
| UrbExamples.UnlinkRepliedMeanwhile | components/usbipdcpp/src/esp32_handler/Esp32DeviceHandler.cpp:443-449 | The middle of that run: the unlink misses the URB and is replied to while the URB's own answer is still owed |
| UrbTheorems.UnlinkNeverLosesAnotherUrb | components/usbipdcpp/src/esp32_handler/Esp32DeviceHandler.cpp:749-764 | After endpoint-wide cancels and any callbacks, a URB once registered and named by no CMD_UNLINK is registered with the same transfer, about to be answered, or answered by exactly one RET_SUBMIT, and no RET_UNLINK took its place |
| UrbTheorems.UrbPersistsOnRun | components/usbipdcpp/src/esp32_handler/Esp32DeviceHandler.cpp:1281-1295 | Along a run a URB keeps its endpoint, its direction and its transfer, and never becomes un-received |
| UrbTheorems.TransferHasOneOwner | components/usbipdcpp/usbipdcpp/src/protocol.cpp:16-53 | On every run each allocated transfer has exactly one owner (the command, one URB's callback arguments, one queued response) or has been freed exactly once |
| UrbShutdown.NothingLeaks | components/usbipdcpp/usbipdcpp/src/Session.cpp:214-221 | After any disconnection, waited for or of a removed device: with no URB registered, callbacks returned and queues cleared, every transfer has been freed exactly once |
| UrbShutdown.WaitLeavesExactlyCallbacks | components/usbipdcpp/src/esp32_handler/Esp32DeviceHandler.cpp:370-376 | When the disconnect wait passes the table is empty and the host stack holds nothing; a URB's transfer is still owned by its callback if and only if the callback is between its decrement and its end (erased and not answered, failed resubmission not answered, drained and not freed) |
| UrbShutdown.LateResponsesAreOwed | components/usbipdcpp/src/esp32_handler/Esp32DeviceHandler.cpp:1355-1384 | Every response enqueued after the wait answers a URB that a callback had taken out of the table and not answered when the wait passed |
| UrbShutdown.OwedIsAnsweredLate | components/usbipdcpp/src/esp32_handler/Esp32DeviceHandler.cpp:1298-1305 | ... and each such URB is still with its callback or has been answered by a response enqueued after the wait; a drained one is never answered |
| UrbShutdown.HoldsUpExactlyWhen | components/usbipdcpp/src/esp32_handler/Esp32DeviceHandler.cpp:363-376 | On every run, at every point after the stop: a URB is with the host stack, and so holds up the wait, if and only if it was there at the stop, or a callback has resubmitted it after the stop, and since then neither the host stack has completed it nor a flush of its endpoint has succeeded |
| UrbShutdown.PastFlushIsResubmitted | components/usbipdcpp/src/esp32_handler/Esp32DeviceHandler.cpp:1281-1295 | A URB with the host stack although its endpoint was flushed after the stop was resubmitted after that flush, by a callback that had already started, with the URB cancelled, at the stop |
| UrbExamples.ResubmittedPastCancel | components/usbipdcpp/src/esp32_handler/Esp32DeviceHandler.cpp:363-368 | A run on which that happens: the disconnect has cancelled the endpoint, and the URB is in flight on it |
| UrbExamples.StillOwnedAfterWait | components/usbipdcpp/src/esp32_handler/Esp32DeviceHandler.cpp:1252-1258 | A run on which the wait passes while a callback still owns its transfer |
| UrbExamples.AnsweredAfterWait | components/usbipdcpp/src/esp32_handler/Esp32DeviceHandler.cpp:1355-1384 | A run on which a RET_SUBMIT is enqueued after the wait has passed |
| UrbTheorems.LateExactlyWhenRaced | components/usbipdcpp/src/esp32_handler/Esp32DeviceHandler.cpp:1300-1302 | After every run: a command was replied to while its target was answered later, or still to be answered by the failed-resubmission branch, if and only if that race occurred |
| UrbTheorems.OutOfTableStays | components/usbipdcpp/src/esp32_handler/Esp32DeviceHandler.cpp:1254-1258 | A URB out of the table with the mutex released changes no more, except for the answer it is owed or the freeing of its transfer |
| UrbLifeCycle.EveryUrbLives | components/usbipdcpp/src/esp32_handler/Esp32DeviceHandler.cpp:672-725 | Every section moves every URB along the edges of one life cycle, from its arrival to its answer, and leaves its endpoint and transfer alone; only a lookup marks it |
| UrbLifeCycle.EveryUnlinkLives | components/usbipdcpp/src/esp32_handler/Esp32DeviceHandler.cpp:1359-1365 | Every section moves every CMD_UNLINK along its own: recorded by its lookup, overwritten by a later one, confirmed once, by its own reply or in place of its URB's RET_SUBMIT |
| UrbInvariant.StepKeepsInv | components/usbipdcpp/src/esp32_handler/Esp32DeviceHandler.cpp:354-450 | Every section of receiver, callbacks, host stack and sender keeps the protocol invariant (table, counter, mutex, phases, unlink marks, responses and transfers agree) |
| UrbInvariant.KeepMark | components/usbipdcpp/src/esp32_handler/Esp32DeviceHandler.cpp:430-440 | Marking a registered URB keeps the invariant, also when an earlier unlink is overwritten |
| UrbInvariant.KeepCancel | components/usbipdcpp/src/esp32_handler/Esp32DeviceHandler.cpp:749-764 | Flushing an endpoint, which completes every URB in flight there as cancelled, keeps the invariant |
| UrbInvariant.KeepUnlinkCompleted | components/usbipdcpp/src/esp32_handler/Esp32DeviceHandler.cpp:1359-1365 | Answering a marked URB by RET_UNLINK and freeing its transfer keeps the invariant |
| UrbInvariant.KeepSubmitCompleted | components/usbipdcpp/src/esp32_handler/Esp32DeviceHandler.cpp:1366-1383 | Answering an unmarked URB by RET_SUBMIT, which takes an IN transfer over, keeps the invariant |
| UrbHandler.Esp32DeviceHandler.Register | components/usbipdcpp/src/esp32_handler/Esp32DeviceHandler.cpp:619-677 | Fills pooled arguments (clearing a stale unlink mark), registers them and counts them: the fields move exactly as the protocol step |
| UrbHandler.Esp32DeviceHandler.EraseRefused | components/usbipdcpp/src/esp32_handler/Esp32DeviceHandler.cpp:692-704 | A refused submission leaves the table and the counter together |
| UrbHandler.Esp32DeviceHandler.AnswerRefused | components/usbipdcpp/src/esp32_handler/Esp32DeviceHandler.cpp:705-725 | A refused submission frees its transfer, answers EPIPE, and on a vanished device raises the removed flag |
| UrbHandler.Esp32DeviceHandler.LookupForUnlink | components/usbipdcpp/src/esp32_handler/Esp32DeviceHandler.cpp:429-441 | Marks the URB if it is still registered and says which endpoint to cancel, otherwise changes no URB |
| UrbHandler.Esp32DeviceHandler.ReplyNotFound | components/usbipdcpp/src/esp32_handler/Esp32DeviceHandler.cpp:443-449 | An unlink whose target is not registered is answered with status 0 |
| UrbHandler.Esp32DeviceHandler.CancelledForAnother | components/usbipdcpp/src/esp32_handler/Esp32DeviceHandler.cpp:1281-1284 | Resubmission is due exactly for a cancelled URB without an unlink mark |
| UrbHandler.Esp32DeviceHandler.ResubmissionFailed | components/usbipdcpp/src/esp32_handler/Esp32DeviceHandler.cpp:1296-1300 | A refused resubmission leaves the table and the counter and drops the mutex with the answer still owed |
| UrbHandler.Esp32DeviceHandler.AnswerFailedResubmission | components/usbipdcpp/src/esp32_handler/Esp32DeviceHandler.cpp:1301-1304 | ... which is then given as EPIPE, and the transfer freed |
| UrbHandler.Esp32DeviceHandler.EraseCompleted | components/usbipdcpp/src/esp32_handler/Esp32DeviceHandler.cpp:1328-1357 | First half of a completion: out of table and counter, unplug noticed |
| UrbHandler.Esp32DeviceHandler.RespondCompleted | components/usbipdcpp/src/esp32_handler/Esp32DeviceHandler.cpp:1359-1384 | Second half: RET_UNLINK for a marked URB, RET_SUBMIT otherwise |
| UrbHandler.Esp32DeviceHandler.EraseDraining | components/usbipdcpp/src/esp32_handler/Esp32DeviceHandler.cpp:1252-1258 | A callback that finds the session stopping leaves the table without answering |
| UrbHandler.Esp32DeviceHandler.BeginDisconnection | components/usbipdcpp/src/esp32_handler/Esp32DeviceHandler.cpp:354-361 | Sets the stop flag; waits unless the device is gone |
| UrbHandler.Esp32DeviceHandler.WaitPasses | components/usbipdcpp/src/esp32_handler/Esp32DeviceHandler.cpp:370-376 | The wait's predicate on the counter holds exactly when `transfers_` is empty, and then no URB is still registered |
| UrbHandler.Esp32DeviceHandler.AnswerTweaked | components/usbipdcpp/src/esp32_handler/Esp32DeviceHandler.cpp:469-480 | A control request handled by the tweak functions is answered at once without being registered |
| UrbHandler.Esp32DeviceHandler.TakeResponse | components/usbipdcpp/usbipdcpp/src/Session.cpp:247-254 | The sender takes the oldest response |
| SessionQueue.TwoDequesAreOneFifo | components/usbipdcpp/usbipdcpp/src/Session.cpp:21-44 | Under every interleaving, responses taken out, then `read_buffer`, then `write_buffer`, are the enqueue history |
| SessionQueue.WokenResponseKeepsFlagUp | components/usbipdcpp/usbipdcpp/src/Session.cpp:31-34 | A response whose producer has stored the flag and which is still in `write_buffer` keeps `has_data` true, although neither the store nor the notification takes the lock |
| SessionQueue.SleepsOnWokenExactlyWhenMissed | components/usbipdcpp/usbipdcpp/src/Session.cpp:235-246 | Store and notification apart: under every interleaving, a response in `write_buffer` whose producer has returned from `wakeup_sender` is slept on if and only if its notification came between the sender's last test of the wait predicate and its going to sleep |
| SessionQueue.SleepsThroughStopExactlyWhenMissed | components/usbipdcpp/usbipdcpp/src/Session.cpp:345-348 | The stop is slept through, once notified, if and only if its notification came in that gap |
| SessionQueue.MissedMeansInGap | components/usbipdcpp/usbipdcpp/src/Session.cpp:238-241 | A notification counts as missed exactly if it came after the sender's last test of the predicate and before its sleep |
| SessionQueue.MissedStopExample | components/usbipdcpp/usbipdcpp/src/Session.cpp:345-348 | A run on which the stop's only notification is lost and the sender sleeps on |
| SessionQueue.PassesWithoutDataExactlyWhen | components/usbipdcpp/usbipdcpp/src/Session.cpp:235-246 | The wait passes with nothing to exchange if and only if the flag or the stop is up and `write_buffer` is empty; the flag then stays up and the sender is back where it was |
| SessionQueue.FlagWithoutDataExactlyWhen | components/usbipdcpp/usbipdcpp/src/Session.cpp:21-34 | Under every interleaving, between two calls of the sender and with `write_buffer` empty: the flag is up if and only if, since it was last cleared, a producer raised it for a response that the sender had exchanged before |
| SessionQueue.SpinExample | components/usbipdcpp/usbipdcpp/src/Session.cpp:235-254 | A run on which both responses are sent and the flag stays up: the sender's next call changes nothing, and only another response or a stop can change that |
| SessionQueue.RaisedButNotNotified | components/usbipdcpp/usbipdcpp/src/Session.cpp:31-34 | A run on which the sender sleeps under a raised flag with nothing missed: the producer is between store and notification |
| SessionQueue.MissedWakeupExample | components/usbipdcpp/usbipdcpp/src/Session.cpp:238-241 | A concrete run on which the only response is enqueued and woken for, and the sender sleeps on |
| SessionQueue.ActionKeepsInv | components/usbipdcpp/usbipdcpp/src/Session.cpp:235-255 | Every atomic action keeps the FIFO, the flag and the missed-notification invariant |
| SessionQueue.Session.StoreHasData | components/usbipdcpp/usbipdcpp/src/Session.cpp:31-32 | The first half of `wakeup_sender`: raises the flag without the mutex |
| SessionQueue.Session.EnqueueResponse | components/usbipdcpp/usbipdcpp/src/Session.cpp:21-29 | Appends under the mutex |
| SessionQueue.Session.WakeupSender | components/usbipdcpp/usbipdcpp/src/Session.cpp:31-34 | Both halves, when nothing comes between them |
| SessionQueue.Session.CheckForData | components/usbipdcpp/usbipdcpp/src/Session.cpp:238-241 | Evaluates the wait predicate |
| SessionQueue.Session.SwapBuffers | components/usbipdcpp/usbipdcpp/src/Session.cpp:242-245 | Exchanges the deques if there is anything to send |
| SessionQueue.Session.TakeFront | components/usbipdcpp/usbipdcpp/src/Session.cpp:247-254 | Takes the response next in enqueue order |
| WireOrder.WireIsOrdered | components/usbipdcpp/usbipdcpp/src/Session.cpp:369-377 | On the wire, in every run of handler and session together: no URB answered twice, no CMD_UNLINK replied to twice, and RET_SUBMIT never after a RET_UNLINK of a command targeting it, except through the failed-resubmission race |
| WireOrder.HistoryIsOrdered | components/usbipdcpp/src/esp32_handler/Esp32DeviceHandler.cpp:1355-1384 | The same of the order of enqueueing |
| WireOrder.LateExactlyWhenRacedOnWire | components/usbipdcpp/src/esp32_handler/Esp32DeviceHandler.cpp:1300-1302 | In every run of handler and session together, a command is replied to before its target's answer if and only if that race occurred |
| WireOrder.EverySystemRunIsCoupled | components/usbipdcpp/usbipdcpp/src/Session.cpp:21-29 | In every run of handler and session together both keep their invariants and agree on what was enqueued and how much was taken |
| MassStorageTheorems.WriteIsAtomic | components/usbipdcpp/usbipdcpp/src/virtual_device/devices/MscBulkOnlyHandler.cpp:110-146 | For a packet with "USBC" at 0, 0x2A at 15, the block address in bytes 17..21 and the count in 22..24, in range and writable, and every cutting of the data phase into bulk URBs, with stray IN URBs among them: the disk is untouched until the last block has arrived, then exactly blocks lba..lba+count-1 hold the first count*block_size bytes sent, and success is ready to be reported under the CBW's tag |
| MassStorageTheorems.ReadIsExact | components/usbipdcpp/usbipdcpp/src/virtual_device/devices/MscBulkOnlyHandler.cpp:39-67 | For a packet with 0x28 at 15 and the same fields, and every cutting, a drained READ sends exactly blocks lba..lba+count-1 and changes nothing on the disk |
| MassStorageTheorems.ReadBack | components/usbipdcpp/usbipdcpp/src/virtual_device/devices/MscBulkOnlyHandler.cpp:266-284 | A READ of a range just written returns the written data, whatever the two cuttings |
| MassStorageTheorems.EveryCommandGetsOneStatus | components/usbipdcpp/usbipdcpp/src/virtual_device/devices/MscBulkOnlyHandler.cpp:36-157 | On every trace of bulk URBs, commands and statuses alternate; each status carries the tag of the command before it and code 1 exactly if that command failed |
| MassStorageTheorems.StallsExactlyOutOfPhase | components/usbipdcpp/usbipdcpp/src/virtual_device/devices/MscBulkOnlyHandler.cpp:90-93 | A URB is stalled exactly if its direction does not fit the phase, and stalling changes nothing |
| MassStorageTheorems.WriteCollects | components/usbipdcpp/usbipdcpp/src/virtual_device/devices/MscBulkOnlyHandler.cpp:110-113 | While the data phase is incomplete, bytes are collected in order, the disk is unchanged, and IN URBs stall |
| MassStorageTheorems.DrainSendsAll | components/usbipdcpp/usbipdcpp/src/virtual_device/devices/MscBulkOnlyHandler.cpp:39-67 | A drained data-in phase has sent exactly its bytes, whatever lengths were asked for |
| MassStorageTheorems.CswParses | components/usbipdcpp/usbipdcpp/src/virtual_device/devices/MscBulkOnlyHandler.cpp:68-83 | A host parsing the CSW finds the tag and the status |
| MassStorageTheorems.StatusEchoesTagExactlyWhen | components/usbipdcpp/usbipdcpp/src/virtual_device/devices/MscBulkOnlyHandler.cpp:159-175 | The CSW that answers a packet sent to an idle unit carries bytes 4..8 of that packet, for every tag left over from before and everything sent in between, if and only if the packet is at least 31 bytes long |
| MassStorageTheorems.ShortCbwExample | components/usbipdcpp/usbipdcpp/src/virtual_device/devices/MscBulkOnlyHandler.cpp:68-72 | Eight bytes with tag 8 sent after a command with tag 9: the CSW carries 9 and reports failure |
| MassStorage.StepKeepsGood | components/usbipdcpp/usbipdcpp/src/virtual_device/devices/MscBulkOnlyHandler.cpp:36-157 | Every bulk URB keeps: an idle unit has no failure pending, and a WRITE in progress is inside the disk and incomplete |
| MassStorageCommands.FailsExactlyWhenNotServed | components/usbipdcpp/usbipdcpp/src/virtual_device/devices/MscBulkOnlyHandler.cpp:159-315 | A packet fails exactly if it is none of: READ or WRITE of blocks on the disk (WRITE and UNMAP only if writable), UNMAP, REQUEST SENSE, INQUIRY, MODE SENSE, READ CAPACITY, TEST UNIT READY, START STOP UNIT, PREVENT ALLOW MEDIUM REMOVAL, VERIFY, each told by its bytes |
| MassStorageReplies.QueryIsAnswered | components/usbipdcpp/usbipdcpp/src/virtual_device/devices/MscBulkOnlyHandler.cpp:186-247 | REQUEST SENSE, INQUIRY, MODE SENSE and READ CAPACITY send their reply, byte by byte as SCSI lays it out, cut to what the host wants (bytes 8..12), for every cutting |
| MassStorageReplies.StatusAtOnceExactlyWhen | components/usbipdcpp/usbipdcpp/src/virtual_device/devices/MscBulkOnlyHandler.cpp:95-109 | A packet is followed by its status at once exactly if there is nothing to transfer or it fails; the 13 bytes are "USBS", bytes 4..8 of the packet, no residue, and 0 or 1 |
| MassStorageReplies.UnmapClears | components/usbipdcpp/usbipdcpp/src/virtual_device/devices/MscBulkOnlyHandler.cpp:115-135 | For every cutting, an UNMAP leaves the disk alone until its list has arrived, then clears exactly the bytes its descriptors cover (eight bytes of block address and four of count, every 16 bytes from offset 8) |
| MassStorageHandler.MscBulkOnlyHandler.HandleBulkIn | components/usbipdcpp/usbipdcpp/src/virtual_device/devices/MscBulkOnlyHandler.cpp:36-94 | The fields and the reply move exactly as the reference unit |
| MassStorageHandler.MscBulkOnlyHandler.HandleBulkOut | components/usbipdcpp/usbipdcpp/src/virtual_device/devices/MscBulkOnlyHandler.cpp:95-156 | The fields, the disk image and the reply move exactly as the reference unit |
| MassStorageHandler.MscBulkOnlyHandler.DoCbw | components/usbipdcpp/usbipdcpp/src/virtual_device/devices/MscBulkOnlyHandler.cpp:159-314 | The command block is interpreted as the reference says; a packet too short for a CBW leaves the previous tag |
| MassStorageHandler.MscBulkOnlyHandler.ReadOrWrite | components/usbipdcpp/usbipdcpp/src/virtual_device/devices/MscBulkOnlyHandler.cpp:248-286 | READ stages the blocks, WRITE opens the data-out phase, and both fail out of range (WRITE also when read-only) |
| MassStorageHandler.MscBulkOnlyHandler.FinishWrite | components/usbipdcpp/usbipdcpp/src/virtual_device/devices/MscBulkOnlyHandler.cpp:136-146 | The blocks reach the image once they have all arrived, and not before |
| MassStorageHandler.MscBulkOnlyHandler.FinishUnmap | components/usbipdcpp/usbipdcpp/src/virtual_device/devices/MscBulkOnlyHandler.cpp:115-135 | Each complete descriptor from offset 8 on punches its hole once the list has arrived |
| MassStorageHandler.RawImageBackend.Read | components/usbipdcpp/usbipdcpp/src/virtual_device/storage_backends/RawImageBackend.cpp:139-144 | Returns exactly the bytes of the blocks |
| MassStorageHandler.RawImageBackend.Write | components/usbipdcpp/usbipdcpp/src/virtual_device/storage_backends/RawImageBackend.cpp:146-153 | Overwrites exactly the bytes of the blocks in place |
| MassStorageHandler.RawImageBackend.PunchHole | components/usbipdcpp/usbipdcpp/src/virtual_device/storage_backends/RawImageBackend.cpp:155-160 | Zeroes the hole, clipped to the image |
| RingBuffer.RingBuffer.constructor | components/usbipdcpp/usbipdcpp/src/utils/RingBuffer.cpp:7-10 | An empty byte string, nothing allocated |
| RingBuffer.RingBuffer.Write | components/usbipdcpp/usbipdcpp/src/utils/RingBuffer.cpp:12-32 | Appends as much as fits, across wraparound and first-use allocation, and says how much |
| RingBuffer.RingBuffer.Read | components/usbipdcpp/usbipdcpp/src/utils/RingBuffer.cpp:34-44 | Removes and returns the oldest bytes |
| RingBuffer.RingBuffer.Peek | components/usbipdcpp/usbipdcpp/src/utils/RingBuffer.cpp:46-56 | Returns the oldest bytes without removing them |
| RingBuffer.RingBuffer.Clear | components/usbipdcpp/usbipdcpp/src/utils/RingBuffer.cpp:78-82 | Empties the buffer |
| RingBuffer.RingBuffer.Resize | components/usbipdcpp/usbipdcpp/src/utils/RingBuffer.cpp:84-113 | Reallocates to the new capacity and keeps the oldest bytes that fit |
| RingBuffer.WindowPush | components/usbipdcpp/usbipdcpp/src/utils/RingBuffer.cpp:25-29 | Storing at the wrapped tail appends to the window |
| RequestQueue.EndpointRequestQueue.Enqueue | components/usbipdcpp/usbipdcpp/include/virtual_device/VirtualInterfaceHandler.h:31-33 | Appends to the endpoint's queue |
| RequestQueue.EndpointRequestQueue.Dequeue | components/usbipdcpp/usbipdcpp/include/virtual_device/VirtualInterfaceHandler.h:39-47 | Takes the endpoint's oldest request; none exactly if its queue is empty |
| RequestQueue.EndpointRequestQueue.DequeueAny | components/usbipdcpp/usbipdcpp/include/virtual_device/VirtualInterfaceHandler.h:54-63 | Takes the oldest request of some endpoint; none only if no request waits anywhere |
| RequestQueue.EndpointRequestQueue.CancelBySeqnum | components/usbipdcpp/usbipdcpp/include/virtual_device/VirtualInterfaceHandler.h:91-101 | Removes the first request with the seqnum; found exactly if one waits |
| RequestQueue.EndpointRequestQueue.Clear | components/usbipdcpp/usbipdcpp/include/virtual_device/VirtualInterfaceHandler.h:107-109 | Empties all queues |
| RequestLedger.OneFate | components/usbipdcpp/usbipdcpp/include/virtual_device/VirtualInterfaceHandler.h:19-113 | Every request that arrived is exactly one of: waiting, answered, taken back; no two answered or waiting requests of an endpoint share a seqnum |
| RequestLedger.UnlinkIsLawful | components/usbipdcpp/usbipdcpp/include/virtual_device/VirtualInterfaceHandler.h:91-101 | Cancelling by seqnum keeps the law: at each endpoint, arrivals less those taken back are the answered requests followed by the waiting ones |
| RequestLedger.TakeIsLawful | components/usbipdcpp/usbipdcpp/include/virtual_device/VirtualInterfaceHandler.h:54-63 | Answering an endpoint's oldest request keeps the law |
| RequestLedger.AskIsLawful | components/usbipdcpp/usbipdcpp/include/virtual_device/VirtualInterfaceHandler.h:31-33 | Queueing a fresh request keeps the law |
| RequestLedger.PassIsLawful | components/usbipdcpp/usbipdcpp/src/virtual_device/HidVirtualInterfaceHandler.cpp:24-34 | Answering a request on arrival keeps the law if no other waits at its endpoint |
| RequestLedger.EmptyIsLawful | components/usbipdcpp/usbipdcpp/include/virtual_device/VirtualInterfaceHandler.h:107-109 | Clearing the queues keeps the law |
| CdcTransmit.StreamIsConserved | components/usbipdcpp/usbipdcpp/src/virtual_device/CdcAcmVirtualInterfaceHandler.cpp:328-381 | In every interleaving of sends, blocking sends, requests, unlinks and connections, answered bytes followed by buffered bytes are the accepted bytes, in order |
| CdcTransmit.NothingLostExactlyWhen | components/usbipdcpp/usbipdcpp/src/virtual_device/CdcAcmVirtualInterfaceHandler.cpp:357-362 | In every interleaving, what the application handed over in this connection without being told that it did not fit is delivered or buffered, in order, if and only if the subclass never supplied more than request and buffer hold (the write's result is ignored) and the buffer was never resized below its contents |
| CdcTransmit.SupplyIsKeptExactlyWhen | components/usbipdcpp/usbipdcpp/src/virtual_device/CdcAcmVirtualInterfaceHandler.cpp:352-362 | A direct answer takes in everything supplied if and only if that is at most the request's length plus the buffer's capacity |
| CdcTransmit.LossExample | components/usbipdcpp/usbipdcpp/src/virtual_device/CdcAcmVirtualInterfaceHandler.cpp:357-362 | A request for one byte, a buffer of one byte and three bytes supplied: the last is gone |
| CdcTransmit.NeverBothWait | components/usbipdcpp/usbipdcpp/src/virtual_device/CdcAcmVirtualInterfaceHandler.cpp:603-617 | In every interleaving without stranding, a buffered byte and a waiting request coexist only while a blocking sender is between its two phases |
| CdcTransmit.SettledExactlyUnlessStranded | components/usbipdcpp/usbipdcpp/src/virtual_device/CdcAcmVirtualInterfaceHandler.cpp:340-380 | A section started with no byte and request waiting for each other ends so, exactly unless the subclass over-supplies one endpoint while another has a request waiting |
| CdcTransmit.StrandingExample | components/usbipdcpp/usbipdcpp/src/virtual_device/CdcAcmVirtualInterfaceHandler.cpp:352-368 | Two bulk-IN endpoints on which that happens |
| CdcTransmit.EveryRequestIsAccountedFor | components/usbipdcpp/usbipdcpp/src/virtual_device/CdcAcmVirtualInterfaceHandler.cpp:320-381 | In every interleaving of fresh requests each is waiting, answered once within its length, or taken back, and each endpoint is answered in order of arrival |
| CdcTransmit.StepConserves | components/usbipdcpp/usbipdcpp/src/virtual_device/CdcAcmVirtualInterfaceHandler.cpp:428-545 | Every section keeps: answered bytes then buffered bytes are the accepted bytes |
| CdcDelivery.AnswersAreFull | components/usbipdcpp/usbipdcpp/src/virtual_device/CdcAcmVirtualInterfaceHandler.cpp:603-617 | In every interleaving of fresh requests, each answer has exactly the length its request asked for, except that the last of a section may be shorter if the section leaves no byte that could have filled it |
| CdcDelivery.DrainFillsAnswers | components/usbipdcpp/usbipdcpp/src/virtual_device/CdcAcmVirtualInterfaceHandler.cpp:428-448 | The same of a drain; and bytes are left behind it only if no request is |
| CdcDelivery.SendTakesWhatFits | components/usbipdcpp/usbipdcpp/src/virtual_device/CdcAcmVirtualInterfaceHandler.cpp:452-465 | A send takes everything or as much as the buffer has room for |
| CdcDelivery.BlockingSendTakesWhatFits | components/usbipdcpp/usbipdcpp/src/virtual_device/CdcAcmVirtualInterfaceHandler.cpp:485-533 | A blocking send takes everything or leaves the buffer full, nothing without a connection, and goes on to its second phase exactly if it found room |
| CdcDelivery.ResizeKeepsWhatFits | components/usbipdcpp/usbipdcpp/src/virtual_device/CdcAcmVirtualInterfaceHandler.cpp:561-565 | A new capacity keeps the oldest bytes, all or as many as it has room for |
| CdcDelivery.DisconnectedExactlyWhen | components/usbipdcpp/usbipdcpp/src/virtual_device/CdcAcmVirtualInterfaceHandler.cpp:300-310 | Over runs: senders are turned away exactly when each connection so far has been followed by a disconnection |
| CdcHandler.CdcAcmDataInterfaceHandler.TrySendPendingLocked | components/usbipdcpp/usbipdcpp/src/virtual_device/CdcAcmVirtualInterfaceHandler.cpp:603-617 | Answers waiting requests from the buffer until one or the other runs out; ends because each pass uses up a request, even one for zero bytes |
| CdcHandler.CdcAcmDataInterfaceHandler.SendFromTxBufferLocked | components/usbipdcpp/usbipdcpp/src/virtual_device/CdcAcmVirtualInterfaceHandler.cpp:428-448 | Answers one request with the oldest bytes, at most its length |
| CdcHandler.CdcAcmDataInterfaceHandler.SendData | components/usbipdcpp/usbipdcpp/src/virtual_device/CdcAcmVirtualInterfaceHandler.cpp:452-465 | Takes as many bytes as fit, reports how many, then drains |
| CdcHandler.CdcAcmDataInterfaceHandler.HandleBulkIn | components/usbipdcpp/usbipdcpp/src/virtual_device/CdcAcmVirtualInterfaceHandler.cpp:333-381 | Queues the request and drains, or answers it at once with what the subclass supplies, the excess going to the buffer |
| CdcHandler.CdcAcmDataInterfaceHandler.HandleUnlink | components/usbipdcpp/usbipdcpp/src/virtual_device/CdcAcmVirtualInterfaceHandler.cpp:320-326 | Takes the request back if it waits |
| CdcHandler.CdcAcmDataInterfaceHandler.BlockingBegin | components/usbipdcpp/usbipdcpp/src/virtual_device/CdcAcmVirtualInterfaceHandler.cpp:485-533 | Phase 1: gives up exactly when disconnected, drains a full buffer, then waits with a full buffer or writes, and says how much |
| CdcHandler.CdcAcmDataInterfaceHandler.BlockingWake | components/usbipdcpp/usbipdcpp/src/virtual_device/CdcAcmVirtualInterfaceHandler.cpp:508-533 | Phase 1 after a wait: writes exactly if there is room and the connection stands |
| CdcHandler.CdcAcmDataInterfaceHandler.BlockingFlush | components/usbipdcpp/usbipdcpp/src/virtual_device/CdcAcmVirtualInterfaceHandler.cpp:535-541 | Phase 2: drains |
| CdcHandler.CdcAcmDataInterfaceHandler.OnDisconnection | components/usbipdcpp/usbipdcpp/src/virtual_device/CdcAcmVirtualInterfaceHandler.cpp:305-318 | Drops buffered bytes, then waiting requests |
| CdcHandler.CdcAcmDataInterfaceHandler.SetTxBufferCapacity | components/usbipdcpp/usbipdcpp/src/virtual_device/CdcAcmVirtualInterfaceHandler.cpp:561-565 | Keeps the oldest bytes that fit |
| HidReports.ReportsMeetRequests | components/usbipdcpp/usbipdcpp/src/virtual_device/HidVirtualInterfaceHandler.cpp:11-118 | In every interleaving: reports and requests never both wait; the k-th answer carries the k-th report cut to its request's length and the others are pending in order; every request has one fate |
| HidReports.TakenBackIsNeverAnswered | components/usbipdcpp/usbipdcpp/src/virtual_device/HidVirtualInterfaceHandler.cpp:112-118 | A request removed by an unlink is never answered while the connection lasts |
| HidReports.NoReportIsDropped | components/usbipdcpp/usbipdcpp/src/virtual_device/HidVirtualInterfaceHandler.cpp:54-82 | In every interleaving the reports sent are those answered, in order, followed by those that wait; only a disconnection takes any away |
| HidReports.StepIsGood | components/usbipdcpp/usbipdcpp/src/virtual_device/HidVirtualInterfaceHandler.cpp:11-108 | Every section keeps the rendezvous, the report order and the request law |
| HidHandler.HidVirtualInterfaceHandler.HandleInterruptIn | components/usbipdcpp/usbipdcpp/src/virtual_device/HidVirtualInterfaceHandler.cpp:16-38 | Answers at once from a pending report, or queues the request |
| HidHandler.HidVirtualInterfaceHandler.SendInputReport | components/usbipdcpp/usbipdcpp/src/virtual_device/HidVirtualInterfaceHandler.cpp:54-82 | Answers a waiting request of some endpoint, or keeps the report |
| HidHandler.HidVirtualInterfaceHandler.HandleUnlinkSeqnum | components/usbipdcpp/usbipdcpp/src/virtual_device/HidVirtualInterfaceHandler.cpp:112-118 | Takes the request back if it waits |
| HidHandler.HidVirtualInterfaceHandler.OnDisconnection | components/usbipdcpp/usbipdcpp/src/virtual_device/HidVirtualInterfaceHandler.cpp:97-108 | Drops pending reports, then waiting requests |
| Chunking.AllocChunks | components/usbipdcpp/src/esp32_handler/Esp32DeviceHandler.cpp:85-108 | The allocation loop yields the chunk buffers and their total size |
| Chunking.BufferSizesCover | components/usbipdcpp/src/esp32_handler/Esp32DeviceHandler.cpp:87-107 | ceil(length/chunk) chunks, each a multiple of a known packet size, together holding the transfer |
| Chunking.BufferSizesAreSnug | components/usbipdcpp/src/esp32_handler/Esp32DeviceHandler.cpp:87-107 | ... and none is a whole packet larger than what it carries |
| Chunking.RecvTransferData | components/usbipdcpp/src/esp32_handler/Esp32DeviceHandler.cpp:290-307 | The receive loop splits the payload over the chunks in order |
| Chunking.SplitIsLossless | components/usbipdcpp/src/esp32_handler/Esp32DeviceHandler.cpp:290-307 | The pieces are exactly the allocated chunks, each full, and concatenate to the payload |
| Chunking.ChunkedTransfer.OnChunk | components/usbipdcpp/src/esp32_handler/Esp32DeviceHandler.cpp:1085-1170 | One completion moves status, total, buffer and index exactly as the model |
| Chunking.CopyFits | components/usbipdcpp/src/esp32_handler/Esp32DeviceHandler.cpp:1096-1100 | For every chunk outcome no longer than its buffer, the copy into `in_data` stays inside it |
| Chunking.OneChunkAtATime | components/usbipdcpp/src/esp32_handler/Esp32DeviceHandler.cpp:1118-1159 | One chunk pending at a time, in order, at most one outcome per chunk (so the loop ends), and the actual length is the number of bytes the device moved |
| Chunking.EndsExactlyWhen | components/usbipdcpp/src/esp32_handler/Esp32DeviceHandler.cpp:1126-1139 | A transfer ends at a chunk exactly for a hard error (a STALL only if no earlier chunk ranked worse), a short IN chunk, the last chunk, or a refused submission |
| Chunking.WorstIsReported | components/usbipdcpp/src/esp32_handler/Esp32DeviceHandler.cpp:1085-1088 | The status reported is the worst of the chunks' in the order of the host stack's enumeration, a refused chunk counting as an error |
| Chunking.InDataExactlyWhen | components/usbipdcpp/src/esp32_handler/Esp32DeviceHandler.cpp:1090-1116 | `in_data[0..actual_length]` is the device's data if and only if the memory under chunks that count bytes without completing happens to match; beyond it nothing is written |
| Chunking.InDataIsReliableExactlyWithoutHoles | components/usbipdcpp/src/esp32_handler/Esp32DeviceHandler.cpp:1114-1116 | It is so whatever the memory held, exactly if every chunk that counts bytes completed |
| Chunking.HoleExample | components/usbipdcpp/src/esp32_handler/Esp32DeviceHandler.cpp:1090-1116 | A two-byte chunk that fails after one byte: one byte is reported, and it is what the memory held, not what the device sent |
| Chunking.StallIsMissed | components/usbipdcpp/src/esp32_handler/Esp32DeviceHandler.cpp:1126-1139 | For every transfer of three chunks or more: when the first overflows and the second stalls, the third is submitted |
| Chunking.MissedStallExample | components/usbipdcpp/src/esp32_handler/Esp32DeviceHandler.cpp:1126-1139 | ... as on a transfer of three two-byte chunks |
| Chunking.OutIsComplete | components/usbipdcpp/src/esp32_handler/Esp32DeviceHandler.cpp:1091-1095 | An OUT payload whose chunks all complete in full has been taken exactly, and its length is reported |
| FramingTheorems.StreamReadBack | components/usbipdcpp/usbipdcpp/src/protocol.cpp:686-723 | Any list of self-framing commands, encoded one after another, is read back as that list and exactly its bytes are consumed |
| FramingTheorems.CommandRead | components/usbipdcpp/usbipdcpp/src/protocol.cpp:558-614 | One command is read back whole and nothing beyond it, whatever follows |
| FramingTheorems.ReadBackExactlyWhenSelfFraming | components/usbipdcpp/usbipdcpp/src/protocol.cpp:501-517 | A command is read back from its own encoding exactly if an IN submit carries no transfer data and an attached transfer is there whenever the reader expects a body |
| FramingTheorems.CutShortIsEof | components/usbipdcpp/usbipdcpp/src/protocol.cpp:712-720 | A connection that closes inside a command yields end of file and no command |
| FramingTheorems.OversizeIsRefused | components/usbipdcpp/usbipdcpp/src/protocol.cpp:574-577 | A submit of more than 16 MiB is refused |
| FramingTheorems.UnknownIsRefused | components/usbipdcpp/usbipdcpp/src/protocol.cpp:707-710 | Any other command word is refused |
| FramingFormat.SubmitIsReadAs | components/usbipdcpp/usbipdcpp/src/protocol.cpp:558-614 | Any stream that begins with 0, 0, 0, 1: refused above 16 MiB, end of file if too short, otherwise a submit whose fields are the big-endian words at 4, 8, ..., 36 and the setup packet at 40, with the data of an OUT submit (direction 0) from 48 on and the iso descriptors behind it, none of the data for an IN submit (1), and the rest left |
| FramingFormat.UnlinkIsReadAs | components/usbipdcpp/usbipdcpp/src/protocol.cpp:634-642 | Any stream that begins with 0, 0, 0, 2: an unlink with its five words, the target at 20, and 48 bytes taken |
| FramingFormat.OthersAreNotRead | components/usbipdcpp/usbipdcpp/src/protocol.cpp:707-723 | Any other word is refused, and fewer than 48 bytes of a command are end of file |
| FramingFormat.SubmitIsWrittenAs | components/usbipdcpp/usbipdcpp/src/protocol.cpp:488-517 | The encoder writes a submit's fields, data and iso descriptors at those places |
| FramingFormat.UnlinkIsWrittenAs | components/usbipdcpp/usbipdcpp/src/protocol.cpp:617-628 | ... and an unlink's |
| Framing.NetworkInverse | components/usbipdcpp/usbipdcpp/include/network.h:23-34 | Big-endian fields are read back |
| Framing.SetupInverse | components/usbipdcpp/usbipdcpp/include/SetupPacket.h:22-65 | Little-endian setup packets are read back |
| NetworkFields.ToNetworkArray | components/usbipdcpp/usbipdcpp/include/network.h:299-328 | For any list of 8-, 16-, 32- and 64-bit integers and byte arrays, the running-offset writer produces their bytes one after another |
| NetworkFields.FieldsInverse | components/usbipdcpp/usbipdcpp/include/network.h:206-246 | Reading such a list with the writer's field types gives the fields back, whatever follows |
| NetworkFields.FieldWeighs | components/usbipdcpp/usbipdcpp/include/network.h:23-34 | The bytes of an integer of any of the four widths stand most significant first |
| NetworkFields.SubmitIsEncoded | components/usbipdcpp/usbipdcpp/src/protocol.cpp:486-500 | The submit header, built as the encoder nests its fields, is the encoding the stream reader inverts |
| Framing.Socket.Read | components/usbipdcpp/usbipdcpp/include/network.h:200-204 | All the bytes or end of file |
| Framing.Socket.IsoFromSocket | components/usbipdcpp/usbipdcpp/src/protocol.cpp:606-613 | Reads the iso descriptors in order; fails exactly if the stream is too short |
| Framing.Socket.SubmitFromSocket | components/usbipdcpp/usbipdcpp/src/protocol.cpp:558-614 | Reads a submit as the stream grammar says, with the same failures |
| Framing.Socket.GetCmdFromSocket | components/usbipdcpp/usbipdcpp/src/protocol.cpp:686-723 | Reads one command as the stream grammar says and leaves exactly what follows it |
| Bytes.U32Inverse | components/usbipdcpp/usbipdcpp/include/network.h:23-34 | 32-bit values survive both byte orders |
| Bytes.Weights32 | components/usbipdcpp/usbipdcpp/include/network.h:23-34 | The first byte of a 32-bit field in network order weighs 2^24, the last 1; little-endian the other way round |
| ObjectPool.ObjectPool.constructor | components/usbipdcpp/usbipdcpp/include/utils/ObjectPool.h:28-42 | A pool with everything free |
| ObjectPool.ObjectPool.Alloc | components/usbipdcpp/usbipdcpp/include/utils/ObjectPool.h:139-146 | Hands out an object that is not outstanding; fails exactly when all are |
| ObjectPool.ObjectPool.LowerBound | components/usbipdcpp/usbipdcpp/include/utils/ObjectPool.h:149-153 | The binary search finds the first address not below the key |
| ObjectPool.ObjectPool.Free | components/usbipdcpp/usbipdcpp/include/utils/ObjectPool.h:148-165 | Succeeds exactly for outstanding objects of the pool; the stack cannot overflow |
| ObjectPool.ObjectPool.ResetAll | components/usbipdcpp/usbipdcpp/include/utils/ObjectPool.h:175-185 | Everything is free again |
| ObjectPool.ReallocatedOnlyAfterReturn | components/usbipdcpp/usbipdcpp/include/utils/ObjectPool.h:139-185 | Over every sequence of operations, an object handed out twice was returned, or the pool reset, in between |
| ObjectPool.PushIsConsistent | components/usbipdcpp/usbipdcpp/include/utils/ObjectPool.h:160-164 | By the pigeonhole there is room to push an index in use, and the stack again holds each free index once |
| ObjectPool.PopIsConsistent | components/usbipdcpp/usbipdcpp/include/utils/ObjectPool.h:143-145 | Popping yields a free index and leaves each other free index once |
| LineSplitter.Client.HandleClient | components/board_utils/src/gpio_tcp_server.c:294-347 | Whatever bytes come and however recv cuts them, the client's state is that of the chunk model; for a stream without NULs it is that of a splitter that sees one byte at a time |
| LineSplitter.AgreesExactlyWhen | components/board_utils/src/gpio_tcp_server.c:319-345 | For every cutting: the client has done what the byte-at-a-time splitter does after every chunk if and only if its buffer never held a NUL together with a line feed |
| LineSplitter.CutsDecide | components/board_utils/src/gpio_tcp_server.c:319-345 | The same five bytes, a NUL among them, are two commands when cut in two and one when cut in three |
| LineSplitter.Client.Receive | components/board_utils/src/gpio_tcp_server.c:312-345 | One recv: the lines before the buffer's first NUL are handed over, the rest is kept, cut at the NUL or dropped as too long |
| LineSplitter.Client.EmitLine | components/board_utils/src/gpio_tcp_server.c:324-329 | The C string handed over is the line without its line feed and one trailing carriage return |
| LineSplitter.Client.KeepRest | components/board_utils/src/gpio_tcp_server.c:332-345 | The string after the last line feed moves to the front; without a line feed everything stays, or is dropped at 127 bytes |
| LineSplitter.LinesComeBack | components/board_utils/src/gpio_tcp_server.c:319-330 | Lines sent with LF or CR LF, of at most 126 bytes before the LF, come out one by one without their endings |
| LineSplitter.HandedOverExactlyWhen | components/board_utils/src/gpio_tcp_server.c:337-345 | A line is handed over exactly if it has at most 126 bytes before its LF; a longer one is reported as too long first |
| ConfigDescriptor.InterfaceDescriptor | components/usbipdcpp/usbipdcpp/src/virtual_device/VirtualDeviceHandler.cpp:729-754 | The inner loop appends an interface's endpoints to its header and class-specific part |
| ConfigDescriptor.GetConfigurationDescriptor | components/usbipdcpp/usbipdcpp/src/virtual_device/VirtualDeviceHandler.cpp:714-763 | The loops build the descriptor, and a truncated reply is its prefix |
| ConfigDescriptor.HostFindsTheDevice | components/usbipdcpp/usbipdcpp/src/virtual_device/VirtualDeviceHandler.cpp:728-756 | Walking it by bLength ends exactly at its end and meets the device's interfaces in order, each with its class's own descriptors and then its endpoints in order, all fields intact |
| ConfigDescriptor.HostReadsTheConfiguration | components/usbipdcpp/usbipdcpp/src/virtual_device/VirtualDeviceHandler.cpp:718-727 | The configuration value, its string, bus power and 100 mA stand at bytes 5 to 8 |
| ConfigDescriptor.CountsExactlyWhenTheyFit | components/usbipdcpp/usbipdcpp/src/virtual_device/VirtualDeviceHandler.cpp:757-758 | wTotalLength, bNumInterfaces and bNumEndpoints are the true counts exactly when they fit their fields |
| ConfigDescriptor.BuiltInChains | components/usbipdcpp/usbipdcpp/src/virtual_device/HidVirtualInterfaceHandler.cpp:223-236 | What the HID and CDC handlers contribute is well-formed: the report descriptor with its size, and the four CDC descriptors |
| FormDecoding.UrlDecode | components/board_utils/src/wifi_manager.c:94-120 | Decodes as the definition says, cut to the output |
| FormDecoding.FormGetValue | components/board_utils/src/wifi_manager.c:126-144 | Finds the first occurrence of the key and decodes at most 127 bytes of its value |
| FormDecoding.DecodeInvertsEncode | components/board_utils/src/wifi_manager.c:94-120 | Decoding inverts the URL Standard's encoding for every byte string |
| FormDecoding.DecodesAnything | components/board_utils/src/wifi_manager.c:94-120 | Of any input, a percent sign and two hexadecimal digits in either case are one byte, a plus sign is a space, and everything else, incomplete escapes too, stays as it is |
| FormDecoding.FieldIsRecovered | components/board_utils/src/wifi_manager.c:126-144 | A byte string whose encoding is at most 127 bytes and which fits the output is recovered exactly |
| FormDecoding.PlainFieldIsCut | components/board_utils/src/wifi_manager.c:126-144 | A value of letters and digits of any length comes out from its beginning, as much as fits 127 bytes and the output |
| DeviceRegistry.ExclusiveExactlyWithoutClash | components/usbipdcpp/usbipdcpp/src/Server.cpp:280-296 | In every interleaving of sessions, whatever busids are registered: the in-use table has named the one session that imported each busid all along if and only if no import found an available device with a busid that was in use |
| DeviceRegistry.StepIsExclusiveExactlyWhen | components/usbipdcpp/usbipdcpp/src/Server.cpp:262-296 | A section keeps that exactly unless it is such an import |
| DeviceRegistry.NoDeviceIsHeldTwice | components/usbipdcpp/usbipdcpp/src/Session.cpp:105-160 | As long as no import has clashed, no two sessions hold the same device |
| DeviceRegistry.TurnedAwayExactlyWhenHeld | components/usbipdcpp/usbipdcpp/src/Server.cpp:257-260 | As long as no import has clashed, a session is turned away if and only if another holds a device of that busid |
| DeviceRegistry.ImportsExactlyWhenAvailable | components/usbipdcpp/usbipdcpp/src/Server.cpp:280-296 | A session that was not turned away gets a device if and only if one of its busid is available, and then the one registered first |
| DeviceRegistry.ImportsAreExclusive | components/usbipdcpp/usbipdcpp/src/Session.cpp:105-160 | If devices are only added under a busid that is not registered, no import clashes in any interleaving |
| DeviceRegistry.NoDeviceIsLostExactlyWhen | components/usbipdcpp/usbipdcpp/src/Server.cpp:262-296 | In every interleaving of sessions, whatever busids are registered: a device is available or in use as often as it was added and not unplugged in use, if and only if no clashing import has overwritten it |
| DeviceRegistry.StepKeepsDevices | components/usbipdcpp/usbipdcpp/src/Server.cpp:262-296 | Every section keeps every device, but for the one it adds, unplugs or overwrites |
| DeviceRegistry.SharedBusidExample | components/usbipdcpp/usbipdcpp/src/Server.cpp:280-296 | With a shared busid, overlapping imports end with one device held twice and another lost |
| DeviceRegistry.Server.AddDevice | components/usbipdcpp/usbipdcpp/src/Server.cpp:86-90 | Moves the collections by the model's Add step |
| DeviceRegistry.Server.IsDeviceUsing | components/usbipdcpp/usbipdcpp/src/Server.cpp:257-260 | The session's Check step: it goes on exactly if the busid is not in use |
| DeviceRegistry.Server.TryMovingDeviceToUsing | components/usbipdcpp/usbipdcpp/src/Server.cpp:280-296 | The search loop makes the session's Import step and returns the device it then holds, or none |
| DeviceRegistry.Server.TryMovingDeviceToAvailable | components/usbipdcpp/usbipdcpp/src/Server.cpp:262-278 | The session's Exit step, also when its busid is in use no more |
| DeviceRegistry.Server.EraseUsing | components/usbipdcpp/usbipdcpp/src/Session.cpp:355-360 | The Exit of a session whose device is unplugged |

## Left out

- Liveness: that a callback comes, that the disconnect wait ends, that the sender is scheduled.
- Chunked transfers together with unlink, cancellation or deferred URBs; `process_pending_urb` and `deferred_urbs_`.
- The branch of `receive_urb` for an endpoint of unknown type (lines 666-670), which loses its arguments and transfer.
- The length a RET_SUBMIT reports (`actual_length`), the data in it, and isochronous response assembly.
- Control transfers inside the tweak functions; which outcome they report is not modelled, only that they answer.
- The RET_SUBMIT that the session's receiver writes to the socket itself when a CMD_SUBMIT names an unknown endpoint: it
  bypasses the queue, so the order on the wire is claimed for queued responses only.
- `TransferHandle` itself: moving and resetting it appear as the owner recorded in commands, arguments and responses, and as the multiset of freed transfers.
- The libusb device handler, which has the same shape but does not clear the unlink mark of reused arguments.
- Sockets beyond "all the bytes or end of file", the exit of the sender after a send error, timeouts.
- The mass-storage handler without a backend, opening and sizing an image file, and flushing it.
- MassStorageHandler.MscBulkOnlyHandler.FinishUnmap: relies on that backend's clipped holes.
- MassStorageHandler.RawImageBackend.PunchHole: a hole that reaches past the image is clipped; the source writes past the mapping.
- UNMAP parameter lists are read at the offsets the source uses; whether those are SCSI's is not asked. The CSW residue is 0 throughout.
- CdcTransmit.StreamIsConserved: speaks of the bytes that were answered or buffered; `accepted` is set anew when a connection begins or ends and when the capacity changes, so bytes cut there are outside it, as are supplied bytes that did not fit. `CdcTransmit.NothingLostExactlyWhen` covers both losses.
- CdcTransmit.StepConserves: the same.
- CdcHandler.CdcAcmDataInterfaceHandler.BlockingBegin: the waiting loop between phase 1 and its wakeups is a choice of steps, so timeouts appear as a sender that takes no further step.
- CDC notifications, line coding, bulk OUT and HID control requests; RET_UNLINK counting when several interfaces of a virtual device answer one unlink.
- ObjectPool.ObjectPool.constructor: takes the sorted addresses as given; std::sort, object construction and `clear` are not modelled.
- LineSplitter.Client.HandleClient: what a command does is not modelled.
- ConfigDescriptor.HostFindsTheDevice: class-specific contributions must be chains of descriptors that are neither interface nor endpoint descriptors.
- FormDecoding.FieldIsRecovered: says nothing of values whose encoding is longer than 127 bytes, which the source cuts; `PlainFieldIsCut` does for letters and digits.
- The encodings of RET_SUBMIT, RET_UNLINK and the device-list and import messages; commands only are framed here.
- FormDecoding.UrlDecode: its result is a byte string; callers that treat the output as a C string see a value with a NUL byte (`%00`) only up to the NUL, which is not modelled.
- Devices taken out of the collections by unbinding or unplugging while no session ends, which only the libusb server does.
- Chunking.ChunkedTransfer.OnChunk: the callback's branches for cancellation, unlink and disconnection are outside its contract.
- ReuseMap, ReuseSet, StringPool, Version, SmallVector, LatencyTracker; the device list reply; Python bindings, examples, logging.
- Wi-Fi bring-up, web page, NVS, LEDs, buttons, GPIO pin access, mouse animation.

# Gamegine core logging, verified

A Dafny model of the logging pipeline of Gamegine's `engine/core`, from the lock-free ring up to the bytes in
the file, and of the tag pass of its layout script. `dafny verify dfyconfig.toml` checks all of it.

## How it is built

Concurrent code is modelled twice. As objects whose methods update fields and arrays in place, seen from one
thread at a time; and as a state machine in which every atomic access is a step of its own and the steps of all
threads interleave freely.

| files | what they model |
|---|---|
| `Words`, `Wrappers` | 64-bit wrapping arithmetic, masks; an option type |
| `RingProtocol`, `RingSafety` | the ring as two threads see it: loads, byte copies and stores, stale loads included |
| `WrappedRing` | the same ring with counters modulo 2^64 and a mask, and that it takes the same steps |
| `SpscRing` | the ring as an object |
| `RingCalls` | that the ring's interleaved micro-steps are the one-step pushes and pops of `LoggerProtocol` |
| `LoggerProtocol`, `LoggerInvariant`, `LoggerSteps` | registering threads, handles, locked callers and the logger thread; what every step keeps |
| `LoggerSafety`, `LoggerPass` | what follows over whole runs: nothing freed is used, nothing is forgotten, a pass is bounded and complete |
| `LoggerRegistration`, `LoggerVisits`, `LoggerCoherence` | what a refused registration tried, what a visit of a pass means, and what a pass may miss and what it cannot |
| `Logger` | producers, handles, slots and the passes as objects, on top of `SpscRing` and `Output` |
| `LogFile`, `FileLines`, `PassEntries` | from the log of an interleaved run to the bytes of the file, and back from its lines; the passes of `Logger` told as entries of that log |
| `Output` | the batch, the flush and a `write` that may take part, be interrupted or fail |
| `Swar`, `Text`, `LineWriter`, `TextLaws` | the bounded line writer, its word-at-a-time scan, the text its operations stand for, and laws of that text |
| `LogRecord`, `Clock`, `LogFormat`, `LineLaws` | packing, ticks to nanoseconds, the line of a record and what it promises |
| `LineTime`, `LineFields`, `LossLines` | readers of lines: the time, the columns, the fields, the argument, the losses |
| `MessageTexts` | which message texts are accepted and how they are split |
| `TagPass`, `TagPatterns`, `TagLaws`, `TagPlaces`, `TagText` | the tag rules of the layout script, on lines and on whole texts |

An acquire load of another thread's counter may return any value from the last one seen up to the current one
(C++23, sections 33.5.4 and 6.9.2.2). The logger thread that has read a phase as closed sees everything stored
before the close. The clock, `write(2)`, the catalogs of names and the shortest text of a float are parameters.

The layers feed each other. `LineLaws.RecordIsShort` bounds every line, so `Output.RecordIsNeverCut` holds,
so `Logger.Logger.DrainOne` appends exactly the lines of what it popped, so `Logger.Logger.Pass` leaves in the
file every byte ever appended unless a write failed. `LoggerSafety` shows that with the threads interleaved what
is popped and reported is every call ever made, and `LogFile.WriteRun` carries that to the bytes of the file.

What is written is tied to what it means by readers that call none of the writers: `LineTime`, `LineFields` and
`LossLines` read a line as text, `FileLines` a whole file, `TagPatterns` states each pattern of the script by the
strings that match it.

## What the layout script promises, and what the pass does alone

The header of `ci/lua/bdestyle.lua` (lines 30-32) calls a pair idempotent: clang-format, then this pass. The
theorems here are about the pass alone, for any text without banners and headings. Applied to its own result it
changes nothing exactly on tidy lines (`TagLaws.StableIffTidy`), and it puts every tag in its place exactly on neat
ones (`TagPlaces.TagsArePlacedIffNeat`). Lines that are not tidy are of two kinds, with an example each:

- Code that ends in white space other than blanks and takes the tag of the next line (`TagLaws.TabIsNotStable`). The
  only caller, `format_text` in `ci/lua/formatter.lua`, hands the pass the output of clang-format, which leaves no
  white space at the end of a line it formats, so this kind does not come that way unless formatting is switched
  off around the line.
- Code with a tag of its own and no room for a second one on the same line (`TagLaws.TwoTagsAreNotStable`). To
  clang-format the two tags are one comment, so such a line can reach the pass whenever clang-format leaves that
  comment on its line; what it does with a comment is not part of this model.

## Model

| member | source | states |
|---|---|---|
| RingProtocol.InitKeepsInv | gamegine/include/engine/core/core_spsc_ring.h:190-203 | A new ring satisfies the invariant of the micro-step ring. |
| RingProtocol.StepKeepsInv | gamegine/include/engine/core/core_spsc_ring.h:297-384 | Every micro-step (load of the other counter, copy of one byte, store of a counter) of a single push, a batch push or a pop, in any interleaving and with any stale value a load may return, keeps `cachedTail <= tail <= cachedHead <= head <= cachedTail + capacity`, the slots [tail, head) holding what was pushed, the batch copied so far, and the bytes read so far. |
| RingProtocol.OthersUntouched | gamegine/include/engine/core/core_spsc_ring.h:34-51 | The slot a push is copying into is different from every slot still unread and from every slot of the batch already copied. |
| RingSafety.InvIsExclusive | gamegine/include/engine/core/core_spsc_ring.h:39-51 | No data race: while a push copies into a slot the pop is reading another one, the slot holds nothing unread, and every earlier use of the slot was handed back at a counter value the producer has acquired. |
| RingSafety.RunIsSafe | gamegine/include/engine/core/core_spsc_ring.h:24-51 | After any run from the empty ring: counters ordered, slots exclusive, and values popped followed by the values in [tail, head) are the values pushed. |
| RingSafety.RunKeepsInv | gamegine/include/engine/core/core_spsc_ring.h:297-384 | The invariant holds after every run. |
| RingSafety.StepRefinesFifo | gamegine/include/engine/core/core_spsc_ring.h:297-384 | Each micro-step is one atomic operation of a bounded FIFO whose sides may see each other late (or none), and exactly the step that ends a call is the operation of that call. A push is accepted only with room and refused only for too little room as far as the producer has then seen, and a pop finds nothing exactly when all it has seen is taken; what a side has seen never goes back. With a load that returns the current counter that is the room and the emptiness of the ring itself. A batch appears whole at its one store or not at all. |
| RingSafety.RunRefinesFifo | gamegine/include/engine/core/core_spsc_ring.h:297-384 | Every run of the ring, event by event, is a run of that FIFO, the counts each side has seen included. |
| RingSafety.EventsAreTheHistory | gamegine/include/engine/core/core_spsc_ring.h:297-384 | The values the events of a run put in and hand out are what the histories grow by. |
| RingSafety.NeverBlocked | gamegine/include/engine/core/core_spsc_ring.h:15-20 | Inside a call each thread always has a step to take, whatever the other one is doing. |
| RingSafety.PushIsWaitFree | gamegine/include/engine/core/core_spsc_ring.h:15-20 | A push ends within a bounded number of the producer's own steps (at most two counter accesses more than the bytes it copies), and no step of the consumer delays it. |
| RingSafety.PopIsWaitFree | gamegine/include/engine/core/core_spsc_ring.h:15-20 | A pop ends within a bounded number of the consumer's own steps, and no step of the producer delays it. |
| WrappedRing.MaskSelectsSlot | gamegine/include/engine/core/core_spsc_ring.h:277-281 | For every power-of-two capacity, masking the wrapped 64-bit counter selects the slot of the unbounded counter. |
| WrappedRing.RoomTestAgrees | gamegine/include/engine/core/core_spsc_ring.h:330-346 | The full test and the room test on wrapped counters agree with the tests on unbounded ones, and the subtraction from the capacity never goes below zero. |
| WrappedRing.StepDrops | gamegine/include/engine/core/core_spsc_ring.h:297-384 | Every step of the ring with unbounded counters is the same step of the machine with counters modulo 2^64. |
| WrappedRing.StepLifts | gamegine/include/engine/core/core_spsc_ring.h:28-32 | Every step of the machine is a step of the ring with unbounded counters. |
| WrappedRing.RunLifts | gamegine/include/engine/core/core_spsc_ring.h:28-32 | Every run of the machine, through any number of wraps, shadows a run with unbounded counters, label by label (each a loaded counter wrapped) and event by event. |
| WrappedRing.MachineRunIsSafe | gamegine/include/engine/core/core_spsc_ring.h:34-37 | In every run of the machine both threads are never in one slot and the slots keep their number and size. |
| WrappedRing.MachineHandsOutWhatWasPutIn | gamegine/include/engine/core/core_spsc_ring.h:24-32 | In every run of the machine with wrapping counters, the values handed out are the start of the values put in, in order, and no more than the capacity are still inside. |
| WrappedRing.MachineRefinesFifo | gamegine/include/engine/core/core_spsc_ring.h:24-32 | Every run of the machine, told from its own labels and counters, is event by event a run of the bounded FIFO, and its counters are the FIFO's counts modulo 2^64; at every load that returned the machine's current counter a refusal means too little room in the ring and an empty answer means an empty ring. |
| RingCalls.NewRingShows | gamegine/include/engine/core/core_spsc_ring.h:224-227 | A new ring is what a new producer of LoggerProtocol stands for. |
| RingCalls.StepIsCall | gamegine/include/engine/core/core_spsc_ring.h:297-384 | Each micro-step of a single push or a pop either leaves a producer's counters as they are, or ends a call and changes them as LoggerProtocol does in one step, with the same count seen and the same answer and record. |
| RingCalls.RunIsCalls | gamegine/include/engine/core/core_log.h:490-506 | Every run of single pushes and pops, in any interleaving and with any stale loads, is a run of LoggerProtocol's pushes (with the count of a loss) and pops done at once. |
| SpscRing.SpscRing.constructor | gamegine/include/engine/core/core_spsc_ring.h:224-227 | A new ring is empty, its capacity a power of two below 2^64. |
| SpscRing.SpscRing.SlotOf | gamegine/include/engine/core/core_spsc_ring.h:277-281 | The slot of a counter, masked and wrapped, is the remainder by the capacity. |
| SpscRing.SpscRing.TryPush | gamegine/include/engine/core/core_spsc_ring.h:297-319 | Appends the value to the contents, or refuses and changes nothing exactly when the ring is full, with wrapping counters, private copies and slots updated in place. |
| SpscRing.SpscRing.TryPushAll | gamegine/include/engine/core/core_spsc_ring.h:321-358 | Appends all the values in order, or none exactly when they do not all fit; more than the capacity never fits, none always does. |
| SpscRing.SpscRing.TryPop | gamegine/include/engine/core/core_spsc_ring.h:360-384 | Removes and returns the oldest value; nothing exactly when the ring is empty. |
| LoggerSteps.InitKeepsInv | gamegine/include/engine/core/core_log.h:379-385 | A new logger satisfies the invariant of the protocol. |
| LoggerSteps.StepKeepsInv | gamegine/include/engine/core/core_log.h:602-645 | Every step of every thread (a compare-exchange of a registration, a move or destruction of a handle, a push, a count of a loss, a locked push, a load of a slot, of a phase, a pop, a load of the losses, a free, a clear) keeps the invariant: counters sound, one slot and one owner per producer, log equal to what was popped and reported, a producer freed only when closed and with nothing left. |
| LoggerSafety.RunKeepsInv | gamegine/include/engine/core/core_log.h:602-645 | The invariant holds at every moment of every run. |
| LoggerSafety.TouchedIsNotFreed | gamegine/include/engine/core/core_log.h:82-87 | No step of a handle, of a locked caller or of the logger thread touches a freed producer. |
| LoggerSafety.FreedOnlyWhenDone | gamegine/include/engine/core/core_log.h:82-87 | A producer is freed only when closed, its ring empty, every loss reported and every call in the log, and no later step of the run touches it: the phase is read before the pops. |
| LoggerSafety.NothingIsForgotten | gamegine/include/engine/core/core_log.h:720-733 | After the pass of the destructor every slot is null, every producer but the shared one is freed, and for each one, the shared one included, the records in the log are the accepted calls in call order and the number of calls is records written plus losses reported. |
| LogFile.WriteRun | gamegine/include/engine/core/core_log.h:720-733 | The log of a run that has ended, written line by line and flushed with no failing call: the file is the bytes of its entries and nothing else; among them, for each producer, the lines of all the records its ring took, in call order, and its other calls are the sum of its lines of losses, a number that reads back from the bytes of the file alone when the names are printable and tell the threads apart and each count fits 64 bits. |
| LogFile.WriteLog | gamegine/include/engine/core/core_log.h:630-642 | Writing the entries of a log appends exactly their bytes, in order, and unless a call failed the file then holds everything ever appended. |
| LogFile.RecordBytesAreWritten | gamegine/include/engine/core/core_log.h:38-43 | Of the bytes of a log, those of one producer's records are the lines of the records written of it, in order. |
| LogFile.LinesAreTheEntries | gamegine/include/engine/core/core_log.h:630-642 | With printable names, the file split at its newlines is the lines of the entries, one for one. |
| LogFile.LossesAreRead | gamegine/include/engine/core/core_log.h:639-642 | The losses read from the lines, under every name, are those of the entries under that name, as 64-bit counts. |
| LogFile.LostUnderOwnName | gamegine/include/engine/core/core_log.h:639-642 | Under a producer's own name they are the losses the log counts if and only if no single count is 2^64 or more, and never more than those. |
| LogFile.FileTellsLosses | gamegine/include/engine/core/core_log.h:667-685 | What the lines of the file say of a thread's losses is what the log counts, if and only if no single count is 2^64 or more. |
| PassEntries.PassTellsTheCalls | gamegine/include/engine/core/core_log.h:622-645 | Of the calls since the last pass, the next one's entries tell the first ones, up to 4096, as records in order and every other one as a loss, each call once, and leave nothing to tell again. |
| PassEntries.EntriesAre | gamegine/include/engine/core/core_log.h:630-642 | The entries of a visit are that producer's records and losses and nobody else's. |
| PassEntries.PassWritesItsEntries | gamegine/include/engine/core/core_log.h:602-645 | What a pass of the logger object appends, behind the bytes of any log, is the bytes of the entries of its visits: the objects write the log of the protocol. |
| PassEntries.FullIsARingful | gamegine/include/engine/core/core_log.h:644-644 | A visit counts as full exactly when a live ring gave 4096 records, for the logger object and for the protocol alike. |
| LoggerSafety.CallsAreConserved | gamegine/include/engine/core/core_log.h:490-514 | At every moment of every run, calls made are records written, records still in the ring, losses counted and at most one loss about to be counted. |
| LoggerSafety.RefusedMeansFull | gamegine/include/engine/core/core_log.h:490-496 | In every run a push is refused exactly when a whole ring's worth had been accepted since the tail its side knew; if it saw the current tail the ring was full. |
| LoggerSafety.NoLossWithinARingful | gamegine/include/engine/core/core_log.h:205-207 | A thread that logs no more than a ring's worth of records loses none of them, however late it is drained. |
| LoggerSafety.OneSlotOneOwner | gamegine/include/engine/core/core_log.h:66-80 | At every moment no two slots hold one producer, no two handles own one (moves included), and every owned producer is live. |
| LoggerSafety.LifeOfARing | gamegine/include/engine/core/core_log.h:66-80 | A step changes a slot only from free to a new live producer (by the winning compare-exchange) or from a freed, closed producer to free (by the logger thread), and a phase only from live to closed (by the destruction of the owning handle). |
| LoggerSafety.TriedSlotsWereOccupied | gamegine/include/engine/core/core_log.h:742-755 | A registration past slot j tried j itself earlier and found it occupied then. |
| LoggerRegistration.RefusedAfterEverySlot | gamegine/include/engine/core/core_log.h:742-755 | A registration that is refused tried each of the 32 slots before, and found it occupied when it tried it. |
| LoggerRegistration.RegistrationGoesOn | gamegine/include/engine/core/core_log.h:742-755 | At every moment of every run before the destructor, a registration under way has a step it can take. |
| LoggerRegistration.RegistrationStep | gamegine/include/engine/core/core_log.h:742-750 | Each of its steps takes it past an occupied slot, or ends it: a free slot is always taken, with a new live producer and its one handle, and a refusal changes nothing. |
| LoggerRegistration.OwnerNeverWaits | gamegine/include/engine/core/core_log.h:26-33 | In every reachable state a thread with a handle can push, or count the loss of the push it is in, and between its calls give its handle away or destroy it, whatever the other threads are doing. |
| LoggerRegistration.LockHolderNeverWaits | gamegine/include/engine/core/core_log.h:26-33 | So can the thread inside the lock of the shared ring. |
| LoggerPass.StepKeepsVisited | gamegine/include/engine/core/core_log.h:602-620 | Every step keeps the account of the slots the pass has visited and of whether one gave a ring's worth. |
| LoggerPass.PassVisitsEverything | gamegine/include/engine/core/core_log.h:602-620 | A pass that ends has gone over each slot once, in order, then over the shared ring, took at most 4096 records from each, and answers true exactly when a live ring gave that many. What going over a slot means is in LoggerVisits. |
| LoggerVisits.PassedOverWasFree | gamegine/include/engine/core/core_log.h:605-609 | A slot a pass passed over was free when the pass loaded it, or the load did not see yet what another thread had put there: a producer that a load finds is never passed over. |
| LoggerVisits.VisitedWasDrained | gamegine/include/engine/core/core_log.h:630-637 | A producer that was visited gave a whole ring's worth while live, or a pop of that pass found its ring empty. |
| LoggerVisits.NothingIsLeftBehind | gamegine/include/engine/core/core_log.h:630-637 | With current loads, every record its ring had taken up to the pop that found it empty is in the log when the pass ends, unless the ring gave a whole ring's worth. |
| LoggerVisits.LoadedIsWritten | gamegine/include/engine/core/core_log.h:602-620 | With current loads, every record a producer's ring had taken when the pass loaded its slot is in the log when the pass ends, unless the ring gave a whole ring's worth. |
| LoggerVisits.ClosedIsGone | gamegine/include/engine/core/core_log.h:613-617 | At the end of a pass every producer in a slot whose phase it read as closed is freed and in no slot. |
| LoggerCoherence.FoundOnceIsFoundAgain | gamegine/include/engine/core/core_log.h:605-609 | A producer that one load found is found by every later load of its slot while it is there. |
| LoggerCoherence.NewProducerMayBeMissed | gamegine/include/engine/core/core_log.h:605-609 | What may still happen: a run in which a pass passes over a producer published before the pass started. |
| LoggerCoherence.LastRecordMayBeMissed | gamegine/include/engine/core/core_log.h:622-645 | What may still happen: a run in which a pass visits a producer closed before the visit, with a record in its ring, reads its phase, its head and its losses as they were, takes nothing and does not free it. |
| LoggerCoherence.DestructionEnds | gamegine/include/engine/core/core_log.h:720-733 | A run of a logger nobody uses that ends: the destructor's pass goes over the 32 free slots and the shared ring and rests. |
| LoggerCoherence.DestructorNeverWaits | gamegine/include/engine/core/core_log.h:720-733 | In every reachable state in which every registered thread's producer is closed, nobody registers or logs and the logger thread rests, the destructor can begin. |
| LoggerPass.PassIsBounded | gamegine/include/engine/core/core_log.h:31-36 | A pass ends within a bounded number of the logger thread's own steps, and no step of another thread takes its end further away. |
| LoggerPass.PassNeverBlocks | gamegine/include/engine/core/core_log.h:26-33 | The logger thread always has a step to take inside a pass. |
| Logger.Producer.constructor | gamegine/include/engine/core/core_log.h:480-486 | A new producer is live and empty, its name cut to 16 bytes. |
| Logger.CutIsPrefix | gamegine/include/engine/core/core_log.h:480-486 | The name kept is the first 16 bytes of the name given, or all of it. |
| Logger.Producer.Push | gamegine/include/engine/core/core_log.h:490-496 | Appends the record to the ring, or counts one loss exactly when the ring is full. |
| Logger.Producer.Close | gamegine/include/engine/core/core_log.h:498-501 | Closes the producer and changes nothing else. |
| Logger.Producer.Pop | gamegine/include/engine/core/core_log.h:503-506 | Removes and returns the oldest record; nothing exactly when there is none. |
| Logger.Producer.TakeDropped | gamegine/include/engine/core/core_log.h:508-514 | Returns the losses since the last call, modulo 2^64, and makes them reported. |
| Logger.Handle.Move | gamegine/include/engine/core/core_log.h:552-556 | The new handle takes the producer over and the original is left with none. |
| Logger.Handle.Log | gamegine/include/engine/core/core_log.h:534-540 | Pushes into the producer of the handle. |
| Logger.Handle.Destroy | gamegine/include/engine/core/core_log.h:558-563 | Closes the producer exactly when the handle still has one. |
| Logger.Logger.constructor | gamegine/include/engine/core/core_log.h:712-718 | A new logger has free slots, an empty live shared producer and an empty batch. |
| Logger.Logger.Register | gamegine/include/engine/core/core_log.h:737-756 | Publishes a new, empty, live producer in the first free slot and returns its one handle; refuses and changes nothing exactly when no slot is free. |
| Logger.Logger.WriteLine | gamegine/include/engine/core/core_log.h:647-665 | Appends exactly the line of the record: it is never cut, and no batch is lost unless a write fails. |
| Logger.Logger.TakeRecords | gamegine/include/engine/core/core_log.h:630-637 | Pops the ring empty in at most the limit of the phase, appending the line of every record in order. |
| Logger.Logger.DrainOne | gamegine/include/engine/core/core_log.h:622-645 | Appends the lines of all the records of the producer in order, then one line for its losses if there are any; leaves its ring empty and its losses reported; returns the phase and whether a live ring gave a whole ring's worth. |
| Logger.Logger.Drain | gamegine/include/engine/core/core_log.h:602-620 | Appends the reports of the slots in order and then of the shared producer, frees exactly the closed producers, leaves the others drained, and answers whether some live ring was full. |
| Logger.KeptUnlessClosed | gamegine/include/engine/core/core_log.h:613-617 | A slot keeps its producer unless the producer was found closed, and is free then. |
| Logger.Logger.Pass | gamegine/include/engine/core/core_log.h:727-732 | A drain and a flush, as the destructor and one turn of the logger thread do them: unless a write failed, the file then holds every byte ever appended; and once every handle is gone every slot is null. |
| Output.DeliveryIsPrefix | gamegine/include/engine/core/core_log.h:687-708 | Whatever each call of write does, the file gets a prefix of the batch, once and in order, and all of it exactly when no call failed before the end. |
| Output.NoFailureDeliversAll | gamegine/include/engine/core/core_log.h:687-708 | For every pattern of partial writes and interruptions without a failure the file gets the whole batch. |
| Output.FailureEndsIt | gamegine/include/engine/core/core_log.h:699-704 | The first call that fails ends the flush: what the calls before it took is in the file, the rest is lost, and no call follows. |
| Output.LastByteEndsIt | gamegine/include/engine/core/core_log.h:688-689 | The call that takes the last byte ends the flush, and no call follows. |
| Output.FlushMovesTheBatch | gamegine/include/engine/core/core_log.h:687-708 | Without a failing call a flush moves the batch to the file and loses nothing. |
| Output.File.Write | gamegine/include/engine/core/core_log.h:691-698 | What one call of write may do: take some bytes, be interrupted, or fail. |
| Output.Batch.constructor | gamegine/include/engine/core/core_log.h:384-385 | A new batch is empty. |
| Output.Batch.WriteOut | gamegine/include/engine/core/core_log.h:689-705 | The loop of the flush delivers the batch as the calls go, retrying after an interruption and after a partial write. |
| Output.Batch.Flush | gamegine/include/engine/core/core_log.h:687-708 | Empties the batch; the file gets what the calls deliver. Unless a flush failed, file bytes followed by batch bytes are all the bytes appended. |
| Output.Batch.MakeRoom | gamegine/include/engine/core/core_log.h:650-652 | Flushes exactly when less than 8192 bytes are free, so that at least that many are free after it. |
| Output.FlushedWhenLow | gamegine/include/engine/core/core_log.h:650-652 | A batch of 64 KiB is written out exactly when fewer than 8 KiB are left, and only then starts again. |
| Output.Batch.WriteRecord | gamegine/include/engine/core/core_log.h:647-665 | Appends the line of the record, cut with a mark if it is longer than the room, to the batch; the batch size never exceeds 65536 and the room never underflows. |
| Output.Batch.EndCut | gamegine/include/engine/core/core_log.h:658-664 | Takes the line of the writer into the batch; a line that was cut fills the batch, and its last two bytes there are "~" and a newline. |
| Output.RecordIsNeverCut | gamegine/include/engine/core/core_log.h:227-232 | No record of any type bits, payload and thread name is ever cut, wherever its line starts in the batch. |
| Output.Batch.WriteLoss | gamegine/include/engine/core/core_log.h:667-685 | Appends the line that reports the losses, whole, to the batch; what that line says is in LossLines.LossIsRead. |
| Output.LossLineIsShort | gamegine/include/engine/core/core_log.h:674-684 | The line that reports losses is at most 100 bytes for every 64-bit count and time. |
| Output.LossLineIsOneLine | gamegine/include/engine/core/core_log.h:674-684 | The line that reports losses has exactly one newline, at its end, and no other control character, if and only if the whole thread name is printable. |
| LossLines.LossIsRead | gamegine/include/engine/core/core_log.h:674-684 | A reader that takes only a warning of the thread "logger" with a name, "lost", digits and "records" gives back from the line the name, whatever it holds, and the number. |
| LossLines.LossShowsItsTime | gamegine/include/engine/core/core_log.h:676-677 | The line shows the time at which it was written, rounded down to microseconds. |
| LossLines.RecordIsNoLoss | gamegine/include/engine/core/core_log.h:674-684 | That reader takes no line of a record for a line of losses, unless the thread of the record is shown as the logger. |
| Swar.FlagsFindTheFirst | gamegine/include/engine/core/core_format.h:317-344 | For every 8 bytes the flag word is zero exactly when none is below 0x20 or equal to 0x7f, and otherwise its lowest set bit is in the first such byte, whatever the borrows flag above it. |
| Swar.StoresWhatWasLoaded | gamegine/include/engine/core/core_format.h:331-333 | A word loaded from 8 bytes and stored again stores the same bytes. |
| LineWriter.LineWriter.constructor | gamegine/include/engine/core/core_format.h:399-402 | A new writer is empty and not truncated. |
| LineWriter.LineWriter.GrowsByWhatFits | gamegine/include/engine/core/core_format.h:382-532 | What every append promises: the view grows by exactly as many first characters of the text as there is room for, the truncated flag is set exactly when it was or the text is longer than the room, and truncated implies full; the bytes written before stay, and so do those outside the window. |
| LineWriter.LineWriter.CopyPlain | gamegine/include/engine/core/core_format.h:288-359 | The word-at-a-time scan returns the position of the first control character and has copied every character before it; bytes past it may be scratch. |
| LineWriter.LineWriter.AppendPlain | gamegine/include/engine/core/core_format.h:363-380 | Appends the text up to its first control character, or all that fits when the buffer ends first. |
| LineWriter.LineWriter.AppendRepeated | gamegine/include/engine/core/core_format.h:382-395 | Appends copies of one character, cut at the end of the buffer. |
| LineWriter.LineWriter.Append | gamegine/include/engine/core/core_format.h:406-420 | Appends the text, cut at the end of the buffer. |
| LineWriter.LineWriter.AppendRun | gamegine/include/engine/core/core_format.h:436-457 | One turn of the loop appends a first piece of the reference output and leaves the rest of it to the rest of the text. |
| LineWriter.LineWriter.AppendContinued | gamegine/include/engine/core/core_format.h:422-458 | For every text, column and room: appends exactly the output of the byte-at-a-time reference, cut at the end of the buffer. |
| LineWriter.LineWriter.AppendChar | gamegine/include/engine/core/core_format.h:460-463 | Appends one character. |
| LineWriter.LineWriter.AppendPadded | gamegine/include/engine/core/core_format.h:465-474 | Appends the text filled up to the width. |
| LineWriter.LineWriter.AppendFitted | gamegine/include/engine/core/core_format.h:476-483 | Appends the text in exactly the width; its own cut is not truncation. |
| LineWriter.LineWriter.AppendDecimal | gamegine/include/engine/core/core_format.h:485-513 | Appends the number right-aligned in the width, with zero fill after a minus sign and other fill before it. |
| LineWriter.LineWriter.AppendHex | gamegine/include/engine/core/core_format.h:515-532 | The loop that fills from the right appends the low digits of the value. |
| Text.ReferencePlain | tests/core/core_format.t.cpp:62-91 | The reference copies a run without control characters. |
| TextLaws.OneByte | tests/core/core_format.t.cpp:62-91 | Alone, a newline becomes a newline and the column's blanks, a CRLF the same, any other control character a question mark, and any other byte itself. |
| TextLaws.ControlIs | gamegine/include/engine/core/core_format.h:317-330 | A control character is below 32 or 127. |
| TextLaws.JoinIffNoSplit | tests/core/core_format.t.cpp:62-91 | Two texts are continued one after the other if and only if no CRLF is split between them. |
| TextLaws.ContinuedHangs | gamegine/include/engine/core/core_format.h:422-434 | Whatever the text, no control character is left but newlines, and each has the column's blanks behind it. |
| TextLaws.ColumnOnlyMoves | gamegine/include/engine/core/core_format.h:422-434 | Without the blanks behind its newlines, what is written under any column is what is written under the first one. |
| TextLaws.LinesReadBack | gamegine/include/engine/core/core_format.h:422-434 | A text whose only control characters are newlines reads back from its continued lines. |
| TextLaws.TrailingNewline | gamegine/include/engine/core/core_format.h:428-434 | One newline at the end of a text, LF or CRLF, starts no line, and nothing else at its end is dropped. |
| TextLaws.EndsWithoutNewline | gamegine/include/engine/core/core_format.h:428-434 | Under a column what is written never ends with a newline. |
| TextLaws.PaddedIs | gamegine/include/engine/core/core_format.h:465-474 | A padded text is the text and then the fill, up to the width. |
| Text.DecimalReadsBack | gamegine/include/engine/core/core_format.h:498-502 | The decimal digits of a number read back as the number. |
| LineFields.SignedReadsBack | gamegine/include/engine/core/core_format.h:498-512 | Every integer, negative ones included, reads back from its decimal form. |
| LineFields.DecimalIsShortest | gamegine/include/engine/core/core_format.h:498-502 | No decimal form but that of zero starts with a zero. |
| LineFields.AlignedIntegerReadsBack | gamegine/include/engine/core/core_format.h:485-513 | A right-aligned integer of any sign reads back, with blanks or with zeros for a fill, and is as wide as asked or as its digits need. |
| LineFields.FillIsAsAsked | gamegine/include/engine/core/core_format.h:485-513 | A fill of blanks stands in front of the digits and the sign; a fill of zeros leaves no blank. |
| Text.HexReadsBack | gamegine/include/engine/core/core_format.h:521-529 | The hex digits of a value read back as its low bits. |
| LogRecord.UnpackPacked | gamegine/include/engine/core/core_log_record.h:237-291 | Type, severity and payload come back from a packed record, and the tick comes back exactly when it is below 2^59. |
| LogRecord.PackUnpacked | gamegine/include/engine/core/core_log_record.h:278-291 | Every header is the packing of the fields read from it. |
| Clock.SplitQuotient | gamegine/include/engine/core/core_clock.h:33-40 | The split quotient is the quotient. |
| Clock.MachineWrapsExact | gamegine/include/engine/core/core_clock.h:233-246 | What the 64-bit arithmetic computes is the exact result modulo 2^64. |
| Clock.ExactWhenItFits | gamegine/include/engine/core/core_clock.h:38-40 | The machine's result is exact if and only if the exact result fits 64 bits. |
| Clock.NoProductOverflows | gamegine/include/engine/core/core_clock.h:240-244 | No intermediate product overflows on the way to a result that fits. |
| Clock.ExactIsMonotone | gamegine/include/engine/core/core_clock.h:233-246 | A later tick is never an earlier time. |
| Clock.ExactIsFloor | gamegine/include/engine/core/core_clock.h:38-40 | The exact result is the whole part of the elapsed ticks times num / denom. |
| LogFormat.AppendTimestamp | gamegine/include/engine/core/core_log_format.h:155-166 | Appends the timestamp of the tick. |
| LogFormat.AppendPrefix | gamegine/include/engine/core/core_log_format.h:168-179 | Appends timestamp, severity and thread, each in its column; what the columns say is in LineFields. |
| LogFormat.AppendError | gamegine/include/engine/core/core_error_format.h:210-227 | Appends the three names and the context of an error, without the raw value. |
| LogFormat.AppendMessage | gamegine/include/engine/core/core_log_message_format.h:201-217 | Appends the domain and the text of a message with its argument, without the raw value. |
| LogFormat.AppendArgument | gamegine/include/engine/core/core_log_message_format.h:177-197 | Appends the argument the way the message declares it. |
| LogFormat.AppendRecord | gamegine/include/engine/core/core_log_format.h:181-216 | Appends the complete line of a record of any type bits. |
| LineTime.TimestampReadsBack | gamegine/include/engine/core/core_log_format.h:155-166 | A reader that takes only a bracket, blanks and digits, a dot, six digits and a bracket reads the time, rounded down to microseconds, from the front of the text, whatever follows. |
| LineTime.RecordShowsItsTime | gamegine/include/engine/core/core_log_format.h:181-194 | That reader finds in the bytes of the line of any record its exact time rounded down to microseconds, as long as it fits 64 bits. |
| LineTime.EndToEndTime | gamegine/include/engine/core/core_log_format.h:155-166 | For a tick below 2^59 whose exact time fits: pack, unpack, convert and print, and the bytes of the line read back as the exact nanoseconds rounded down to microseconds. |
| LineTime.LaterIsNotEarlier | gamegine/include/engine/core/core_log.h:41-43 | Of two lines, the one of the record stamped later never shows an earlier time. |
| LineFields.SeverityIsNamed | gamegine/include/engine/core/core_log_format.h:131-153 | The severity column, read as text, is "TRACE", "DEBUG", "INFO ", "WARN ", "ERROR" or "FATAL" for the severities 0 to 5, each its own, and none of them for 6 and 7. |
| LineFields.RecordShowsItsColumns | gamegine/include/engine/core/core_log_format.h:168-194 | The line of every record gives back, each from its own column, its severity by name (none for a severity without a name), the first eight bytes of its thread's name filled up with blanks, and its payload's text, whatever they are. |
| LineFields.ErrorIsRead | gamegine/include/engine/core/core_error_format.h:210-227 | The line of an error, read as fields between bars, gives back its domain, kind and reason in this order and its context from eight hex digits, for names without bars. |
| LineFields.MessageIsRead | gamegine/include/engine/core/core_log_message_format.h:201-217 | The line of a message gives back its domain, for a domain without bars, and its text with the argument where it goes. |
| LineFields.ArgumentIsRead | gamegine/include/engine/core/core_log_message_format.h:168-197 | An argument reads back as declared: unsigned, signed in two's complement, or as eight hex digits after 0x; a message without one shows none, and one whose argument is not declared a question mark. |
| LineFields.OtherTypesAreShown | gamegine/include/engine/core/core_log_format.h:208-214 | A record of a type without a meaning shows a question mark for its payload. |
| LineFields.SignedIsTwosComplement | gamegine/include/engine/core/core_log_message_format.h:185-188 | The 32 bits read as signed are the one number of 32 signed bits with that remainder. |
| LineFields.UpperIsPacked | gamegine/include/engine/core/core_error_format.h:222-226 | The context or argument shown is what was packed into the upper half of the payload. |
| LineFields.StampMarks | gamegine/include/engine/core/core_log_format.h:155-166 | The timestamp stands between square brackets, with a dot in front of its last six digits. |
| LineLaws.MessageColumn | gamegine/include/engine/core/core_log_format.h:94-98 | While the seconds are below 10000 every message starts in the same column. |
| LineLaws.RecordIsShort | gamegine/include/engine/core/core_log_format.h:76-78 | The line of a record of any type bits, payload and thread name is at most 512 characters. |
| LineLaws.RecordIsOneLine | gamegine/include/engine/core/core_log_format.h:105-113 | The line of a record of any type bits and payload has exactly one newline, at its end, and no other control character, if and only if the first eight bytes of the thread name, all it shows of it, are printable. |
| MessageTexts.IsValid | gamegine/include/engine/core/core_log_message_catalog.h:183-214 | The one pass accepts exactly the texts that suit the argument: non-empty, printable, no space at the edges, brace-free without an argument, and with one exactly a brace-free prefix and suffix around one placeholder. |
| MessageTexts.SuitsInCodes | gamegine/include/engine/core/core_log_message_catalog.h:183-214 | What suits, in codes of characters: 32 to 126 only, no 32 at the edges, no 123 or 125 without an argument, and with one exactly 123 125 between two parts without them. |
| MessageTexts.SplitIsUnique | gamegine/include/engine/core/core_log_message_catalog.h:102-105 | A text has at most one such split. |
| MessageTexts.TwoBracesSplit | gamegine/include/engine/core/core_log_message_catalog.h:195-213 | A placeholder and two braces in all are the same as such a split. |
| MessageTexts.Find | gamegine/include/engine/core/core_log_message_catalog.h:251-252 | Finds the first placeholder. |
| MessageTexts.Make | gamegine/include/engine/core/core_log_message_catalog.h:241-256 | The constructor rejects exactly the texts that do not suit, and prefix, placeholder and suffix put together are the text. |
| MessageTexts.Table | gamegine/include/engine/core/core_log_message_catalog.h:216-231 | A table is rejected exactly when a text does not suit its argument or there are too many texts; its entries put together are the texts, with the declared arguments. |
| MessageTexts.PartsArePrintable | gamegine/include/engine/core/core_log_message_catalog.h:102-105 | The parts of an accepted text hold no control character. |
| TagPass.EndingIsThePattern | ci/lua/bdestyle.lua:78-94 | The tag found at the end of a line is what the pattern describes, and the match is unique. |
| TagPass.TrailingIsThePattern | ci/lua/bdestyle.lua:78-85 | Code and tag of a line are read exactly as the pattern says. |
| TagPatterns.TakerIsThePattern | ci/lua/bdestyle.lua:114-116 | A line may take the tag of the next one if and only if it ends with a semicolon and white space and holds no two slashes. |
| TagPatterns.TrailingIsItsPattern | ci/lua/bdestyle.lua:78-85 | Code and tag are read exactly as the pattern says, with its words and its white space spelled out. |
| TagPatterns.AloneIsThePattern | ci/lua/bdestyle.lua:87-94 | A line is a tag alone exactly as the pattern says, with its words and its white space spelled out. |
| TagPatterns.CommentIsThePattern | ci/lua/bdestyle.lua:81-83 | Code is a comment if and only if it is white space, two slashes and anything. |
| TagPatterns.SpaceIsTheClass | ci/lua/bdestyle.lua:78-94 | White space is the blank and the characters 9 to 13. |
| TagPatterns.AttachIsRightJustified | ci/lua/bdestyle.lua:96-105 | A tag has room behind code exactly when it ends in column 79 after at least two blanks, and is put there. |
| TagPatterns.TagMovesUp | ci/lua/bdestyle.lua:346-353 | One turn at a tag on a line of its own: it moves up onto the last line put out exactly when that line ends with a semicolon, holds no comment and has room, and stays on a line of its own otherwise, right-justified either way. |
| TagPatterns.TagMovesUpOntoPrevious | ci/lua/bdestyle.lua:346-353 | Over the pass: a tag on a line of its own moves up exactly onto a line before it of that form, as it was read. |
| TagPatterns.TagOfCodeIsPut | ci/lua/bdestyle.lua:338-345 | One turn at code with a tag: the tag is put behind the code if there is room, else on a line of its own, right-justified either way. |
| TagPatterns.OtherLinesAreKept | ci/lua/bdestyle.lua:354-356 | A line that matches neither pattern is put out as it is. |
| TagLaws.AttachReadsBack | ci/lua/bdestyle.lua:101-105 | A tag attached to code is read back with that code. |
| TagLaws.TagLineReadsBack | ci/lua/bdestyle.lua:107-110 | A tag put on a line of its own is read back as such. |
| TagLaws.PassKeepsItems | ci/lua/bdestyle.lua:335-358 | For all lines, the sequence of code lines and tags after the pass is the one before it: none added, lost or reordered. |
| TagLaws.LastTagsArePlacedIffTidy | ci/lua/bdestyle.lua:335-358 | The last tag of every line put out is in its place if and only if the lines are tidy: code without room for its tag carries no other tag out of place, and code that takes the tag of the next line has only blanks behind it. |
| TagPlaces.TagsArePlacedIffNeat | ci/lua/bdestyle.lua:8-13 | Every tag put out is in its place, ending at column 79 at least two spaces after its code, if and only if the lines are neat: code with room for its tag has no other tag in front of it, code without room has at most one, in its place, and code that takes the tag of the next line has only blanks behind it. |
| TagPlaces.EveryTagEndsAtLastColumn | ci/lua/bdestyle.lua:8-13 | On neat lines the pass puts out the tags it read, in order, and every one of them, wherever on a line, ends at column 79. |
| TagPlaces.EveryTagHasItsEnd | ci/lua/bdestyle.lua:78-94 | A line has one end column for each of its tags. |
| TagPlaces.OneTagEachIsNeat | ci/lua/bdestyle.lua:8-13 | Lines with at most one tag each, and only blanks at the end of lines that may take a tag, are neat. |
| TagPlaces.FirstOfTwoTagsStays | ci/lua/bdestyle.lua:338-340 | Two tags on a line with room for both: the pass leaves the first where it is, and so does a second pass. |
| TagLaws.StepKeepsItems | ci/lua/bdestyle.lua:335-356 | One turn of the loop adds exactly the code and the tags of its line to those put out. |
| TagLaws.StepLeavesNoneToMove | ci/lua/bdestyle.lua:335-356 | One turn of the loop leaves no tag on a line of its own that could move up. |
| TagLaws.OneTagEachIsTidy | ci/lua/bdestyle.lua:335-358 | Lines with at most one tag each, and only blanks at the end of lines that may take a tag, are tidy. |
| TagLaws.PassLeavesNoneToMove | ci/lua/bdestyle.lua:346-353 | After a pass no tag on a line of its own could move up. |
| TagLaws.StableIffTidy | ci/lua/bdestyle.lua:335-358 | The pass by itself, applied to what it put out, changes nothing if and only if the lines it first read are tidy. |
| TagLaws.TabIsNotStable | ci/lua/bdestyle.lua:346-350 | A second pass changes code that ended in a tab before it took a tag. |
| TagLaws.TwoTagsAreNotStable | ci/lua/bdestyle.lua:338-345 | A second pass changes a long line with two tags. |
| TagText.JoinOfLines | ci/lua/bdestyle.lua:58-74 | The lines of a text joined again are the text. |
| TagText.LinesOfJoin | ci/lua/bdestyle.lua:360-360 | Joined lines split into the same lines. |
| TagText.AppliedIsStableIffTidy | ci/lua/bdestyle.lua:315-361 | Applying the pass to its own result changes nothing if and only if the lines of the text are tidy. |
| TagText.AppliedKeepsItems | ci/lua/bdestyle.lua:315-361 | The text keeps its code and tags in order, and whether it ends with a newline. |
| TagText.Split | ci/lua/bdestyle.lua:58-74 | The loop over the newlines gives the lines of the text and says whether it ended with one. |
| TagText.Apply | ci/lua/bdestyle.lua:318-360 | The loop over the lines gives the text after the pass; what a turn of it does is in TagPatterns, pattern by pattern. |

## Left out

- Logger.Logger.Drain: one thread at a time; the steps of other threads in between are in LoggerProtocol, where slots, phases and counters are loaded one by one.
- Logger.Logger.Register: one thread at a time; racing compare-exchanges are the TrySlot steps of LoggerProtocol. Out of memory is not modelled.
- Logger.Logger.Pass: the loop around it, its stop token and its sleep are not modelled.
- Logger.Handle.Log: that the calling thread is the one that registered is a precondition of the source and not modelled; the record is made by the caller.
- LoggerProtocol identifies producers by numbers that are never reused; that an address may be reused after a free is not modelled.
- RingCalls.RunIsCalls: covers the ring's own steps; that the other steps of LoggerProtocol (phases, slots, the count of a loss as a step of its own) commute with the steps inside a push or a pop is not proved. Batch pushes, which the logger does not use, are left to RingSafety.
- LogFile.WriteRun: writes the log of a run in one go, without the flushes in between passes, which change when bytes reach the file and not which; a loss entry of a multiple of 2^64 has no line.
- LoggerRegistration.RefusedAfterEverySlot: a failed compare-exchange is a relaxed load and may return an older value of the slot; the model takes it as current.
- LoggerPass.PassIsBounded: bounds the logger thread's own steps; that the scheduler lets it take them is not part of this model.
- LogFile.FileTellsLosses: for names that are printable, are the thread's own, and leave no record looking like the logger's own line; other names cannot be told apart from the bytes.
- LineFields.ErrorIsRead: for names without bars; a name that holds a bar reads as two fields. `LineFields.RecordShowsItsColumns` gives the whole text back without that condition.
- LineFields.MessageIsRead: for a domain without bars, likewise.
- Output.File.Write: a call that is interrupted for ever is not modelled; the script of results is finite and takes everything once it is over.
- LogFormat.AppendArgument: the shortest text of a float is a parameter of at most 15 printable characters.
- LogFormat.AppendMessage: the texts of messages and the names of domains are parameters; the raw value, which a log line omits, is not modelled.
- LogFormat.AppendError: the name catalogs and the packing of errors and messages are parameters that keep to the sizes their headers leave (206 and 211 characters); the raw value, which a log line omits, is not modelled.
- Logger.Producer.TakeDropped: 2^64 losses between two reports read as none, as in the source.
- TagText.AppliedIsStableIffTidy: about texts without banners and headings only; the conditions are about the pass, not about clang-format and the pass together.
- TagText.AppliedKeepsItems: about texts without banners and headings only.
- TagText.Apply: banners and headings are left out; texts that hold them are outside the model, and so are the naming report and characters wider than a byte.
- Locks and threads themselves, memory alignment and cache lines, two producers on one ring, a locked call during destruction: undefined or without a value to compute.
- Formatter parsers, compile-time concepts, the other scripts under `ci/` and the designs under `doc/`.

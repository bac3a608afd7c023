# Verification of the Ncqrs core

A Dafny model of the parts of Ncqrs where mistakes are hardest to see, with proofs of what they promise.
`dafny verify dfyconfig.toml` checks all of it.

- **Byte search** (`ByteSearch`): the Knuth-Morris-Pratt search of the dynamic snapshots and the in-place replacement
  that uses it.
- **Event bus** (`Common`, `Elements`, `CursorPosition`, `LazyMarking`, `Demultiplexing`, `KeyOrder`, `ChunkBuffer`,
  `BufferedStore`, `PipelineMachine`, `PipelineThreads`): the cursor calculator, lazy marking, demultiplexer and
  buffers as the classes they are, each proved against a specification; and the whole pipeline as a transition system
  with one step per queue hand-off, so that a statement about every run is a statement about every interleaving of
  fetcher, demultiplexer, processor and post-processor. `PipelineThreads` shows that the code of each thread, over
  the real objects, takes exactly those steps.
- **MongoDB event store** (`EventStreams`, `MongoStore`, `MongoOutcomes`, `MongoClass`, `MongoRace`,
  `MongoUninterrupted`, `MongoSealed`, `MongoUnits`, `MongoSnapshots`, `MongoAhead`): the operations one by one, `Store`
  and `ReadFrom` as a class, and any number of writers, readers and crashes interleaved between single database
  operations. Around that, whole units of work: they load aggregates at any point and through any snapshot saved by
  then, store, and save snapshots of what they hold. While all snapshots are safe, the store refines, per source, an
  atomic log which takes a batch exactly when its initial version is the length so far; and for every unit of work, its
  snapshots are safe exactly when the store keeps its promises in all runs with other, safe ones.
- **Event sourcing** (`EventSourcing`, `Loading`, `LoadedReplays`, `Repositories`, `UnitsOfWork`): live application
  against replay, loading with and without snapshots, and the round trip of a unit of work through the store. Handlers
  are named by numbers and what a handler does is a parameter: new state, handlers it registers, whether it was
  interested.
- **Commit cursor** (`CommitCursor`): the resumable cursor that re-reads the last commit and skips it.
- **GUID combs** (`GuidComb`): the time key in the last six bytes of a new GUID.

A method that changes state is proved against a function of the old state; the properties are then lemmas about that
function and about all runs of it.

## What the proofs found

These hold of the code as it is; each is a lemma below.

- `Demultiplexer.MarkAsProcessed` never takes a waiting element out of its queue: an element that arrives while
  another of its key is in flight is never processed, and marks never get past it (`PipelineMachine.WaitingIsReachable`,
  `PipelineMachine.SucceedsExactlyUnlessWaitingOrFailed`, `PipelineMachine.MarksStopBefore`). Order and safety hold;
  eventual processing does not and is not claimed.
- Lazy marking is safe exactly for a threshold of 1 or more.
- A number at or below its position blocks the cursor calculator for good, and nothing else does.
- A fetch size of 0 or less makes the buffered store lose entries, and exactly those sizes do. When it switches on
  meeting the first pushed entry, it always hands that entry out twice.
- The commit cursor stands still exactly for fetch sizes below 2. The query behind it is named `GetCommitsAfter` but
  selects ids greater than *or equal to* the given one
  (`Extensions/src/Ncqrs.Eventing.Storage.JOliver/SqlPersistence/CommonSqlStatements.resx:122-123`); the model follows
  the query, and the skip in the cursor relies on it.
- Loading from a snapshot equals full replay exactly when the aggregate registered no handler since it was created,
  restoring inverts creating, and the validator accepts the snapshot. A rejected snapshot still limits what is read.
- An event nobody handles has used up its number before the exception. If the caller swallows the exception and the
  aggregate emits another event, the store takes the batch with its gap: the source is no longer numbered 1..n, and its
  stream is rejected or does not replay from the start.
- If all calls that threw came after the last event, the batch has no gap, but a snapshot taken at the end is ahead of
  it. Once other units of work have brought the recorded version up to it, an aggregate loaded through it misses their
  events, and its store is accepted: while another writer is still saving, after a crash that otherwise closes a source,
  or with a number that is already taken. Everything said here about the store holds in all runs exactly as long as no
  such snapshot is saved (`MongoAhead`, `UnitsOfWork.SafeExactlyWithoutTrailingExceptions`).
- With safe snapshots, a gap and a writer that stops between recording a version and saving its last event are the only
  ways a source is closed to new events, and then for ever (`MongoSnapshots.WritableExactlyUnlessSealed`).
- Time keys go backwards on day 65536 after 1900-01-01, and not before.
- Replacing bytes back restores the array exactly when the new pattern does not already occur further left.

## What is assumed

- MongoDB: a find, insert, update or increment of one document is atomic; the id of an event source is unique in its
  collection, so a second insert fails. A reader's single find sees one state of the events.
- Units of work: per source one holds one aggregate instance, newly created or loaded earlier from the same store.
  `GetById` reads the snapshot first and the events afterwards, and anything may happen in between: a load is the read
  of the events, with any snapshot saved before it, or none. Snapshots are of versions from 1 up. That whatever such
  instances apply, calls that throw included, may begin in the interleaved runs is proved
  (`UnitsOfWork.LoadedWorkMayBegin`).
- Stores feeding the pipeline return a new object for every fetched element, so elements are values here. Grouping
  keys and ids are arbitrary, and ids may repeat.
- `Find` and `ComputeFailureTable` need a pattern of two bytes or more: the code writes `t[0]` and `t[1]`
  unconditionally. The arrays they only read are values.
- The persistent store behind the buffered one, asked for less than one element, returns none; otherwise it may return
  more or fewer than it was asked for, but some as long as any are left. The commit cursor, with commits that hold
  events, does so exactly for fetch sizes from 2 up.
- Entries of the buffered store's log have distinct ids; one committed after the event handler was registered is
  pushed once, at any later time and in any order.
- A history is at most 2^63 - 1 events long.

## Model

| member | source | states |
|---|---|---|
| ByteSearch.ComputeFailureTable | Extensions/src/Ncqrs.Eventing.Sourcing.Snapshotting.DynamicSnapshot/ByteExtensions.cs:46-73 | every entry of the table is the length of the longest proper border of that prefix of the pattern (-1 for the empty one), found in at most 2 * pattern length iterations, although the loop reads the table it is still filling |
| ByteSearch.FallBackKeepsCandidates | Extensions/src/Ncqrs.Eventing.Sourcing.Snapshotting.DynamicSnapshot/ByteExtensions.cs:62-65 | after a disagreeing byte, falling back to the border of the border leaves out no border that could still be extended |
| ByteSearch.ExtensionIsLongest | Extensions/src/Ncqrs.Eventing.Sourcing.Snapshotting.DynamicSnapshot/ByteExtensions.cs:58-61 | when the next byte agrees, the best candidate plus one is the longest border of the longer prefix |
| ByteSearch.ShiftSkipsNoMatch | Extensions/src/Ncqrs.Eventing.Sourcing.Snapshotting.DynamicSnapshot/ByteExtensions.cs:21-25 | the shift by i - t[i] passes over no occurrence and keeps a matched prefix of length t[i] |
| ByteSearch.Find | Extensions/src/Ncqrs.Eventing.Sourcing.Snapshotting.DynamicSnapshot/ByteExtensions.cs:7-29 | returns what trying every position from the left would return, -1 exactly when nothing matches, within 2 * length iterations |
| ByteSearch.FirstMatchFrom | Extensions/src/Ncqrs.Eventing.Sourcing.Snapshotting.DynamicSnapshot/ByteExtensions.cs:7-29 | the independent definition Find is held to: the leftmost occurrence, and none before it |
| ByteSearch.FirstMatchIsLeftmost | Extensions/src/Ncqrs.Eventing.Sourcing.Snapshotting.DynamicSnapshot/ByteExtensions.cs:7-29 | that position is one at which the bytes of the pattern are, and no earlier one is; it is -1 when they are nowhere |
| ByteSearch.Replace | Extensions/src/Ncqrs.Eventing.Sourcing.Snapshotting.DynamicSnapshot/ByteExtensions.cs:31-44 | in place, aliased arrays included: only the leftmost occurrence changes, and true is returned exactly when the lengths agree and there is one |
| ByteSearch.ReplaceBackRestores | Extensions/src/Ncqrs.Eventing.Sourcing.Snapshotting.DynamicSnapshot/ByteExtensions.cs:31-44 | replacing back restores the original bytes exactly when the new pattern does not already occur further left |
| ByteSearch.ReplacesLeftmostOnly | Extensions/src/Ncqrs.Eventing.Sourcing.Snapshotting.DynamicSnapshot/ByteExtensions.cs:31-44 | with equal lengths and an occurrence, the leftmost one is overwritten and every other byte stays; otherwise every byte stays |
| CursorPosition.CursorPositionCalculator.constructor | Extensions/src/Ncqrs.EventBus/CursorPositionCalculator.cs:15-18 | a new calculator is empty at its starting number |
| CursorPosition.CursorPositionCalculator.Append | Extensions/src/Ncqrs.EventBus/CursorPositionCalculator.cs:20-34 | the fields move as the specification step says; it throws exactly when the number is out of order and already pending, and has then already counted the element |
| CursorPosition.CursorPositionCalculator.ProcessEventsNotInSequence | Extensions/src/Ncqrs.EventBus/CursorPositionCalculator.cs:36-46 | the loop absorbs pending elements while the smallest one is next |
| CursorPosition.CursorPositionCalculator.ClearSequence | Extensions/src/Ncqrs.EventBus/CursorPositionCalculator.cs:68-72 | the run's length leaves the count and nothing else changes |
| CursorPosition.PositionIsRunEnd | Extensions/src/Ncqrs.EventBus/CursorPositionCalculator.cs:20-46 | after any appends of new numbers mixed with clears: position is the end of the longest unbroken run, last id is the id at that position, what is beyond is pending, and Count is SequenceLength plus what is pending |
| CursorPosition.AbsorbTracks | Extensions/src/Ncqrs.EventBus/CursorPositionCalculator.cs:36-46 | absorbing keeps exactly what was seen, ends where the next number is missing, and lengthens the run by as much as the position moved |
| CursorPosition.NoFaults | Extensions/src/Ncqrs.EventBus/CursorPositionCalculator.cs:32 | no new number above the start makes the dictionary throw |
| CursorPosition.FaultsExactlyOnPending | Extensions/src/Ncqrs.EventBus/CursorPositionCalculator.cs:20-34 | after any appends of new numbers and clears, an append throws if and only if its number was appended before and lies beyond the unbroken run; then it is only counted |
| CursorPosition.PassedNumberStays | Extensions/src/Ncqrs.EventBus/CursorPositionCalculator.cs:20-46 | in any state, a number already passed is pending from its append on, through any further operations, and does not move the position |
| CursorPosition.OrderDoesNotMatter | Extensions/src/Ncqrs.EventBus/CursorPositionCalculator.cs:20-46 | position, last id and pending set depend only on what was appended, in whatever order and with whatever clears |
| CursorPosition.StaleNumberBlocks | Extensions/src/Ncqrs.EventBus/CursorPositionCalculator.cs:36-46 | a pending number at or below the position stays pending through any operations, so does everything else pending, and from then on the position moves only by appends of exactly the next number |
| CursorPosition.GoesOnExactlyWithoutStale | Extensions/src/Ncqrs.EventBus/CursorPositionCalculator.cs:20-46 | from any state a calculator can get into, repeated and stale numbers included: every continuation with new numbers ends at the end of the unbroken run if and only if nothing pending is at or below the position |
| CursorPosition.ContinuesRun | Extensions/src/Ncqrs.EventBus/CursorPositionCalculator.cs:20-46 | without a stale number, position and pending set after any new numbers are those of all numbers seen |
| CursorPosition.AbsorbedUnlessStale | Extensions/src/Ncqrs.EventBus/CursorPositionCalculator.cs:36-46 | after any operations the next number is pending only behind a stale one |
| CursorPosition.RunEnd | Extensions/src/Ncqrs.EventBus/CursorPositionCalculator.cs:36-51 | the end of the longest unbroken run after the start, characterised by what is in the set and what is not |
| LazyMarking.LazyMarkingBrowsableElementStore.MarkLastProcessedElement | Extensions/src/Ncqrs.EventBus/LazyMarkingBrowsableElementStore.cs:26-34 | appends, then marks the element just appended and clears once the run reaches the threshold |
| LazyMarking.LazyMarkingIsSafe | Extensions/src/Ncqrs.EventBus/LazyMarkingBrowsableElementStore.cs:26-34 | for a threshold of at least 1 and distinct numbers in any order: marks strictly increase, nothing numbered at or below a mark is unprocessed, no call throws, and the run stays below the threshold |
| LazyMarking.MarksExactlyAtThreshold | Extensions/src/Ncqrs.EventBus/LazyMarkingBrowsableElementStore.cs:26-34 | for any threshold and arrival order: an element is marked if and only if the unbroken run, with it, has grown by at least the threshold since the last mark |
| LazyMarking.SafeExactlyForPositiveThreshold | Extensions/src/Ncqrs.EventBus/LazyMarkingBrowsableElementStore.cs:15-34 | the marks are safe for all arrival orders if and only if the threshold is at least 1 |
| LazyMarking.NewNumbersNeverFault | Extensions/src/Ncqrs.EventBus/LazyMarkingBrowsableElementStore.cs:26-34 | distinct numbers in any order never make a call throw, for any threshold, and the calculator has seen exactly the elements marked so far |
| LazyMarking.SettleKeepsInvariant | Extensions/src/Ncqrs.EventBus/LazyMarkingBrowsableElementStore.cs:29-33 | a call marks only when its own element extends the run, which is why marking that element and not the end of the run is safe |
| LazyMarking.InOrderMarksKeepUp | Extensions/src/Ncqrs.EventBus/LazyMarkingBrowsableElementStore.cs:26-34 | for arrivals in number order the calculator's position is the last mark plus the unmarked run |
| Demultiplexing.Demultiplexer.Demultiplex | Extensions/src/Ncqrs.EventBus/Demultiplexer.cs:24-44 | the result and the state of the specification step, with queue list and map consistent; which elements that drops, emits and holds back is exact in KeyOrder.DropsExactlyOutstandingIds and KeyOrder.EmitsExactlyFreeKeys |
| Demultiplexing.Demultiplexer.MarkAsProcessed | Extensions/src/Ncqrs.EventBus/Demultiplexer.cs:56-64 | forgets the element and frees its key exactly when nothing waits; throws exactly when the element is unknown, then nothing changes |
| Demultiplexing.Demultiplexer.FindQueueFor | Extensions/src/Ncqrs.EventBus/Demultiplexer.cs:78-81 | the first queue of the list that accepts the element, the list's length when there is none |
| Demultiplexing.Demultiplexer.CreateAndBlockQueueFor | Extensions/src/Ncqrs.EventBus/Demultiplexer.cs:71-76 | a new, empty queue blocks the key and the element is associated with it |
| Demultiplexing.DemultiplexerQueue.Enqueue | Extensions/src/Ncqrs.EventBus/DemultiplexerQueue.cs:21-24 | the element joins at the end |
| Demultiplexing.Without | Extensions/src/Ncqrs.EventBus/Demultiplexer.cs:62 | List.Remove takes out that queue object and keeps all others |
| Demultiplexing.WithoutKeepsOrder | Extensions/src/Ncqrs.EventBus/Demultiplexer.cs:62 | the queues that stay keep their order, in which FindQueueFor searches them |
| KeyOrder.ArriveOrderly | Extensions/src/Ncqrs.EventBus/Demultiplexer.cs:24-54 | for every key, accepted elements stay emitted-then-waiting, at most the last emitted one is not done, and the map holds exactly the outstanding ids, when any new element arrives |
| KeyOrder.DropsExactlyOutstandingIds | Extensions/src/Ncqrs.EventBus/Demultiplexer.cs:24-49 | a new element is dropped, and then nothing changes, if and only if an accepted element that is not done has its id; any other is accepted |
| KeyOrder.EmitsExactlyFreeKeys | Extensions/src/Ncqrs.EventBus/Demultiplexer.cs:31-43 | an accepted element goes on to processing at once if and only if no accepted element of its key is still to be done |
| KeyOrder.FindsExactlyOutstandingIds | Extensions/src/Ncqrs.EventBus/Demultiplexer.cs:56-64 | MarkAsProcessed throws if and only if no accepted element that is not done has the id |
| KeyOrder.FinishOrderly | Extensions/src/Ncqrs.EventBus/Demultiplexer.cs:56-64 | marking an element in flight always finds it and keeps all of that |
| KeyOrder.EmittedIsInFlight | Extensions/src/Ncqrs.EventBus/Demultiplexer.cs:56-76 | an emitted element that is not done is the single one in flight for its key |
| KeyOrder.WaitingKeyStaysBlocked | Extensions/src/Ncqrs.EventBus/Demultiplexer.cs:56-64 | once something waits for a key, neither an arrival nor a completion emits anything more of it |
| PipelineMachine.NextInvariant | Extensions/src/Ncqrs.EventBus/Pipeline.cs:54-63 | every hand-off between the threads keeps: numbers in fetch order, each element in exactly one place, keys orderly, the marking store as its appended elements make it |
| PipelineMachine.RunInvariant | Extensions/src/Ncqrs.EventBus/Pipeline.cs:83-148 | the same in every state reachable by any interleaving, with any failures |
| PipelineMachine.MarkedMeansProcessed | Extensions/src/Ncqrs.EventBus/Pipeline.cs:113-148 | for a threshold of at least 1, in every reachable state: when m is marked, every fetched element numbered m or lower was processed without an exception |
| PipelineMachine.MarksSafeExactlyForPositiveThreshold | Extensions/src/Ncqrs.EventBus/Pipeline.cs:36-39 | that holds for all interleavings if and only if the threshold is at least 1; below it a concrete run marks past a failed element |
| PipelineMachine.KeysStayInOrder | Extensions/src/Ncqrs.EventBus/Demultiplexer.cs:24-81 | per key, done followed by at most one in flight followed by the waiting queue is exactly what was accepted, in order |
| PipelineMachine.OneInFlightPerKey | Extensions/src/Ncqrs.EventBus/Demultiplexer.cs:71-76 | two elements of one key are never in flight together |
| PipelineMachine.FailureStopsItsKey | Extensions/src/Ncqrs.EventBus/PipelineProcessor.cs:28-39 | after an element failed, every later accepted element of its key waits and is never emitted |
| PipelineMachine.NothingFaults | Extensions/src/Ncqrs.EventBus/ElementFetcher.cs:51-73 | no dictionary of demultiplexer or calculator ever throws, whatever the threshold and whatever ids and keys the store returns, duplicates included |
| PipelineMachine.ArrivalInRun | Extensions/src/Ncqrs.EventBus/Demultiplexer.cs:24-49 | in every run: what arrives next is dropped if and only if an outstanding element has its id, and otherwise queued for processing at once if and only if none has its key |
| PipelineMachine.DroppedSharesId | Extensions/src/Ncqrs.EventBus/Demultiplexer.cs:24-49 | in every run each element that arrived was accepted, unless an earlier accepted one has its id |
| PipelineMachine.MarksKeepUp | Extensions/src/Ncqrs.EventBus/LazyMarkingBrowsableElementStore.cs:26-34 | in every run the last mark is less than the threshold behind the end of the unbroken run handed to the marking store, and behind that of everything processed by at most as many more as are still queued for marking |
| PipelineMachine.WaitingIsForever | Extensions/src/Ncqrs.EventBus/Demultiplexer.cs:56-64 | elements waiting behind another of their key stay waiting in every continuation of the run |
| PipelineMachine.SucceedsExactlyUnlessWaitingOrFailed | Extensions/src/Ncqrs.EventBus/PipelineProcessor.cs:28-39 | some continuation of the run processes an accepted element successfully if and only if it does not wait now and has not failed |
| PipelineMachine.WaitingIsReachable | Extensions/src/Ncqrs.EventBus/Demultiplexer.cs:31-43 | a run after which the first of two elements of a key is done, every queue is empty, and the second waits |
| PipelineMachine.MarksStopBefore | Extensions/src/Ncqrs.EventBus/LazyMarkingBrowsableElementStore.cs:26-34 | from an element on that failed, was dropped as a duplicate or waits, no continuation of the run marks anything |
| PipelineThreads.Pipeline.constructor | Extensions/src/Ncqrs.EventBus/Pipeline.cs:23-34 | a new pipeline is the machine's initial state |
| PipelineThreads.Pipeline.FetchBatch | Extensions/src/Ncqrs.EventBus/ElementFetcher.cs:51-73 | numbers a batch consecutively and queues one closure each: as many fetch steps of the machine as the batch has elements |
| PipelineThreads.Pipeline.DemultiplexOne | Extensions/src/Ncqrs.EventBus/Pipeline.cs:83-98 | one closure of the demultiplexer thread is one machine step, over the real queue objects |
| PipelineThreads.Pipeline.TakeElement | Extensions/src/Ncqrs.EventBus/Pipeline.cs:113-122 | taking the oldest emitted element, whenever there is one and the worker is idle, is one machine step |
| PipelineThreads.Pipeline.FinishProcessing | Extensions/src/Ncqrs.EventBus/PipelineProcessor.cs:28-39 | success queues MarkAsProcessed and the element counts as succeeded, an exception drops it and it counts as failed: one machine step each |
| PipelineThreads.Pipeline.HandOverElement | Extensions/src/Ncqrs.EventBus/Pipeline.cs:54-58 | the second queue addition of OnEventProcessed is one machine step |
| PipelineThreads.Pipeline.MarkOne | Extensions/src/Ncqrs.EventBus/Pipeline.cs:134-148 | marking the oldest element through the lazy store's objects, whenever there is one, is one machine step |
| ChunkBuffer.BufferIsFifo | Extensions/src/Ncqrs.EventBus/FixedSizeChunkBuffer.cs:11-40 | for every mix of appends and takes the returned chunks followed by the storage spell exactly what was appended, and all stored chunks but the tail are full |
| ChunkBuffer.AppendIsLast | Extensions/src/Ncqrs.EventBus/FixedSizeChunkBuffer.cs:17-25 | an append adds at the very end and keeps the shape |
| ChunkBuffer.TakeIsFirst | Extensions/src/Ncqrs.EventBus/FixedSizeChunkBuffer.cs:27-40 | a take removes its chunk from the front; the chunk is full unless it was everything, and empty only when everything was |
| ChunkBuffer.FixedSizeChunkBuffer.constructor | Extensions/src/Ncqrs.EventBus/FixedSizeChunkBuffer.cs:11-15 | one empty chunk |
| ChunkBuffer.FixedSizeChunkBuffer.Append | Extensions/src/Ncqrs.EventBus/FixedSizeChunkBuffer.cs:17-25 | only the tail list object changes; a list added to the storage is a new one |
| ChunkBuffer.FixedSizeChunkBuffer.TakeOne | Extensions/src/Ncqrs.EventBus/FixedSizeChunkBuffer.cs:27-40 | the returned list object is no longer in the storage, so no later call can change it |
| BufferedStore.SwitchLosesNothing | Extensions/src/Ncqrs.EventBus/InMemoryBufferedBrowsableElementStore.cs:23-65 | for any log growth, pushes and batch sizes, larger than asked for included: every entry past the start was returned, is buffered, is yet to be pushed, or is ahead of the persistent cursor while that is read; each source is handed out in order |
| BufferedStore.NothingLostExactlyForPositiveFetchSize | Extensions/src/Ncqrs.EventBus/InMemoryBufferedBrowsableElementStore.cs:16-54 | nothing is lost in any run if and only if the fetch size is at least 1 |
| BufferedStore.FetchFromLogKeeps | Extensions/src/Ncqrs.EventBus/InMemoryBufferedBrowsableElementStore.cs:42-65 | both switch conditions leave only entries ahead that are pushed |
| BufferedStore.SwitchesExactlyOnEmptyOrFirstPushed | Extensions/src/Ncqrs.EventBus/InMemoryBufferedBrowsableElementStore.cs:37-65 | in every run a fetch from the log ends in memory mode if and only if it found nothing or the entry that was pushed first; nothing else switches, and there is no way back |
| BufferedStore.EmptyBatchLoses | Extensions/src/Ncqrs.EventBus/InMemoryBufferedBrowsableElementStore.cs:49-52 | with a fetch size below 1 the first, empty batch switches to memory and an entry is lost |
| BufferedStore.TwiceExactlyWhenPushedBeforeCursor | Extensions/src/Ncqrs.EventBus/InMemoryBufferedBrowsableElementStore.cs:37-65 | an entry comes from both sources if and only if it was pushed and the persistent cursor has got past it; from each source it comes once |
| BufferedStore.CorrelationHandsOutTwice | Extensions/src/Ncqrs.EventBus/InMemoryBufferedBrowsableElementStore.cs:49-65 | the switch on meeting the first pushed entry always hands that entry out twice: it is in the batch just returned and first in the memory |
| BufferedStore.InMemoryBufferedBrowsableElementStore.Fetch | Extensions/src/Ncqrs.EventBus/InMemoryBufferedBrowsableElementStore.cs:23-35 | refuses any other size and then changes nothing; otherwise the batch comes from memory or the persistent store, and is what the history of that source gains |
| BufferedStore.InMemoryBufferedBrowsableElementStore.FetchFromMemory | Extensions/src/Ncqrs.EventBus/InMemoryBufferedBrowsableElementStore.cs:37-40 | hands out the oldest chunk |
| BufferedStore.InMemoryBufferedBrowsableElementStore.FetchFromPersistentStoreAndCorrelateWithBuffer | Extensions/src/Ncqrs.EventBus/InMemoryBufferedBrowsableElementStore.cs:42-54 | hands out the next stretch of the log and switches on an empty batch or on meeting the first pushed element |
| BufferedStore.InMemoryBufferedBrowsableElementStore.PushElement | Extensions/src/Ncqrs.EventBus/InMemoryBufferedBrowsableElementStore.cs:77-84 | buffers the element at the end and remembers the first one pushed |
| BufferedStore.InMemoryBufferedBrowsableElementStore.EnsureFirstPushedElementMarked | Extensions/src/Ncqrs.EventBus/InMemoryBufferedBrowsableElementStore.cs:86-92 | only the first pushed element is remembered |
| EventStreams.NewCommittedEventStream | Framework/src/Ncqrs/Eventing/CommittedEventStream.cs:61-126 | accepts exactly one source's consecutively numbered events, with the smallest and largest number, both occurring, as bounds; otherwise names the first offending position and which check it failed |
| EventStreams.LargestSequence | Framework/src/Ncqrs/Eventing/CommittedEventStream.cs:77 | a number that occurs and that none exceeds |
| EventStreams.UncommittedEventStream.Append | Framework/src/Ncqrs/Eventing/UncommittedEventStream.cs:33-49 | the event joins at the end; flag, single source and per-source information stay right for the whole list |
| EventStreams.UncommittedEventStream.UpdateEventSourceInformation | Framework/src/Ncqrs/Eventing/UncommittedEventStream.cs:51-55 | the source's entry is replaced by the new event's |
| EventStreams.InformationIsLatest | Framework/src/Ncqrs/Eventing/UncommittedEventStream.cs:51-63 | a source has information exactly when it has events, namely that of its latest |
| EventStreams.SourceMembers | Extensions/src/Ncqrs.Eventing.Storage.MongoDB/MongoDBEventStore.cs:362-364 | an event is among its own source's events and among the others of every other source |
| EventStreams.SourcesSplit | Extensions/src/Ncqrs.Eventing.Storage.MongoDB/MongoDBEventStore.cs:362-364 | splitting by source keeps every event as often as it occurs |
| EventStreams.SourcesKeepOrder | Extensions/src/Ncqrs.Eventing.Storage.MongoDB/MongoDBEventStore.cs:362-364 | what comes earlier in the stream comes earlier among its source's events |
| MongoStore.StoredGroup | Extensions/src/Ncqrs.Eventing.Storage.MongoDB/MongoDBEventStore.cs:344-358 | a group goes in exactly when nothing is recorded for its source or its initial version is the recorded one; then its events are appended, the version moves by their number, no other source changes; otherwise nothing changes and the outcome is the ConcurrencyException of the source and the version it would have got |
| MongoStore.SavedEvents | Extensions/src/Ncqrs.Eventing.Storage.MongoDB/MongoDBEventStore.cs:277-307 | saving appends the events in order and touches no version and no other source |
| MongoStore.SavedUnderNextIds | Extensions/src/Ncqrs.Eventing.Storage.MongoDB/MongoDBEventStore.cs:277-307 | each event is inserted at the end, under the next sequential id, and nothing already there changes |
| MongoStore.SingleSourceIsOneGroup | Extensions/src/Ncqrs.Eventing.Storage.MongoDB/MongoDBEventStore.cs:126-141 | for a stream of one source both branches of Store do the same |
| MongoStore.GroupsAreSources | Extensions/src/Ncqrs.Eventing.Storage.MongoDB/MongoDBEventStore.cs:360-371 | each group is all of one source's events in stream order, every event's source has a group, and no two groups share a source |
| MongoStore.GroupsInOrderOfAppearance | Extensions/src/Ncqrs.Eventing.Storage.MongoDB/MongoDBEventStore.cs:360-364 | groups come in the order in which their sources first appear in the stream |
| MongoStore.StoredStream | Extensions/src/Ncqrs.Eventing.Storage.MongoDB/MongoDBEventStore.cs:126-141 | Store goes through exactly when every source of the stream is accepted; then every source's events of the stream are appended to its own, in order, its version moves by their number, and no other source changes |
| MongoStore.StoredGroups | Extensions/src/Ncqrs.Eventing.Storage.MongoDB/MongoDBEventStore.cs:366-370 | the same for any groups of distinct sources |
| MongoStore.RefusedGroup | Extensions/src/Ncqrs.Eventing.Storage.MongoDB/MongoDBEventStore.cs:366-370 | otherwise what is stored is what the groups before the first refused one leave, that group is not accepted, and its ConcurrencyException is the outcome |
| MongoStore.OrderingAnyArrangement | Extensions/src/Ncqrs.Eventing.Storage.MongoDB/MongoDBEventStore.cs:97-105 | sorting any arrangement of an ascending list gives back that list |
| MongoStore.RangeIsSlice | Extensions/src/Ncqrs.Eventing.Storage.MongoDB/MongoDBEventStore.cs:99 | in a gapless history the version range is a contiguous stretch, clipped at both ends |
| MongoStore.RangeIsStream | Extensions/src/Ncqrs.Eventing.Storage.MongoDB/MongoDBEventStore.cs:99-105 | such a stretch is a stream the constructor accepts |
| MongoStore.RangeOfStream | Extensions/src/Ncqrs.Eventing.Storage.MongoDB/MongoDBEventStore.cs:99-105 | any version range of a stream is a stream |
| MongoOutcomes.ThrowsForFirstConflict | Extensions/src/Ncqrs.Eventing.Storage.MongoDB/MongoDBEventStore.cs:126-141 | a Store that does not go through ends with the ConcurrencyException of the first source, in order of appearance, for which another version is recorded; the sources that appear before it are stored whole, and no other is touched |
| MongoOutcomes.NeverDuplicateKey | Extensions/src/Ncqrs.Eventing.Storage.MongoDB/MongoDBEventStore.cs:344-358 | left alone, Store never ends with a duplicate key |
| MongoClass.MongoDBEventStore.AddEventSource | Extensions/src/Ncqrs.Eventing.Storage.MongoDB/MongoDBEventStore.cs:195-205 | inserts exactly when the id is free, otherwise throws and changes nothing |
| MongoClass.MongoDBEventStore.UpdateEventSourceVersion | Extensions/src/Ncqrs.Eventing.Storage.MongoDB/MongoDBEventStore.cs:373-387 | true exactly when the expected version was recorded and really changed |
| MongoClass.MongoDBEventStore.GetNextSequence | Extensions/src/Ncqrs.Eventing.Storage.MongoDB/MongoDBEventStore.cs:248-263 | hands out the incremented counter |
| MongoClass.MongoDBEventStore.SaveEvents | Extensions/src/Ncqrs.Eventing.Storage.MongoDB/MongoDBEventStore.cs:277-307 | the loop stores every event under the next sequential id |
| MongoClass.MongoDBEventStore.StoreEventsFromSource | Extensions/src/Ncqrs.Eventing.Storage.MongoDB/MongoDBEventStore.cs:344-358 | outcome and database of the specification, whose exception is exact in MongoStore.StoredGroup |
| MongoClass.MongoDBEventStore.StoreMultipleSources | Extensions/src/Ncqrs.Eventing.Storage.MongoDB/MongoDBEventStore.cs:360-371 | groups in order of first appearance; the first exception ends it and undoes nothing |
| MongoClass.MongoDBEventStore.StoreStream | Extensions/src/Ncqrs.Eventing.Storage.MongoDB/MongoDBEventStore.cs:126-141 | both branches and the empty stream agree with one specification |
| MongoClass.MongoDBEventStore.ReadFrom | Extensions/src/Ncqrs.Eventing.Storage.MongoDB/MongoDBEventStore.cs:87-106 | finds the events in range, sorts them, and yields a stream exactly when they make one |
| MongoRace.RunKeeps | Extensions/src/Ncqrs.Eventing.Storage.MongoDB/MongoDBEventStore.cs:265-307 | in every run of writers that hold harmless versions, with crashes: per source the winners chain up, only the last may have left a gap, the version is what they own, the stored events are theirs up to a point inside the last, every saving writer is that last winner, and a version a writer has read may be out of date but not below the one it loaded |
| MongoRace.HarmlessStays | Extensions/src/Ncqrs.Eventing.Storage.MongoDB/MongoDBEventStore.cs:344-371 | what is harmless, a version stored without a gap or one ahead of a source nobody wins any more, stays so |
| MongoRace.NotStaleExactlyWhenTaken | Extensions/src/Ncqrs.Eventing.Storage.MongoDB/MongoDBEventStore.cs:346-355 | what the writer read is still recorded and is the version it expects if and only if its initial version is the number of events owned by then |
| MongoRace.OneWinnerPerVersion | Extensions/src/Ncqrs.Eventing.Storage.MongoDB/MongoDBEventStore.cs:373-396 | of all writers starting from one version at most one wins |
| MongoRace.SourceWins | Extensions/src/Ncqrs.Eventing.Storage.MongoDB/MongoDBEventStore.cs:349-355 | a writer whose expected version is the recorded one finds everything recorded before already stored |
| MongoRace.SourceSaves | Extensions/src/Ncqrs.Eventing.Storage.MongoDB/MongoDBEventStore.cs:284-286 | the owner's next event extends the stored history and nothing else |
| MongoRace.OwnerHoldsSource | Extensions/src/Ncqrs.Eventing.Storage.MongoDB/MongoDBEventStore.cs:344-358 | while a writer still owns unsaved events the recorded version is ahead of what is stored, so no one else can win |
| MongoRace.ReadFromIsStretch | Extensions/src/Ncqrs.Eventing.Storage.MongoDB/MongoDBEventStore.cs:97-105 | whatever a reader finds at any point, in whatever order, is read as the stretch of the winners' history that was asked for |
| MongoRace.ReadsAreValidExactlyWhenConsecutive | Framework/src/Ncqrs/Eventing/CommittedEventStream.cs:81-126 | every such stretch passes validation if and only if the whole history has no gap after its first event; it is numbered 1..n if and only if it also starts at 1 |
| MongoRace.SequentialIdsAreUnique | Extensions/src/Ncqrs.Eventing.Storage.MongoDB/MongoDBEventStore.cs:248-263 | no two stored events share a sequential id, and no insert meets one that is taken |
| MongoRace.ReturnsExactlyWhenAllIsStored | Extensions/src/Ncqrs.Eventing.Storage.MongoDB/MongoDBEventStore.cs:126-141 | in every run of writers Store returns without an exception if and only if nothing is left to store |
| MongoUninterrupted.SavingAlone | Extensions/src/Ncqrs.Eventing.Storage.MongoDB/MongoDBEventStore.cs:284-286 | two uninterrupted database operations save each event |
| MongoUninterrupted.GroupsAlone | Extensions/src/Ncqrs.Eventing.Storage.MongoDB/MongoDBEventStore.cs:360-371 | an uninterrupted writer stops with the outcome, exception included, and the database that the sequential store of its groups gives |
| MongoUninterrupted.LeftAloneIsStore | Extensions/src/Ncqrs.Eventing.Storage.MongoDB/MongoDBEventStore.cs:126-141 | the interleaved model and the sequential Store agree on outcome, exception included, and database for every loaded stream |
| MongoSealed.SealedStays | Extensions/src/Ncqrs.Eventing.Storage.MongoDB/MongoDBEventStore.cs:344-358 | no step of writers on harmless versions gives a sealed source, one with a gap or cut short by a crash, a new winner |
| MongoUnits.SafeRunIsRace | Framework/src/Ncqrs/Domain/UnitOfWork.cs:63-106 | units of work that load up to any revision through any snapshot saved by then, or none, store, save snapshots and crash: while all saved snapshots are safe, every run is for the store a run of writers on harmless versions |
| MongoUnits.LoadIsHarmless | Framework/src/Ncqrs/Domain/UnitOfWork.cs:63-77 | through any harmless snapshot, or none, only harmless versions are loaded |
| MongoSnapshots.SafeIsAscending | Extensions/src/Ncqrs.Eventing.Storage.MongoDB/MongoDBEventStore.cs:289-307 | in every safe run the stored numbers of a source go up, so none is stored twice, and there are never more than the recorded version says |
| MongoSnapshots.SafeIsNumberedExactlyWhenGapless | Extensions/src/Ncqrs.Eventing.Storage.MongoDB/MongoDBEventStore.cs:289-307 | they are 1..n without a gap if and only if the stored part of the last winner's batch has no gap; earlier winners have none |
| MongoSnapshots.TidyIsNumbered | Extensions/src/Ncqrs.Eventing.Storage.MongoDB/MongoDBEventStore.cs:289-307 | in every safe run whose units of work leave no gap, every source is numbered 1..n |
| MongoSnapshots.SafeHasOneHolder | Extensions/src/Ncqrs.Eventing.Storage.MongoDB/MongoDBEventStore.cs:344-358 | in every safe run at most one writer per source is saving events of it |
| MongoSnapshots.SafeRefinesAtomicLog | Extensions/src/Ncqrs.Eventing.Storage.MongoDB/MongoDBEventStore.cs:344-396 | refinement, in every safe run: the insert or update a writer makes on what it read, however stale, takes effect if and only if its initial version is the length of the log at that moment, and otherwise makes Store throw, DuplicateKey when it had found no version and ConcurrencyException when it had; no other source changes, and no other act touches any log |
| MongoSnapshots.SafeIsWinnersInOrder | Extensions/src/Ncqrs.Eventing.Storage.MongoDB/MongoDBEventStore.cs:344-371 | in every safe run the stored history is the winners' batches in winning order, only the last possibly cut short |
| MongoSnapshots.WritableExactlyUnlessSealed | Extensions/src/Ncqrs.Eventing.Storage.MongoDB/MongoDBEventStore.cs:344-358 | in every state of a safe run some safe continuation gives the source a new winner if and only if no winner left a gap and what is recorded is stored or still held by a running writer |
| MongoSnapshots.SafeSealedIsForever | Extensions/src/Ncqrs.Eventing.Storage.MongoDB/MongoDBEventStore.cs:344-358 | a source sealed by a gap or a crash stays so in every safe continuation |
| MongoSnapshots.CutShortIsReachable | Extensions/src/Ncqrs.Eventing.Storage.MongoDB/MongoDBEventStore.cs:354-357 | a run that ends with a recorded version whose events no one will save |
| MongoSnapshots.GappedIsReachable | Extensions/src/Ncqrs.Eventing.Storage.MongoDB/MongoDBEventStore.cs:344-358 | a run that ends with a winner whose batch has a gap, the writer still saving |
| MongoAhead.AscendingExactlyForSafeSnapshots | Framework/src/Ncqrs/Domain/UnitOfWork.cs:91-106 | for every unit of work, of any number of sources and snapshots: all its snapshots are safe, of the version the batch itself leads to unless the batch has a gap, if and only if stored numbers go up in every run in which all other units of work are safe |
| MongoAhead.OneHolderExactlyForSafeSnapshots | Framework/src/Ncqrs/Domain/UnitOfWork.cs:91-106 | for every unit of work: its snapshots are safe if and only if in all those runs at most one writer per source saves events of it |
| MongoAhead.FinalExactlyForSafeSnapshots | Framework/src/Ncqrs/Domain/UnitOfWork.cs:91-106 | for every unit of work: its snapshots are safe if and only if in all those runs a sealed source stays sealed |
| MongoAhead.NumberedExactlyForTidyUnits | Framework/src/Ncqrs/Domain/UnitOfWork.cs:80-106 | for every unit of work: it is tidy if and only if all sources are numbered 1..n in every run in which all others are tidy |
| MongoAhead.TidyExactly | Framework/src/Ncqrs/Domain/UnitOfWork.cs:80-106 | a unit of work is tidy if and only if none of its batches has a gap and its snapshots are of the versions these lead to |
| MongoAhead.TwoHolders | Framework/src/Ncqrs/Domain/UnitOfWork.cs:97-106 | for every unsafe snapshot of any unit of work a run, all other units of work tidy, in which two writers hold the source |
| MongoAhead.OutOfOrder | Framework/src/Ncqrs/Domain/UnitOfWork.cs:97-106 | for every unsafe snapshot of any unit of work such a run that stores after a gap, and one that stores out of order |
| MongoAhead.RecordedIsNotEnough | Framework/src/Ncqrs/Domain/UnitOfWork.cs:97-106 | it does not help when the recorded version has reached the snapshot's by the time it is saved: that writer may still be saving |
| MongoAhead.CutShortIsWon | Framework/src/Ncqrs/Domain/UnitOfWork.cs:97-106 | for every unsafe snapshot of any unit of work such a run in which a source cut short by a crash gets a new winner |
| MongoAhead.StoredTwice | Framework/src/Ncqrs/Domain/UnitOfWork.cs:97-106 | a concrete run that stores events 1, 3 and 3 |
| EventSourcing.EventSource.InitializeFromSnapshot | Framework/src/Ncqrs/Eventing/Sourcing/EventSource.cs:91-98 | id and both versions are the snapshot's, handlers and state as before |
| EventSourcing.EventSource.InitializeFromHistory | Framework/src/Ncqrs/Eventing/Sourcing/EventSource.cs:104-129 | refuses uncommitted changes, does nothing for an empty history, else replays up to the first error and moves the initial version only without one |
| EventSourcing.EventSource.HandleEvent | Framework/src/Ncqrs/Eventing/Sourcing/EventSource.cs:148-168 | runs the handlers that were registered at the start, in order, collecting registrations and whether any was interested |
| EventSourcing.EventSource.ApplyEvent | Framework/src/Ncqrs/Eventing/Sourcing/EventSource.cs:170-187 | takes the next number, handles, and emits, or throws with the version already moved |
| EventSourcing.EventSource.GetNextSequence | Framework/src/Ncqrs/Eventing/Sourcing/EventSource.cs:189-201 | the next number, with the repair of a lost version |
| EventSourcing.EventSource.ApplyEventFromHistory | Framework/src/Ncqrs/Eventing/Sourcing/EventSource.cs:203-228 | both validations, then handling, then the version |
| EventSourcing.EventSource.Accept | Framework/src/Ncqrs/Eventing/Sourcing/EventSource.cs:230-234 | the initial version becomes the current one |
| EventSourcing.OneHandler | Framework/src/Ncqrs/Eventing/Sourcing/EventSource.cs:148-168 | one handler: its effect is the aggregate's, what it registers comes last, and its answer decides |
| EventSourcing.HandlersInOrder | Framework/src/Ncqrs/Eventing/Sourcing/EventSource.cs:148-168 | two stretches of the handler list run one after the other, and one of them being interested is enough |
| EventSourcing.ThrowsExactlyWhenNobodyHandles | Framework/src/Ncqrs/Eventing/Sourcing/EventSource.cs:148-187 | along the states the handlers leave one after another: a call throws if and only if none of those registered when it began is interested, the number used up either way, and otherwise emits the event with source, next number, initial version and payload; replaying the event fails in the same case |
| EventSourcing.ReplayFailsAtFirst | Framework/src/Ncqrs/Eventing/Sourcing/EventSource.cs:203-228 | a replay that fails has replayed everything before the first event that is another source's, or not numbered next, or handled by nobody, and which of these it was is its error |
| EventSourcing.RefusesHistoryExactlyWithChanges | Framework/src/Ncqrs/Eventing/Sourcing/EventSource.cs:104-115 | history is refused, and then nothing changes, if and only if there are changes not yet accepted, calls that threw included |
| EventSourcing.InitialNeverPassesCurrent | Framework/src/Ncqrs/Eventing/Sourcing/EventSource.cs:189-201 | through any operations, failing ones included, initial <= current, so the repair branch changes nothing: the next number is always current + 1 |
| EventSourcing.ReplayFollowsApply | Framework/src/Ncqrs/Eventing/Sourcing/EventSource.cs:170-209 | replaying the event a live call emitted takes the same step |
| EventSourcing.NewHandlersMissTheEvent | Framework/src/Ncqrs/Eventing/Sourcing/EventSource.cs:153-164 | handlers registered during an event have no influence on that event, live or replayed |
| EventSourcing.LiveEqualsReplay | Framework/src/Ncqrs/Eventing/Sourcing/EventSource.cs:148-228 | any run of handled calls emits consecutive numbers, and replaying them gives the same state, handlers and version, also when handlers register handlers |
| EventSourcing.ReloadingEqualsLive | Framework/src/Ncqrs/Eventing/Sourcing/EventSource.cs:104-187 | on a fresh source the numbers are 1..n, the events make a stream the constructor accepts, and loading it elsewhere gives the live aggregate with its changes accepted |
| EventSourcing.GapsExactlyAfterExceptions | Framework/src/Ncqrs/Eventing/Sourcing/EventSource.cs:170-187 | emitted numbers are consecutive if and only if no event was emitted after a call that threw |
| EventSourcing.EveryCallMovesTheVersion | Framework/src/Ncqrs/Eventing/Sourcing/EventSource.cs:170-201 | every call, handled or not, uses up one number |
| EventSourcing.EmittedAscend | Framework/src/Ncqrs/Eventing/Sourcing/EventSource.cs:170-187 | whatever was handled, the emitted events are the source's, on top of its initial version, with numbers that go up to the current version |
| EventSourcing.ReplayNumbers | Framework/src/Ncqrs/Eventing/Sourcing/EventSource.cs:203-228 | what replays without an error carries exactly the next numbers |
| Loading.SnapshotEqualsReplayExactlyWhenFaithful | Framework/src/Ncqrs/Domain/UnitOfWork.cs:63-77 | loading from a snapshot taken at version k equals full replay for every maximum from k on, if and only if no handler was registered since creation, restoring inverts creating, and the validator accepts |
| Loading.FaithfulSnapshotLoads | Framework/src/Ncqrs/Domain/Storage/DomainRepository.cs:23-31 | the sufficient half, for each maximum: id, state, handlers and both versions agree, errors included |
| Loading.UnfaithfulSnapshotDiffers | Framework/src/Ncqrs/Domain/Storage/DefaultAggregateSnapshotter.cs:24-50 | the necessary half: an unfaithful snapshot already loads differently at its own version |
| Loading.SnapshotForgetsHandlers | Framework/src/Ncqrs/Domain/Storage/DefaultAggregateSnapshotter.cs:34-44 | a concrete aggregate whose handler, registered by the first event, is missing after loading from the snapshot |
| Loading.RejectedSnapshotLosesAggregate | Framework/src/Ncqrs/Domain/Storage/DomainRepository.cs:27-28 | a snapshot the validator rejects still limits what is read: nothing is loaded, or the load fails on the first number |
| Loading.FullLoad | Framework/src/Ncqrs/Domain/Storage/DomainRepository.cs:40-53 | without a snapshot the load is the replay of the events up to the maximum, ending at that version |
| Loading.NullExactlyWhenNothingStored | Framework/src/Ncqrs/Domain/Storage/DomainRepository.cs:40-53 | without a snapshot null is loaded if and only if nothing is stored up to the revision asked for |
| Loading.SnapshotLoad | Framework/src/Ncqrs/Domain/Storage/DefaultAggregateSnapshotter.cs:34-46 | with one it is the replay of the later events on the restored aggregate |
| Loading.ReplayInTwoStretches | Framework/src/Ncqrs/Eventing/Sourcing/EventSource.cs:104-129 | replaying a prefix and then the rest equals replaying it all |
| LoadedReplays.LoadsReplaysExactlyWhenFaithful | Framework/src/Ncqrs/Domain/UnitOfWork.cs:63-77 | whatever is stored, gaps included: every load, up to every revision, gives the replay of a prefix numbered 1..n with both versions n, if and only if the latest snapshot restores to an aggregate that loads without it |
| LoadedReplays.LoadedIsReplay | Framework/src/Ncqrs/Domain/UnitOfWork.cs:63-77 | the sufficient half for one load: of everything stored up to the revision |
| LoadedReplays.FaithfulStays | Framework/src/Ncqrs/Domain/UnitOfWork.cs:69-74 | a faithful snapshot stays faithful whatever is stored later |
| LoadedReplays.LoadedHasVersion | Framework/src/Ncqrs/Domain/UnitOfWork.cs:63-77 | whatever is loaded, through whatever snapshot, has the version that the snapshot's version and the stored numbers alone determine |
| LoadedReplays.CorruptExactlyForGaps | Framework/src/Ncqrs/Eventing/CommittedEventStream.cs:61-126 | a load fails in the stream's constructor if and only if a number is missing between two of the stored events it reads, those after the snapshot it uses up to the revision asked for |
| LoadedReplays.ChangesNothingExactlyWhenFaithful | Framework/src/Ncqrs/Domain/UnitOfWork.cs:69-74 | over a gapless history the latest snapshot changes the result of no load, whatever the revision, if and only if it is faithful |
| Repositories.DefaultAggregateSnapshotter.TryLoadFromSnapshot | Framework/src/Ncqrs/Domain/Storage/DefaultAggregateSnapshotter.cs:24-50 | false exactly when there is no snapshot or it is rejected; otherwise a new instance, or the exception, of the specification |
| Repositories.DefaultAggregateSnapshotter.TryTakeSnapshot | Framework/src/Ncqrs/Domain/Storage/DefaultAggregateSnapshotter.cs:52-64 | id, current version and created payload, or nothing when the class has no snapshots |
| Repositories.DomainRepository.Load | Framework/src/Ncqrs/Domain/Storage/DomainRepository.cs:23-31 | from the snapshot when that works out, else from scratch; the instance is new |
| Repositories.DomainRepository.GetByIdFromScratch | Framework/src/Ncqrs/Domain/Storage/DomainRepository.cs:40-53 | null for an empty stream, otherwise a replayed new instance |
| Repositories.SnapshotStore.GetSnapshot | Extensions/src/Ncqrs.Eventing.Storage.MongoDB/MongoDBEventStore.cs:63-85 | the latest snapshot unless it is beyond the maximum, even if an older one is not |
| Repositories.LatestIsLargest | Extensions/src/Ncqrs.Eventing.Storage.MongoDB/MongoDBEventStore.cs:65-70 | the latest snapshot is one of the source's and none of them has a larger version |
| Repositories.UnitOfWork.GetById | Framework/src/Ncqrs/Domain/UnitOfWork.cs:63-77 | over anything that is stored: the instance, null or exception the load specification gives, the exception of the stream's constructor included |
| Repositories.UnitOfWork.AggregateRootEventAppliedHandler | Framework/src/Ncqrs/Domain/UnitOfWork.cs:46-50 | the event joins the stream and its aggregate the dirty instances, once |
| Repositories.UnitOfWork.RegisterDirtyInstance | Framework/src/Ncqrs/Domain/UnitOfWork.cs:110-120 | no instance is registered twice |
| Repositories.UnitOfWork.Accept | Framework/src/Ncqrs/Domain/UnitOfWork.cs:80-89 | stores first; only when that succeeds are the events published and the snapshots taken |
| Repositories.UnitOfWork.CreateSnapshots | Framework/src/Ncqrs/Domain/UnitOfWork.cs:91-106 | appends the snapshots of the specification function, which are exactly those of SnapshotsAreOfPicked |
| Repositories.SnapshotsAreOfPicked | Framework/src/Ncqrs/Domain/UnitOfWork.cs:91-106 | one snapshot for each dirty instance the policy picks and for no other, in order, with its id, version and created payload; none when the class cannot create snapshots |
| UnitsOfWork.StoreAfterLoad | Framework/src/Ncqrs/Domain/UnitOfWork.cs:63-89 | create or load up to any revision with any faithful snapshot, apply, store: the store takes the events if and only if the aggregate was up to date, no other source changes, and the history stays complete if and only if nothing was emitted after a call that threw |
| UnitsOfWork.StoreThenLoad | Framework/src/Ncqrs/Domain/UnitOfWork.cs:63-89 | loading again gives the live aggregate with its changes accepted, id, state, handlers and versions, if and only if no call threw |
| UnitsOfWork.SwallowedExceptionLeavesGap | Framework/src/Ncqrs/Eventing/Sourcing/EventSource.cs:166-187 | a concrete aggregate whose first call throws: event 2 is stored alone, and the aggregate cannot be loaded again |
| UnitsOfWork.OwnSnapshotLoads | Framework/src/Ncqrs/Domain/UnitOfWork.cs:91-106 | the snapshot a unit of work takes of its own aggregate loads, at the version the aggregate had |
| UnitsOfWork.OwnSnapshotIsFaithfulExactlyWithoutExceptions | Framework/src/Ncqrs/Domain/UnitOfWork.cs:91-106 | it restores what loading without it gives if and only if no call threw before it was taken |
| UnitsOfWork.OwnSnapshotIsWritableExactlyWithoutExceptions | Framework/src/Ncqrs/Domain/UnitOfWork.cs:80-106 | right after the store, before anyone else records a version, events applied on top of it are accepted if and only if no call threw |
| UnitsOfWork.SnapshotLosesEvent | Framework/src/Ncqrs/Domain/Storage/DefaultAggregateSnapshotter.cs:52-64 | concretely, from an empty database: event 1 is stored, the last call threw, another unit of work loads version 1 and stores event 2; then loading through the snapshot misses event 2, and event 3 on top of that is stored |
| UnitsOfWork.EmittedIsBatch | Framework/src/Ncqrs/Domain/UnitOfWork.cs:46-50 | what an aggregate emits, calls that threw or not, is one batch on top of its loaded version, with a gap if and only if something was emitted after a call that threw |
| UnitsOfWork.WorkIsReplay | Framework/src/Ncqrs/Domain/UnitOfWork.cs:63-77 | an aggregate created or loaded in any of these ways is the replay of as many stored events as its initial version says |
| UnitsOfWork.LoadedWorkMayBegin | Framework/src/Ncqrs/Domain/UnitOfWork.cs:63-89 | whatever several aggregates, one a source, newly created or loaded at any points of any run through any snapshot saved before, or none, have applied, calls that threw or not: what they hand over is what may begin in the interleaved runs |
| UnitsOfWork.SafeExactlyWithoutTrailingExceptions | Framework/src/Ncqrs/Domain/UnitOfWork.cs:91-106 | its snapshots are safe if and only if no aggregate it takes one of had calls that threw, all of them after its last event |
| UnitsOfWork.GaplessExactlyWithoutEventsAfterExceptions | Framework/src/Ncqrs/Domain/UnitOfWork.cs:46-50 | it leaves no gap if and only if none of its aggregates emitted anything after a call that threw |
| UnitsOfWork.StoredOnlyGrows | Extensions/src/Ncqrs.Eventing.Storage.MongoDB/MongoDBEventStore.cs:277-307 | no step of a concurrent run removes or reorders stored events |
| CommitCursor.JoesBrowsableEventStore.Fetch | Extensions/src/Ncqrs.Eventing.Storage.JOliver/JoesBrowsableEventStore.cs:27-49 | one fully enumerated fetch moves the two fields as the specification says, and yields what it delivers |
| CommitCursor.DeliversEveryCommitOnce | Extensions/src/Ncqrs.Eventing.Storage.JOliver/JoesBrowsableEventStore.cs:27-49 | over any fetch sizes and log growth: delivered are, in order and once each, the events of all commits from the last marked one inclusively up to the cursor |
| CommitCursor.FetchDelivers | Extensions/src/Ncqrs.Eventing.Storage.JOliver/JoesBrowsableEventStore.cs:33-48 | one fetch continues exactly where the last one ended and says how far it gets |
| CommitCursor.SkipLast | Extensions/src/Ncqrs.Eventing.Storage.JOliver/JoesBrowsableEventStore.cs:37-40 | re-reading the last commit, which the inclusive query returns again, delivers nothing twice |
| CommitCursor.ProgressExactlyFromTwo | Extensions/src/Ncqrs.Eventing.Storage.JOliver/JoesBrowsableEventStore.cs:27-49 | a fetch makes progress whenever newer commits exist, at every point of every run, if and only if maxCount is at least 2 |
| CommitCursor.StuckOnLast | Extensions/src/Ncqrs.Eventing.Storage.JOliver/JoesBrowsableEventStore.cs:37-40 | for smaller sizes a concrete run does not get past the last delivered commit |
| GuidComb.WriteTimeKey | Framework/src/Ncqrs/GuidCombGenerator.cs:26-41 | the first ten bytes are untouched, the last six are two bytes of days and four of units, most significant first |
| GuidComb.KeyValue | Framework/src/Ncqrs/GuidCombGenerator.cs:32-41 | as a number the key is days cut to 16 bits times 2^32 plus the units of the day, which are never cut |
| GuidComb.KeyTellsTime | Framework/src/Ncqrs/GuidCombGenerator.cs:25-41 | read back as a number, a key gives the day modulo 65536 and the unit of the day, each of 33333.33 ticks, that the time lies in |
| GuidComb.KeysFollowTime | Framework/src/Ncqrs/GuidCombGenerator.cs:26-41 | within the same 65536 days byte order never goes against time and is strict from 3.3334 ms on |
| GuidComb.KeysWrapOnDay65536 | Framework/src/Ncqrs/GuidCombGenerator.cs:40 | the first key of day 65536 is below the key one tick earlier |
| GuidComb.KeysFollowTimeExactlyBeforeDay65536 | Framework/src/Ncqrs/GuidCombGenerator.cs:26-41 | byte order never goes against time up to a limit if and only if the limit comes before day 65536 |
| GuidComb.ByteOrderIsValueOrder | Framework/src/Ncqrs/GuidCombGenerator.cs:35-41 | comparing the bytes from the left is comparing the numbers |
| GuidComb.ArrayReverse | Framework/src/Ncqrs/GuidCombGenerator.cs:36-37 | every byte ends at the mirrored position |

## Left out

- Eventual processing: false of the demultiplexer, see above.
- Fetch policy, timers, cancellation and thread scheduling: any order of the threads' steps is allowed instead. How many
  elements may be pending is not bounded, since several fetches can be queued before the flag that prevents it is set.
- More than one processor thread: `MaxDegreeOfParallelismForProcessing` is 1 in the code and in the model.
- Wrap-around of 32- and 64-bit counters and versions, and the narrowing of the version to `int` in `GetVersion`
  (`Extensions/src/Ncqrs.Eventing.Storage.MongoDB/MongoDBEventStore.cs:273`).
- `GetEventsAfter` of the MongoDB store: sequential ids are taken before the insert, so a concurrent reader may pass an
  id that is inserted later. The buffered store and the commit cursor are modelled over an append-only log.
- Atomicity of `Store` across sources: not promised; what stays is exact in `MongoOutcomes.ThrowsForFirstConflict`.
- `UncommittedEventStream.CurrentVersion` (it returns the initial version), commit ids, event ids, timestamps and event
  type versions: carried along unchanged.
- Null references among the events of a committed stream.
- Handlers that call `ApplyEvent` or throw while handling.
- A `JoesBrowsableEventStore.Fetch` abandoned half-way through its enumeration.
- Database order within one `find` of `ReadFrom`: the class returns storage order before sorting;
  `MongoRace.ReadFromIsStretch` covers every order.
- Time keys for instants before 1900; the division by 3.333333 is exact instead of floating point; the random bytes of
  the GUID are arbitrary.
- More than one state type among the aggregates of one unit of work: they share one, which may be a union.
- SQL, SQLite, Postgres, Raven and Azure stores: their guarantees lie in query text and transaction isolation.
- Serialization, reflection, proxies, emitted assemblies, type resolution and container integrations.
- Command service, interceptors, environment, messaging, samples, web services and read models: thin dispatch.

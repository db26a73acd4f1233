# Thresh: journaling, durable jobs, value graphs and the hash ring

Thresh is a virtual-actor runtime. This project models four of its parts in Dafny and proves what
they promise.

* **Journaling.** One append-only log per grain holds the operations of all of the grain's durable
  structures. `DurableMachines` has the five structures as values, `DurableLaws` what their operations
  leave, and `DurableStructures` has them as objects that change in place; `JournalManager`,
  `JournalCompaction` and `JournalFencing` say what the manager does to the log and its memory, when
  it compacts, and what holds for any number of managers on one log;
  `StateMachineManager` has the manager and the memory store as classes proved against that. The two
  log views follow the same pattern: `LogView`, `LogViewHistory`, `LogViewAttempts`, `LogViewRuns` and
  the class in `LogViewAdaptor` for the one that journals through the manager; `CustomStorage`,
  `CustomStorageBooks`, `CustomStorageViews`, `CustomStorageRuns`, `CustomStorageLags`,
  `CustomStorageProgress` and the class in `CustomStorageAdaptor` for the one that writes to a host
  other writers write to as well. `StructuralKeys` is the durable set's key.
* **Durable jobs.** `JobShardStore` is the shard store and `JobShardStoreLaws` what it stores entry by
  entry, `ShardOwnership` the protocol of claiming, adopting, resuming, draining and releasing shards
  as a transition system whose steps are the stretches of code between two awaits, `ShardSafety` what
  holds over its runs, `ClaimLaws` how many shards a reconciliation claims and which, and
  `LocalDurableJobManager` the manager as a class. `JobQueue`, `ShardExecutor`,
  `ExecutorConservation`, `ExecutorLaws` and the classes in `ShardExecutorLoop` are the scheduler
  below it; `Tombstones` runs it against the store with crashes and reloads.
* **Value graphs.** `ValueGraph` and `CancellationWalk` are the rewrite that replaces cancellation
  values in an argument graph; `ValueCodec`, `ValueCodecRoundTrip`, `ValueCodecLaws` and
  `ValueEncoder` the recursive codec, on trees and on heaps with sharing and cycles; `Base64`,
  `Base64Numbers` and `Decimal` its byte and number formats.
* **The consistent-hash ring.** `HashRing`, with `stableHash32` as an uninterpreted function.

Storage calls may fail before or after they take effect: a `Fate` says so for the journal, a
`Weather` for the custom host, and the failing steps of the transition systems for the rest. Clocks
and timers are inputs: a step is given the time at which it happens.

`OrderedMap` is JavaScript's `Map`: a sequence of entries in insertion order. `Sorting` is
`Array.prototype.sort` as any stable sort. `Text` is strings as sequences of UTF-16 code units.

## Where the code differs from what it promises

The code is modelled as it is. Where a promise fails, a lemma gives an input that shows it, and
another says exactly when it holds.

* A structural key loses own `__proto__` properties, because the canonical copy is built by
  assignment. `{"__proto__": null}` and `{}` share a key (`ProtoKeyCollision`); the values that
  collide with a different one are exactly those with such a property (`CollidesIffProtoKey`).
* `tryAppendRange` of the journaled log view withdraws its own range from the queue when a re-read
  finds it stored, but not the events that were pending before it and were stored by the same
  write; the next confirm stores those twice (`EarlierEventsStoredTwice`). It leaves nothing behind
  exactly when nothing was pending (`NothingStoredStaysPendingIff`). After an append whose re-read
  failed too, the view lags behind the log, and a later range can be answered `true` without being
  stored (`ThrownAppendThenFalseTrue`); answers can be trusted exactly when fewer events are stored
  than the version the range would land at (`AnswersTruthfulIffNotBehind`).
* In the custom-storage view, a conditional raise between the end of a confirm loop and the
  `finally` callback that uninstalls it awaits a loop that is over, and is left unanswered with no
  loop running; if that loop had ended by a failed re-read, its caller gets that failure instead.
  Every other raise is served (`RaiseIsServedIff`).
* The tentative view of custom storage is meant to be the confirmed view with the queue on top. A
  loop that drops stale entries and goes on to write does not rebuild it, so when such a loop ends by
  a failed re-read a dropped entry stays visible (`DroppedEntryStaysVisible`). The view is right
  exactly when no caller has been told `false` by a loop that went on to write, and no fold has
  thrown, since a read or write last succeeded, a loop gave up, or a loop dropped all it had
  (`TentativeIsRightIff`).
* When a transition throws while a written batch is folded in, storage is to be the truth: it is read
  again. If that fails too, the confirmed view has lost an event and the version is already past it. A
  later loop that wins its compare-and-set notices nothing and ends drained, without the event
  (`TornViewOutlivesItsLoop`). The confirmed view is whole exactly when no fold has thrown since
  storage was last read (`ConfirmedIsWholeIff`). The conditional entries of such a batch are in
  storage while their callers see the failure (`AbandonedIsStored`); every other conditional entry is
  answered when a loop ends without a failed re-read (`LoopEndSettlesEveryone`).
* When `stop()` begins while a claim is in flight for a shard whose executor is already running
  here (the claim of a second caller), the claim's continuation releases the shard before it is
  drained. Two silos may then execute it (`TwoSilosAfterEarlyRelease`). Among legal steps this one
  alone breaks the ownership invariant (`SafeIffNoEarlyRelease`).
* `mapCancellationValues` compares members with `!==`, so a container that holds `NaN` is copied
  though nothing in it changed, and an object that is rebuilt loses an own `__proto__` member. The
  result is naive substitution exactly when no rebuilt object has one (`RewritesAsSubstitution`); a
  container comes back by identity exactly when nothing below is replaced or `NaN` (`TouchedIff`).
* The slow-start ceiling is described as growing with time. With a growth factor below one it falls
  back to one job; `CeilingOnlyGrowsIff` says exactly under which options it never falls.
* The comment on `rangesFor` says that the arcs of all silos tile the hash space. With one vnode, or
  with all vnodes on one hash, every arc is empty; they tile exactly when two vnode hashes differ
  (`ArcsTileIffTwoHashes`).
* `decodeValue` undoes `encodeValue` exactly for the values in which no object has a key in
  `DANGEROUS_KEYS` or an own string member `$thresh` that names a built-in tag (`EncodeDecode`). The
  second condition is narrower than forbidding every `$thresh` string: an unknown tag decodes as the
  plain object it was.

## Model

| member | source | states |
|---|---|---|
| StructuralKeys.PrintInjective | packages/journaling/src/durable-set-impl.ts:20-25 | Two printable values with the same `JSON.stringify` text are the same value: strings are escaped and numbers, lists and objects delimited so that no two texts coincide. |
| StructuralKeys.KeyDecidesKeyEquality | packages/journaling/src/durable-set-impl.ts:20-36 | Structural keys agree exactly when the values are equal up to property order at every depth, own `__proto__` properties apart. |
| StructuralKeys.KeyDecidesValueEquality | packages/journaling/src/durable-set-impl.ts:20-36 | For JSON values without own `__proto__` properties, keys agree exactly when the values are equal up to property order. |
| StructuralKeys.CollidesIffProtoKey | packages/journaling/src/durable-set-impl.ts:27-36 | A value shares its key with a different value free of `__proto__` exactly when it has an own `__proto__` property somewhere. |
| StructuralKeys.ProtoKeyCollision | packages/journaling/src/durable-set-impl.ts:27-36 | The smallest such collision. |
| DurableMachines.SetHoldsOnePerClass | packages/journaling/src/durable-set-impl.ts:55-113 | After any run of set operations no two members are equal, and `has` answers whether an equal value is a member. |
| DurableMachines.SnapshotRebuilds | packages/journaling/src/state-machine-manager-impl.ts:155-182 | For each of the six machines, a snapshot applied to a reset machine rebuilds the state it was taken of. |
| DurableMachines.RunRespectsSame | packages/journaling/src/state-machine-manager-impl.ts:91-124 | States that are the same (for the log view: same view and version) stay the same under every further run of operations. |
| DurableMachines.ApplyKeepsOk | packages/journaling/src/durable-set-impl.ts:92-109 | An operation keeps a machine's invariant (entries filed under their own keys, each key once) and its kind. |
| DurableMachines.QueueIsFifo | packages/journaling/src/durable-queue-impl.ts:77-101 | After any run, what has entered since the last clear or load and has not left is in the queue, in the order it entered. |
| DurableMachines.DictionaryHoldsLastWrite | packages/journaling/src/durable-dictionary-impl.ts:63-88 | After any run the dictionary answers for every key with the value last written under it, or not at all if it was removed since. |
| DurableLaws.ListPositions | packages/journaling/src/durable-list-impl.ts:84-106 | What `add`, `set`, `insert`, `removeAt`, `clear` and `load` leave at every position of a list, and the new length; an index may be negative or past the end. |
| DurableLaws.ValueHoldsLastSet | packages/journaling/src/durable-value-impl.ts:42-51 | After any run a value is the one last set, or absent if it was cleared since. |
| DurableLaws.SetHoldsLastAdded | packages/journaling/src/durable-set-impl.ts:92-109 | After any run a value is a member exactly when the last operation that touched its class added it or was a load that contained it, and the member stored is the one last added. |
| DurableStructures.DurableSet.Apply | packages/journaling/src/durable-set-impl.ts:92-109 | The map updated in place holds what the set machine holds after the operation, so what `SetHoldsLastAdded` says of that holds of the object. |
| DurableStructures.DurableSet.Snapshot | packages/journaling/src/durable-set-impl.ts:111-113 | The load operation with the members in order; the set is unchanged. |
| JournalManager.CompactionPreservesMeaning | packages/journaling/src/state-machine-manager-impl.ts:155-182 | The log a compaction writes gives every name the state the old log gave it: a registered one under its kind, an unregistered one whatever it is registered as later; only a name whose grace runs out starts afresh. |
| JournalManager.CompactionPreservesReplay | packages/journaling/src/state-machine-manager-impl.ts:91-182 | Any later activation replays the compacted log to the machines the old log would have given it, names purged by the compaction apart; it may register any names, and those that were registered at the compaction under the kind they had. |
| JournalManager.GraceCountsCompactions | packages/journaling/src/state-machine-manager-impl.ts:155-182 | Through any number of compactions, an unregistered name's operations stay in the log whole and in order until its count reaches the grace limit, and are gone from then on. |
| JournalManager.RetiringHoldsPayloads | packages/journaling/src/state-machine-manager-impl.ts:91-124 | Replay buffers exactly the unregistered names the log mentions, each with exactly the payloads the log holds for it. |
| JournalManager.AppendKeepsInStep | packages/journaling/src/state-machine-manager-impl.ts:130-153 | After a successful write the manager again holds what a fresh replay of the log would build. |
| JournalManager.CompactKeepsInStep | packages/journaling/src/state-machine-manager-impl.ts:155-182 | After a compaction the manager again holds what a fresh replay of the new log would build, live count and retirement records included. |
| JournalCompaction.AppendCompactsWhenDue | packages/journaling/src/state-machine-manager-impl.ts:130-153 | An answered append with an answered compaction: when the live count and the new operations reach both the threshold and one more than the machines, the log is one snapshot per machine and the vessels with grace left, two versions on; otherwise it is the old entries and the new operations, one version on. |
| JournalCompaction.LostCompaction | packages/journaling/src/state-machine-manager-impl.ts:144-152 | An append whose compaction fails still succeeds, once; the log is the longer one or the compacted one, the manager keeps its live count and retirement records, and it is behind the log exactly if the compaction took effect. |
| JournalCompaction.OneAppend | packages/journaling/src/state-machine-manager-impl.ts:130-182 | From a manager in step with its log, one such append leaves it in step, with the same names, and fewer operations in the log than the threshold, or no more than there are machines. |
| JournalCompaction.OpsStayBounded | packages/journaling/src/state-machine-manager-impl.ts:130-182 | Operations do not pile up: the same bound holds after any run of answered appends to any of the machines. |
| JournalFencing.Fencing | packages/journaling/src/state-machine-manager-impl.ts:91-182 | After any interleaving of activations, replays, appends and compactions by any number of managers on one log, with calls lost before or after they took effect: a manager at the stored version holds what a fresh replay builds; one at any other version changes neither the log nor its own memory. |
| JournalFencing.StaleWritesChangeNothing | packages/journaling/src/memory-journal-storage.ts:25-72 | An append or compaction expecting any version but the stored one changes neither log nor manager, whatever becomes of the call. |
| StateMachineManager.MemoryJournalStorage.Read | packages/journaling/src/memory-journal-storage.ts:19-23 | The stored entries and version, or none. |
| StateMachineManager.MemoryJournalStorage.Append | packages/journaling/src/memory-journal-storage.ts:25-39 | Appends and moves the version on exactly when the expected version is the stored one; otherwise a conflict and no change; other logs are untouched. |
| StateMachineManager.MemoryJournalStorage.Replace | packages/journaling/src/memory-journal-storage.ts:41-53 | The same for replacing the whole log. |
| StateMachineManager.MemoryJournalStorage.Clear | packages/journaling/src/memory-journal-storage.ts:55-57 | The log is gone, version included; other logs are untouched. |
| StateMachineManager.StateMachineManager.Register | packages/journaling/src/state-machine-manager-impl.ts:82-89 | A new name is registered as a reset machine behind the others; a duplicate is refused and changes nothing. |
| StateMachineManager.StateMachineManager.Replay | packages/journaling/src/state-machine-manager-impl.ts:91-124 | The loop over the log leaves the manager as the fresh replay of its registrations. |
| StateMachineManager.StateMachineManager.AppendRange | packages/journaling/src/state-machine-manager-impl.ts:130-153 | Write first, then apply; then compact when due, its failure hidden from the caller. Manager, log and outcome are those of the specification, of which `AppendCompactsWhenDue` and `LostCompaction` say what they are. |
| StateMachineManager.StateMachineManager.Compact | packages/journaling/src/state-machine-manager-impl.ts:155-182 | Snapshots, then aged vessels; a vessel at its limit is dropped; nothing in memory changes unless the write is answered. |
| StateMachineManager.StateMachineManager.Clear | packages/journaling/src/state-machine-manager-impl.ts:184-190 | The log is gone and every machine reset; version, live count and retirement records start over. |
| LogView.RemovedSuffix | packages/journaling/src/log-view-adaptor-impl.ts:165-173 | Withdrawing the events submitted last, by their values and from the back, leaves exactly what was pending before them, equal events included. |
| LogViewHistory.TryAppendTruthful | packages/journaling/src/log-view-adaptor-impl.ts:95-173 | For a sole writer with no confirm in flight: `true` means the range was stored once, contiguous, right after what was pending; `false` means none of it is stored or pending; a throw leaves it whole or not at all in the log, and not pending. |
| LogViewHistory.AnswersTruthfulIffNotBehind | packages/journaling/src/log-view-adaptor-impl.ts:117-150 | Answers are truthful under every failure of storage exactly when fewer events are stored than the version the range would land at. |
| LogViewHistory.EarlierEventsStoredTwice | packages/journaling/src/log-view-adaptor-impl.ts:117-173 | With anything pending, a landed write whose answer is lost makes the next confirm store the earlier events a second time. |
| LogViewHistory.NothingStoredStaysPendingIff | packages/journaling/src/log-view-adaptor-impl.ts:117-173 | For a view up to date or behind: no append that is answered `true` leaves anything pending, exactly when nothing was pending before it. |
| LogViewHistory.ThrownAppendThenFalseTrue | packages/journaling/src/log-view-adaptor-impl.ts:117-150 | From every log view in step with its log: after an append that threw, the next one of no more events can be answered `true` with nothing of it stored, whatever is pending. |
| LogViewAttempts.LandsWithinFive | packages/journaling/src/log-view-adaptor-impl.ts:117-150 | An append whose requests are lost lands with the first answered attempt if it is one of the first five: the range is stored right after what was pending, nothing stays pending, and the answer is `true`. |
| LogViewAttempts.GivesUpAfterFive | packages/journaling/src/log-view-adaptor-impl.ts:144-147 | After five lost attempts the answer is `false`, the log is unchanged, and what was pending before is still pending, without the range. |
| LogViewAttempts.ConflictDrops | packages/journaling/src/log-view-adaptor-impl.ts:126-127 | A conflict is answered `false` at once; nothing is stored, and the whole queue is dropped. |
| LogViewHistory.SegmentIsHistory | packages/journaling/src/log-view-adaptor-impl.ts:235-244 | A segment is answered exactly when it lies within what is retained, and is then that stretch of the history, even from a stale incarnation. |
| LogViewRuns.LogViewRun | packages/journaling/src/log-view-adaptor-impl.ts:85-282 | After any run of raises, confirms (the write and the compaction it makes due apart), appends, re-reads, withdrawals, compactions, replays and clears by any number of incarnations, running between each other's storage calls: the confirmed view is the fold of the history up to its version, all of it at the stored version; the tentative view adds exactly what is in flight and pending, and the count is theirs and that of a batch whose append has not returned; every answered segment is that stretch of history. |
| LogViewRuns.AppendIsTurns | packages/journaling/src/log-view-adaptor-impl.ts:117-173 | An append has the effect of a sequence of turns: its raise first, and after it only the beginnings, writes and compactions of confirms, re-reads and withdrawals; so a run with other incarnations between its attempts is one of these runs. |
| LogViewAdaptor.LogViewAdaptor.Submit | packages/journaling/src/log-view-adaptor-impl.ts:85-89 | The event joins the queue and the tentative view, and is counted. |
| LogViewAdaptor.LogViewAdaptor.SubmitRange | packages/journaling/src/log-view-adaptor-impl.ts:91-93 | The events are submitted one after the other, in order. |
| LogViewAdaptor.LogViewAdaptor.RunConfirmLoop | packages/journaling/src/log-view-adaptor-impl.ts:189-233 | One group commit of everything pending; a failed write puts the batch back in front of the queue. |
| LogViewAdaptor.LogViewAdaptor.Resync | packages/journaling/src/log-view-adaptor-impl.ts:156-162 | The log is replayed and what was pending is kept, the tentative view being rebuilt over it. |
| LogViewAdaptor.LogViewAdaptor.Withdraw | packages/journaling/src/log-view-adaptor-impl.ts:165-173 | The backward search and splice take each event out of the queue at its last occurrence. |
| LogViewAdaptor.LogViewAdaptor.TryAppendRange | packages/journaling/src/log-view-adaptor-impl.ts:117-150 | The retry loop, submission to answer, ends as the specification's appends end, whatever becomes of each storage call. |
| LogViewAdaptor.LogViewAdaptor.RetrieveLogSegment | packages/journaling/src/log-view-adaptor-impl.ts:235-244 | The segment of the specification, or the refusal. |
| LogViewAdaptor.LogViewAdaptor.ClearLog | packages/journaling/src/log-view-adaptor-impl.ts:246-248 | The log is gone, nothing is pending and the view starts over. |
| CustomStorageRuns.ConditionalAppendTruthful | packages/journaling/src/custom-storage-log-view-adaptor-impl.ts:113-134 | Under arbitrary foreign writes, failures and raises during a write: an entry settled `true` is in storage at exactly the position it was raised for, one settled `false` in neither storage nor the queue. |
| CustomStorageRuns.EntriesStoredOnceInOrder | packages/journaling/src/custom-storage-log-view-adaptor-impl.ts:178-261 | Storage holds this writer's entries in raise order, each at most once, and none is lost: each is queued, stored or settled `false`. |
| CustomStorageRuns.RangeLandsWholeOrNotAtAll | packages/journaling/src/custom-storage-log-view-adaptor-impl.ts:142-164 | A conditional range is stored whole and contiguous where it was raised for, or not at all, and its callers are told the one right answer. |
| CustomStorageRuns.RaiseIsServedIff | packages/journaling/src/custom-storage-log-view-adaptor-impl.ts:113-176 | A conditional raise is taken up by a running loop or answered exactly when it does not fall between a loop's end and the callback that uninstalls it; otherwise its entry stays pending with no loop running, and its caller waits, or is rejected when that loop had ended by a failed re-read. |
| CustomStorageLags.ViewsAreFolds | packages/journaling/src/custom-storage-log-view-adaptor-impl.ts:70-75 | In every reachable state each view is the fold of exactly the stored events, and queue entries, that it shows, in that order. |
| CustomStorageLags.ConfirmedIsWholeIff | packages/journaling/src/custom-storage-log-view-adaptor-impl.ts:209-230 | The confirmed view has folded in exactly the first `version` stored events if and only if no fold has thrown since storage was last read. |
| CustomStorageLags.TentativeIsRightIff | packages/journaling/src/custom-storage-log-view-adaptor-impl.ts:178-315 | The tentative view shows exactly what is pending on top of the confirmed view if and only if no fold has thrown, and no caller was told `false` by a loop that went on to write, since the views were last rebuilt. |
| CustomStorageLags.ViewIsFoldOfStorage | packages/journaling/src/custom-storage-log-view-adaptor-impl.ts:70-75 | Outside those cases the confirmed view is the fold of the first `version` stored events and the tentative view that fold extended with the queue. |
| CustomStorageLags.RecorderTells | packages/journaling/src/custom-storage-log-view-adaptor-impl.ts:178-315 | For a grain that keeps every event, the values of both views are right in exactly those cases and no others. |
| CustomStorageLags.LoopEndSettlesEveryone | packages/journaling/src/custom-storage-log-view-adaptor-impl.ts:178-286 | When a confirm loop ends without a failed re-read, a conditional entry has its answer exactly unless it was abandoned, and the tentative view is right exactly unless the loop found nothing to do and the view lagged before. |
| CustomStorageLags.AbandonedIsStored | packages/journaling/src/custom-storage-log-view-adaptor-impl.ts:209-230 | An entry whose batch was written, not folded and not re-read is in storage where it was raised for, in no queue, and without an answer. |
| CustomStorageLags.DroppedEntryStaysVisible | packages/journaling/src/custom-storage-log-view-adaptor-impl.ts:178-191 | A run after which an entry answered `false` and dropped is still in the tentative view. |
| CustomStorageLags.TornViewOutlivesItsLoop | packages/journaling/src/custom-storage-log-view-adaptor-impl.ts:213-226 | A run after which a later loop ends drained, at storage's version, with an event missing from the confirmed view. |
| CustomStorageProgress.TopDecides | packages/journaling/src/custom-storage-log-view-adaptor-impl.ts:184-197 | At the top of the loop an entry stays in its place while it and all before it are fresh; from the first that is not, every conditional entry is told `false` and dropped, and every unconditional one stays, unanswered. |
| CustomStorageProgress.FreshQueueLands | packages/journaling/src/custom-storage-log-view-adaptor-impl.ts:193-229 | An uncontended confirm of a queue that is all fresh, at the stored version, writes the whole queue in order, and tells everyone in it `true`. |
| CustomStorageProgress.UncontendedAppendLands | packages/journaling/src/custom-storage-log-view-adaptor-impl.ts:142-164 | A conditional range raised behind such a queue takes the next ids and positions, is stored whole behind it, and its caller is told `true`. |
| CustomStorageProgress.FirstAttempt | packages/journaling/src/custom-storage-log-view-adaptor-impl.ts:183-195 | A loop starts with its first attempt. |
| CustomStorageProgress.WrittenStartsOver | packages/journaling/src/custom-storage-log-view-adaptor-impl.ts:209-229 | A batch that is written starts the count of attempts over. |
| CustomStorageProgress.FailedWriteTriesAgain | packages/journaling/src/custom-storage-log-view-adaptor-impl.ts:231-260 | A write that fails with attempts left leads to a re-read, which puts the view at the stored version, and then to the next attempt with all that is pending, or to the end if nothing is. |
| CustomStorageProgress.LastFailureEnds | packages/journaling/src/custom-storage-log-view-adaptor-impl.ts:231-253 | A write that fails at the last attempt ends the loop: every conditional entry is told `false` and dropped, every unconditional one stays pending, unanswered. |
| CustomStorageProgress.ClearTellsEveryone | packages/journaling/src/custom-storage-log-view-adaptor-impl.ts:301-307 | After a clear, storage, queue and views are empty, and every conditional entry that was pending has been told `false`. |
| CustomStorageRuns.NextKeepsInv | packages/journaling/src/custom-storage-log-view-adaptor-impl.ts:93-315 | Every step, of the adaptor, the host or the other writers, keeps the books: positions, order, ranges and answers. |
| CustomStorageBooks.DropKeepsBooks | packages/journaling/src/custom-storage-log-view-adaptor-impl.ts:269-286 | Dropping the conditional entries from a point between ranges on keeps the books. |
| CustomStorageBooks.FirstStaleIsApart | packages/journaling/src/custom-storage-log-view-adaptor-impl.ts:269-286 | The first stale entry is never inside a range. |
| CustomStorageBooks.BatchIsPositioned | packages/journaling/src/custom-storage-log-view-adaptor-impl.ts:178-197 | What is left once the stale entries are gone would land, entry by entry, exactly where it was raised for. |
| CustomStorageAdaptor.CustomStorageLogViewAdaptor.Read | packages/journaling/src/custom-storage-log-view-adaptor-impl.ts:70-75 | The awaited re-read, other writers writing meanwhile, is a run of the transition system that ends with the loop's next top or a failed loop. |
| CustomStorageAdaptor.CustomStorageLogViewAdaptor.Submit | packages/journaling/src/custom-storage-log-view-adaptor-impl.ts:93-96 | The step of an unconditional raise. |
| CustomStorageAdaptor.CustomStorageLogViewAdaptor.EnqueueConditional | packages/journaling/src/custom-storage-log-view-adaptor-impl.ts:142-164 | The range is queued under consecutive positions behind everything confirmed and pending. |
| CustomStorageAdaptor.CustomStorageLogViewAdaptor.RemoveStaleConditionalUpdates | packages/journaling/src/custom-storage-log-view-adaptor-impl.ts:269-286 | One pass drops and answers `false` exactly the conditional entries from the first stale one on. |
| CustomStorageAdaptor.CustomStorageLogViewAdaptor.PrepareBatch | packages/journaling/src/custom-storage-log-view-adaptor-impl.ts:184-197 | The top of the loop: the whole queue without stale entries as a batch, or the end of the loop. |
| CustomStorageAdaptor.CustomStorageLogViewAdaptor.FoldWritten | packages/journaling/src/custom-storage-log-view-adaptor-impl.ts:218-226 | Version and view advance event by event; a throwing transition leaves the version one ahead of the view. |
| CustomStorageAdaptor.CustomStorageLogViewAdaptor.RunConfirmLoop | packages/journaling/src/custom-storage-log-view-adaptor-impl.ts:178-261 | With no new raises the loop terminates (measured by the pending length, then the attempts left), and is a run of the transition system. |
| CustomStorageAdaptor.CustomStorageLogViewAdaptor.ClearLog | packages/journaling/src/custom-storage-log-view-adaptor-impl.ts:301-307 | Storage is cleared, whoever waits is told `false`, and the empty state is read back. |
| CustomStorageAdaptor.CustomStorageLogViewAdaptor.RecomputeTentative | packages/journaling/src/custom-storage-log-view-adaptor-impl.ts:309-314 | The tentative view is the confirmed view folded with the queue, in order. |
| JobShardStore.ClaimOutcome | packages/durable-jobs/src/memory-job-shard-store.ts:88-113 | A claim wins exactly when the shard is not poisoned and free, the claimer's own, or a dead silo's below its adoption limit; one adoption too many poisons it and leaves it unowned; otherwise nothing changes. |
| JobShardStore.ListingIsCurrent | packages/durable-jobs/src/memory-job-shard-store.ts:84-86 | A listing holds current records, of shards with jobs only. |
| JobShardStoreLaws.AddStores | packages/durable-jobs/src/memory-job-shard-store.ts:42-44 | A job is persisted for its due time, with no attempt made, no run and no marker; no other entry changes. |
| JobShardStoreLaws.RemoveStores | packages/durable-jobs/src/memory-job-shard-store.ts:46-48 | The entry is gone, and no other changes. |
| JobShardStoreLaws.RetryStores | packages/durable-jobs/src/memory-job-shard-store.ts:50-61 | A retry stores the due time and the count it is given, keeps the run, the marker and the job, and creates nothing. |
| JobShardStoreLaws.StartStores | packages/durable-jobs/src/memory-job-shard-store.ts:63-69 | A run that starts is recorded and takes the marker off, and changes nothing else. |
| JobShardStoreLaws.CompleteStores | packages/durable-jobs/src/memory-job-shard-store.ts:71-76 | The marker is there afterwards exactly if it was, or the run is the one recorded last. |
| JobShardStoreLaws.MarkedAfterItsRun | packages/durable-jobs/src/memory-job-shard-store.ts:63-76 | A run that is recorded and completed leaves its marker. |
| JobShardStoreLaws.SupersededIsNotMarked | packages/durable-jobs/src/memory-job-shard-store.ts:63-76 | The completion of a run that was superseded leaves none. |
| JobShardStoreLaws.ReleaseFrees | packages/durable-jobs/src/memory-job-shard-store.ts:115-118 | The releaser owns the shard no more; a shard of someone else is as it was. |
| JobShardStore.MemoryJobShardStore.PersistAdd | packages/durable-jobs/src/memory-job-shard-store.ts:42-44 | The job is in its shard, created if need be, in place of an entry with its id; other shards are untouched. |
| JobShardStore.MemoryJobShardStore.PersistRemove | packages/durable-jobs/src/memory-job-shard-store.ts:46-48 | The job's entry is gone, nothing else changes, and no shard is created. |
| JobShardStore.MemoryJobShardStore.PersistRetry | packages/durable-jobs/src/memory-job-shard-store.ts:50-61 | Due time and dequeue count of the entry, if there is one, are replaced. |
| JobShardStore.MemoryJobShardStore.PersistRunStart | packages/durable-jobs/src/memory-job-shard-store.ts:63-69 | The entry, if there is one, carries the run's id. |
| JobShardStore.MemoryJobShardStore.PersistRunComplete | packages/durable-jobs/src/memory-job-shard-store.ts:71-76 | The entry is marked completed by that run only. |
| JobShardStore.MemoryJobShardStore.ReadJobs | packages/durable-jobs/src/memory-job-shard-store.ts:78-82 | All entries of the shard, in order; none for a shard not seen. |
| JobShardStore.MemoryJobShardStore.ListShards | packages/durable-jobs/src/memory-job-shard-store.ts:84-86 | The current listing. |
| JobShardStore.MemoryJobShardStore.ClaimShard | packages/durable-jobs/src/memory-job-shard-store.ts:88-113 | The claim's outcome is stored and returned; jobs and other shards are untouched. |
| JobShardStore.MemoryJobShardStore.ReleaseShard | packages/durable-jobs/src/memory-job-shard-store.ts:115-118 | The shard is unowned if the releaser owned it; otherwise nothing changes. |
| ShardSafety.NoShardOnTwoSilos | packages/durable-jobs/src/local-durable-job-manager.ts:206-361 | Over every run of schedules, forwards, reconciliations, stops, crashes and restarts that adopts only from silos that are down and has no early release: a shard with an executor or a draining run on a live silo is recorded as that silo's, so it runs on no other. |
| ShardSafety.PoisonedIsNeverOwnedAgain | packages/durable-jobs/src/memory-job-shard-store.ts:88-118 | A poisoned shard has been adopted more often than the limit, stays poisoned and unowned in every continuation, and is executed by no live silo. |
| ShardSafety.SafeIffNoEarlyRelease | packages/durable-jobs/src/local-durable-job-manager.ts:311-327 | From every good state, a legal step keeps the ownership invariant exactly when it is not the release of a shard still executed here by a claim that returns after `stop()` began. |
| ShardSafety.TwoSilosAfterEarlyRelease | packages/durable-jobs/src/local-durable-job-manager.ts:266-327 | A legal run with such a release after which two live silos execute one shard. |
| ShardSafety.NextKeepsInv | packages/durable-jobs/src/local-durable-job-manager.ts:120-361 | Every legal step but an early release keeps the ownership invariant. |
| ShardSafety.RampIsMonotone | packages/durable-jobs/src/local-durable-job-manager.ts:439-452 | During the ramp-up the claim budget grows with time from the initial to at most the maximal one. |
| ShardSafety.ClaimsStayWithinRamp | packages/durable-jobs/src/local-durable-job-manager.ts:288-301 | Over any run, what a silo has claimed by reconciliation during its ramp-up stays within what the ramp allows by then. |
| ClaimLaws.BudgetAmount | packages/durable-jobs/src/local-durable-job-manager.ts:288-301 | How many shards a reconciliation claims, for all options: without a ramp the flat budget, or none if that is negative; once the ramp is over, all there are; during it the interpolated budget, truncated, less what was claimed, and not below zero; never more than there are. |
| ClaimLaws.ClaimableAt | packages/durable-jobs/src/local-durable-job-manager.ts:220-229 | A listed shard that is free, or of a silo that is not active, and not poisoned, is claimable, behind exactly those like it that are listed before it. |
| ClaimLaws.ClaimableFrom | packages/durable-jobs/src/local-durable-job-manager.ts:220-229 | Nothing else is claimable. |
| ClaimLaws.TakeableIsTaken | packages/durable-jobs/src/local-durable-job-manager.ts:229-235 | An uncontended claim of such a shard wins it, unless adopting it once more is once too often, and then it is poisoned and unowned. |
| ClaimLaws.ListingIsComplete | packages/durable-jobs/src/memory-job-shard-store.ts:84-86 | Every shard with jobs is listed, with its record. |
| ClaimLaws.ListingApart | packages/durable-jobs/src/memory-job-shard-store.ts:84-86 | No shard is listed twice. |
| LocalDurableJobManager.LocalDurableJobManager.StartExecutor | packages/durable-jobs/src/local-durable-job-manager.ts:329-353 | The shard runs here, once, unless the manager is stopped. |
| LocalDurableJobManager.LocalDurableJobManager.Claimed | packages/durable-jobs/src/local-durable-job-manager.ts:311-327 | A won claim starts the shard, or hands it back once the manager is stopped; the step is the transition system's. |
| LocalDurableJobManager.LocalDurableJobManager.EnsureOwned | packages/durable-jobs/src/local-durable-job-manager.ts:304-327 | Exactly when the shard ends up running here, what the claim does to the store, and that a shard newly started is recorded as this silo's. |
| LocalDurableJobManager.LocalDurableJobManager.StopExecutor | packages/durable-jobs/src/local-durable-job-manager.ts:356-361 | That executor is gone, the others are kept in order. |
| LocalDurableJobManager.LocalDurableJobManager.ReconcileOwnership | packages/durable-jobs/src/local-durable-job-manager.ts:206-247 | A reconciliation with nothing interleaved is a run of the silo's steps. Every listed shard recorded as this silo's runs here afterwards, and so do the first claimable ones in listing order, as many as `BudgetAmount` says, except those the adoption poisons; whatever else runs here ran before; every executor's shard is recorded in the store as this silo's. |
| LocalDurableJobManager.LocalDurableJobManager.Stop | packages/durable-jobs/src/local-durable-job-manager.ts:266-278 | Every executor is drained before its shard is released, none is left, no shard that ran here is recorded as this silo's, no other shard is touched, and the steps are a run of the transition system. |
| JobQueue.DequeueDueTakesTheDue | packages/durable-jobs/src/job-model.ts:110-116 | Exactly the jobs due are taken, sorted by due time with ties in queue order; everything else stays. |
| JobQueue.NextDueIsEarliest | packages/durable-jobs/src/job-model.ts:96-102 | The answer is the due time of some queued job and no queued job is due earlier; none exactly when the queue is empty. |
| JobQueue.InMemoryJobQueue.Add | packages/durable-jobs/src/job-model.ts:84-87 | The job is queued under its id and live. |
| JobQueue.InMemoryJobQueue.Cancel | packages/durable-jobs/src/job-model.ts:90-93 | The job is neither queued nor live; the answer says whether it was queued. |
| JobQueue.InMemoryJobQueue.NextDueMs | packages/durable-jobs/src/job-model.ts:96-102 | The loop finds the earliest due time. |
| JobQueue.InMemoryJobQueue.DequeueDue | packages/durable-jobs/src/job-model.ts:110-116 | The due jobs leave the queue, in order, and stay live. |
| JobQueue.InMemoryJobQueue.RetryLater | packages/durable-jobs/src/job-model.ts:125-128 | The job is queued again, later, unless it was cancelled meanwhile. |
| ShardExecutor.CeilingOnlyGrowsIff | packages/durable-jobs/src/shard-executor.ts:191-205 | The slow-start ceiling is at most the silo's maximum, and at least one job if that is; for all options, it never falls as time passes if and only if they are steady: no interval, a maximum of at most one job, a growth factor of at least one, or a start (and, for negative factors, a first step) of at most one job. |
| ExecutorConservation.Conservation | packages/durable-jobs/src/shard-executor.ts:45-383 | Over any run of loads, enqueues, cancellations, polls, results and stops of all executors of a silo: known jobs are exactly the queued ones and those a run answers for, without overlap; limiter slots in use are all runs together, within the maximum; running never exceeds the ceiling; an unstopped executor with queued work has exactly one timer armed. |
| ExecutorConservation.ScheduleArms | packages/durable-jobs/src/shard-executor.ts:163-181 | Scheduling leaves exactly one timer, at the earliest due time or now, when there is work, and changes no books. |
| ExecutorConservation.PollLoopKeeps | packages/durable-jobs/src/shard-executor.ts:228-249 | The admission loop loses and duplicates no job, takes as many slots as it starts runs and no more than are free. |
| ExecutorConservation.RunOnKeeps | packages/durable-jobs/src/shard-executor.ts:296-383 | Each stretch of a run, from its start marker to its removal, retry or re-poll, keeps the invariant and frees exactly the slot it held. |
| ExecutorLaws.ResultDecides | packages/durable-jobs/src/shard-executor.ts:340-384 | What a handler's result does to its job, if that was not cancelled: a failure the policy retries queues it, with one attempt more, due at now and the backoff; a supervised poll queues it with the same count, due at now and the delay; after a failure the policy does not retry it is neither known nor queued; after a completion it is not queued. A cancelled job is never queued, no other job is touched, and the slot is freed exactly when the run is over. |
| ExecutorLaws.OtherStretches | packages/durable-jobs/src/shard-executor.ts:296-356 | The other stretches queue nothing: a started run is invoked, a marked one's job is forgotten, a removed one's run ends and frees its slot. |
| ExecutorLaws.RetryIsStored | packages/durable-jobs/src/shard-executor.ts:376-383 | A job queued for later is persisted with the same due time and the same count. |
| ExecutorLaws.ForgottenOnlyIf | packages/durable-jobs/src/shard-executor.ts:109-383 | A step makes an executor forget a job only by cancelling it, by completing it, or by a failure the policy does not retry. |
| ExecutorLaws.KnownUntilLetGo | packages/durable-jobs/src/shard-executor.ts:109-383 | Over any run of all executors of a silo: a job once known is known until one of these three happens to it. |
| ExecutorLaws.LoadTakes | packages/durable-jobs/src/shard-executor.ts:109-127 | A load takes in exactly the persisted jobs without a marker, each for its persisted due time and with its persisted count. |
| ExecutorLaws.EnqueueQueues | packages/durable-jobs/src/shard-executor.ts:130-139 | A scheduled job is known, and queued for its due time with no attempt made; no other is touched. |
| ExecutorLaws.CancelTakesOut | packages/durable-jobs/src/shard-executor.ts:142-147 | A cancelled job is neither known, live nor queued, its runs are marked as cancelled, and no other job or run is touched. |
| ExecutorLaws.StopKeepsJobs | packages/durable-jobs/src/shard-executor.ts:156-160 | Stopping takes the timer and nothing else. |
| ExecutorLaws.PollRunsTheDue | packages/durable-jobs/src/shard-executor.ts:225-249 | A cycle raises the ceiling as the slow start allows and starts the due jobs, earliest first, as many as ceiling and limiter leave room for; the others due are queued for now with their counts, and what is not due stays as it was. |
| ExecutorLaws.OverloadBacksOff | packages/durable-jobs/src/shard-executor.ts:217-223 | An overloaded cycle starts nothing, touches no job, and comes again after the overload backoff. |
| ExecutorLaws.SaturatedWaits | packages/durable-jobs/src/shard-executor.ts:274-293 | A saturated executor polls next after now, at the first boundary at which its ceiling can grow, or after the backoff when it cannot. |
| ExecutorLaws.CeilingIsGrowth | packages/durable-jobs/src/shard-executor.ts:191-205 | After `n` whole intervals the ceiling is the initial concurrency multiplied `n` times by the growth factor, rounded up, between one and the maximum; without a slow start, or with a maximum below one, it is the maximum. |
| ShardExecutorLoop.ConcurrencyLimiter.TryAcquire | packages/durable-jobs/src/shard-executor.ts:53-57 | A slot is taken exactly when one is free. |
| ShardExecutorLoop.ConcurrencyLimiter.Release | packages/durable-jobs/src/shard-executor.ts:59-61 | One slot fewer is in use, never below zero. |
| ShardExecutorLoop.ShardExecutor.Load | packages/durable-jobs/src/shard-executor.ts:109-127 | The persisted jobs without a completion marker are known and queued, and a poll is armed. |
| ShardExecutorLoop.ShardExecutor.Enqueue | packages/durable-jobs/src/shard-executor.ts:130-139 | The job is known and queued, and the poll re-armed. |
| ShardExecutorLoop.ShardExecutor.Cancel | packages/durable-jobs/src/shard-executor.ts:142-147 | The job is neither known nor queued; the answer says whether it was queued. |
| ShardExecutorLoop.ShardExecutor.Stop | packages/durable-jobs/src/shard-executor.ts:156-160 | No timer is left and none will be armed; runs in flight are kept. |
| ShardExecutorLoop.ShardExecutor.SchedulePoll | packages/durable-jobs/src/shard-executor.ts:163-181 | The timers in place are those of the specification. |
| ShardExecutorLoop.ShardExecutor.ScheduleSaturatedPoll | packages/durable-jobs/src/shard-executor.ts:274-293 | The same for the wait until the ceiling can next grow. |
| ShardExecutorLoop.ShardExecutor.Admit | packages/durable-jobs/src/shard-executor.ts:233-249 | The loop over the due jobs, with the shared limiter changed in place, does what the specification's admission does. |
| ShardExecutorLoop.ShardExecutor.Poll | packages/durable-jobs/src/shard-executor.ts:214-264 | A whole poll cycle, overload and saturation included. |
| ShardExecutorLoop.ShardExecutor.RunOn | packages/durable-jobs/src/shard-executor.ts:296-383 | A run resumed with what it awaited: invoke, mark, remove, retry or re-poll, and at the end release the slot and poll again. The object holds what the specification says, of which `ResultDecides` and `OtherStretches` tell what becomes of the job. |
| Tombstones.NeverInvokedAfterMarker | packages/durable-jobs/src/shard-executor.ts:109-127 | In every history of schedules, cancellations, polls, lost writes and crashes at any point of a run, with any number of successors reloading the shard, no invocation of a job comes after its completion marker was stored. |
| ValueGraph.RewritesAsSubstitution | packages/core/src/cancellation-value-walk.ts:175-193 | The walk's rewriting is naive substitution exactly when no rebuilt object has an own `__proto__` member. |
| ValueGraph.SubstitutedLeaves | packages/core/src/cancellation-value-walk.ts:49-104 | The leaves of the substituted tree are exactly what the leaves of the tree become: each replaced by its replacement, or itself. |
| ValueGraph.TouchedIff | packages/core/src/cancellation-value-walk.ts:118-131 | A container counts as changed exactly when something below it is replaced, or is `NaN`. |
| ValueGraph.UnfoldsIffAcyclic | packages/core/src/cancellation-value-walk.ts:72-104 | A finite graph unfolds to a tree exactly when no container reachable from its root can reach itself. |
| CancellationWalk.MapCancellationValues | packages/core/src/cancellation-value-walk.ts:49-104 | On every finite acyclic graph the result unfolds to the rewritten tree, the input heap is untouched, a container comes back by identity exactly when nothing below changed, sharing is kept, and each container is entered at most once; on cyclic graphs the walk still ends. |
| CancellationWalk.Walker.Walk | packages/core/src/cancellation-value-walk.ts:72-104 | A member's replacement; for a container on the path itself; for one finished what the memo holds; memo and new heap only grow. |
| CancellationWalk.Walker.Enter | packages/core/src/cancellation-value-walk.ts:84-104 | A container met for the first time is put on the path for its own walk and remembered with its result. |
| CancellationWalk.Walker.WalkArray | packages/core/src/cancellation-value-walk.ts:118-131 | The array itself when every member is answered by itself, else a new array of the answers, allocated at the first difference. |
| CancellationWalk.Walker.WalkMap | packages/core/src/cancellation-value-walk.ts:133-147 | The same for a map, its keys kept. |
| CancellationWalk.Walker.WalkSet | packages/core/src/cancellation-value-walk.ts:149-163 | The same for a set, in which equal answers fall together. |
| CancellationWalk.Walker.WalkObject | packages/core/src/cancellation-value-walk.ts:175-193 | The same for an object, in which an assignment under `__proto__` adds no member. |
| CancellationWalk.ContainerGood | packages/core/src/cancellation-value-walk.ts:118-193 | The members' answers make the container's result unfold to its rewritten tree, and be the container itself exactly when nothing below is touched. |
| CancellationWalk.NotOnPath | packages/core/src/cancellation-value-walk.ts:76-104 | In an acyclic graph the path guard is never hit. |
| Base64.BytesToBase64 | packages/core/src/value-codec.ts:892-904 | The loop writes the specification's text, of which `EncodeWritesNumber` says what it is. |
| Base64.Base64ToBytes | packages/core/src/value-codec.ts:906-927 | The loop with its 32-bit accumulator fills the byte array as the specification does, of which `DecodeReadsNumber` says what it reads. |
| Base64.RoundTrip | packages/core/src/value-codec.ts:892-927 | Every byte sequence comes back, and the text has exactly four characters for every three bytes begun, though the accumulator wraps. |
| Base64.GroupDecodes | packages/core/src/value-codec.ts:906-927 | Four digits give their three bytes whatever older bits the accumulator still holds. |
| Base64Numbers.CharacterIsFigure | packages/core/src/value-codec.ts:887 | The character for `d` is the `d`-th of the literal alphabet of table 1 of RFC 4648. |
| Base64Numbers.DigitIsFigure | packages/core/src/value-codec.ts:906-927 | What the decoder takes a character for is its place in that alphabet, and nothing if it has none. |
| Base64Numbers.EncodeWritesNumber | packages/core/src/value-codec.ts:892-904 | Padding apart, an encoded text has as many characters as its bits need, all in that alphabet, and read as digits of base 64 they are the number the bytes are in base 256, its spare bits zero; the padding completes the last group of four. |
| Base64Numbers.DecodeReadsNumber | packages/core/src/value-codec.ts:906-927 | For every text, foreign characters passed over: the decoded bytes are the whole bytes of the number its characters are in base 64, and what the array has beyond them is zero. |
| Decimal.ParsePrint | packages/core/src/value-codec.ts:535 | Reading back a printed integer gives the integer. |
| ValueCodec.LeafRoundTrip | packages/core/src/value-codec.ts:510-583 | Every leaf (primitives, undefined in both slots, -0 and the other special numbers, bigints, dates, guids, addresses, byte and typed arrays) decodes to itself in both binary modes. |
| ValueCodecRoundTrip.RoundTrip | packages/core/src/value-codec.ts:504-875 | A tree, in a positional slot or not and in both binary modes, comes back equal exactly when no object in it has a dangerous key or a `$thresh` string naming a built-in tag. |
| ValueCodecRoundTrip.EncodeDecode | packages/core/src/value-codec.ts:471-875 | `decodeValue` undoes `encodeValue` exactly for those values. |
| ValueCodecRoundTrip.ObjectComesBack | packages/core/src/value-codec.ts:717-730 | A plain object comes back exactly when it has no dangerous key, is not taken for a tagged value, and its members come back. |
| ValueCodecRoundTrip.MapComesBack | packages/core/src/value-codec.ts:621-633 | A map comes back, in order, exactly when all keys and values do. |
| ValueCodecRoundTrip.SetComesBack | packages/core/src/value-codec.ts:634-645 | A set comes back, in order, exactly when all members do. |
| ValueCodecLaws.Base64ModeIsJson | packages/core/src/value-codec.ts:471-732 | For a transport without binary what is encoded is JSON at every depth: no bytes, no negative zero, and nothing absent but an object's member. |
| ValueCodecLaws.BytesOnTheWire | packages/core/src/value-codec.ts:510-513 | Bytes are passed as they are over a transport with binary, and as a base64 envelope of version 1 over one without. |
| ValueCodecLaws.KnownTags | packages/core/src/value-codec.ts:50-68 | The built-in tags are the seventeen literal ones. |
| ValueCodecLaws.RefusedIffNewer | packages/core/src/value-codec.ts:742-751 | An object is refused, whatever else is in it, exactly when it carries a built-in tag and a version that is a whole number above 1; the refusal names both. |
| ValueCodecLaws.UnknownTagDegrades | packages/core/src/value-codec.ts:860-875 | An object without a built-in tag, whatever its version, decodes to a plain object with all members but those under dangerous keys. |
| ValueCodecLaws.LeafEnvelopes | packages/core/src/value-codec.ts:752-867 | The literal envelopes of undefined, -0, dates, bigints, bytes and silo addresses decode to their values. |
| ValueCodecLaws.DecodedIsHarmless | packages/core/src/value-codec.ts:735-875 | Whatever is decoded, no object in it has a key in `DANGEROUS_KEYS`. |
| ValueEncoder.EncodeValue | packages/core/src/value-codec.ts:471-486 | Encoding ends on every finite graph, refuses it exactly when a container it visits can reach itself, and encodes any other, however shared, as the tree it unfolds to. |
| ValueEncoder.Encoder.EncodeInner | packages/core/src/value-codec.ts:504-732 | The path set is as before; the result encodes the tree below the value, or there is a cycle ahead of the path. |
| ValueEncoder.Encoder.EncodeArray | packages/core/src/value-codec.ts:646-661 | The same for a dense array, its members in positional slots. |
| ValueEncoder.Encoder.EncodeMap | packages/core/src/value-codec.ts:621-633 | The same for a map's entries. |
| ValueEncoder.Encoder.EncodeSet | packages/core/src/value-codec.ts:634-645 | The same for a set's members. |
| ValueEncoder.Encoder.EncodeObject | packages/core/src/value-codec.ts:717-730 | The same for an object's members, those under dangerous keys skipped unvisited. |
| ValueEncoder.NoCycleInTree | packages/core/src/value-codec.ts:585-620 | What unfolds to a finite tree reaches no cycle, so sharing alone is never refused. |
| HashRing.CompareIsTotalOrder | packages/core/src/silo-address.ts:38-43 | `compare` is antisymmetric and transitive, and zero exactly for equal addresses. |
| HashRing.CompareIsLexicographic | packages/core/src/silo-address.ts:38-43 | The order goes by pod name, then by uid, then by endpoint. |
| HashRing.RingIgnoresMemberOrder | packages/directory/src/consistent-hash-ring.ts:24-41 | The same silos in any order give the same sorted ring. |
| HashRing.RingHoldsVnodes | packages/directory/src/consistent-hash-ring.ts:24-41 | The ring holds exactly the virtual nodes of its silos, as many of each as are asked for. |
| HashRing.ConsistentHashRing.constructor | packages/directory/src/consistent-hash-ring.ts:24-41 | The nodes are the sorted ring of all vnodes. |
| HashRing.ConsistentHashRing.FirstAtOrAfter | packages/directory/src/consistent-hash-ring.ts:80-89 | The binary search ends at the lower bound: all nodes before are below the hash, all from there on at or above it. |
| HashRing.ConsistentHashRing.OwnerOf | packages/directory/src/consistent-hash-ring.ts:56-59 | The owner is the silo of the hash's successor node, wrapping; an empty ring has none. |
| HashRing.ConsistentHashRing.RangesFor | packages/directory/src/consistent-hash-ring.ts:68-77 | The arcs from each of the silo's nodes to the next node, in ring order. |
| HashRing.LowerBoundIsSuccessor | packages/directory/src/consistent-hash-ring.ts:56-59 | The node at the lower bound, modulo the length, is the hash's successor on the circle. |
| HashRing.MembershipChangeMovesOnlyOneSilo | packages/directory/src/consistent-hash-ring.ts:14-19 | Adding a silo moves a hash only to that silo; removing one moves only its own hashes. |
| HashRing.CoveredByPredecessorOnly | packages/directory/src/consistent-hash-ring.ts:68-77 | With two distinct vnode hashes, a silo's arcs hold a hash exactly when the silo has the last node at or before it, wrapping. |
| HashRing.ArcsTileIffTwoHashes | packages/directory/src/consistent-hash-ring.ts:61-77 | Every hash lies in the arcs of exactly one silo, exactly when two vnode hashes differ. |
| Sorting.SortIsStable | packages/durable-jobs/src/job-model.ts:110-116 | Elements that rank together keep the order they came in. |
| Sorting.SortIgnoresOrder | packages/directory/src/consistent-hash-ring.ts:39 | Under a total order sorting depends on the elements only, not on the order they came in. |

## Left out

- Redis, PostgreSQL, Kafka, WebSocket, HTTP and Kubernetes adapters: I/O; the in-memory stores are the specification of storage.
- Builders, hosts, health, shutdown, client, transports, decorators, grain hooks and the directory's partition handoff: wiring, or protocols whose other half is elsewhere.
- `stableHash32` is an uninterpreted function of the vnode's name into 32 bits; its quality is not modelled.
- Errors, cancellation tokens, grain ids, grain references, surrogates, unsupported values and sparse arrays in the codec: open-ended tables of leaves.
- ValueEncoder.EncodeValue: says nothing of the path text a circular-reference error carries.
- CancellationWalk.MapCancellationValues: a replacement is a value that is not walked; the prototype that an own `__proto__` member gives a rebuilt object is not modelled.
- Base64.Base64ToBytes: indices are unbounded, so texts beyond the engine's array limits are not treated; nor are texts with unpaired surrogates.
- DurableStructures: the manager class holds the machines as values. The dictionary, list, queue and value as objects hold sequences that are assigned whole, and promise no more than the machines do; an array changed element by element is not modelled.
- JournalManager.CompactionPreservesMeaning: says nothing of a name registered at the compaction and later under another kind, whose operations the new machine was never meant to read.
- JournalManager.CompactionPreservesReplay: nor does it, for the same reason.
- List elements at negative indices, which JavaScript keeps as properties rather than elements; indices past the end are modelled.
- LogViewRuns.LogViewRun: a `clear` ends a log for all incarnations at once, since clearing resets the version competing writers are fenced by; a confirm or a clear does not overlap a `resync` or a write of the same incarnation.
- LogViewHistory.EarlierEventsStoredTwice: for a view at the stored version, the only kind whose write can land.
- LogViewHistory.TryAppendTruthful: for one writer with no confirm in flight and no raise during the call; under competing writers a range found at its place may be another writer's.
- LogView.RemovedSuffix: events are compared as values, where `lastIndexOf` compares objects by identity; events that are equal but distinct are not told apart.
- Transition functions are total, except that in the custom-storage view one may throw while a written batch is folded in.
- `clearLog` while a write of the same adaptor is in flight, where the code gives no guarantee.
- CustomStorageAdaptor.CustomStorageLogViewAdaptor.RunConfirmLoop: has no raise interleaved; raises during a write are steps of the transition system in `CustomStorageRuns`.
- LocalDurableJobManager.LocalDurableJobManager.ReconcileOwnership: has nothing interleaved; other silos, callers and stops between its awaits are steps of the transition system in `ShardOwnership`.
- LocalDurableJobManager.LocalDurableJobManager.Stop: has nothing interleaved either.
- Store calls of the job shards take effect at the call, loading an executor is one step, and a release does not fail.
- Forwarding a job to a shard's executor that has already loaded it.
- The retry policy is a total function of attempt and error.
- ShardExecutor.CeilingOnlyGrowsIff: the initial concurrency is a whole number, where the option may be any number, and the arithmetic is exact.
- ShardSafety.RampIsMonotone: the budget and the ceiling are computed with exact numbers; floating-point rounding is not modelled.
- Metrics, logging and the clock itself.

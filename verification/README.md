# Verification of the managed-orchestration and Cursor runtimes

A Dafny model of the parts of the repository where two forms of one thing must agree, or where a protocol must
hold over every run: the compaction of the managed-orchestration ledger and its proof shards, the recovery of a
child's lost connection, paging through a retained result, the agent cache, the event stream and the queues of
the Cursor runtime, wait cursors, automatic recovery plans, the assignment that travels with a continuation, and
the change outbox. `dafny verify dfyconfig.toml` checks all of it.

## How it is laid out

Every file holds the model of one source file or of one part of it.

* `Foundations.dfy` has options, UTF-16 text, bytes and the stable sort. `Ledger.dfy` has the ledger's records and
  what decoding a ledger guarantees. Compaction assumes that guarantee and that no live chain of predecessors comes
  back to one of its records, which is exactly when it returns at all (`Protection.WalksEndExactly`); predecessors
  with smaller `sequence` are enough (`Protection.OrderedLedgersEnd`), and compaction keeps them so.
* `Protection.dfy`, `Lineage.dfy`, `LedgerBytes.dfy`, `Eviction.dfy`, `EvictionBytes.dfy`, `CapEviction.dfy` and
  `Compaction.dfy` follow compaction from the protection sets through the four passes. Each pass is a method proved
  against a function of the work done so far. The byte pass never serializes the ledger; its counters are proved
  equal to the length of the text that will be written. `ProofStore.dfy` has the shards that released proofs move to, and
  `ProofTransfer.dfy` the move: shard first, ledger after it, with writes that may fail.
* `TransportRecovery.dfy` is a state machine: any number of executors hold copies of a durable receipt, copies may be
  stale, and a run is any sequence of steps, crashes and unanswered prompts included. `Executor` is the imperative
  form of one send, with the other executors running between its awaits. `Observation.dfy` has the retry stop and
  the loop that watches a child.
* `Utf8.dfy`, `Base64Url.dfy` and `ResultPaging.dfy` run UTF-16 offsets against UTF-8 byte counts (section 3 of
  RFC 3629) and carry cursors in base64url (section 5 of RFC 4648).
* `AgentCache.dfy`, `StreamReplica.dfy`, `PersistQueue.dfy`, `AsyncQueue.dfy` and `ChangeOutbox.dfy` are classes
  whose invariants relate the live fields to a history: every pair handed over, every event emitted, every snapshot
  enqueued, every push accepted, every event appended.
* `ManagedWait.dfy`, `AutoResume.dfy` and `Assignment.dfy` have polls, recovery lineages and the budgeted rendering.
  Waiting works on views of the ledger's records, and `WaitRetention` says what compaction keeps for it.

## What the proofs found

Where a property does not hold of the code, a lemma gives the exact condition under which it does, and another one
an input that fails.

* The rejection window can plan the original model before the earliest reset that is known. `WindowDecides` takes
  the reset of the first rejection and ignores the others. In `AutoResume.PreemptingRun` a quota answer lets the
  original model be tried early, it is refused again with a reset an hour away, and the next plan uses the first
  window, which ends in a minute (`AutoResume.WindowCanPreemptReset`, `AutoResume.OriginalWaitsForReset`). The
  provider's breaker, which is held in memory, puts off such a launch unless something has cleared it.
* Encoding a proof shard does not check that idempotency keys differ or that the records are valid, and decoding
  does: a shard that was written is read back exactly if its entries are valid, apart in id and apart in key
  (`ProofStore.ShardRoundTrip`). Two tombstones of one root with one key are written and refused when read
  (`ProofStore.SharedKeyIsLost`).
* Padded base64url does not read back, because decoding accepts unpadded letters only; nor does an empty text
  (`Base64Url.RoundTrip`, `Base64Url.PaddingIsRefused`). Every caller outside the tests encodes without padding, so
  the padded case is one of the exported function only.
* A prompt cut exactly behind a replacement character, or behind a lone surrogate, loses that character as well
  (`Assignment.BoundedPromptIsLongest`, `Assignment.BoundedPromptCanLose`).
* Stripping undoes appending exactly if the continuation, with a line break behind it, does not contain the
  assignment marker; one that ends like the marker but for its last line break contains none and is not given back
  (`Assignment.StripUndoesAppend`, `Assignment.StripCanFail`).
* The walk that collects protected records has no guard against a cycle of predecessors. It ends for a record exactly
  if its chain never comes back to a record, and collecting ends exactly if that holds of every live head, so a cycle
  that no live chain leads into does no harm (`Protection.WalkEndsExactly`, `Protection.WalksEndExactly`). A ledger
  that decodes can have such a chain: a running attempt behind a finished one that precedes itself
  (`Protection.DecodedLedgerCanLoop`). The walk that computes the lineage key has a guard (`Lineage.LineageKeyOf`).
* An event of the change outbox can arrive twice, when the process ends between its acknowledgement and the removal
  of its file (`ChangeOutbox.ArrivesTwice`); none is lost.

## Model

| member | source | states |
|---|---|---|
| Protection.CollectActiveRoots | packages/orchestration-runtime/persistence.js:87-107 | a root is active exactly if one of its records is unfinished or changed within the age limit, counting creation, finish and acknowledgement |
| Protection.CollectProtectedTaskIds | packages/orchestration-runtime/persistence.js:109-160 | the three sets hold exactly the ids some record puts a hard hold on, those ids and every predecessor of a live chain, and the finished native-job proofs |
| Protection.HoldsOf | packages/orchestration-runtime/persistence.js:116-150 | the holds of one record: itself while unfinished, unacknowledged, checked or resuming, its prerequisites, its parent, and the predecessor of a live chain |
| Protection.AddChain | packages/orchestration-runtime/persistence.js:152-156 | from a record whose chain ends, the walk adds exactly that record and every predecessor still in the ledger |
| Protection.WalkEndsExactly | packages/orchestration-runtime/persistence.js:152-156 | the unguarded walk from a record ends exactly if its chain never comes back to a record, on every map of predecessors |
| Protection.WalksEndExactly | packages/orchestration-runtime/persistence.js:144-157 | collecting protection ends exactly if no live chain comes back to one of its records |
| Protection.DecodedLedgerCanLoop | packages/orchestration-runtime/persistence.js:144-157 | a ledger that decodes can hold a live chain whose walk never ends, for every policy |
| Protection.OrderedLedgersEnd | packages/orchestration-runtime/persistence.js:144-157 | with predecessors of smaller sequence collecting ends |
| Lineage.LineageIdInjective | packages/orchestration-runtime/auto-resume-policy.js:40-45 | two root tasks share a lineage id only if they are the same task |
| Lineage.LineageKeyOf | packages/orchestration-runtime/persistence.js:72-83 | the ancestor walk ends on every graph of predecessors, cycles included, with the recorded lineage or that of the oldest ancestor reached |
| Lineage.PriorSharesKey | packages/orchestration-runtime/persistence.js:72-83 | a task and its predecessor fall into one lineage unless a recovery lineage is recorded |
| Lineage.CollectEagerLineageRemovals | packages/orchestration-runtime/persistence.js:162-180 | given up are exactly the acknowledged, unheld, unreleased records beyond the three youngest of their lineage |
| Lineage.SurplusIsOldest | packages/orchestration-runtime/persistence.js:162-180 | every record given up is no younger than every record of its lineage that stays |
| Lineage.LineageBound | packages/orchestration-runtime/persistence.js:162-180 | at most three such records of one lineage survive |
| Eviction.TombstoneIsFaithful | packages/orchestration-runtime/persistence.js:28-59 | releasing a proof keeps its identity and receipts, and its envelope still passes the payload match |
| Eviction.RemoveKeepsSound | packages/orchestration-runtime/persistence.js:222-236 | one eviction drops a record or replaces it by its tombstone and leaves the bookkeeping consistent |
| LedgerBytes.SerializedLength | packages/orchestration-runtime/persistence.js:259-275 | the written text is as long as the empty ledger, the records and the commas between them |
| CapEviction.MeasureState | packages/orchestration-runtime/persistence.js:259-279 | the starting counters equal the length of the text and the bytes of the tombstones and their envelopes |
| CapEviction.ChargeIsExact | packages/orchestration-runtime/persistence.js:281-299 | after one more removal or replacement the counters again equal the real serialized length and tombstone bytes, separators included |
| CapEviction.EvictToRecordCap | packages/orchestration-runtime/persistence.js:246-257 | evicts an oldest-first prefix of the removable records still present, and one eviction fewer would leave the record cap exceeded |
| CapEviction.EvictToByteCap | packages/orchestration-runtime/persistence.js:280-299 | the same for the byte cap, measured on the real text, with exact counters at the end |
| Compaction.RunPasses | packages/orchestration-runtime/persistence.js:196-299 | the passes run in order lineage, age, record count, bytes, each over what the one before left |
| Compaction.Compact | packages/orchestration-runtime/persistence.js:182-320 | the whole contract: exact byte count, partition of the input ids, protection respected, three records per lineage, limits met or only protected records left, a valid ledger again, and the proofs that may move |
| Compaction.PartitionHolds | packages/orchestration-runtime/persistence.js:213-245 | every input record is removed, replaced by its own tombstone or kept unchanged, and no record appears from nowhere |
| Compaction.ProtectionHolds | packages/orchestration-runtime/persistence.js:201-245 | no hard-protected, unfinished or unreleased-proof record is dropped, and a softly protected one only by the lineage pass |
| Compaction.StaysValid | packages/orchestration-runtime/codec.js:91-138 | a compacted ledger passes what decoding enforces, and predecessors that came first still do |
| Compaction.LineageBoundHolds | packages/orchestration-runtime/persistence.js:237-239 | keyed on the input, each lineage keeps at most three acknowledged terminal records that are neither held nor tombstones |
| Compaction.OverLimitMeansProtected | packages/orchestration-runtime/persistence.js:307-310 | when a cap stays exceeded, every terminal record that still counts is protected |
| Compaction.BytePassKeepsRecordCap | packages/orchestration-runtime/persistence.js:281-299 | the byte pass never raises the count of terminal records |
| Compaction.ProofIdsAre | packages/orchestration-runtime/persistence.js:301-306 | the proof ids are exactly the unheld tombstones whose compacted envelope still matches |
| ProofStore.ShardNamesDiffer | packages/orchestration-runtime/native-job-proof-store.js:9-13 | the shards have different names |
| ProofStore.FindShard | packages/orchestration-runtime/native-job-proof-store.js:21-30 | every id but the empty one gets one of the 64 shards, and no other shard has that name |
| ProofStore.ShardRoundTrip | packages/orchestration-runtime/native-job-proof-store.js:45-86 | an encoded shard decodes to its proofs in id order exactly if they are valid and apart in id and key |
| ProofStore.LedgerProofsReturn | packages/orchestration-runtime/native-job-proof-store.js:45-86 | the released proofs of a ledger that hash to a shard survive the trip through it |
| ProofStore.SharedKeyIsLost | packages/orchestration-runtime/native-job-proof-store.js:76-86 | two tombstones of one root and one key, with ids that hash to one shard, are encoded and never read back |
| ProofTransfer.AcceptsGood | packages/orchestration-runtime/native-job-proof-store.js:66-70 | a proof decodes by itself exactly if it is a valid tombstone whose envelope copies it |
| ProofTransfer.CollectProofs | packages/orchestration-runtime/scheduler.js:496-511 | the proofs to release are exactly the compacted pairs of the proof ids that decode, and they stay apart in id and key |
| ProofTransfer.WriteShards | packages/orchestration-runtime/scheduler.js:462-476 | whatever writes fail, every proof moved and every proof stored before reads back from the one shard of its id |
| ProofTransfer.ReleaseProofs | packages/orchestration-runtime/scheduler.js:494-517 | a proof leaves the ledger exactly if it decodes and its shard was written, and the rest is a ledger again |
| ProofTransfer.Persist | packages/orchestration-runtime/scheduler.js:519-542 | from compaction to the shards: a ledger over its limits is refused, otherwise every record compaction did not drop is in the saved ledger or reads back from its shard, with its envelope, and no stored proof is lost |
| TransportRecovery.ApplySound | packages/orchestration-runtime/scheduler.js:1236-1255 | every step keeps copies no newer than the stored receipt, one automatic follow-up per receipt and every prompt reserved |
| TransportRecovery.ReserveSpends | packages/orchestration-runtime/open-code-executor.js:1136-1168 | a reservation that is stored closes exactly one opening of its kind and receipt and puts exactly one prompt into the hands of one executor; one that is not changes no count |
| TransportRecovery.PostSpends | packages/orchestration-runtime/open-code-executor.js:1169-1205 | a prompt call uses up exactly the reservation the executor carries and posts exactly that prompt, whether it is answered, lost or ambiguous |
| TransportRecovery.FollowUpSpends | packages/orchestration-runtime/scheduler.js:3600-3628 | the automatic backup closes the opening of the settled task, opens the same one in the new task and leaves every count as it was |
| TransportRecovery.AtMostOnePrompt | packages/orchestration-runtime/open-code-executor.js:1079-1205 | over every run at most one same-model and one backup prompt is posted under a receipt, and never more than were reserved |
| TransportRecovery.BothPromptsCanHappen | packages/orchestration-runtime/open-code-executor.js:2391-2414 | the bound is met: a run posts the same-model prompt and, after the follow-up, the backup prompt |
| TransportRecovery.ReservedBeforePosted | packages/orchestration-runtime/open-code-executor.js:1079-1091 | every posted prompt was durably reserved under its own message id before it was posted |
| TransportRecovery.NeverSentAgain | packages/orchestration-runtime/open-code-executor.js:2012-2100 | with a receipt in any phase but `backup_pending` and nothing on its way, no later step of any run posts a same-model prompt, nor the backup prompt unless it was unused and a follow-up has taken the task over |
| TransportRecovery.ReceiptClosesEpoch | packages/orchestration-runtime/open-code-executor.js:2511-2512 | such a receipt leaves no opening for a same-model prompt, and none at all once the backup is used |
| TransportRecovery.ReceiptsAdvance | packages/orchestration-runtime/scheduler.js:1236-1255 | stored revisions only grow, attempts are never given back, and a settled task's receipt is final |
| TransportRecovery.Executor.Send | packages/orchestration-runtime/open-code-executor.js:1136-1205 | whatever the others do at each await, a send that returns carries no reservation on, and goes on watching only with a receipt in hand |
| TransportRecovery.Executor.TryReserve | packages/orchestration-runtime/open-code-executor.js:1147-1168 | either the reservation is stored and held, or the executor ends with its old copy |
| TransportRecovery.Executor.LookAgain | packages/orchestration-runtime/open-code-executor.js:1169-1181 | exactly a clear turn may be posted, a stopped one is watched on, and a superseded one is blocked for good or, when that cannot be stored, watched on |
| RetryStop.StartRetryStop | packages/orchestration-runtime/open-code-executor.js:1329-1372 | ends at the first answer that is not live, at the first abort call that fails, or at the poll limit, with one abort and one more per resumption up to the maximum |
| Observation.Observer.EnforceTurnBudget | packages/orchestration-runtime/open-code-executor.js:1660-1709 | posts the budget prompt once when the turns are used up, and ends the watch exactly when the grace is |
| Observation.Observer.RecoverSilent | packages/orchestration-runtime/open-code-executor.js:1880-1944 | a silent child is continued only if it was stopped and at rest and nothing was ever continued before |
| Observation.Observer.HoldAnchor | packages/orchestration-runtime/open-code-executor.js:2102-2141 | a stale tail is reposted at most once, after the grace and only if there is a prompt for it, and then no longer held back |
| Observation.Observer.AfterTransportFailure | packages/orchestration-runtime/open-code-executor.js:2045-2100 | a settled failure is continued exactly if no receipt, no marker and no earlier continuation exists |
| Observation.Observer.AfterTail | packages/orchestration-runtime/open-code-executor.js:2142-2190 | an empty result is prompted exactly once, and never with a recovery receipt |
| Observation.ObserveTerminal | packages/orchestration-runtime/open-code-executor.js:1616-2216 | over any readings at most four automatic prompts, one of each kind, and no empty-output prompt after a recovery |
| Utf8.BoundariesAreReached | packages/orchestration-runtime/managed-result-projection.js:104-109 | the local surrogate test accepts exactly the offsets the code-point walk visits |
| Utf8.EncodeSplits | packages/orchestration-runtime/managed-result-projection.js:12-26 | at a boundary the UTF-8 bytes of a text are those of its two parts |
| Utf8.EncodePoint | packages/orchestration-runtime/managed-result-projection.js:13-18 | the byte count used for paging is the length of the encoding |
| Base64Url.SextetsRoundTrip | packages/orchestration-runtime/codec-primitives.js:106-127 | regrouping bytes into sextets and back loses nothing |
| Base64Url.RoundTrip | packages/orchestration-runtime/codec-primitives.js:106-127 | decoding gives the bytes back exactly if there are any and the encoding carries no padding, and never gives back others |
| Base64Url.PaddingIsRefused | packages/orchestration-runtime/codec-primitives.js:106-127 | every single byte is lost once padded and read back unpadded, and no bytes are never read back |
| ResultPaging.SliceText | packages/orchestration-runtime/managed-result-projection.js:111-131 | a page is the longest run of whole code points that fits, and never empty before the end |
| ResultPaging.OnePage | packages/orchestration-runtime/managed-result-projection.js:111-131 | there is one such page for an offset and a size |
| ResultPaging.CursorRoundTrip | packages/orchestration-runtime/managed-result-projection.js:47-102 | an encoded cursor decodes to its fields exactly if they are well-formed |
| ResultPaging.CreatePage | packages/orchestration-runtime/managed-result-projection.js:133-155 | the page carries the longest fitting text, the exact counts and the cursor behind it |
| ResultPaging.ReadReference | packages/orchestration-runtime/managed-result-projection.js:214-253 | a page is served exactly for a cursor of this result at a code-point offset with the right counts |
| ResultPaging.ReadCovers | packages/orchestration-runtime/managed-result-projection.js:133-253 | after any number of pages of any legal sizes the text so far is a prefix of the preview with exact byte counts, and the cursor decodes to where it ends |
| ResultPaging.ReadEnds | packages/orchestration-runtime/managed-result-projection.js:133-253 | a complete read is the whole preview, and an incomplete one has an accepted cursor and fewer pages than code units |
| AgentCache.SweepSpares | packages/cursor-sdk-runtime/agent-cache.js:44-53 | a sweep leaves exactly the entries it does not give up |
| AgentCache.ShedIsLeastRecentlyUsed | packages/cursor-sdk-runtime/agent-cache.js:55-60 | capacity evicts idle entries only, each used no later than every idle one that stays |
| AgentCache.ShedSizes | packages/cursor-sdk-runtime/agent-cache.js:55-60 | as many go as are over the limit, or every idle one |
| AgentCache.PrunedIsWithinLimits | packages/cursor-sdk-runtime/agent-cache.js:40-62 | after pruning nothing expired is left, everything in use is, and only that can exceed the limit |
| AgentCache.ReleaseMarks | packages/cursor-sdk-runtime/agent-cache.js:123-137 | a release leaves entries of its session only in use and marked, and touches no other |
| AgentCache.Cache.Prune | packages/cursor-sdk-runtime/agent-cache.js:40-62 | exact entries, callbacks and count, keeping the invariant: map order is access order, a pending release is in use, and acquired pairs equal held plus notified |
| AgentCache.Cache.Get | packages/cursor-sdk-runtime/agent-cache.js:65-71 | returns the value of a live entry and moves it to the end, after pruning |
| AgentCache.Cache.Set | packages/cursor-sdk-runtime/agent-cache.js:72-106 | a value in use is kept and the new one handed back, an idle one is replaced, the same one is renewed |
| AgentCache.Cache.MarkActive | packages/cursor-sdk-runtime/agent-cache.js:107-114 | counts a use of a live entry |
| AgentCache.Cache.MarkInactive | packages/cursor-sdk-runtime/agent-cache.js:115-122 | ends a use, stamps an entry that became idle and prunes, which completes a deferred release |
| AgentCache.Cache.ReleaseSession | packages/cursor-sdk-runtime/agent-cache.js:123-137 | marks entries in use, evicts the others and counts both |
| AgentCache.Cache.Clear | packages/cursor-sdk-runtime/agent-cache.js:139-145 | the only operation that evicts an entry in use, and it tells of every entry |
| StreamReplica.ComputeIncrementalTextDelta | packages/cursor-sdk-runtime/index.js:364-372 | a non-empty delta extends the old text to the new one, an empty one says nothing is new, and none says no delta can |
| StreamReplica.Emitter.EmitStreamingTextPartUpdate | packages/cursor-sdk-runtime/index.js:3905-3938 | after a delta or a whole update the client holds the new text |
| StreamReplica.Emitter.EmitRemoved | packages/cursor-sdk-runtime/index.js:3983-3995 | removes exactly the parts of this message that the record no longer holds, in any order |
| StreamReplica.Emitter.EmitRecordDelta | packages/cursor-sdk-runtime/index.js:3940-4005 | a client that folds the events holds exactly the record's parts of this message, the same text for each and the same value for each that does not stream |
| StreamReplica.LastIsPut | packages/cursor-sdk-runtime/index.js:3960-3981 | of several parts with one id the last is the one the emitted map holds |
| StreamReplica.RecordIsShown | packages/cursor-sdk-runtime/index.js:3940-4005 | the emitted map and the client's map agree on the record |
| PersistQueue.SortThenReplace | packages/cursor-sdk-runtime/index.js:1768-1774 | replacing a record by one with its id commutes with the stable sort |
| PersistQueue.UpsertTwice | packages/cursor-sdk-runtime/index.js:1768-1782 | a second write of a message makes the first one invisible |
| PersistQueue.CoveringWrite | packages/cursor-sdk-runtime/index.js:1724-1766 | one write of the last snapshot has the effect of writing all it stands for |
| PersistQueue.PassedOver | packages/cursor-sdk-runtime/index.js:1724-1735 | only replaceable snapshots of the same message are passed over |
| PersistQueue.Queue.EnqueuePersist | packages/cursor-sdk-runtime/index.js:1724-1740 | replaces the pending tail of the same message or appends, keeping what is stored equal to a prefix written in order |
| PersistQueue.Queue.Start | packages/cursor-sdk-runtime/index.js:1752-1758 | the oldest slot begins and can no longer be replaced |
| PersistQueue.Queue.WriteOut | packages/cursor-sdk-runtime/index.js:1724-1782 | with nothing left, the stored records are those of writing every snapshot on its own |
| AsyncQueue.BytesAppend | packages/cursor-sdk-runtime/index.js:406-433 | buffered bytes add up |
| AsyncQueue.Queue.Push | packages/cursor-sdk-runtime/index.js:406-421 | feeds the oldest waiting call, buffers within both limits, or overflows and closes, with no consumer left waiting |
| AsyncQueue.Queue.Close | packages/cursor-sdk-runtime/index.js:422-429 | every waiting call ends, and buffered values stay |
| AsyncQueue.Queue.Next | packages/cursor-sdk-runtime/index.js:430-444 | calls get the accepted values in order, then the error or the end |
| ManagedWait.ScopesAgree | packages/orchestration-runtime/managed-wait.js:6-6 | two selections have one scope exactly if they name the same tasks |
| ManagedWait.ProjectManagedWaitSnapshot | packages/orchestration-runtime/managed-wait.js:50-92 | the one pass fills the lists that the states define |
| ManagedWait.ListedExactly | packages/orchestration-runtime/managed-wait.js:50-92 | a task is in a list exactly if its state and sequence put it there |
| ManagedWait.StatesPartition | packages/orchestration-runtime/managed-wait.js:8-14 | each selected task is in the list of its state and in none of another, attention says which of its two states it is, and a disposed task is listed with its action and follow-up |
| ManagedWait.RetainedExactly | packages/orchestration-runtime/managed-wait.js:24-48 | a cursor is accepted exactly as long as its envelope is stored |
| ManagedWait.PollResolves | packages/orchestration-runtime/managed-wait.js:24-48 | a poll starts at the last cursor, or afresh exactly when its envelope was lost |
| ManagedWait.PastCursor | packages/orchestration-runtime/scheduler.js:662-668 | past the cursor are exactly the envelopes that changed since the last poll |
| ManagedWait.SinceLastPoll | packages/orchestration-runtime/scheduler.js:969-975 | while the cursor's envelope is kept, everything stored is as it was or came after it |
| ManagedWait.EachReadyOnce | packages/orchestration-runtime/managed-wait.js:18-92 | over every run of polls a ready result is listed by the first poll that finds it, not again until it changes, and a lost cursor lists all of them again |
| WaitRetention.WaitedForStays | packages/orchestration-runtime/persistence.js:116-142 | compaction keeps whole what waiting counts on: unfinished and resuming records always, and a grouped result nobody disposed of while its root may collect |
| AutoResume.ParkingKeepsBudget | packages/orchestration-runtime/auto-resume-policy.js:67-99 | after any run and one more park the next plan still counts every launch and the first start, never turns to the backup right after it, and gives up on a second connection incident |
| AutoResume.PlansWithinLineage | packages/orchestration-runtime/auto-resume-policy.js:144-259 | a scheduled attempt lies between now and the fixed end, within the cap, delayed for the original model and immediate for an unused backup |
| AutoResume.OriginalWaitsForReset | packages/orchestration-runtime/auto-resume-policy.js:180-258 | never before the earliest known reset, except exactly when the rejection window decides and ends earlier |
| AutoResume.WindowCanPreemptReset | packages/orchestration-runtime/auto-resume-policy.js:223-233 | the exception happens in a run with one rejection per park: the original model is planned at 75 seconds although its known reset is at an hour |
| AutoResume.LineageStaysWithinCaps | packages/orchestration-runtime/scheduler.js:1609-1750 | over every run at most eight launches that were not given back, at most five that the host refused and one more for each time the user switched it on again, a connection incident launches only the first, and none at or after the fixed end |
| AutoResume.FiveRefusalsCanHappen | packages/orchestration-runtime/scheduler.js:1724-1737 | the bound on refusals is met without the user, and ends the lineage |
| AutoResume.BackupsAlternate | packages/orchestration-runtime/scheduler.js:1370-1390 | over every run a used backup is not used again before the original model was tried |
| AutoResume.KeysDiffer | packages/orchestration-runtime/auto-resume-policy.js:267-283 | another task, cancelled generation or attempt never shares an idempotency key |
| Assignment.BoundedPromptIsLongest | packages/orchestration-runtime/continuation-assignment.js:47-52 | the cut prompt is all that fits whole, except right behind a replacement character |
| Assignment.BoundedPromptCanLose | packages/orchestration-runtime/continuation-assignment.js:47-52 | a replacement character that fits exactly is dropped |
| Assignment.SizeGrows | packages/orchestration-runtime/continuation-assignment.js:66-67 | below the full length the size is monotone |
| Assignment.SearchFinds | packages/orchestration-runtime/continuation-assignment.js:70-76 | between a prefix that fits and a full length that does not, the binary search ends at the longest prefix that fits |
| Assignment.LongestFitting | packages/orchestration-runtime/continuation-assignment.js:68-76 | the search finds the longest prefix that fits, or that none does |
| Assignment.FullLengthComesFirst | packages/orchestration-runtime/continuation-assignment.js:68-76 | without the first check the search misses a prompt that fits whole |
| Assignment.FormatContext | packages/orchestration-runtime/continuation-assignment.js:56-77 | the context fits its budget, carries the longest prefix and says whether anything is missing |
| Assignment.StripUndoesAppend | packages/orchestration-runtime/continuation-assignment.js:28-45 | stripping undoes appending exactly if the continuation, with a line break behind it, does not contain the marker |
| Assignment.StripCanFail | packages/orchestration-runtime/continuation-assignment.js:28-45 | a continuation without the marker that ends like it is not given back, whatever the rule and the assignment |
| ChangeOutbox.PaddedOrder | packages/cursor-sdk-runtime/cursor-session-changes.js:34-43 | padded names sort as their numbers do |
| ChangeOutbox.Outbox.WriteEvent | packages/cursor-sdk-runtime/cursor-session-changes.js:44-59 | an event goes to a number no pending event has, so nothing is overwritten after a crash |
| ChangeOutbox.Outbox.WriteCounter | packages/cursor-sdk-runtime/cursor-session-changes.js:60-61 | the counter moves past the event |
| ChangeOutbox.Outbox.Crash | packages/cursor-sdk-runtime/cursor-session-changes.js:53-87 | a crash between the writes of an append, or between an acknowledgement and its removal, loses no event |
| ChangeOutbox.Outbox.Batch | packages/cursor-sdk-runtime/cursor-session-changes.js:34-43 | a batch is the 64 smallest names, whatever order the directory is read in |
| ChangeOutbox.Outbox.Hand | packages/cursor-sdk-runtime/cursor-session-changes.js:76-86 | handing an event over leaves its file in place, whether the answer is an acknowledgement, a refusal or lost |
| ChangeOutbox.Outbox.Unlink | packages/cursor-sdk-runtime/cursor-session-changes.js:87-87 | only an acknowledged event that has arrived leaves the directory |
| ChangeOutbox.ArrivesTwice | packages/cursor-sdk-runtime/cursor-session-changes.js:86-87 | a crash between the acknowledgement and the removal delivers the event again |
| ChangeOutbox.Outbox.Replay | packages/cursor-sdk-runtime/cursor-session-changes.js:67-95 | ends empty, out of time or at the first event that is not acknowledged; everything appended has arrived or is still stored, and without interruptions events arrive once each in the order of appends |
| ChangeOutbox.Outbox.Remove | packages/cursor-sdk-runtime/cursor-session-changes.js:101-104 | removing the session is the only other way an event disappears |

## Left out

* Records are written by parameters: the JSON text of a task, an envelope or a check, and the validators of the codec,
  are functions the model takes as given, and every result holds for all of them.
* Numbers are unbounded, and timestamps and byte limits are integers or absent; non-finite numbers count as absent.
* `localeCompare` is a rank given with each id, so ids that compare equal keep their order.
* Process spawning, git, the HTTP and MCP servers, the Cursor SDK and files; the outbox directory is a map.
* What `result-envelope.js`, `required-checks.js`, `provider-retry-policy.js` and the transcript analysis decide: their
  answers are inputs of the steps.
* Failed writes of the Cursor persist queue, `updateAgentId`, which bypasses it, and callbacks of the cache that call
  back into it.
* Compaction is not idempotent: removing a record can deactivate its root or change lineage keys.
* The scheduler's timers, how provider breakers come about, and host hooks; a launch, its outcome and a plan are steps
  at any time, and a launch is told how long its breaker holds.
* JSON and percent encoding of wait cursors; a cursor is its fields, or malformed.
* The cache takes session ids already trimmed, and evictions by key are evictions at the key's place in the map.
* The wording of prompts, presentation, timing marks, diagnostics, theme porting and title generation.
- StreamReplica.Emitter.EmitRecordDelta: for a part whose text grew it claims the text only, because the delta event
  carries nothing else, and parts are compared as values rather than by their JSON.
- Observation.ObserveTerminal: the connection prompt counts as sent once its reservation went through, so the bound
  also covers ambiguous calls; for the other three a call that is not reported as submitted may be repeated.
- ChangeOutbox.Outbox.Replay: claims no order after a crash, because a number can be used again while a later one is
  pending.
- ResultPaging.ReadCovers: takes as given that parsing inverts the writing of the cursor's JSON.
- TransportRecovery.AtMostOnePrompt: is about recovery prompts; the ordinary prompts of a launch, a manual retry or a
  resumed task are not counted.
- AutoResume.LineageStaysWithinCaps: a launch that the host puts off or refuses is given back, as the scheduler does,
  so only refused ones have a bound of their own; launches that are put off are bounded by the fixed end alone.
- ProofTransfer.Persist: the proofs held in memory are taken to be those on disk, in any order of shards, and apart
  from the ledger's records in key, which the scheduler's index of keys sees to; writing the ledger itself is not
  modelled.

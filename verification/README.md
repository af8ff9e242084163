# Verification of the event pipeline

The pipeline accepts an event, writes it to a log, hands it to a buffer, lets workers batch it, writes
the batch to every sink, acknowledges it in the log, and replays what was not acknowledged when it
starts again. This project models those parts in Dafny and proves what they promise, for every input,
every interleaving and every crash point that is named below.

`dafny verify dfyconfig.toml` checks everything.

## How the model is organised

| files | what they model |
|---|---|
| `options`, `events`, `arithmetic`, `big_endian`, `decimal` | results and errors, the message and its codec, the two number formats |
| `prefix_code` | any file of self-delimiting items: reading, torn tails, appending after a reopen |
| `wal_format`, `wal_spec`, `file_wal` | the log's bytes, what recovery and checkpoints mean, the log object |
| `tracker`, `service`, `replay` | the id-to-number map, `Service.Push`, the replay loop |
| `delivery`, `delivery_proof`, `delivery_refinement`, `delivery_examples` | the whole protocol as a state machine, its invariant, the methods as runs of it, and runs that lose an event |
| `overflow_format`, `disk_queue`, `disk_queue_restart`, `disk_queue_space` | the overflow file, the queue object, restarts and crashes, the space it takes |
| `channel`, `hybrid`, `hybrid_machine`, `hybrid_refinement` | the two buffers; the hybrid one also as a state machine, with its methods as runs of it |
| `flush`, `worker_loop`, `worker_pool`, `worker_pool_examples` | retries and dead letters, one worker's loop, the pool through shutdown, and runs of it |
| `limiter`, `registry` | the token bucket and the per-tenant limits |

Objects that the program updates in place are classes, and their methods are proved against functions
or state-machine steps about which the results are then proved. Concurrency is modelled by the two
delivery and buffer machines and by the pool, where one step is one critical section or one channel
operation. Some choices hold throughout:

- A file is its contents. An fsync is the point after which a crash keeps the bytes; a crash cuts the log
  anywhere behind the last synced record, and keeps any prefix of the acknowledgement file, which is
  never synced while the process runs.
- The protobuf codec is a pair of functions. `marshal` may reject a message and `unmarshal` may reject bytes;
  what `marshal` accepts is shorter than 2^32 bytes and is read back. Nothing else is assumed of it.
- What the environment decides is a parameter: clock readings, the outcome of a write and of its fsync,
  a sink's reply to each attempt, cancellation, panics, the arm that a `select` takes.
- Sequence numbers are 64-bit and wrap, header fields are cut to their width, and offsets on disk are
  parsed with the limits of a signed 64-bit number.

## What the code does not promise

The code was followed wherever it says less than its documentation or its log messages.

- Delivery is by event id. `README.md:315` promises at-least-once delivery; two accepted events with one id
  can lose the second (`CollidingIdsLoseContent`). Delivery by content holds in all runs exactly when ids
  determine events (`ContentDeliveryIff`).
- `NewFileWAL` opens the log for appending without cutting off a torn record. Appending the record with the next
  number is then safe for all payloads exactly when the file ends on a record boundary
  (`AppendSafeIffAligned`); behind a torn record, at most one of the 256 values of a payload's last byte
  survives (`LastByteDecides`), and `AppendTornIff` says exactly which records do. Likewise for the
  acknowledgement file (`AckAppendSafeIffAligned`). So the machine's restarts find whole records; the crash at
  the end of a run may leave any bytes.
- A crash between the two disk effects of a checkpoint keeps every entry, but a process restarted from there
  may give out a number that is already acknowledged: exactly if the newest record was acknowledged
  (`MidCheckpointSafeIff`), and then an event appended later is never recovered (`MidCheckpointAppendsIff`). The
  machine makes such restarts only if told to (`anyRestart`), and then an accepted event can be lost
  (`MidCheckpointLosesAccepted`).
- An `Enqueue` whose fsync failed reports an error but leaves its frame behind the queue in the overflow file, and
  opening the file takes its size as the end of the queue. A restart brings the event back
  (`FailedSyncComesBack`), or what is left of its frame after a shorter one was written over it; the queue is restored
  exactly when no whole frame lies behind it (`ReopenAfterFailedSyncIff`).
- An event whose `Push` returned an error can still be recovered and replayed: after a failed fsync or a full
  buffer its record stays in the log (`FailedPushComesBack`). Recovery returns an event exactly when a surviving
  record carries it without a surviving acknowledgement (`RecoveredIff`).
- The compaction threshold does not bound the overflow file by itself. Compaction looks only at the bytes in front of
  the read offset, not at what failed enqueues left at the end of the file (`LeftoverBreaksBound`), and only when an
  event is dequeued, not when the file is opened (`OpenedAboveThreshold`). `SpaceBoundIff` says exactly when the
  bound holds, and `DeadBytesBounded` what holds over runs: the threshold plus the longest frame whose fsync failed.
- The hybrid buffer's shutdown message says that an event remains on disk. It has been dequeued and is lost
  (`DrainOverflow`, `Close`).
- The hybrid buffer is not first-in first-out, even with one producer, because the pump's dequeue and its send
  are two operations (`OneProducerCanOvertake`). `FifoIffNoOvertake` says exactly when it is.
- After a crash between emptying the overflow file and saving offset 0, the queue opens as empty, as intended,
  but the old offset stays on disk until the next dequeue, and events queued in between are not restored by
  a second restart (`StaleOffsetLosesLaterEvents`).
- A crash inside a compaction that moves live bytes can lose the queue. During the move the queue survives exactly
  when the moved part fits in front of the saved offset or repeats the bytes that it overwrites
  (`MoveCrashSafeIff`); of distinct events of one size, it survives the complete move exactly when no more are
  live than dead (`DistinctEventsSurviveIff`). Between truncation and saving the offset it is always lost
  (`CompactionCrashLoses`). A torn frame is counted when the file is opened (`ScanCountsFrames`) and spoils what
  is queued behind it (`EnqueueSafeIffWhole`).
- Replay appends new records and acknowledges none of the old ones, so restarts without deliveries double the log's
  recoverable entries each time (`RestartsDouble`).

## Model

| member | source | states |
|---|---|---|
| BigEndian.GetPut | internal/wal/file_wal.go:32-33 | A number is read back from its header field if and only if it fits the field's width; otherwise the cut-off shows |
| BigEndian.PutGet | internal/wal/file_wal.go:48-49 | No two field contents decode to the same number: re-encoding what was read gives the same bytes |
| BigEndian.PutByte | internal/wal/file_wal.go:32-33 | Each byte of a written number is its digit to base 256, the most significant first |
| PrefixCode.ParseEncoded | internal/wal/file_wal.go:160-172 | A read loop over encoded items returns exactly those items and then goes on with whatever follows them |
| PrefixCode.EncodeParsed | internal/wal/file_wal.go:160-172 | Any bytes at all are the items the loop read followed by an unread rest that does not start with an item |
| PrefixCode.TornItem | internal/wal/file_wal.go:43-56 | No proper prefix of an item can be mistaken for an item |
| PrefixCode.TornTail | internal/wal/file_wal.go:160-172 | For any items and any cut, what is read is the longest run of items lying wholly before the cut |
| PrefixCode.TornTailKeeps | internal/wal/file_wal.go:123-125 | A cut behind the first m items keeps those m items in what is read |
| PrefixCode.AppendWhole | internal/wal/file_wal.go:73 | On a file that ends on an item boundary an appended item is read back last, and the boundary is kept |
| PrefixCode.AppendTornIff | internal/wal/file_wal.go:73 | Behind a torn tail an appended item is read back as written exactly when tail and item together start with the item again and nothing decodes after that |
| PrefixCode.SurvivorRepeats | internal/wal/file_wal.go:73 | Only an item longer than the tail, whose bytes repeat with the tail's length, can survive behind it |
| PrefixCode.OneSurvivor | internal/wal/file_wal.go:73 | Of items that differ in their last byte only, at most one survives behind a torn tail |
| WalFormat.ReadBackIffFits | internal/wal/file_wal.go:30-56 | A written record is read back, with whatever follows it left over, if and only if both header fields are wide enough for it |
| WalFormat.RecordBytes | internal/wal/file_wal.go:30-41 | The first eight bytes of a record are its number, the next four its length, most significant byte first, and the rest is the payload |
| WalFormat.RewriteRead | internal/wal/file_wal.go:30-56 | Writing a record that was read reproduces the bytes it was read from, for any bytes |
| WalFormat.LogLawful | internal/wal/file_wal.go:30-56 | The record format is self-delimiting: every result about files of items holds of the log |
| WalFormat.AppendSafeIffAligned | internal/wal/file_wal.go:73 | Whatever number comes next, appending it to a reopened log keeps what was readable and adds the new record, for every payload, exactly when the log ends on a record boundary |
| WalFormat.OneByteLost | internal/wal/file_wal.go:116-121 | Behind a torn record the next record is lost or misread for a payload of one byte, whatever its number |
| WalFormat.LastByteDecides | internal/wal/file_wal.go:116-121 | Behind a torn record, of the payloads of any length that differ in the last byte only, at most one is read back |
| WalFormat.AcksLawful | internal/wal/file_wal.go:136-138 | The same laws for the 8-byte entries of the acknowledgement file |
| WalFormat.AckAppendSafeIffAligned | internal/wal/file_wal.go:79 | Appending to a reopened acknowledgement file is safe for the numbers below any limit exactly when its length is a multiple of 8; otherwise number 1 is lost |
| WalSpec.EntriesMember | internal/wal/file_wal.go:174-184 | Recovery returns an entry if and only if some unacknowledged record decodes to it: acknowledged and undecodable records, and only those, are skipped |
| WalSpec.EntriesInOrder | internal/wal/file_wal.go:160-187 | Recovered entries come in order of their numbers |
| WalSpec.UnackedMember | internal/wal/file_wal.go:222-224 | A checkpoint keeps a record if and only if it is in the log and not acknowledged |
| WalSpec.EntriesOfUnacked | internal/wal/file_wal.go:202-240 | Recovering from a compacted log gives the same entries as from the full one, whichever of the acknowledgements survive |
| WalSpec.EntriesWithFewerAcks | internal/wal/file_wal.go:174-176 | Losing acknowledgements only adds entries, each in its place: nothing is lost or reordered |
| WalSpec.AckPrefix | internal/wal/file_wal.go:285-295 | A cut acknowledgement file yields exactly the whole numbers before the cut |
| WalSpec.CheckpointCrash | internal/wal/file_wal.go:202-270 | At each crash point of a checkpoint, with any prefix of the acknowledgements, recovery returns every live entry in order; from the rename on, or with all acknowledgements on file, exactly those |
| WalSpec.AppendCrash | internal/wal/file_wal.go:107-128 | A crash that cuts the log anywhere behind its synced records, with any prefix of the acknowledgements, loses no durable unacknowledged entry |
| WalSpec.TornRecovery | internal/wal/file_wal.go:144-188 | Recovery from a torn log is the order-preserving unacknowledged filter of the longest run of records wholly before the cut |
| WalSpec.MaxSeqBounds | internal/wal/file_wal.go:299-325 | The number a restarted log continues from is the largest in the file |
| WalSpec.ApplyKeepsFresh | internal/wal/file_wal.go:107-142 | Every log operation keeps numbers increasing along the log and acknowledged numbers within it |
| WalSpec.NextNumberIsFresh | internal/wal/file_wal.go:116-142 | After any run of appends, failed appends, acknowledgements, checkpoints and clean reopens, the next number exceeds every number in the file and is not acknowledged |
| WalSpec.NumberingRegresses | internal/wal/file_wal.go:299-325 | A run after which the counter is lower than before: a compacted log that is reopened |
| WalSpec.MidCheckpointSafeIff | internal/wal/file_wal.go:250-266 | A process restarted between rename and acknowledgement truncation will never give out an acknowledged number if and only if nothing was acknowledged or the newest record was not |
| WalSpec.MidCheckpointAppendsIff | internal/wal/file_wal.go:250-266 | After a restart between rename and acknowledgement truncation every later append is recovered if and only if nothing was acknowledged or the newest record was not |
| FileWal.FileWAL.constructor | internal/wal/file_wal.go:67-105 | Opening loads the acknowledged set and the highest number from the files as they are, torn or not, and is valid on whole files with fresh numbers |
| FileWal.FileWAL.LoadAcked | internal/wal/file_wal.go:272-297 | The set grows by exactly the whole numbers on file |
| FileWal.FileWAL.LoadMaxSeq | internal/wal/file_wal.go:299-325 | The counter becomes the largest of itself and the readable records' numbers |
| FileWal.FileWAL.Append | internal/wal/file_wal.go:107-128 | Which error each failure gives, that the number is used up by a failed write, what reaches the file when only the fsync fails; on every outcome the log stays valid and makes the record-level step, the failed one after a failed write |
| FileWal.FileWAL.Acknowledge | internal/wal/file_wal.go:130-142 | The number is acknowledged in memory even if the file write fails; acknowledging a logged number keeps the log valid |
| FileWal.FileWAL.Recover | internal/wal/file_wal.go:144-188 | The loop returns the recoverable entries of the readable part of the file |
| FileWal.FileWAL.Checkpoint | internal/wal/file_wal.go:202-270 | The file becomes the encoding of the unacknowledged records, the acknowledgements are cleared, and this is the record-level checkpoint step |
| FileWal.RecoverAfterRestart | internal/wal/file_wal.go:67-188 | Opening any two files and recovering gives what the crash results call the recovery from them |
| FileWal.Reopen | internal/wal/file_wal.go:67-105 | Opening the log again, with any whole prefix of its acknowledgements left, is the record-level restart |
| FileWal.ReopenInCheckpoint | internal/wal/file_wal.go:250-266 | Opening what a checkpoint leaves between rename and truncation is the restart that MidCheckpointSafeIff speaks of |
| FileWal.AppendIsAppendOp | internal/wal/file_wal.go:107-128 | On an aligned file, the bytes an append writes are read back as one more record, and the file stays aligned |
| FileWal.CheckpointIsCheckpointOp | internal/wal/file_wal.go:212-257 | The rewritten file is aligned and reads back as the unacknowledged records |
| FileWal.AckKeepsFileWhole | internal/wal/file_wal.go:136-138 | An acknowledgement keeps the file on an 8-byte boundary and adds its number to what is read back |
| Tracker.SeqTracker.Store | internal/wal/tracker.go:16-20 | The latest number stored for an id replaces an earlier one and no other id is touched |
| Tracker.SeqTracker.LoadAndDelete | internal/wal/tracker.go:22-30 | A number is handed out at most once: it is returned and forgotten, and an unknown id changes nothing |
| DeliveryProof.StepInv | internal/worker/worker.go:162-191 | Each step of pushers, workers, checkpoints and restarts, in any interleaving, keeps the delivery invariant; above all, an unacknowledged number is in one place only |
| DeliveryProof.AtLeastOnce | README.md:315 | In every reachable state and for every crash image there, an event for which Push returned nil is recovered, or a batch holding its id was written by every sink |
| DeliveryProof.CrashKeepsAccepted | internal/wal/file_wal.go:144-188 | The same from the invariant alone: what a crash can destroy never includes an accepted, undelivered event |
| DeliveryProof.AckSoundness | internal/ingestor/service.go:83-86 | The tracker only ever sends an id to a record that carries it, and a number is acknowledged only when its record carries an id of a batch that every sink wrote, with duplicate ids, concurrent callers and rollbacks |
| DeliveryProof.HeldSinceRestart | internal/wal/tracker.go:10-14 | In every reachable state, any number that a caller, the tracker or a worker holds was given out by an append after the last restart |
| DeliveryProof.RunOnlyOffered | internal/worker/worker.go:162-166 | Nothing reaches a batch or a sink that was not offered to Push |
| DeliveryProof.RecoveredIff | internal/wal/file_wal.go:144-188 | In every reachable state and for every crash image there, recovery returns an event exactly when a surviving record carries it and no surviving acknowledgement has its number, whatever Push returned for it |
| DeliveryProof.RecoveredWasOffered | internal/wal/file_wal.go:144-188 | Nothing is recovered that was not offered to Push or in the log from the start |
| DeliveryProof.AtLeastOnceByContent | README.md:315 | If no two offered events share an id, the accepted event itself is recovered or is in a batch that every sink wrote |
| DeliveryExamples.CollidingIdsLoseContent | internal/wal/tracker.go:16-20 | For any number of sinks, a run in which two different events share an id, the second is accepted, and a crash leaves it neither recovered nor written by all sinks |
| DeliveryExamples.LostFromBufferComesBack | README.md:315 | A run in which the buffer loses an accepted event that no sink has, and a crash recovers it from the log |
| DeliveryExamples.FailedPushComesBack | internal/ingestor/service.go:75-91 | A run in which Push fails, in the fsync or on a full buffer, nothing is accepted, and a crash recovers the event |
| DeliveryExamples.ContentDeliveryIff | README.md:315 | Delivery by content holds in all runs offered permitted events if and only if, among those that marshal, the id determines the event |
| DeliveryExamples.MidCheckpointLosesAccepted | internal/wal/file_wal.go:250-266 | A run with a restart between rename and acknowledgement truncation after which an accepted event is lost to a crash and no sink has it |
| Services.Service.Push | internal/ingestor/service.go:61-96 | Quota, log, tracker and buffer change as the specification of a call says, on every outcome; a denied call touches only the limits |
| DeliveryRefinement.PushIsRun | internal/ingestor/service.go:61-96 | An undisturbed call of Push is a run of the delivery machine between states that match in log, number, tracker and buffer; the event joins the accepted ones exactly when it returns nil, and the log is durable after a successful fsync |
| DeliveryRefinement.PushGoesOn | internal/ingestor/service.go:83-91 | After its append a call goes on to nil or to the rollback whatever the lock and the other callers do, and changes only its own id, the buffer and itself |
| DeliveryRefinement.CollectIsRun | internal/worker/worker.go:132-139 | A worker can gather any buffered events, in any order, whoever else is at work |
| DeliveryRefinement.RestartIsStep | internal/wal/file_wal.go:85-104 | A restart is possible wherever the files are whole, and the machine then holds what a log opened on the surviving bytes and a new tracker hold; calls and workers are gone and history is untouched |
| DeliveryRefinement.PanicAndRestartIsRun | internal/worker/worker.go:63-114 | A worker that panics and is restarted has lost its batch, and any number in its hands, and nothing else changes |
| DeliveryRefinement.CheckpointIsRun | internal/wal/file_wal.go:202-270 | An undisturbed checkpoint is a run of the delivery machine and does what the record-level step does |
| DeliveryRefinement.AcknowledgeAllIsRun | internal/worker/worker.go:184-190 | The acknowledging loop, whichever of its writes fail, is a run of the delivery machine that changes nothing else: one acknowledgement for each id that is still tracked, in order of first occurrence |
| DeliveryRefinement.FlushIsRun | internal/worker/worker.go:162-191 | An undisturbed flush is a run of the delivery machine for every set of accepting sinks and of failing acknowledgement writes, and changes nothing that it need not |
| DeliveryRefinement.FlushMatches | internal/worker/worker.go:162-191 | What the contract of the flush method says of tracker, acknowledged set and acknowledgement file is what that run does, with a recorded write for each sink that accepted in time |
| DeliveryRefinement.BytesOfWritten | internal/wal/file_wal.go:136-138 | The bytes in the acknowledgement file are the encoding of the numbers whose write succeeded |
| Flushing.WriteWithRetry | internal/worker/worker.go:200-235 | At most three attempts, only after transient errors and uncancelled pauses; success exactly when an attempt in that budget was accepted; the error is the last one, or the cancellation; a permanent first reply ends it at once and three transient ones with the third |
| Flushing.Deps.Flush | internal/worker/worker.go:162-191 | Each pair of an event and a sink ends with the sink having accepted the batch in time or with exactly one dead-letter push, never both; tracker and acknowledgements change for all ids of the batch if all sinks accepted, and not at all otherwise |
| Flushing.Deps.WriteToSinks | internal/worker/worker.go:165-181 | Every sink is tried whatever the others did, and only failed sinks produce dead letters |
| Flushing.Deps.PushAll | internal/worker/worker.go:175-179 | A failed sink gets one dead letter per event of the batch, in batch order, with its error |
| Flushing.Deps.AcknowledgeAll | internal/worker/worker.go:184-190 | Repeated ids are acknowledged once; afterwards no id of the batch is tracked |
| Flushing.AckOneMore | internal/worker/worker.go:184-190 | Acknowledging event by event adds up to acknowledging the batch, repeated ids included |
| WorkerLoop.RunWorker | internal/worker/worker.go:116-154 | The loop follows its signal-by-signal specification, takes no signal after it has exited, and has exited at the latest at the first closed channel or stop |
| WorkerLoop.SignalPartition | internal/worker/worker.go:123-152 | One turn loses and reorders nothing; a receive flushes only full batches, a tick leaves no batch and an empty tick does nothing; a closed channel or a stop always ends the loop, and only a flush that panics makes the end unclean |
| WorkerLoop.WorkerPartition | internal/worker/worker.go:116-154 | For every sequence of select choices the events taken are the flushed batches in order plus the batch in hand; flushed batches have 1 to BatchSize events and a clean exit leaves none in hand |
| WorkerLoop.RunWorkerWithRestart | internal/worker/worker.go:63-99 | At most five attempts; it ends by a clean exit, by the fifth panic, or by a stop during a cooldown, and for no other reason |
| WorkerPool.TurnKeepsEvents | internal/worker/worker.go:101-154 | A turn of a worker, panicking or not, accounts for every event it had and the one it received |
| WorkerPool.EndOfLoop | internal/worker/worker.go:123-137 | A worker that sees the channel closed or the stop is no longer active and has no batch: it has flushed it, or lost it to a panic |
| WorkerPool.StepInv | internal/worker/worker.go:42-154 | Every step of the pool keeps conservation, batch sizes, restart counts and the meaning of a clean exit |
| WorkerPool.PanicBound | internal/worker/worker.go:63-99 | In every reachable state panics have lost at most NumWorkers * 5 * BatchSize events, and everything pushed is in the channel or was had by some worker |
| WorkerPool.GracefulDrain | internal/worker/worker.go:132-138 | Without a forced stop, when all workers have exited and one did so cleanly, the channel is empty and every event is in one flushed batch or one batch lost to a panic; events can stay behind only if every worker used up its restarts |
| WorkerPoolExamples.ShutdownFlushesAll | internal/worker/worker.go:116-154 | For any events and batch size a run exists that closes the channel, flushes all of them in order and exits cleanly |
| WorkerPoolExamples.TickFlushes | internal/worker/worker.go:147-151 | A tick can flush exactly what an active worker has in hand |
| WorkerPoolExamples.StopEnds | internal/worker/worker.go:91-130 | A stop can end any worker that is active or cooling down, without taking from the channel |
| WorkerPoolExamples.PanicBoundReached | internal/worker/worker.go:63-81 | A worker whose every flush panics loses exactly five full batches and then gives up: the bound is attained |
| Decimal.ParseFormatted | internal/buffer/disk_queue.go:182 | The decimal text of any offset parses back to it |
| Decimal.LoadPersisted | internal/buffer/disk_queue.go:180-199 | A persisted offset is loaded back as it was saved |
| Decimal.LoadTorn | internal/buffer/disk_queue.go:180-199 | Any prefix of the saved text loads as the offset without its last digits, so never as a larger one |
| Decimal.MissingIsZero | internal/buffer/disk_queue.go:189-193 | No offset file, or an empty one, counts as offset zero |
| Decimal.UnreadableIsZero | internal/buffer/disk_queue.go:194-197 | Text with any character other than digits, signs and spaces counts as offset zero |
| Decimal.OutOfRange | internal/buffer/disk_queue.go:194-197 | A number that does not fit 64 bits with a sign counts as offset zero; a negative one that does is loaded |
| Decimal.SpacesIgnored | internal/buffer/disk_queue.go:194 | White space around the number is ignored |
| OverflowFormat.FrameBytes | internal/buffer/disk_queue.go:87-89 | The first four bytes of a frame are its length, most significant byte first, and the rest is the payload |
| OverflowFormat.FramesLawful | internal/buffer/disk_queue.go:87-89 | The frame format is self-delimiting: every result about files of items holds of the overflow file |
| OverflowFormat.ScanCountsFrames | internal/buffer/disk_queue.go:65-79 | On any bytes the scan counts the whole frames, and one too many exactly when a torn frame still shows its length field |
| OverflowFormat.EnqueueSafeIffWhole | internal/buffer/disk_queue.go:49-55 | Enqueueing to a reopened file adds exactly the new payload, for all payloads up to any size of at least one byte, if and only if the file ends on a frame boundary |
| OverflowFormat.LastByteDecides | internal/buffer/disk_queue.go:85-96 | Behind a torn frame, of the payloads of any length that differ in the last byte only, at most one is read back |
| OverflowFormat.ReadsLikeIff | internal/buffer/disk_queue.go:105-127 | Bytes read like a run of whole frames exactly when they start with it and no frame follows |
| DiskQueues.DiskQueue.constructor | internal/buffer/disk_queue.go:33-63 | Opening clamps the saved offset to the file and counts what is readable, plus one for a torn frame; without an offset file reading starts at 0, and a negative offset counts nothing |
| DiskQueues.DiskQueue.ScanCount | internal/buffer/disk_queue.go:65-79 | The loop computes the count that ScanCountsFrames explains |
| DiskQueues.DiskQueue.Enqueue | internal/buffer/disk_queue.go:81-103 | The abstract queue grows by the event at its end if and only if nil is returned; a frame whose fsync failed is in the file but not in the queue |
| DiskQueues.DiskQueue.Dequeue | internal/buffer/disk_queue.go:105-140 | The head is removed and returned; an unreadable head stays and every later call fails the same way; nothing changes when no event is returned; an emptied queue leaves an empty file and the saved offset is current |
| DiskQueues.DiskQueue.ReadHead | internal/buffer/disk_queue.go:109-127 | What is decoded at the read offset is the head of the abstract queue and the rest is what lies behind it |
| DiskQueues.DiskQueue.Advance | internal/buffer/disk_queue.go:129-137 | Live bytes are kept whether or not it compacts; it compacts exactly when the queue is drained or dead bytes exceed 64 MiB |
| DiskQueues.DiskQueue.Compact | internal/buffer/disk_queue.go:154-178 | The file becomes exactly its live bytes, read from offset 0, in both cases |
| DiskQueueRestart.Reopen | internal/buffer/disk_queue.go:33-63 | Closing and opening again restores the position and the queue, followed by the frames that failed enqueues left behind it; contents and count are the same exactly when there is no such frame or length field |
| DiskQueueRestart.ReopenAfterFailedSyncIff | internal/buffer/disk_queue.go:94-99 | With bytes behind the write offset, a reopened file holds the same queue exactly when no whole frame starts there, and shows the same count exactly when they are fewer than four |
| DiskQueueRestart.FailedSyncComesBack | internal/buffer/disk_queue.go:94-99 | After an enqueue that failed in its fsync, a restart finds its event at the end of the queue |
| DiskQueueRestart.ReopenRestoresIff | internal/buffer/disk_queue.go:49-53 | Opening from any saved offset, with or without bytes behind the queue, restores it exactly when the file has its bytes from the clamped offset on and no whole frame behind them |
| DiskQueueRestart.EarlierOffsetReplays | internal/buffer/disk_queue.go:129-131 | An offset saved some frames ago brings exactly those frames back, before the queue |
| DiskQueueRestart.TruncateCrashOpensEmpty | internal/buffer/disk_queue.go:157-160 | Whatever text is in the offset file, unless it is a negative number, an emptied file opens as the empty queue |
| DiskQueueRestart.StaleOffsetLosesLaterEvents | internal/buffer/disk_queue.go:51-53 | With a stale offset on disk, no later queue is restored by a second restart before the next dequeue |
| DiskQueueRestart.MoveCrashSafeIff | internal/buffer/disk_queue.go:165-174 | After a crash in the move of compaction, the queue survives if and only if the moved part fits in front of the saved offset or repeats the bytes that it overwrites, and no frame of a failed enqueue lies behind it |
| DiskQueueRestart.DistinctEventsSurviveIff | internal/buffer/disk_queue.go:165-174 | A queue of distinct events of one size, however small, survives a crash after the move if and only if no more events are live than dead |
| DiskQueueRestart.CompactionCrashLoses | internal/buffer/disk_queue.go:172-177 | A crash between truncation and saving the new offset always loses events of a non-empty queue |
| DiskQueueSpace.SpaceBoundIff | internal/buffer/disk_queue.go:129-137 | The file is at most its live frames plus the 64 MiB threshold if and only if the bytes before the read offset and behind the write offset together are within the threshold |
| DiskQueueSpace.DeadBytesBounded | internal/buffer/disk_queue.go:81-178 | Over every run of enqueues, failed fsyncs and dequeues, bytes behind the write offset stay within the longest frame whose fsync failed, and those before the read offset within the threshold from the first dequeue on, or throughout if they start so |
| DiskQueueSpace.SpaceAfterRun | internal/buffer/disk_queue.go:81-178 | After such a run the file is at most its live frames, the threshold and the longest frame whose fsync failed; without failures, the first two |
| DiskQueueSpace.LeftoverBreaksBound | internal/buffer/disk_queue.go:91-102 | After a failed fsync of a long frame and a successful enqueue of a shorter one, a file at the threshold is over the bound |
| DiskQueueSpace.OpenedAboveThreshold | internal/buffer/disk_queue.go:129-137 | A queue opened from an offset that was saved before a compaction which never happened is over the bound after a successful enqueue |
| Channels.ChannelBuffer.Push | internal/buffer/channel.go:18-25 | An event is appended, or reported as not accepted exactly when the channel is full, and the bound holds |
| Hybrids.HybridBuffer.Push | internal/buffer/hybrid.go:45-57 | Without interference a push appends to what is pending, goes to the channel exactly when nothing is on disk and there is room, and fails only if the disk write it then needs fails |
| Hybrids.HybridBuffer.PumpBatch | internal/buffer/hybrid.go:90-112 | Pending events keep their order; at most one is lost, only after quit; otherwise it stops only on an empty disk, a full channel or an unreadable head |
| Hybrids.HybridBuffer.DrainOverflow | internal/buffer/hybrid.go:114-128 | The drain loses one event, which is neither in the channel nor on disk, only when the channel is full |
| Hybrids.HybridBuffer.Close | internal/buffer/hybrid.go:67-71 | With a readable disk queue, exactly the first event that does not fit in the channel is lost, and the later ones stay on disk |
| HybridRefinement.PushIsRun | internal/buffer/hybrid.go:45-57 | An undisturbed push is a run of the buffer's machine between matching states: the event is accepted exactly when nil is returned, and goes in directly or through disk as the method sends it, also when it finds the channel full |
| HybridRefinement.PumpBatchIsRun | internal/buffer/hybrid.go:90-112 | An undisturbed call of pumpBatch is a run of the machine between matching states, and the event it loses, if any, is dropped there |
| HybridRefinement.PumpStopsOnError | internal/buffer/hybrid.go:98-102 | A head that cannot be read ends pumpBatch after what was moved before it, with nothing lost |
| HybridRefinement.DrainStopsOnError | internal/buffer/hybrid.go:80-83 | A head that cannot be read ends the drain, with nothing lost, and the channel is closed next |
| HybridRefinement.DrainOverflowIsRun | internal/buffer/hybrid.go:114-128 | So is the last drain |
| HybridRefinement.CloseIsRun | internal/buffer/hybrid.go:67-83 | So is the whole shutdown, which ends with the pump gone and the channel closed |
| HybridMachine.QueueStep | internal/buffer/hybrid.go:45-128 | How each atomic step changes the order in which buffered events will leave: only a direct send can enter in the middle and only two steps drop |
| HybridMachine.Conservation | internal/buffer/hybrid.go:73-128 | In every run the accepted events, with multiplicity, are those consumed, in the channel, in flight, on disk or dropped; nothing is dropped before quit, at most one per pumpBatch call after it, and at most one by the drain |
| HybridMachine.DiskKeepsOrder | internal/buffer/hybrid.go:90-128 | In every interleaving events leave the disk queue in the order they entered it and reach the channel in that order |
| HybridMachine.DirectKeepsOrder | internal/buffer/hybrid.go:45-52 | In every interleaving the events that the channel got directly are the directly accepted ones, in order of acceptance, and all others accepted are the disk queue's |
| HybridMachine.FifoIffNoOvertake | internal/buffer/hybrid.go:45-57 | With distinct events and nothing dropped, the order of acceptance is the order of leaving if and only if no direct send was made while an older event was on disk or in the pump's hands |
| HybridMachine.OneProducerFifo | internal/buffer/hybrid.go:45-57 | With one producer and dequeue-then-send as one operation the buffer is a queue until something is dropped |
| HybridMachine.OneProducerCanOvertake | internal/buffer/hybrid.go:98-107 | A run with one producer in which two events leave in the wrong order |
| Limiter.TokenBucket.constructor | internal/tenant/limiter.go:17-29 | A bucket starts full, at the given rate, with the larger of 1 and the rate as its burst |
| Limiter.TokenBucket.Allow | internal/tenant/limiter.go:31-54 | The method decides and updates as the specification that the following results are about |
| Limiter.LevelIsTightest | internal/tenant/limiter.go:39-52 | The tokens at hand are the tightest remaining allowance over all earlier calls, and some call attains it |
| Limiter.AdmittedIff | internal/tenant/limiter.go:31-54 | A call is admitted if and only if, from the start and from every call so far, the admissions since plus this one are at most the larger of 1 and the rate, plus the rate times the time passed on the largest clock reading |
| Limiter.AtOneInstant | internal/tenant/limiter.go:17-54 | Of n calls at one instant exactly the smaller of n and the whole part of the burst are admitted |
| Limiter.BucketObeys | internal/tenant/limiter.go:31-54 | Every window that ends in an admission obeys that bound |
| Limiter.BucketDominates | internal/tenant/limiter.go:31-54 | No pattern of admissions that obeys the bound admits more than the bucket over any prefix of the calls |
| Limiter.DenialIsForced | internal/tenant/limiter.go:53 | Given the same past, no policy within the bound can admit a call that the bucket denies |
| Registries.Registry.constructor | internal/tenant/registry.go:20-52 | Each limited tenant gets a bucket of its own that is shared with nobody, and the limits are those of the configuration |
| Registries.Registry.Allow | internal/tenant/registry.go:58-66 | A call is charged to one bucket and changes no other |
| Registries.ConfiguredMeaning | internal/tenant/registry.go:32-46 | With distinct ids a tenant is known exactly when it is listed, and limited exactly when its own rate, or the inherited one, is positive |
| Registries.AccountsFixed | internal/tenant/registry.go:58-66 | No call moves a tenant from one bucket to another |
| Registries.AccountsDoNotInterfere | internal/tenant/registry.go:58-66 | However calls interleave, a tenant's decisions are those of a standalone bucket fed its calls only, and all unknown tenants together are one such bucket |
| Registries.UnlimitedAlwaysAdmitted | internal/tenant/registry.go:58-66 | Tenants with no effective limit are always admitted, whatever the others do |
| Registries.WhoIsCharged | internal/tenant/registry.go:58-66 | From the configuration alone: listed tenants with a rate of their own or an inherited one are charged to their own bucket, unlisted ones to the shared default bucket, and all others to none |
| Registries.TenantGetsItsRate | internal/tenant/registry.go:37-43 | A configured tenant is held to its own rate, or to the default where it has none, in every window of its own calls, and gets all that this rate allows |
| Registries.OthersShareDefaultRate | internal/tenant/registry.go:28-30 | Unlisted tenants together are held to the default rate, and get all that it allows |
| Replay.ReplayedRecovers | cmd/ingestor/app.go:171-175 | Whatever becomes of each replayed event, the log keeps every record and recovery returns all it returned before, then one copy of each event that was logged again |
| Replay.ReplayWal | cmd/ingestor/app.go:160-176 | The service ends as if the recovered events had been pushed in order, and an event is left unlogged exactly when its tenant's bucket denies it, it does not marshal or the write fails; with tenancy disabled and good writes every entry gets one copy, the buffer gets as many as it has room for, in log order, and each id is tracked with the number of its newest copy unless that one found the buffer full |
| Replay.AllHandedOver | internal/ingestor/service.go:83-91 | Pushing events in order fills the buffer with the first ones that fit and leaves each id tracked with its newest copy's number, or not at all if that copy was rolled back; other ids keep theirs |
| Replay.RestartService | cmd/ingestor/app.go:160-176 | A service restarted on the files of a log and replayed is the restart that RestartDoubles speaks of, and its buffer and tracker hold what was recovered |
| Replay.LoggedMarshals | cmd/ingestor/app.go:171-175 | What recovery returns from a log that the service wrote can always be marshalled again |
| Replay.RunKeepsMarshalled | internal/wal/file_wal.go:107-128 | Appends, acknowledgements, checkpoints and reopens keep a log of marshalled payloads one |
| Replay.RestartDoubles | cmd/ingestor/app.go:160-176 | One restart and replay doubles the recoverable entries, in order |
| Replay.RestartsDouble | cmd/ingestor/app.go:160-176 | k restarts without deliveries take n recoverable entries to n * 2^k, and no event appears or disappears |
| Replay.RunThenRestartsDouble | cmd/ingestor/app.go:160-176 | The same cost after any run of log operations of the service, with nothing assumed of the recovered events |

## Left out

- DeliveryProof.AtLeastOnce: restarts inside a run find whole records and whole acknowledgements, and (without `anyRestart`) after a crash inside a checkpoint no acknowledged number above the newest kept record; WalFormat.AppendSafeIffAligned, WalFormat.AckAppendSafeIffAligned, WalSpec.MidCheckpointAppendsIff and DeliveryExamples.MidCheckpointLosesAccepted say what goes wrong otherwise.
- WalSpec.NextNumberIsFresh: runs in which the 64-bit counter would wrap are excluded; the log object itself wraps.
- Replay.ReplayWal: requires that the counter does not wrap during the replay, and a log that ends on a record boundary.
- DeliveryRefinement.PushIsRun: relates a call that runs alone; interleavings of calls are the machine's own steps.
- DiskQueues.DiskQueue.Enqueue: requires that the file stays below 2^63 bytes.
- DiskQueueRestart.Reopen: the saved offset is the one in memory; other offsets are the subject of DiskQueueRestart.ReopenRestoresIff and Decimal.LoadTorn.
- Limiter.AdmittedIff: time and tokens are real numbers; floating-point rounding is not modelled.
- Services.Service.Push: the service object holds the channel buffer, open; in the delivery machine the buffer is any bag that may lose events, and after a restart may hold any events offered before, as the overflow file and the remote list may.
- Flushing.Deps.Flush: a panic inside flush is modelled by the machines (a worker may panic at any step) and not in this method.
- HybridRefinement.PushIsRun: as for the other methods there, what is on disk can be read; a head that cannot be unmarshalled is treated in the methods' own contracts.
- WorkerLoop.RunWorker: a batch is a value; the reuse of its backing memory is not modelled.
- Writes that fail half-way without a crash, failures of single file operations inside a checkpoint or a compaction, read errors other than end of file, and fsync of directories.
- Disk-queue operations after the queue's file is closed appear only as failing enqueues.
- Pause lengths and timeouts: only the number of attempts and the cancellation of a pause matter here.
- The dead-letter storage, the sinks (Kafka, HTTP, log) and the circuit breaker: a sink is its reply to each attempt, a dead letter is a recorded call.
- The Redis buffer, the no-op log, the HTTP and gRPC servers, metrics, internationalised messages, configuration loading, metric labels and topic names: they add no state to the protocol.

# Verification of the Tell client

This project models the parts of the Tell Rust SDK that are hardest to get right
and proves what they promise. There are four of them.

**The disk write-ahead log and the worker** (`Bytes`, `Frames`, `Log`, `Fifo`,
`Crash`, `TornTail`, `DiskBuffer`, `Network`, `History`, `Worker`, `Delivery`). `Log` says what each
operation does to the bytes of the file, the durable cursor and the positions in
memory, and which durable effects it performs in which order. The class
`DiskBuffer`, with its lazily opened look-ahead reader and its append handle, is
proved equal to it, effects included. `Fifo` shows that these bytes are a bounded
queue of frames; `Crash` and `TornTail` put a crash between any two effects of any
run. The class `Worker` runs over a transport whose every await may succeed, fail or
be cut off by the shutdown deadline. Its loop is proved to be a sequence of turns, one
per wake-up, as `History` defines them: what is taken from the channel, the pass over
the log, the chunks handed off with their sends, what is saved and acknowledged. The
theorems about whole runs, in `History`, `Delivery` and `Wire`, are about such
sequences.

**The FlatBuffers encoders** (`Reader`, `Layout`, `Table`, `Draft`, `ByteBuffer`,
`Entries`, `Encoders`, `Data`, `Wire`). `Reader` follows the binary format
(FlatBuffers "Internals": tables, strings, vectors) and knows nothing of the
encoders; every access is bounds-checked. `Layout` and `Table` give the final
bytes in closed form, without placeholders. The encoder methods append with
placeholders and patch, and are proved to reach that form; the reading lemmas
recover every field from it. `Wire` goes on to the batch envelope and to whole
runs of the worker.

**The lock-free instruments** (`Counter`, `Histogram`, `Overflow`). One step is
one atomic operation of one thread; a run is any sequence of steps. The theorems
are about every reachable state. The classes beside them are the calls themselves.

**JSON by splicing** (`KeyScan`, `Json`, `Payload`). The word-parallel key scan is
proved on 64-bit vectors; text is spliced from serialised pieces, and a parser
gives back what was put in.

## What the code does otherwise than its documentation says

- A crash between the rename and the cursor write of a compaction loses every live
  frame, although the buffer is described as at-least-once (`Crash.RenameWindow`,
  `Crash.WindowIsReached`).
- A failed send from the log puts the frame back at the end, so the log rotates and
  order is not kept (`Delivery.PassConserves`); a shutdown that cuts that send off and
  then stops cleanly loses the frame, and so does an append that evicts
  (`Delivery.CutFrameIsLostIff`).
- An append behind a torn tail that has not been skipped yet can be swallowed by it
  (`TornTail.AppendBehindTail`, `TornTail.TornTailSwallows`).
- `append` accepts frames that `drain_next` treats as corrupt (`Crash.AppendOversized`).
- "One report per full episode" holds of the swaps of the flag; of the callbacks it
  holds exactly when no earlier winner is still to report as the flag is cleared
  (`Overflow.WinsAreSeparated`, `Overflow.OneReportPerClear`,
  `Overflow.CallbacksCanBeAdjacent`).
- The batch vtable states a table size of 32, its comment counting the table's own
  offset twice; the table has 28 bytes (`Wire.ClaimedSizes`). Readers are not affected.
- Histogram bounds are documented to end in infinity; they do not when all of them
  are negative infinity (`Histograms.NormaliseBounds`).

## Model

| member | source | states |
|---|---|---|
| `Fifo.LogRefinesQueue` | crates/tell/src/buffer.rs:111-203 | over every run of append, drain, commit and reopen with frames of at most 256 MiB, the bytes of the log show exactly what a bounded first-in first-out queue holds, and drains hand out exactly what the queue hands out |
| `Fifo.ShortestIsShortest` | crates/tell/src/buffer.rs:268-295 | the prefix that eviction drops is the shortest one that frees enough, or everything |
| `Fifo.EvictFrames` | crates/tell/src/buffer.rs:268-295 | the eviction loop on bytes drops whole frames: that shortest prefix of the live ones |
| `Fifo.AppendFrames` | crates/tell/src/buffer.rs:111-124 | an append on bytes is the queue operation: evict the shortest sufficient prefix if the frame does not fit, then add the frame at the end |
| `Fifo.DrainFrames` | crates/tell/src/buffer.rs:131-163 | a drain step pops the oldest live frame, or reports the log empty |
| `Fifo.CommitFrames` | crates/tell/src/buffer.rs:166-171 | a commit keeps the live frames, compaction included, and forgets the consumed ones |
| `Fifo.FreshIsWellFormed` | crates/tell/src/buffer.rs:54-105 | opening an empty directory gives an empty well-formed log |
| `Frames.ParseEncode` | crates/tell/src/buffer.rs:111-163 | frames written back to back are read back, in order, whatever follows them |
| `Frames.EncodeParse` | crates/tell/src/buffer.rs:131-163 | any byte string is its readable frames, encoded again, and an unreadable rest |
| `Frames.TornFrame` | crates/tell/src/buffer.rs:147-150 | a frame cut off anywhere before its last byte is never read as a frame |
| `Log.RunReplay` | crates/tell/src/buffer.rs:111-315 | replaying the durable effects of a run gives the disk state of the run |
| `Crash.CrashRecovers` | crates/tell/src/buffer.rs:98-203 | a crash after any prefix of the effects of any operation loses no frame that the operation may not drop: a restart finds the frames consumed since the last durable cursor, then the live ones, and at most a torn end; only between rename and cursor write of a compaction it finds nothing |
| `Crash.CrashInRun` | crates/tell/src/buffer.rs:98-203 | the same for a crash anywhere in a whole run |
| `Crash.RenameWindow` | crates/tell/src/buffer.rs:195-200 | in that window the durable cursor lies beyond the new file, so that open clamps it and every live frame is skipped |
| `Crash.WindowIsReached` | crates/tell/src/buffer.rs:166-203 | a run of two appends, a drain and a commit enters the window with a live frame |
| `Crash.DrainsRecovered` | crates/tell/src/buffer.rs:131-163 | after a restart a drain pass hands out exactly the recovered frames, in order |
| `Crash.TornEndIsSkipped` | crates/tell/src/buffer.rs:139-150 | then the torn end reads as empty and is skipped for good |
| `Crash.RestartIsWellFormed` | crates/tell/src/buffer.rs:98-150 | one drain to the end after a restart leaves a well-formed empty log, whatever the crash left |
| `Crash.ReturnIsDurable` | crates/tell/src/buffer.rs:111-203 | what an operation has returned from is on disk: after any run a restart finds the whole queue |
| `Crash.ReturnIsSynced` | crates/tell/src/buffer.rs:116-121 | every byte written in a run has a sync behind it |
| `Crash.LiveBytesBounded` | crates/tell/src/buffer.rs:268-295 | over every run from a fresh buffer the live bytes stay within the limit unless exactly one frame is live |
| `Crash.FileAtMostTwiceLive` | crates/tell/src/buffer.rs:166-203 | outside a drain pass the file is at most twice the live bytes |
| `TornTail.AppendBehindTail` | crates/tell/src/buffer.rs:84-124 | an append leaves a well-formed log with its frame behind the live ones if and only if no torn end is left once eviction is done |
| `TornTail.EvictedTail` | crates/tell/src/buffer.rs:268-295 | eviction leaves no torn end if and only if there was none, or it alone left no room and its header could be walked |
| `TornTail.TornTailSwallows` | crates/tell/src/buffer.rs:84-124 | a crash inside an append leaves a torn end, and after the restart the next frame is swallowed by it |
| `TornTail.CrashAfterRestart` | crates/tell/src/buffer.rs:98-171 | at least once also before a torn end has been skipped: a crash anywhere while a restarted log is drained and committed loses nothing live outside the window |
| `TornTail.StaysReadable` | crates/tell/src/buffer.rs:131-171 | draining and committing a log with a torn end pops or keeps its live frames |
| `Crash.AppendOversized` | crates/tell/src/buffer.rs:116-145 | an appended frame can be read back if and only if it is at most 256 MiB |
| `DiskBuffers.DiskBuffer.Append` | crates/tell/src/buffer.rs:111-124 | appends as the byte-level log does, returns the bytes evicted, and performs those durable effects in that order |
| `DiskBuffers.DiskBuffer.EvictIfNeeded` | crates/tell/src/buffer.rs:268-295 | moves the read position over whole frames, persists the cursor, compacts if worthwhile, and returns the bytes freed |
| `DiskBuffers.DiskBuffer.ScanForward` | crates/tell/src/buffer.rs:276-288 | its loop frees what the header walk over the unread bytes frees |
| `DiskBuffers.DiskBuffer.DrainNext` | crates/tell/src/buffer.rs:131-163 | with the cached look-ahead reader: a frame, empty at a torn tail, or an error at an impossible header, always from the read position |
| `DiskBuffers.DiskBuffer.Commit` | crates/tell/src/buffer.rs:166-171 | persists the cursor if it moved and compacts when worthwhile |
| `DiskBuffers.DiskBuffer.Compact` | crates/tell/src/buffer.rs:179-203 | rewrites the unread tail as a new file, or truncates, and resets the cursor, in that order |
| `DiskBuffers.DiskBuffer.MaybeCompact` | crates/tell/src/buffer.rs:255-264 | compacts when more than half of the file is consumed |
| `DiskBuffers.DiskBuffer.TruncateAll` | crates/tell/src/buffer.rs:298-315 | empties file and cursor |
| `DiskBuffers.DiskBuffer.ResetToEnd` | crates/tell/src/buffer.rs:241-245 | skips all that is left and makes that durable |
| `DiskBuffers.DiskBuffer.OpenReader` | crates/tell/src/buffer.rs:222-229 | the cached reader agrees with the file at the read position |
| `DiskBuffers.DiskBuffer.IsEmpty` | crates/tell/src/buffer.rs:174-176 | nothing is unread |
| `DiskBuffers.DiskBuffer.Drop` | crates/tell/src/buffer.rs:318-325 | a clean exit leaves the cursor where reading stopped |
| `DiskBuffers.Open` | crates/tell/src/buffer.rs:54-105 | recovers both positions, clamps a cursor beyond the end and persists the clamp; fails if and only if the cursor file cannot be parsed |
| `Workers.Worker.WorkerLoop` | crates/tell/src/worker/mod.rs:234-291 | over any sequence of wake-ups there is one turn per wake-up until one stops the worker, and every turn answers its wake-up; queues, what was absorbed, history, batch ids, log, sends and reports are exactly what these turns make of them, the channel holds what they did not take, and every chunk was tried as often as the configuration says |
| `History.RunKeeps` | crates/tell/src/worker/mod.rs:234-291 | in every such run what was handed off and what is queued is what was absorbed, per schema and in order, every frame encodes 1 to batch_size entries under ascending ids, and until the worker stops each queue is below batch_size and every acknowledgement was due |
| `History.RunTakes` | crates/tell/src/worker/mod.rs:253-264 | messages are taken in the order of their arrival and none is skipped |
| `History.RunAbsorbs` | crates/tell/src/worker/mod.rs:121-129 | what is absorbed is, per schema, the entries taken and the points sampled, in order |
| `History.InputsAreTaken` | crates/tell/src/worker/mod.rs:121-129 | that is the entries of all messages taken, plus as many metrics as were sampled |
| `History.PointsAreInputs` | crates/tell/src/worker/mod.rs:296-301 | every point sampled is among them |
| `History.MessagesAccounted` | crates/tell/src/worker/mod.rs:121-129 | every message is an entry of the queue of its schema, a flush or a close; none is dropped |
| `History.RequestsCollected` | crates/tell/src/worker/mod.rs:121-129 | the requests to acknowledge are exactly those taken |
| `History.RunAcknowledges` | crates/tell/src/worker/mod.rs:267-275 | every flush and close taken in a run has been acknowledged at its end |
| `History.TicksFlush` | crates/tell/src/worker/mod.rs:280-282 | after a flush tick the log has been drained by a pass and nothing is queued |
| `History.OrderOfSchemas` | crates/tell/src/worker/mod.rs:323-342 | in a turn no log chunk is before one of events and no metric chunk before another schema |
| `History.DroppedAreCounted` | crates/tell/src/worker/mod.rs:306-320 | cut off without a disk buffer, a turn reports the timeout and then, if and only if some schema has an entry not handed off, the number of entries absorbed and not handed off |
| `History.DroppedInRun` | crates/tell/src/worker/mod.rs:365-376 | the same at the end of any run |
| `History.CutIsLast` | crates/tell/src/worker/mod.rs:306-320 | only the last turn of a run can be cut off |
| `History.TurnKeeps` | crates/tell/src/worker/mod.rs:234-291 | any turn conserves entries; acknowledgements that leave nothing queued were due |
| `Workers.Worker.OnMessages` | crates/tell/src/worker/mod.rs:253-278 | a close anywhere in the bulk drain stops the worker, also behind a flush; a flush empties every queue before it is acknowledged; otherwise queues that reached batch_size are flushed; log, sends and reports change by that turn alone |
| `Workers.Worker.Shutdown` | crates/tell/src/worker/mod.rs:306-320 | cut off at any await: what was queued at the cut is saved to the log, only the chunk in flight can be both sent and logged; without a disk buffer the last report is the number of entries in the three queues, or the timeout when there is none |
| `Workers.Worker.FlushAll` | crates/tell/src/worker/mod.rs:323-328 | drains the log, then empties every queue, with at most one chunk in flight when cut off |
| `Workers.Worker.FlushQueues` | crates/tell/src/worker/mod.rs:323-342 | flushes all queues, or those that reached batch_size, events before logs before metrics |
| `Workers.Worker.FlushQueue` | crates/tell/src/worker/mod.rs:345-352 | hands off the whole queue in chunks in order, each with its sends; a chunk leaves the queue only after them |
| `Workers.Worker.FlushChunk` | crates/tell/src/worker/mod.rs:345-352 | one chunk under an id of its own: accepted, logged after one failed send, or reported after max_retries + 1; or still queued when cut off |
| `Workers.Worker.SendWithFallback` | crates/tell/src/worker/mod.rs:182-207 | with a disk buffer one attempt and then the log; without one a report only after max_retries + 1 failed attempts |
| `Workers.Worker.AppendToWal` | crates/tell/src/worker/mod.rs:210-227 | appends and reports what that evicts |
| `Workers.Worker.SaveQueue` | crates/tell/src/worker/mod.rs:355-362 | every chunk goes to the log and none to the network |
| `Workers.Worker.SaveQueuesToWal` | crates/tell/src/worker/mod.rs:365-381 | everything queued is logged; without a disk buffer the entries of the three queues are counted and reported, if there are any |
| `Workers.Worker.DrainDiskBuffer` | crates/tell/src/worker/mod.rs:386-426 | the pass ends; log, sends and reports are what some pass makes of them: all sent, stopped by a put-back, or cut off |
| `Workers.Worker.DrainStep` | crates/tell/src/worker/mod.rs:395-418 | one frame: sent, or put back at the end of the log after a failed send |
| `Workers.Worker.BulkDrain` | crates/tell/src/worker/mod.rs:259-264 | takes the message and at most the limit of those waiting, in order |
| `Workers.Worker.Absorb` | crates/tell/src/worker/mod.rs:121-129 | an entry joins the queue of its schema, a request its list of acknowledgements |
| `Workers.Worker.SendAcks` | crates/tell/src/worker/mod.rs:113-118 | all flush requests are acknowledged, then all close requests |
| `Workers.Worker.OnFlushTick` | crates/tell/src/worker/mod.rs:280-282 | one pass over the log and a flush of every queue; nothing else happens to log, sends and history |
| `Workers.Worker.OnSampleTick` | crates/tell/src/worker/mod.rs:286-301 | sampled points join the metric queue, and queues that reached batch_size are flushed; the log changes by that alone |
| `Workers.Worker.OnClientsDropped` | crates/tell/src/worker/mod.rs:254-258 | a shutdown without acknowledgements |
| `Delivery.PassConserves` | crates/tell/src/worker/mod.rs:386-426 | if k frames are sent before a failure, the log afterwards is the frames after the failed one followed by the failed one, and the put-back evicts nothing |
| `Delivery.PutBackFits` | crates/tell/src/worker/mod.rs:407-417 | a bounded queue takes a frame of its own back without evicting another |
| `Delivery.PassLosesAtMostTheFrameInFlight` | crates/tell/src/worker/mod.rs:386-418 | every frame of the log is sent or still live, but for the one in flight when the pass is cut off |
| `Delivery.CutFrameIsLostIff` | crates/tell/src/worker/mod.rs:395-418 | that frame and those sent before it are found again by a restart if and only if the worker did not stop cleanly and no append had to evict |
| `Delivery.LogAfterFrames` | crates/tell/src/buffer.rs:111-124 | logging chunks: what was live and what is logged is what is evicted and what is live, in order, and nothing is evicted when everything fits |
| `Delivery.ShutdownAccounts` | crates/tell/src/worker/mod.rs:306-381 | for every turn, cut off or not, from a healthy log: the log stays healthy, and what the pass left, the chunks logged while flushing and the saved ones are what was evicted and what is live, in order |
| `Delivery.SavedIsWhatWasQueued` | crates/tell/src/worker/mod.rs:355-381 | what a shutdown saves is what was queued at the cut, per schema and in order, without a send |
| `Delivery.StartsHealthy` | crates/tell/src/buffer.rs:54-105 | a new log, and one that a restart has drained to its end, are healthy |
| `Delivery.RunDelivers` | crates/tell/src/worker/mod.rs:234-426 | over every run of the worker the log stays well-formed and bounded, and every frame live at the start or logged since is accepted by the network, in flight at a cut, evicted, or live |
| `Delivery.EvictionIsReported` | crates/tell/src/worker/mod.rs:210-227 | an append is reported with the size of the frames it evicts, and only if it evicts any |
| `Delivery.LostBytesAreReported` | crates/tell/src/worker/mod.rs:210-227 | over every run the bytes reported as evicted are the size of the frames evicted |
| `Delivery.AtMostOneInFlight` | crates/tell/src/worker/mod.rs:306-320 | at most one frame of a run is in flight at a cut, and only if the worker stopped |
| `Delivery.RunBacked` | crates/tell/src/worker/mod.rs:182-207 | every hand-off of a run marked sent was accepted by the network, every one marked logged went to the log, and only without a disk buffer is one reported |
| `Delivery.EveryEntryIsAccountedFor` | crates/tell/src/worker/mod.rs:234-426 | with a disk buffer every entry absorbed in a run is queued or in a frame that was accepted, is live in the log, was evicted, or was in flight at a cut |
| `ByteBuffers.ByteBuffer.Align4` | crates/tell-encoding/src/helpers.rs:33-37 | appends fewer than four bytes, all zero, so that the length is a multiple of four |
| `ByteBuffers.ByteBuffer.WriteByteVector` | crates/tell-encoding/src/helpers.rs:41-46 | length and data, and where they start |
| `ByteBuffers.ByteBuffer.WriteString` | crates/tell-encoding/src/helpers.rs:50-56 | length, data and a zero byte, and where they start |
| `ByteBuffers.ByteBuffer.PatchOffset` | crates/tell-encoding/src/helpers.rs:60-63 | a reader of the offset reaches the target, and no other byte changes |
| `Layout.PatchInline` | crates/tell-encoding/src/helpers.rs:60-63 | patching an offset field among others is writing that field with its final value |
| `Layout.PartIsAligned` | crates/tell-encoding/src/helpers.rs:33-37 | every string, blob and table that is aligned starts at a multiple of four |
| `Encoders.EncodeEventInto` | crates/tell-encoding/src/event.rs:311-390 | placeholders, appends and patches leave exactly the prescribed bytes behind an untouched prefix |
| `Encoders.EncodeLogEntryInto` | crates/tell-encoding/src/log.rs:278-347 | the same for a log entry |
| `Encoders.EncodeMetricEntryInto` | crates/tell-encoding/src/metric.rs:185-301 | the same for a metric |
| `Encoders.EncodeLabels` | crates/tell-encoding/src/metric.rs:312-369 | the same for a vector of labels |
| `Encoders.EncodeHistogram` | crates/tell-encoding/src/metric.rs:381-424 | the same for a histogram, whose vtable may start at any position |
| `Encoders.EncodeBuckets` | crates/tell-encoding/src/metric.rs:431-469 | the same for a vector of buckets |
| `Data.EncodeEntry` | crates/tell-encoding/src/event.rs:14-143 | an entry in a buffer of its own |
| `Entries.EventRead` | crates/tell-encoding/src/event.rs:311-390 | wherever the bytes stand, the generic reader gets every field of the event back, absent ones as absent |
| `Entries.LogRead` | crates/tell-encoding/src/log.rs:278-347 | the same for a log entry |
| `Entries.MetricRead` | crates/tell-encoding/src/metric.rs:185-301 | the same for a metric, with any number of labels and an optional histogram |
| `Entries.HistogramRead` | crates/tell-encoding/src/metric.rs:381-424 | the same for a histogram with any buckets |
| `Entries.LabelsRead` | crates/tell-encoding/src/metric.rs:312-369 | the labels come back in order |
| `Entries.BucketsRead` | crates/tell-encoding/src/metric.rs:431-469 | the buckets come back in order |
| `Entries.EntryRead` | crates/tell-encoding/src/metric.rs:185-301 | from the root offset: every entry of any kind, written from any position, is read back whole |
| `Entries.EntryMod` | crates/tell-encoding/src/metric.rs:185-301 | only the alignment of the start decides the bytes of an entry |
| `Data.EncodeData` | crates/tell-encoding/src/event.rs:152-234 | the two-pass form copies entries and points its slots at their tables |
| `Data.EncodeDataInto` | crates/tell-encoding/src/metric.rs:123-182 | the zero-copy form appends the same bytes as the layout says, for any start, and returns their range |
| `Data.ZeroCopyIsTwoPass` | crates/tell-encoding/src/event.rs:152-308 | from a start that is a multiple of four both forms make the same bytes; from any start the prefix stays untouched |
| `Data.DataMod` | crates/tell-encoding/src/log.rs:216-275 | only the alignment of the start decides the bytes |
| `Data.DataRead` | crates/tell-encoding/src/metric.rs:123-182 | a list is read back entry by entry, in order |
| `Data.RangeDecodes` | crates/tell-encoding/src/metric.rs:123-182 | the returned range decodes on its own, whatever stood before it |
| `Wire.EncodeBatchInto` | crates/tell-encoding/src/batch.rs:34-117 | the envelope with its absolute root offset |
| `Wire.BatchNeedsEmptyBuffer` | crates/tell-encoding/src/batch.rs:34-117 | the envelope reads back, and its root offset leads to it if and only if the buffer was empty |
| `Wire.ClaimedSizes` | crates/tell-encoding/src/batch.rs:45-47 | every entry states its true table size; the envelope states four bytes too many |
| `Wire.Sender.FinishBatch` | crates/tell/src/worker/encode.rs:15-27 | the batch buffer holds the envelope of that range alone |
| `Wire.Sender.EncodeChunk` | crates/tell/src/worker/encode.rs:29-103 | the frame depends on the chunk, the configuration and the batch id alone, not on what the buffers held; it is read back with the configured key, version 100, that id, the schema number, and every field as queued |
| `Wire.WireRoundTrip` | crates/tell/src/worker/encode.rs:15-103 | reading the frame gives back exactly the chunk, in order and field by field; a log source and service are the own ones, else those configured, events and metrics carry those configured; and the envelope is that of the batch |
| `Wire.FrameRead` | crates/tell/src/worker/encode.rs:15-103 | the same for any frame the worker hands off |
| `Wire.RunRoundTrip` | crates/tell/src/worker/mod.rs:234-352 | reading all frames handed off in a history gives back the entries handed off, per schema and in order, every field as queued |
| `Wire.EveryEntryIsInAFrame` | crates/tell/src/worker/mod.rs:234-352 | over any run of the loop: the entries taken or sampled are, per schema and in order, first those that the frames handed off decode to, every field as queued, and then those still queued |
| `Wire.FramesHaveOwnIds` | crates/tell/src/worker/mod.rs:38-42 | two frames of one history carry different batch ids, as long as these do not wrap |
| `Counters.EveryRun` | crates/tell/src/metrics/counter.rs:62-109 | whatever the interleaving of adders and sampler: totals and shipped cells are what was added and seen, modulo 2^64, and delta points never sum to more than was seen |
| `Counters.ShippedPoint` | crates/tell/src/metrics/counter.rs:94-98 | a sample ships the total, or the change since the last one, or 0 once the total has wrapped below it |
| `Counters.DeltaConserves` | crates/tell/src/metrics/counter.rs:91-109 | below 2^64 the points of a delta series sum to its shipped cell, which never exceeds the total, and the subtraction never saturates |
| `Counters.LastSampleShipsAll` | crates/tell/src/metrics/counter.rs:91-109 | after a sample that follows the last add the points sum to what was added if and only if that is below 2^64; a cumulative series ships its total |
| `Counters.AddsArrive` | crates/tell/src/metrics/counter.rs:62-73 | every add under a registered value counts for exactly that series, every other is dropped |
| `Counters.IndexOfFinds` | crates/tell/src/metrics/mod.rs:274-276 | a label value is found at its first place or not at all |
| `Counters.Counter.AddTo` | crates/tell/src/metrics/counter.rs:62-66 | is the atomic add of the protocol |
| `Counters.Counter.Increase` | crates/tell/src/metrics/counter.rs:69-73 | is the add to the first series |
| `Counters.Counter.Sample` | crates/tell/src/metrics/counter.rs:91-109 | is a whole pass of the sampler, with one point per series |
| `Histograms.NormaliseBounds` | crates/tell/src/metrics/histogram.rs:99-103 | bounds ascend strictly, are those given without NaN, and end in infinity if and only if not all of them are negative infinity |
| `Histograms.QuiescentCells` | crates/tell/src/metrics/histogram.rs:32-74 | whatever the interleaving and however often swaps are lost: buckets count the observations at or below their bounds, the sum is a fold over all observations in the order of the swaps, minimum and maximum are those of what is not NaN |
| `Histograms.QuiescentBuckets` | crates/tell/src/metrics/histogram.rs:38-42 | buckets do not decrease, and the catch-all one equals the count if and only if no observation was NaN |
| `Histograms.QuiescentSnapshot` | crates/tell/src/metrics/histogram.rs:45-61 | a sample ships nothing if and only if nothing was observed, else the count, the buckets, the true minimum and maximum, and the fold of all observations in the order of the swaps |
| `Histograms.ExactSum` | crates/tell/src/metrics/histogram.rs:34 | where adding is exact the sum is that of all observations, whatever the interleaving |
| `Histograms.OrderOfDoubles` | crates/tell/src/metrics/histogram.rs:38-42 | how doubles compare |
| `Histograms.Cell.Update` | crates/tell/src/metrics/histogram.rs:65-74 | the retry loop applies the function exactly once, however often the swap fails |
| `Histograms.RunAlone` | crates/tell/src/metrics/histogram.rs:32-43 | an observation that nobody interrupts moves the count, the sum, the extremes and exactly the buckets at or above its value, once each |
| `Histograms.Series.Observe` | crates/tell/src/metrics/histogram.rs:32-43 | the cells hold what the protocol holds after that observation, so that all quiescent theorems apply to them |
| `Histograms.Series.SnapshotNow` | crates/tell/src/metrics/histogram.rs:45-61 | nothing before the first observation, else count, buckets, minimum, maximum and the sum in order, of what was observed |
| `Overflow.WinsAreSeparated` | crates/tell/src/client/mod.rs:285-304 | between any two winning swaps of the flag a successful enqueue cleared it |
| `Overflow.ReportsAtMostClearsPlusOne` | crates/tell/src/client/mod.rs:285-304 | at any moment there is at most one report more than there were clears |
| `Overflow.ReportsAreDistinct` | crates/tell/src/client/mod.rs:293-300 | no two reports carry the same drop number |
| `Overflow.DropsAreRefusals` | crates/tell/src/metrics/mod.rs:172-174 | once all calls have returned the drop counter is the number of calls that returned false, and every win was reported |
| `Overflow.OneReportPerClear` | crates/tell/src/client/mod.rs:285-304 | when a call clears the flag, at most one report comes before the next clear, however the run goes on, if and only if no earlier winner is still to report |
| `Overflow.FirstEpisode` | crates/tell/src/client/mod.rs:285-304 | before the first clear there is at most one report |
| `Overflow.PromptReportsAreSeparated` | crates/tell/src/client/mod.rs:293-300 | a run in which no report is overtaken by a clear has a clear between any two reports |
| `Overflow.CallbacksCanBeAdjacent` | crates/tell/src/client/mod.rs:293-300 | a run in which an overtaken report leaves two reports without a clear between them |
| `Overflow.Client.Enqueue` | crates/tell/src/client/mod.rs:285-304 | a call that nobody interrupts: reports if and only if refused with the flag unset |
| `KeyScan.KeyIsPlain` | crates/tell/src/props.rs:40-51 | true if and only if no byte is a control character, a quote or a backslash |
| `KeyScan.KeyIsPlainFast` | crates/tell/src/props.rs:59-85 | the same answer for every key of any length |
| `KeyScan.MaskOfBytes` | crates/tell/src/props.rs:68-79 | the mask of a word is zero if and only if all eight bytes are plain |
| `KeyScan.MaskBitsAreNotExact` | crates/tell/src/props.rs:54-79 | single bits of the mask can be wrong: a borrow reaches the byte above |
| `Json.PrintedIsParsed` | crates/tell/src/payload.rs:23-66 | compact JSON text of any value parses back to the value |
| `Json.KnownTexts` | crates/tell/src/payload.rs:23-66 | the literals and the punctuation of lists and objects, byte by byte |
| `Json.KnownStrings` | crates/tell/src/props.rs:113-114 | every kind of escape, byte by byte |
| `Json.PlainIsUnescaped` | crates/tell/src/props.rs:107-115 | escaping leaves a key as it is if and only if the scan calls it plain |
| `Json.MembersConcat` | crates/tell/src/payload.rs:23-58 | texts of member lists joined by a comma are the text of the joined list |
| `Payload.Props.Add` | crates/tell/src/props.rs:105-120 | one more member, whichever way the key is written |
| `Payload.Props.AddPlain` | crates/tell/src/props.rs:126-135 | the same without the scan, for a plain key |
| `Payload.Props.Finish` | crates/tell/src/props.rs:148-155 | the text of the object of all members added, in order |
| `Payload.InnerOfPrinted` | crates/tell/src/payload.rs:72-79 | exactly non-empty objects have an inside, and it is the text of their members |
| `Payload.JsonObject.Field` | crates/tell/src/payload.rs:31-37 | one more member |
| `Payload.JsonObject.Fragment` | crates/tell/src/payload.rs:41-48 | the members of a fragment, or nothing |
| `Payload.JsonObject.Splice` | crates/tell/src/payload.rs:52-58 | the members of a serialised object; anything else is ignored |
| `Payload.JsonObject.Finish` | crates/tell/src/payload.rs:62-65 | the text of the object of all members, in call order |
| `Payload.FirstDifferenceDecides` | crates/tell/src/client/mod.rs:83-89 | the map prints its names in the order of their bytes |
| `Payload.KeysAreSorted` | crates/tell/src/client/mod.rs:83-89 | every name once, ascending |
| `Payload.SuperProps.Rebuild` | crates/tell/src/client/mod.rs:83-89 | the fragment is the inside of the printed map |
| `Payload.ParsingPreserves` | crates/tell/src/client/mod.rs:144-152 | what parsing registered text into maps keeps: scalars, lists element by element, and for every name of an object, the last of equal ones winning, the value |
| `Payload.ParsedNamesAreUnique` | crates/tell/src/client/mod.rs:144-152 | and it leaves every name once |
| `Payload.RegisteredReads` | crates/tell/src/client/mod.rs:144-152 | registering an object gives each of its names a value that means the one given and leaves every other name alone; anything else changes nothing |
| `Payload.SuperProps.Register` | crates/tell/src/client/mod.rs:144-152 | the map becomes what registering makes of it, and the fragment agrees with the map |
| `Payload.SuperProps.Unregister` | crates/tell/src/client/mod.rs:155-160 | the name is gone, and the fragment agrees with the map |
| `Payload.SuperProps.SuperFragment` | crates/tell/src/client/mod.rs:163-170 | none if and only if the map is empty |
| `Payload.RunChanges` | crates/tell/src/client/mod.rs:82-170 | after any run of changes the cached fragment is the inside of the printed map of that run |
| `Payload.AfterIsLatest` | crates/tell/src/client/mod.rs:144-160 | a name has, up to parsing, the value given for it last, and is absent if it was never given or removed since |
| `Payload.EventPayload` | crates/tell/src/client/events.rs:263-271 | the payload is the text of user id, super properties and caller properties |
| `Payload.TrackPayloadReads` | crates/tell/src/client/events.rs:263-271 | a reader that lets the last of equal names win finds the caller's value, else one that means the super property given last, else the user id |

## Left out

- I/O errors other than the end of a file, file permissions, the symbolic-link check
  and path handling of `open`. Rename and cursor write are atomic and durable here,
  and the bytes of an append reach the disk in order.
- The compaction threshold is a floating-point ratio in the source; here it is
  `2 * read > write`.
- Sockets, the async runtime, timers and the channel: sends and sleeps ask an oracle,
  every tick is a possible wake-up, the channel is a sequence, and entries that arrive
  do so at wake-ups. A channel that refuses is in `Overflow`.
- `Workers.Worker`: `encode` is a function of schema, chunk and batch id. `Wire.Sender`
  is the encoder with its buffers; `Wire.Encodes` says that the two agree.
- `Crash.CrashInRun` and the queue refinement start from a log without a torn tail,
  which one drain to the end restores (`Crash.RestartIsWellFormed`). Before that,
  drains and commits are in `TornTail.CrashAfterRestart`, and what an append does is in
  `TornTail.AppendBehindTail`; the runs of `Delivery` start from a healthy log.
- `Delivery.ShutdownAccounts`: `buffer.append` does not fail, as for all I/O errors.
- `Delivery.RunDelivers`: frames are of at most 256 MiB, which the source does not check
  when it appends (`Crash.AppendOversized`).
- Doubles are eight opaque bytes in the encoders and extended reals in the histogram,
  with one NaN; how they add up is a parameter there.
- Batch ids wrap at 2^64 through the encoded field; the source's global counter is
  the worker's own here.
- Buffers of 4 GiB and more, where offsets are truncated: writing is modelled with the
  truncation, reading is stated below that size. 8-byte alignment of wide scalars is
  not claimed, since the layouts do not give it.
- The source spells several encoders twice, in one- and two-pass form or per schema,
  with the same steps. `Data.EncodeEntry`, `Data.EncodeData` and `Data.EncodeDataInto`
  are one member each, for events, log entries and metrics, and consecutive
  fixed-width writes are one call.
- `Wire.ClaimedSizes`: nothing is said of readers that rely on the stated size.
- `Histograms.QuiescentCells`: snapshots taken while an observation is in progress,
  where bucket and count reads can disagree.
- `Counters.Counter.Sample`, `Histograms.Series.Observe` and `Overflow.Client.Enqueue`
  are calls that nobody interrupts; interleaved calls are the steps of the same modules.
- serde_json: `Json.Print` and `Json.Parse` stand for its compact printer and its
  parser, on bytes; number texts are kept as they are, `\u` escapes beyond those the
  printer writes are not read, and a value whose serialisation fails, which would leave
  a key without a value, is not modelled.
- Clock, configuration, validation, transport, presets, gauges, the registry and the
  tracing and benchmark crates: wrappers and short checks.

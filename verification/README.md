# vm-sync: a model of the delivery protocol

vm-sync copies time-series samples from one VictoriaMetrics instance to another over a one-way
link whose only reply is one acknowledgement byte per frame. The project models the five state
machines whose cooperation makes that copy lossless, and proves what each keeps and what they
guarantee together.

| module | what it models |
|---|---|
| `Bytes`, `Codec` | big-endian fields, the 20-byte frame header, framing, the rewrite of the sequence number |
| `Records`, `Segments` | the byte scan of a segment file, resynchronisation after corruption, torn tails |
| `Recovery`, `Journal` | opening a directory, and the invariant under which every disk state recovers |
| `Reuse` | where crash safety stops, as concrete runs and as exact conditions |
| `Queues`, `WriteAheadLog` | the plain queue callers rely on, and the segmented log that implements it |
| `Link`, `Sender` | the discipline a client must keep on a link without sequence numbers; stop-and-wait and go-back-N |
| `Server` | the per-connection pipeline: handlers finish in any order, answers leave in arrival order |
| `Tracker`, `Dedup`, `Receiver` | prefix tracker, duplicate window, and all interleavings of frame handlers |
| `Replies` | what each handler call does and answers, over whole runs |
| `Lines`, `Poller` | chunking of exports and the polling round |
| `Backfill` | the oldest-sample probe and the backfill decision at start-up |
| `EndToEnd` | all of them interleaved, with crashes, restarts, corruption and lost connections |
| `Bridge` | what poller, sender and log do in bytes, as steps of that machine |
| `Delivery` | a run of that machine in which everything works |

Code that updates state in place is modelled by classes and loops (`Wal`, `Sender`, `Poller`,
`SeqTracker`, `DedupWindow`, `InflightTable`, `ConnPipeline`, the scan and search loops). Each is proved
against a specification on values, and the theorems are about those specifications. Code that runs
concurrently is a machine of atomic actions; its theorems hold for every sequence of actions.

How the pieces meet: `WriteAheadLog.Wal` implements `Queues.Queue` (`View()`), and its reopening after a
crash implements `Queues.Reboot`. `Sender.Sender` only produces histories that `Link.Allowed` permits.
`Poller.Poller` only appends chunks that hold the lines of the window it exported and then moves the cursor.
`EndToEnd` runs these operations beside the machines of `Server` and `Receiver`, on packets instead of bytes, and
`Bridge` proves that reading a stored frame as the packet it decodes to turns the former into steps of the latter.

The fault model is that of process crashes between system calls, with a torn last record: what was
written stays written. Checksum and compression are parameters, so nothing depends on a polynomial or a
compressor.

## Where the code does not meet its own description

Each of these is proved, together with the exact condition under which the promise does hold.

- **Reused segment numbers.** If the process dies after deleting its last segment and before the
  checkpoint is persisted, the next boot reuses the number, while the persisted checkpoint still claims
  acknowledged bytes in it (internal/wal/wal.go:189-196 zeroes the count in memory only). If it dies again before
  persisting, the stale count is loaded, and the next persisted cursor claims frames that were never
  acknowledged: `Reuse.ReusedSegmentLosesFrame` in the log, `EndToEnd.UnfitCrashLosesLine` in the whole system. Frames
  survive exactly when the persisted checkpoint does not claim the first pending one: `Recovery.PendingSurvivesIff`,
  `Reuse.NextFrameSurvivesIff`; a torn tail then makes the directory impossible to open: `Recovery.OpensIff`. The
  end-to-end guarantee holds when every crash finds a checkpoint whose segment, if it is the newest, holds the bytes
  claimed. A crash can miss that only while the persisted checkpoint does not protect the pending frames
  (`EndToEnd.GuardedLogFits`), and the first commit ends the danger (`Journal.QueueAcks`).
- **Torn tails.** The comment at internal/wal/wal.go:221-228 has every torn tail cut off. A tear of 24
  bytes or more is indexed as a whole record that runs past the end of the file:
  `Segments.LongTearIsIndexed`; a tear is undone if and only if it is shorter: `Segments.TearIsUndoneIffShort`. Every frame
  appended behind a longer tear is lost at the next opening: `Segments.FrameBehindTearIsFoundIff`.
- **Long corrupt records.** Resynchronisation looks 24 bytes less far than the longest record
  (internal/wal/wal.go:326-331), so a corrupt record whose frame is longer than the maximum minus 24 makes the scan
  cut off every good record behind it: `Segments.LongCorruptRecordCutsTheRest`; up to that length it does not:
  `Segments.ResyncLands` (both sides), `Segments.CorruptionIsContained`.
- **Windows under a millisecond.** The shrink loop does not raise a configured window below 1 ms to
  1 ms (internal/sender/poller.go:235-258): `Poller.Shrunk` states both cases, and with such a window no round ever has
  anything to export: `Poller.WindowAvailableIff`.

## Model

| member | source | states |
|---|---|---|
| `EndToEnd.NothingBelowTheCursorIsLost` | internal/sender/poller.go:408-418 | for every run with connection loss, nacks, corrupted headers and payloads, out-of-order handlers, receiver restarts and sender crashes, provided each crash finds a checkpoint that fits its segment: every instant the durable cursor has passed lies in an exported window each of whose non-empty lines is in a frame appended for that window which is still pending or whose number and CRC were imported or isolated |
| `EndToEnd.OwnFrameArrives` | internal/receiver/receiver.go:188-264 | if CRCs separate appended frames that share a number, the frame holding the line is itself pending, or its own chunk was imported or isolated |
| `Delivery.LineIsDelivered` | internal/sender/poller.go:301-423 | for every line there is a run from the start in which it is exported, its frame appended, sent, stored, answered 0xff and committed, and nothing is pending |
| `EndToEnd.UnfitCrashLosesLine` | internal/wal/wal.go:189-196 | without the condition on crashes the guarantee fails: a run of three crashes, one export and one advance after which a line below the durable cursor is neither pending nor stored |
| `EndToEnd.GuardedLogFits` | internal/wal/wal.go:189-217 | the condition on crashes concerns only logs whose persisted checkpoint does not protect their pending frames |
| `EndToEnd.DataStep` | internal/wal/wal.go:576-620 | every step keeps delivered lines safe, a crash if the persisted checkpoint fits |
| `EndToEnd.CommittedIsStored` | internal/sender/sender.go:248-256 | in every reachable state, whatever the crashes, a frame may leave the log only if the receiver has imported or isolated a frame with its number and CRC |
| `EndToEnd.DeliveredWindowsCover` | internal/sender/poller.go:301-423 | no instant between two positions of the durable cursor is skipped, across rewinds and crashes |
| `EndToEnd.DeliveredIsSafe` | internal/wal/wal.go:576-620 | the frames appended for a delivered window hold exactly its lines, and each line is in one of them that is pending or stored, in every later state |
| `EndToEnd.ReadIsAligned` | internal/transport/tcp_client.go:78-96 | the k-th byte read on an unspoiled connection is the server's answer to the k-th frame sent on it, unless it is the bad-header nack |
| `EndToEnd.CommitKeeps` | internal/wal/wal.go:576-620 | a commit the link discipline allows keeps every delivered line in a frame of its own window that is pending or stored |
| `EndToEnd.InvStep` | internal/receiver/receiver.go:188-264 | every step of every component keeps the flow invariant: connections agree, success means stored, and nothing is on its way that was not appended |
| `EndToEnd.InvAlways` | internal/receiver/receiver.go:104-265 | the flow invariant holds after every sequence of steps, whatever the crashes |
| `Bridge.PollRound` | internal/sender/poller.go:301-423 | with the real encoder, a round of the poller on the log of bytes is an export followed by an advance of the machine, or nothing; the log never refuses a frame |
| `Bridge.RoundIsExportThenAdvance` | internal/sender/poller.go:388-418 | the frames appended, decoded and decompressed, are exactly the packets of the window under consecutive numbers |
| `Bridge.NumberedFrameIsPacket` | internal/wal/wal.go:439-441 | an encoded frame renumbered by the log decodes to that number, its CRC and the chunk that went in |
| `Bridge.CommitIsCommit` | internal/sender/sender.go:248-256 | a commit of the sending loop is a commit of the machine |
| `Bridge.SendIsSend` | internal/transport/tcp_client.go:58-75 | sending a pending frame or a heartbeat is a send of the machine |
| `Bridge.RebootIsCrash` | internal/wal/wal.go:79-138 | a crash and the reopening of the log is a crash of the machine |
| `WriteAheadLog.Wal.Open` | internal/wal/wal.go:79-138 | after a crash of any recoverable state, stale checkpoints included, opening fails exactly when a torn tail meets a checkpoint that claims more than the file; otherwise the log is in order again and is a reboot of the queue before the crash; and for every directory, numbering resumes at the least positive number not below the checkpoint's and above every recovered one |
| `WriteAheadLog.RecoverDisk` | internal/wal/wal.go:156-217 | the sweep over segment files computes exactly the recovered state that the recovery theorems describe |
| `WriteAheadLog.SweepSegments` | internal/wal/wal.go:202-214 | the loop over segments agrees with the recursive specification, including the early stop on a refused segment |
| `WriteAheadLog.RaiseByScan` | internal/wal/wal.go:103-119 | the loop finds the least number that may be assigned: none is skipped and none used again |
| `WriteAheadLog.Ends` | internal/wal/wal.go:358-380 | the oldest and the newest segment number present |
| `WriteAheadLog.Wal.Rotate` | internal/wal/wal.go:507-520 | opening or creating the current segment leaves the queue as it is and the disk recoverable |
| `WriteAheadLog.Wal.EnsureSpace` | internal/wal/wal.go:492-504 | a new segment is begun exactly when the record does not fit the open one; the queue is unchanged |
| `WriteAheadLog.Wal.WriteRecord` | internal/wal/wal.go:399-415 | one record on disk is one frame at the end of the queue, readable under its number |
| `WriteAheadLog.Wal.AppendEncoded` | internal/wal/wal.go:392-417 | accepted exactly for the expected number; then the frame is last in the queue, otherwise nothing changes |
| `WriteAheadLog.Wal.AppendBatch` | internal/wal/wal.go:425-461 | appends the frames under consecutive numbers, up to the first that is shorter than a header, across rotations; returns exactly those numbers, or none on a refusal |
| `WriteAheadLog.Wal.ReadFrames` | internal/wal/wal.go:542-566 | what is read back is byte for byte what the index points at; an error names an entry that is not fully on disk |
| `WriteAheadLog.Wal.PeekBatch` | internal/wal/wal.go:532-567 | returns exactly the first min(n, pending) pending frames, numbers and bytes; empty exactly when none is pending |
| `WriteAheadLog.Wal.Persist` | internal/wal/wal.go:623-629 | the durable checkpoint becomes the one in memory, and protects the pending frames exactly if that one is known to |
| `WriteAheadLog.Wal.RemoveOldest` | internal/wal/wal.go:590-608 | deleting the oldest segment, also when it is the current one, leaves every pending frame readable, the disk recoverable and the checkpoint in memory sound |
| `WriteAheadLog.Wal.AckHead` | internal/wal/wal.go:580-582 | acknowledging moves past the head only, and makes the checkpoint in memory sound whatever it claimed before |
| `WriteAheadLog.Wal.Commit` | internal/wal/wal.go:576-620 | accepted exactly for the head's number; removes the head and no other frame, deletes exactly the segments before the next pending frame, persists exactly when a segment went or the interval elapsed |
| `WriteAheadLog.Wal.SetCursor` | internal/wal/wal.go:641-649 | the cursor never moves back, a move is durable at once, and the queue is untouched |
| `WriteAheadLog.Wal.ApplyBackfillPolicy` | internal/wal/wal.go:663-682 | rewinds exactly when a new backfilling policy has a boundary before the cursor and the checkpoint is not a legacy one; records the policy durably; keeps every pending frame |
| `WriteAheadLog.EveryDiskStateRecovers` | internal/wal/wal.go:79-138 | every disk state since opening, after every single file operation, recovers to a suffix of the log with all frames pending at that moment |
| `WriteAheadLog.RebootView` | internal/wal/wal.go:103-119 | reopening after a crash, seen as a queue: only frames once written come back, guarded pending frames all do, the cursor is the durable one, and the log is sound again if the persisted checkpoint fitted |
| `Journal.CrashRecovery` | internal/wal/wal.go:156-217 | from every state the log passes through, stale checkpoints included: opening succeeds unless a torn tail meets a stale checkpoint; a tear under 24 bytes is undone; the index is a contiguous suffix of the records on disk and, if guarded, contains every pending frame; if anything is recovered, numbering resumes where it was; the invariant holds again, so any number of crashes may follow |
| `Journal.RecoveredIsKnown` | internal/wal/wal.go:229-319 | what is read back after recovery, number and bytes, is a frame that was written |
| `Journal.QueueWrites` | internal/wal/wal.go:399-415 | writing one record keeps order, numbering and the protection of both checkpoints |
| `Journal.LogWrites` | internal/wal/wal.go:399-415 | writing one record keeps the disk recoverable under the persisted and the current checkpoint |
| `Journal.QueueAcks` | internal/wal/wal.go:580-582 | after an acknowledgement the checkpoint in memory claims no pending frame, even if it was stale before |
| `Journal.LogAcks` | internal/wal/wal.go:580-582 | within its segment the raised offset leaves exactly the frames that are still pending |
| `Journal.QueueRemoves` | internal/wal/wal.go:590-608 | deleting the oldest segment touches no pending frame and keeps both checkpoints protecting |
| `Journal.LogRemoves` | internal/wal/wal.go:590-608 | a crash right after the deletion still recovers from the checkpoint on disk |
| `Journal.FirstBoot` | internal/wal/cursor.go:19-25 | an empty directory with nothing acknowledged satisfies the recovery invariant |
| `Recovery.RecoverRebuilds` | internal/wal/wal.go:156-217 | opening any laid-out directory indexes exactly the records the checkpoint does not cover, in append order, cuts exactly the tear, and numbers above all of them |
| `Recovery.NumberingResumes` | internal/wal/wal.go:103-119 | for every directory that opens: the next number is the least that is positive, not below the checkpoint's and above every recovered one; with nothing recovered it is the checkpoint's, or 1 |
| `Recovery.SuffixSurvives` | internal/wal/wal.go:196-212 | a suffix of the log survives a checkpoint if and only if its first entry lies beyond it |
| `Recovery.PendingSurvivesIff` | internal/wal/wal.go:189-214 | on any laid-out disk, under any checkpoint, the last frames of the log survive a crash if and only if the checkpoint does not claim the first of them |
| `Recovery.OpensIff` | internal/wal/wal.go:244-263 | with a torn tail a directory opens if and only if the checkpoint fits its segment |
| `Reuse.ReusedSegmentLosesFrame` | internal/wal/wal.go:189-196 | two boots from a state of the log itself, one write and one persisted cursor, after which the frame below that cursor is not recovered |
| `Reuse.NextFrameSurvivesIff` | internal/wal/wal.go:189-212 | the next frame written is recovered if and only if the checkpoint claims fewer bytes of its segment than the frame's end |
| `Records.IndexSegment` | internal/wal/wal.go:229-319 | the scan loop, with its five branches, computes the recursive scan the layout theorems are about |
| `Records.ResyncRecord` | internal/wal/wal.go:325-356 | returns the least whole record after the bad offset within range, or none if there is none |
| `Segments.ScanFindsWholeRecords` | internal/wal/wal.go:229-319 | on whole records, reachable corruption and a tear under 24 bytes the scan finds every record at its true offset and cuts exactly the tear; it refuses exactly when acknowledged bytes would be cut |
| `Segments.CorruptionIsContained` | internal/wal/wal.go:244-308 | one corrupted record costs that record only: whatever is acknowledged, all others are found at their offsets and nothing is cut |
| `Segments.ResyncLands` | internal/wal/wal.go:325-356 | from a corrupt record the search lands exactly on the next whole one, if and only if that is in range |
| `Segments.LongCorruptRecordCutsTheRest` | internal/wal/wal.go:326-331 | beyond the range the scan cuts every record behind the corrupt one |
| `Segments.LongTearIsIndexed` | internal/wal/wal.go:309-316 | a tear of at least 24 bytes is indexed and overruns the file |
| `Segments.TearIsUndoneIffShort` | internal/wal/wal.go:264-317 | a tear leaves no trace if and only if it is shorter than 24 bytes |
| `Segments.FrameBehindTearIsFoundIff` | internal/wal/wal.go:309-316 | a frame appended after reopening a torn segment is found at the next opening if and only if the tear was shorter than 24 bytes, whatever the frame |
| `Sender.Sender.Run` | internal/sender/sender.go:62-173 | in both modes and for every environment: the history obeys the link discipline; after an interruption the interrupted frame is what is sent next; what was pending or got appended is, in order, committed or still pending; a recoverable log stays recoverable. With a working link the head, or a due heartbeat, is sent first; and if enough outcomes are good, every frame pending at the start is committed |
| `Sender.Sender.RunPipeline` | internal/sender/sender.go:183-294 | if nothing fails, exactly the first min(window, pending) frames are committed, in order; otherwise each round continues with the frame whose send failed or the first not answered 0xff, until all are answered |
| `Sender.Sender.Turn` | internal/sender/sender.go:69-172 | one turn of the loop: with a working link it sends the head, or a due heartbeat when nothing is pending; if nothing fails it commits at least one frame |
| `Sender.Sender.Look` | internal/sender/sender.go:76-110 | the frame taken from the log or from the cache is the head of the log at that moment |
| `Sender.Sender.SendAndRead` | internal/sender/sender.go:190-278 | the round continues with the frame whose send failed, or the first not answered 0xff, on a connection that is down by then |
| `Sender.Sender.PipelineRound` | internal/sender/sender.go:190-293 | on a failed send or a nack the connection is down before the next round; if nothing fails the whole window is committed |
| `Sender.Sender.SendWindow` | internal/sender/sender.go:192-221 | after it the connection owes one byte for each frame of the window in order, or it is down |
| `Sender.Sender.ReadWindow` | internal/sender/sender.go:235-278 | commits exactly the frames answered 0xff before the first other answer, and none if earlier frames were left behind by a failed send |
| `Sender.Sender.ReadOne` | internal/sender/sender.go:237-275 | one byte answers one frame; the frame is committed if and only if it is the log's head and the byte is 0xff |
| `Sender.Sender.CommitFrame` | internal/sender/sender.go:249-256 | the log is never empty at a commit, and accepts it exactly for its head |
| `Sender.Sender.StopAndWait` | internal/sender/sender.go:134-171 | leaves no unread answer behind; if nothing fails the head is committed |
| `Sender.Sender.SendHeartbeat` | internal/sender/sender.go:298-316 | with a working link a heartbeat is sent; no unread answer is left behind and nothing pending changes |
| `Sender.Sender.EnsureConnected` | internal/transport/tcp_client.go:38-55 | succeeds exactly when the connection is up, and a new one has nothing in flight |
| `Sender.Sender.SendFrame` | internal/transport/tcp_client.go:58-75 | a frame counts as sent or the connection is down |
| `Sender.Sender.WaitAck` | internal/transport/tcp_client.go:78-96 | reads the next byte due, or the connection is down |
| `Sender.Sender.Close` | internal/transport/tcp_client.go:99-110 | the connection is down; nothing is committed by closing |
| `Link.CommitsAreAligned` | internal/sender/sender.go:183-294 | by positions in the history: before a commit there is a dial with no drop or dial since, the event just before is a read of 0xff, and if that was the k-th byte since the dial the committed frame was the k-th sent since |
| `Link.SinceDial` | internal/transport/tcp_client.go:38-110 | what the client holds of a live connection is exactly what was sent and read since it dialed |
| `Link.NackedFrameIsSentNext` | internal/sender/sender.go:235-293 | by positions in the history: if a byte was a nack for a frame, the next frame sent, on whatever connection, is that frame |
| `Receiver.AckMeansStored` | internal/receiver/receiver.go:104-265 | in every interleaving of handler calls and across restarts, 0xff for a data frame means the running process imported or isolated a frame with its number and CRC |
| `Replies.ReplyTellsWhatWasDone` | internal/receiver/receiver.go:104-265 | in every interleaving a data call that replied did exactly one of three things: stored its frame, completed its number and recorded number and CRC, and answered 0xff; or was refused, touched neither tracker nor window, and answered 0x00; or found number and CRC recorded, stored nothing, and answered 0xff; only the first frame of a connection may close a gap before |
| `Replies.LedgerExplains` | internal/receiver/receiver.go:104-265 | tracker and duplicate window are, in every reachable state, the sum of the effects of the calls so far in this process |
| `Replies.TrackerIsAccounted` | internal/receiver/receiver.go:271-276 | every number the receiver has passed was completed, jumped over or closed over by some call |
| `Replies.DuplicateIsSwallowed` | internal/receiver/receiver.go:117-129 | a frame at or below the published number whose number and CRC are in the window is answered 0xff and stored nowhere |
| `Replies.CallReplies` | internal/receiver/receiver.go:104-265 | wherever it stands, a call left alone replies within fifteen actions |
| `Replies.EachReplyIsReached` | internal/receiver/receiver.go:188-264 | from the start: the first frame is stored, answered 0xff and published, sent again it is swallowed, and a refused one is answered 0x00 |
| `Replies.FirstFrameClosesGap` | internal/receiver/receiver.go:352-368 | the first frame of a connection, ahead by at most the limit and with nothing in flight in between, settles and publishes everything before it |
| `Replies.PublishedKeepsUp` | internal/receiver/receiver.go:373-394 | the published number is the tracker's unless some call is just about to publish that |
| `Receiver.SwallowedWasStored` | internal/receiver/receiver.go:117-129 | a duplicate is swallowed only if this process stored it; right after a restart nothing is swallowed |
| `Receiver.GapSkipsNothingInFlight` | internal/receiver/receiver.go:352-368 | every number a gap closure skips lies in the interval that was checked, though that was measured before the lock, and belongs to no call in flight |
| `Receiver.CountsAfter` | internal/receiver/receiver.go:281-320 | reference counts stay equal to the number of active calls per sequence number |
| `Receiver.ActionKeepsShared` | internal/receiver/receiver.go:373-394 | the published number never falls and never passes the tracker; the duplicate window holds stored frames only |
| `Receiver.InvStep` | internal/receiver/receiver.go:104-265 | every atomic action keeps the receiver's invariant |
| `Receiver.InflightTable.GapIsQuiet` | internal/receiver/receiver.go:352-368 | true exactly when no number strictly inside the gap is in flight |
| `Tracker.PassedIsAccounted` | internal/receiver/receiver.go:438-498 | in every run each number passed was completed, or skipped by a jump over 100000 or by a gap closure; an overflow never advances |
| `Tracker.OrderDoesNotMatter` | internal/receiver/receiver.go:461-491 | without jump, overflow or closure the end is the greatest number with all predecessors completed, in any order of completion |
| `Tracker.OneMoreDone` | internal/receiver/receiver.go:461-491 | one completion takes the settled prefix of a set to that of the set with one more |
| `Tracker.Reach` | internal/receiver/receiver.go:473-482 | the end of the gapless run, characterised by membership alone |
| `Tracker.CloseMayLeaveNextPending` | internal/receiver/receiver.go:447-458 | closing a gap does not drain: the next number is pending afterwards if and only if it was before |
| `Tracker.NextCompletionDrains` | internal/receiver/receiver.go:461-491 | the next completion in range never leaves the next number pending, and moves on if it was |
| `Tracker.EveryOperationLands` | internal/receiver/receiver.go:447-491 | what each operation of any run does, exactly: a closure reaches its end, a jump its number, a completion the end of its gapless run; the rest is kept unless it exceeds the limit |
| `Tracker.SeqTracker.MarkDone` | internal/receiver/receiver.go:461-491 | the draining loop reaches the end of the gapless run; reports an advance exactly when there is one |
| `Dedup.WindowAgrees` | internal/receiver/receiver.go:289-300 | for every history: queue and map hold the same distinct numbers, the last 4096 that entered, each with its latest CRC |
| `Dedup.HitIff` | internal/receiver/receiver.go:305-310 | a hit exactly when the number is still in the window and its latest recorded CRC matches |
| `Dedup.DedupWindow.DedupRecord` | internal/receiver/receiver.go:289-300 | the eviction code implements the window specification |
| `Server.AcksInOrder` | internal/transport/tcp_server.go:182-253 | in every interleaving the answers on the wire are those of frames 0, 1, 2, ... in order, at most MaxInflight frames are unanswered, and the bad-header nack is the only other byte, at most once |
| `Server.EveryFinishedFrameIsAnswered` | internal/transport/tcp_server.go:139-180 | whatever happened before, closing included: once all handlers have finished, the writer alone gets every dispatched frame its answer |
| `Server.StopsOnlyAtUnfinished` | internal/transport/tcp_server.go:139-152 | the writer ends cleanly only at a frame whose handler has not finished |
| `Server.AnsweredAfterClosing` | internal/transport/tcp_server.go:182-253 | a run in which the handler finishes after the reader is gone and the answer still goes out |
| `Server.InvStep` | internal/transport/tcp_server.go:195-251 | every step of reader, handler and writer keeps the pipeline invariant |
| `Server.InvAlways` | internal/transport/tcp_server.go:182-253 | the pipeline invariant holds in every interleaving |
| `Server.ConnPipeline.NextResult` | internal/transport/tcp_server.go:139-152 | hands out the answer of the wanted frame once, even after closing; ends only when closed without it |
| `Server.ConnPipeline.AwaitInflight` | internal/transport/tcp_server.go:170-180 | room exactly when fewer than the limit are unanswered; waits on only while open |
| `Lines.SplitFrames` | internal/sender/poller.go:459-489 | the frames together hold exactly the non-empty lines of the input in order; each is non-empty, has at most maxLines lines, and exceeds maxBytes only as a single line; and none could have taken the next line as well |
| `Lines.SplitOfJoin` | internal/sender/poller.go:459-489 | joining lines with newlines and splitting again gives the same lines |
| `Poller.Poller.PollOnce` | internal/sender/poller.go:301-423 | a successful round starts at the cursor, ends later, puts every frame of the window's lines into the log and only then moves the cursor; any other outcome leaves the cursor, durable and in memory; successful windows tile time; the window asked for, and the one prefetched, is the furthest that the history of rounds, the visibility margins and the caps allow |
| `Poller.Poller.Obtain` | internal/sender/poller.go:301-372 | no window, cancellation and failed export happen exactly under their causes; a prefetched result is used only for the current cursor |
| `Poller.Poller.Fetch` | internal/sender/poller.go:320-343 | a discarded prefetch never contributes data, and whatever is used is the answer to a logged export of that window |
| `Poller.Poller.ChooseWindow` | internal/sender/poller.go:301-315 | the window ends by now minus the export lag, or by now minus the watermark after a successful flush |
| `Poller.Poller.WindowEnd` | internal/sender/poller.go:264-279 | computes the end that `Poller.EndIsFurthest` characterises |
| `Poller.EndIsFurthest` | internal/sender/poller.go:264-279 | no more than the length, what is visible and, without a streak, the maximum; and equal to one of these |
| `Poller.LengthIs` | internal/sender/poller.go:235-258 | the length is the configured window halved once per oversize failure down to a millisecond, or doubled once per underfilled round since the last dense or failed one, up to one hour if all were empty and up to the maximum if not |
| `Poller.Poller.AskedRight` | internal/sender/poller.go:301-315 | for every history of rounds, the end a round asks for is the furthest one, with samples visible up to the watermark, or only up to the export lag if the window reaches beyond that and the source could not be flushed |
| `Poller.Poller.LaunchPrefetch` | internal/sender/poller.go:428-456 | a prefetch asks for the furthest next window and is kept exactly when that is non-empty and clear of the realtime zone; it never replaces one that is waiting |
| `Poller.Poller.Deliver` | internal/sender/poller.go:373-423 | all frames of the window are in the log before the cursor moves; an encoding failure changes nothing in the log |
| `Poller.Poller.EncodeAll` | internal/sender/poller.go:389-407 | all chunks encoded in order, or the failure of the first that cannot be |
| `Poller.Poller.WindowSize` | internal/sender/poller.go:235-258 | the loops compute the closed form: Window / 2^k but at least 1 ms after k oversize failures, otherwise Window * 2^n up to the cap |
| `Poller.Shrunk` | internal/sender/poller.go:235-246 | halving k times with a floor is one division by 2^k; below 1 ms the window stays |
| `Poller.Doubled` | internal/sender/poller.go:247-257 | doubling n times with early exit is min(Window * 2^n, cap) |
| `Poller.Normalised` | internal/sender/poller.go:120-156 | positive settings are kept, others become positive, and the export lag is the largest of its setting, its floor and the watermark |
| `Poller.OversizeRunIsShort` | internal/sender/poller.go:389-407 | n consecutive failures on windows longer than d ms need d * 2^(n-1) ms below the configured window |
| `Poller.Poller.PollUntilAdvance` | internal/sender/poller.go:159-215 | if exports answer, the source is visible beyond the cursor, encoding fails only on size and every chunk of a window up to d ms encodes, then after at most max(1, log2(Window/d)) oversize failures a round advances and its frames are in the log |
| `Poller.Poller.WorkableRound` | internal/sender/poller.go:301-423 | under these conditions a round advances or fails on a window of more than d ms, with nothing changed in the log |
| `Poller.WindowAvailableIff` | internal/sender/poller.go:264-279 | a round has a window exactly when window and cap are at least a millisecond and the visible end is beyond the cursor |
| `Backfill.ProbeOldestData` | internal/vm/client.go:172-197 | the binary search returns exactly the least timestamp, or 0 if there is none; it fails only if a request does |
| `Backfill.ExportHasData` | internal/vm/client.go:134-166 | the probe's answer is whether a sample lies before the bound |
| `Backfill.ProbeWithRetries` | cmd/sender/main.go:147-165 | the first successful of at most five attempts |
| `Backfill.BackfillInit` | cmd/sender/main.go:146-220 | a first boot starts at the oldest sample, at the later of that and the bounded start, or at the lag before now; a later one moves back to that start, and only if the policy is new and the checkpoint not a legacy one; an empty or unanswered probe decides as documented; every pending frame is kept |
| `Backfill.BootedStartsAt` | cmd/sender/main.go:166-220 | for every position, mode, probe and time: where a boot leaves cursor and recorded policy |
| `Backfill.RewindsIffPolicyChanges` | internal/wal/wal.go:663-682 | the cursor moves back if and only if the recorded policy changes to a backfilling one with a boundary before it, and then exactly to the boundary |
| `Backfill.UnchangedPolicyNeverRewinds` | internal/wal/wal.go:663-682 | over any sequence of boots and polling, the cursor falls only if some boot changes the recorded policy |
| `Backfill.FruitlessBootsRecordNothing` | cmd/sender/main.go:146-220 | in "all" mode any number of failed or empty probes, with polling between, leaves the recorded policy alone |
| `Backfill.FirstGoodProbeReachesOldest` | cmd/sender/main.go:146-220 | after them the first probe that answers leaves the cursor at or before the oldest sample |
| `Codec.DecodeAfterEncode` | internal/protocol/codec.go:92-166 | decoding inverts framing for every type, number and payload within the limit |
| `Codec.EncodeDecodes` | internal/protocol/codec.go:47-75 | whatever Encode accepts decodes to the type, number and compressed payload that went in |
| `Codec.EncodeAfterDecode` | internal/protocol/codec.go:144-166 | re-encoding any frame that decodes gives the same bytes |
| `Codec.ParseAfterPut` | internal/protocol/codec.go:109-141 | parsing inverts writing a header, whatever follows it |
| `Codec.PutAfterParse` | internal/protocol/codec.go:109-141 | any header that parses is the canonical coding of what was parsed |
| `Codec.RewriteChangesOnlySeq` | internal/wal/wal.go:439-441 | overwriting bytes 4..12 changes the decoded number and nothing else, and neither makes nor mends an invalid frame |
| `Codec.PutHeader` | internal/protocol/codec.go:109-116 | fills the first 20 bytes and leaves the rest of the buffer |
| `Codec.EncodeRaw` | internal/protocol/codec.go:92-106 | the buffer holds header and payload |
| `Bytes.UnBeOfBe` | internal/protocol/codec.go:109-116 | big-endian fields read back as the value written |
| `Bytes.BeOfUnBe` | internal/protocol/codec.go:119-141 | any bytes are the big-endian form of the value read from them |

## Left out

- EndToEnd.NothingBelowTheCursorIsLost: assumes that each crash finds a checkpoint that fits its segment; without that the claim is false, as `EndToEnd.UnfitCrashLosesLine` shows.
- EndToEnd.NothingBelowTheCursorIsLost: its crash step is the reopening of a disk whose torn tail is shorter than 24 bytes; behind a longer one frames are lost, as `Segments.FrameBehindTearIsFoundIff` shows.
- EndToEnd.NothingBelowTheCursorIsLost: a stored frame is identified by number and CRC, because numbers can be used again after a crash; `EndToEnd.OwnFrameArrives` adds what follows if CRCs separate frames that share a number.
- Poller.Poller.PollOnce: no commits happen inside a round; `EndToEnd` interleaves commits with appending and cursor moves instead.
- Poller.Poller.PollUntilAdvance: assumes a configured window and cap of at least a millisecond, which the source does not enforce; below that there is never a window.
- WriteAheadLog.Wal.Commit: requires a pending frame, because the source indexes past the end on an empty log (internal/wal/wal.go:577-578); the sending loops are proved to meet this.
- WriteAheadLog.Wal.AppendBatch: a recoverable disk afterwards is promised for valid frames of the given type with numbers below 2^64, which is what the poller appends; the caller's buffers are rewritten by value, not in place.
- Segments.CorruptionIsContained: bytes of the corrupt record that happen to look like a record header are excluded by hypothesis, as the source cannot tell them apart.
- Sender.Sender.Run: the bytes it reads are given; that they are the server's answers is part of `EndToEnd`, not of the loop.
- Power loss: a batch that rotates closes the old segment without syncing it, so only process crashes are modelled.
- I/O errors and partial writes inside AppendBatch, locking of the directory, fsync, and the temporary checkpoint file: a write is atomic apart from the torn tail of a crash, a persist is atomic.
- 64-bit wrap-around of sequence numbers, offsets and nanosecond timestamps: unbounded integers.
- gzip, zstd and CRC-32: parameters of the codec.
- HTTP and TCP: exports, imports, dials, reads and writes are outcomes chosen by the environment; a timeout is a failure.
- Backoff and retry timing, heartbeat intervals, warning throttles, metrics, logging, monitoring, configuration files: no effect on what is delivered.
- The disk backpressure states of the poller: they only decide whether a round takes place, and every number of rounds is covered.
- Moving frames to the sender's dead-letter queue: no code path of the sender calls it. Closing the log: it persists and releases files, like a crash between two operations.
- The relay log and relay dead-letter queue: they never set a cursor, so the guarantee does not concern them.
- Legacy checkpoints over several boots: any persist records a policy, so only the boot that applies it is covered.
- Per-connection frame numbering in the receiver: whether a frame is the first of its connection is an arbitrary input of the handler.

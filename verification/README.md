# Keldron agent: verified models

Dafny models of the parts of the Keldron agent where order, loss and agreement matter, with proofs about all
inputs, all interleavings and all histories. Check the whole project with `dafny verify dfyconfig.toml`.

**Store-and-forward buffer** (`internal/buffer`, `internal/sender`). Points travel normalizer → buffer manager → gRPC
sender. The manager runs an ingress goroutine, an egress goroutine, a drain goroutine and a connection callback over a
bounded ring, a segmented write-ahead log, an atomic flag and one mutex.

- `Points` is the point and the projection the log keeps. `Codec` is the byte format and the reader, with a declarative
  reading (`Scan`) of any byte string; `LogFile` reads back a file of points cut off anywhere. `Ring` and `Wal` are
  the array-backed ring and the log on a directory whose calls may all fail, those of a file being read included.
  `WalSpec` is what the rest of the project needs to know of the log: a list of segments, and the possible outcomes of
  one write. `Restart` is a drain, cancelled or not, and the opening of the log by the next run; `NextRun` is a whole
  run of the manager and the next one on the same directory.
- `BufferModel` is the manager as a step system, one step per lock, flag, ring, log or channel operation, with every
  counter of the source and tallies of every way a point can be lost. `BufferProofs` keeps the invariants (who holds
  the mutex, where the ring and the log must be empty, the order of the whole pipeline, the counters, who will be woken).
  `BufferTheorems` states order, loss and counters over every run, `BufferLiveness` that the manager stops, never gets
  stuck, and has delivered everything when it stops, `BufferConnection` what the connection does to it: silence while
  down, delivery after a reconnect, the flush after a disconnect, and the end after a cancellation.
- `Manager` is the same critical sections as methods on the real ring and log. `BufferRefinement` shows that the steps
  of ingress, of the callback and of egress, uninterrupted, do what the contracts of the methods say, and
  `DrainRefinement` the same for the drain.
- `Sender` is the batcher, the send loop and the reconnect loop, over any script of events. `EndToEnd` joins the two
  halves: what reaches the wire is an in-order selection of the messages of what came in, without any caveat about the
  log's projection, because the message does not carry what the log drops.

**Cloud client** (`internal/cloud`): `Cloud` is the retry buffer, for sends one after another and for overlapping sends
and closes; `BatchId` is the idempotency key.

**Thermal windows** (`internal/health`, `internal/scoring`): `ThermalWindow` is the rolling window kept in place,
`Recovery` the spike and recovery scan, `SpikeStart` the incrementally kept start of a spike, `Hotspot` the regression.

**Three compact algorithms**: `Targets` compares target lists, `Slurm` and `SlurmNotation` expand node lists, `Holder`
is the configuration subscription allocator.

## What the proofs found

- A point counted as dropped need not be gone. For each of the three writes (ingress, either flush) it is gone exactly
  when its record was not appended, is over 10 MiB, or is behind one that is in its segment
  (`BufferTheorems.DroppedIsGoneExactlyWhen`; `Wal.WAL.Write` says when a record is appended). Otherwise only its sync
  failed, and it is drained like any other. Over a run in which no record is over the limit, the points dropped and yet
  there are exactly those of the failed writes that had appended theirs (`BufferTheorems.DropsOfRun`).
- A record over 10 MiB is written and counted as spilled, but the reader abandons its segment there: it and every
  record behind it in the segment are out of reach (`Codec.AppendOversized`, `Codec.AppendBlocked`).
- A segment file that cannot be examined when the log is opened is passed over before its number is looked at. Its
  number may then be given out again, and the new segment takes the old file over, counted as empty. No number on disk
  is given out again exactly when for every file passed over there is one with at least its number that is not
  (`Wal.ScanDirectory`, `Wal.WAL.Open`); `Wal.SkippedNumberIsReused` is a directory where it is not so, and
  `Wal.WAL.Rotate` says what happens then.
- A drained file is removed even if a failed read or seek kept some of it from coming out. It is kept
  exactly when it could not be opened or removed, when the position in it was lost, or on a cancellation
  (`Wal.WAL.DrainOne`, `Codec.DrainSegment`), and whatever had come out of a kept file comes out once more after a
  restart (`Restart.DrainAndReopen`, `NextRun.AcrossRuns`).
- The wait after a lost connection that had been established still uses the backoff of the failures before it; the
  reset comes after the wait (`Sender.Sender.Start`, through `Chronicle`). The comment at `internal/sender/sender.go:143`
  reads as if the reset came first.
- The kept spike start and the one searched for differ when a sample meets the target exactly and when a gap in the
  temperatures follows a sample above it; the exact condition is `SpikeStart.KeptExactlyWhen`. What is shown to a user
  is wrong only when a run above the target resumes after a gap (`SpikeStart.ShownExactlyWhen`).
- `|` in an address makes two different target lists compare as equal; the exact condition is
  `Targets.DecidesExactlyWhen`. `|` does the same to idempotency keys; without NULs the exact condition is
  `BatchId.IdentifiesExactlyWhen`. With NULs in device ids any batch of two or more samples has the key of some batch
  of one (`BatchId.NulCollides`), so keys identify batches only where there are no timestamps to make any
  (`BatchId.FreeDevicesCollideUnlessEmpty`).
- With sends one after another the cloud buffer is the newest samples since the last settled request. It is the newest
  of all samples never settled only under the condition of `Cloud.NewestUnsettled`: samples trimmed before a settled
  request never come back (`Cloud.OlderIsGone`).
- Text behind the closing bracket of a Slurm group is dropped, so such a group expands to the names it stands for
  exactly when there is none (`SlurmNotation.SuffixKeptExactlyWhen`).
- A Slurm range is padded to the larger width of its two ends, so `n[8-10]` expands to n08, n09, n10; the first name is
  as wide as written exactly when the first number is at least as wide as the last (`SlurmNotation.MixedWidths`).

## Model

| member | source | states |
|---|---|---|
| Points.MessageCarries | internal/buffer/convert.go:15-26 | the message has the point's five texts, its times as whole milliseconds since the epoch, rounded down, and its metrics entry by entry |
| Points.ProtoToPointCopying | internal/buffer/convert.go:30-45 | copying the metrics entry by entry gives the point of the message: its texts, its times in nanoseconds, its metrics and no tags |
| Points.StoredIdempotent | internal/buffer/convert.go:15-45 | a second trip through the log loses nothing more, and the message of a point survives the first |
| Points.StoredFidelity | internal/buffer/convert.go:15-45 | a point comes back unchanged iff it has no tags, has a metrics map and whole-millisecond times; times never move by a millisecond |
| Ring.Ring.Push | internal/buffer/ring.go:36-49 | refuses iff full, and then changes nothing; otherwise appends |
| Ring.Ring.Pop | internal/buffer/ring.go:51-66 | takes the oldest entry, or nothing iff empty; a slot not in use holds nothing |
| Codec.BigEndian | internal/buffer/wal.go:318 | the first byte of a word weighs most |
| Codec.Be32RoundTrip | internal/buffer/wal.go:300-302 | the big-endian length and checksum words decode to what was encoded |
| Codec.SlotsOfFrames | internal/buffer/wal.go:185-221 | reading is the inverse of writing, for any records and any unreadable tail |
| Codec.SlotsComplete | internal/buffer/wal.go:185-221 | every byte string is whole records followed by a tail the reader gets nothing from |
| Codec.YieldsAreChecked | internal/buffer/wal.go:332-350 | every point yielded comes from a payload whose checksum matches and which unmarshals |
| Codec.Truncation | internal/buffer/wal.go:185-221 | a file cut at any byte yields exactly the records that are complete |
| LogFile.TruncatedLog | internal/buffer/wal.go:292-351 | for any points and any cut of their encodings, exactly the points with complete records come back, projected, in order |
| Codec.DamageIsLocal | internal/buffer/wal.go:202-213 | damage to payloads or checksums, lengths intact, leaves all other records yielded in order |
| Codec.AppendReadable | internal/buffer/wal.go:130-141 | a record appended to a clean file is the next one read |
| Codec.AppendOversized | internal/buffer/wal.go:321-323 | a record over the limit, and whatever is appended behind it, is never read |
| Codec.AppendBlocked | internal/buffer/wal.go:204-207 | nothing appended to an abandoned file is ever read |
| Codec.EncodeRecord | internal/buffer/wal.go:292-304 | fills a buffer with length, payload and checksum |
| Codec.EncodeThenDecode | internal/buffer/wal.go:292-351 | a fresh record decodes to the projection of its point |
| Codec.DecodeRecord | internal/buffer/wal.go:310-351 | decodes the record ahead, or says which way it failed: end of file, a corrupted record of known extent, or an unknown extent, with reads that may fail at any point |
| Codec.ReadStepFrom | internal/buffer/wal.go:192-220 | one round of the reader against the declarative reading, moving at least 8 bytes; a failed read loses at most the record or the rest, a failed seek the rest |
| Codec.DrainSegment | internal/buffer/wal.go:185-221 | what comes out of any byte string is an in-order selection of its declarative reading, a prefix without read faults and all of it when it also ended; it ends early exactly on a lost position or a cancellation; terminates |
| WalSpec.WrittenContents | internal/buffer/wal.go:95-141 | whatever its outcome, a write removes an oldest stretch and appends at most the one point |
| Wal.ScanDirectory | internal/buffer/wal.go:53-82 | adopts exactly the segment files it can examine and their total size; the next number is just above theirs, and above every number on disk iff each file passed over is outnumbered by one that is not |
| Wal.SkippedNumberIsReused | internal/buffer/wal.go:63-77 | a file that cannot be examined may have the next number to be given out |
| Wal.SortByKey | internal/buffer/wal.go:59-87 | sorts by sequence number, losing and adding nothing |
| Wal.WAL.Open | internal/buffer/wal.go:42-90 | reopening lists the surviving segments that could be examined in order of creation, whatever the directory order; the log is valid, its next number unused, iff each file passed over is outnumbered by one that is not |
| Wal.WAL.DropOldest | internal/buffer/wal.go:106-120 | one oldest segment leaves the list; what is left is untouched |
| Wal.WAL.Prune | internal/buffer/wal.go:104-121 | prunes an oldest prefix, never the active segment, no more than the limit asks for, and until it is met or one segment is left |
| Wal.WAL.CloseActive | internal/buffer/wal.go:263-270 | the segment being replaced is synced, then closed, and each failure ends the rotation; the segment counts as open exactly while its handle is |
| Wal.WAL.Rotate | internal/buffer/wal.go:262-284 | the old segment synced and its handle closed; a fresh number and file, last in the list and active; if the number is that of a file passed over at opening, that file is taken over with what it holds, counted as empty |
| Wal.WAL.AppendActive | internal/buffer/wal.go:130-141 | appends the record to the active file or leaves all files alone; a record appended but not synced fails, stays in the file and is left out of totalSz; success means synced; the log after it is that of Written, which has the record iff it was appended and can be read |
| Wal.WAL.OpenIfFull | internal/buffer/wal.go:122-128 | a new and empty segment iff there is none or the current one is full; nothing else changes |
| Wal.WAL.MakeReady | internal/buffer/wal.go:104-128 | leaves an active segment with room, within the size bound |
| Wal.WAL.Write | internal/buffer/wal.go:95-141 | the log after a write is one of the possible outcomes; succeed or fail, the active file grows by the record iff it was appended, and the log by the point iff besides the record is within the reader's limit and none over it is in front; a write that succeeds has appended and synced; a segment is rotated exactly when there is none or it is full; totalSz is at most max(maxTotal, 10 MiB + 2R); without faults it fails only on a failed marshal or a broken active segment, and prunes no more than needed |
| Wal.WAL.HasData | internal/buffer/wal.go:224-228 | true iff a segment is tracked |
| Wal.WAL.Drain | internal/buffer/wal.go:147-167 | hands over the segment list and leaves an empty log, the active segment closed and, without faults, synced |
| Wal.WAL.DrainOne | internal/buffer/wal.go:171-179 | puts out an in-order selection of one file; unless opening it, learning the position or removing it fails, the file is kept on a cancellation and otherwise removed, even if reads or seeks failed; a file read out is gone iff removing it did not fail; without faults it is read out iff all of it came out |
| Wal.WAL.DrainNext | internal/buffer/wal.go:171-179 | one round of the drain keeps that the files so far have come out in order and are gone, and that the files ahead are untouched |
| Wal.WAL.DrainFiles | internal/buffer/wal.go:169-182 | from each file an in-order selection, the file it stops at and those behind it untouched; with no faults but failed reads and seeks exactly the files passed are removed, all of them unless cancelled; without faults exactly what the files hold comes out, up to a cancellation |
| Restart.Reopen | internal/buffer/wal.go:42-90 | without faults, opening the directory again tracks exactly the files on it |
| Restart.Resumed | internal/buffer/wal.go:169-182 | what the next run reads is what the files not removed hold, in order |
| Restart.DrainAndReopen | internal/buffer/wal.go:42-221 | of everything in the log, a drain, cancelled or not, puts out the whole up to some point, and the next run has the whole from the beginning of the file that point is in |
| NextRun.EveryTrace | internal/buffer/buffer.go:114-267 | over every run, with an account of the files left by drains that end early: what has been read of a file is the last put out or about to be, and nothing is in two places but what was read out of files left |
| NextRun.Ended | internal/buffer/buffer.go:114-267 | when a run has ended, at whatever moment: put out + in memory + found on disk + lost for good = came in + read out of files found |
| NextRun.AcrossRuns | internal/buffer/buffer.go:114-267 | a run and the next on the same directory put out everything that came in and, once more, what the first had read out of files it left, but for what is lost in memory or enumerated; all of it iff that is nothing |
| Pipeline.MovesWrite | internal/buffer/wal.go:95-141 | a write takes the point right behind the log, in order |
| Pipeline.MovesWrites | internal/buffer/buffer.go:97-110 | a run of writes takes the points behind the log, in order |
| Manager.Manager.WriteOrDrop | internal/buffer/buffer.go:162-169 | the point goes into the log or is counted as dropped, or both; which it is follows from whether its record was appended and its size |
| Manager.Manager.FlushRingToWal | internal/buffer/buffer.go:97-110 | the ring is emptied into the log, one write per point, oldest first |
| Manager.Manager.Ingest | internal/buffer/buffer.go:177-188 | straight to the log, into the ring, or past a full ring flushed first; order kept, counters exact |
| Manager.Manager.TakeNext | internal/buffer/buffer.go:218-225 | pops the ring only past an empty log, so the head of the backlog comes out |
| Manager.Manager.OnConnChange | internal/buffer/buffer.go:78-86 | going down writes the ring to the log point by point, coming up changes only the flag |
| BufferProofs.ShapeStep | internal/buffer/buffer.go:78-251 | every step keeps mutual exclusion, the empty ring while disconnected, and the empty log while egress pops |
| BufferProofs.OrderStep | internal/buffer/buffer.go:78-267 | every step keeps the order of output, hand, channel, files, log, flush, ring and ingress |
| BufferProofs.ConserveStep | internal/buffer/buffer.go:97-267 | every step keeps the balance of the counters |
| BufferProofs.WakefulStep | internal/buffer/buffer.go:87-92 | every step keeps that a waiting egress will be woken |
| BufferTheorems.InvStep | internal/buffer/buffer.go:78-267 | the whole invariant is kept by every step |
| BufferTheorems.EveryRun | internal/buffer/buffer.go:114-267 | it holds after every run of every interleaving |
| BufferTheorems.Order | internal/buffer/buffer.go:18-23 | what is put out, and everything behind it, is an in-order selection of what was recovered and admitted |
| BufferTheorems.NoLoss | internal/buffer/buffer.go:18-23 | nothing is missing iff none of the enumerated losses occurred, each of them by itself; then the output is a prefix of the input |
| BufferTheorems.Counters | internal/buffer/buffer.go:139-141 | admitted = ring + popped + walSpills + dropped + in hand; walSpills + recovered = walDrained + still stored + enumerated losses |
| BufferTheorems.RingCounters | internal/buffer/buffer.go:97-110 | over every run, ring pushes = in the ring + popped by egress + taken out by a flush |
| BufferTheorems.DroppedIsGoneExactlyWhen | internal/buffer/buffer.go:97-110 | a point a failed write counts as dropped is gone iff its record was not appended, is over the reader's limit, or is behind one that is; else it is last in the log; for ingress's write and both flushes |
| BufferTheorems.DropsOfRun | internal/buffer/buffer.go:162-169 | over every run the drops are the failed writes; when no record is over the limit, all that is counted as spilled can be read, and the drops not gone are the failed writes whose record was appended |
| BufferLiveness.MeasureStep | internal/buffer/buffer.go:161-267 | every step other than new input or a connection change uses up some of a finite measure |
| BufferLiveness.Stops | internal/buffer/buffer.go:161-267 | left to itself the manager stops within that measure |
| BufferLiveness.NeverStuck | internal/buffer/buffer.go:161-267 | connected and not cancelled, it always has a step to take while anything is undelivered |
| BufferLiveness.Delivery | internal/buffer/buffer.go:18-23 | when it has stopped while connected, everything not lost has been received in order, and without losses exactly the input; BufferConnection.ReconnectDelivers is without the condition |
| BufferConnection.SilentWhileDown | internal/buffer/buffer.go:205-214 | from the moment the connection is down and egress between rounds, nothing is put out or taken for that until it is up again, whatever else happens |
| BufferConnection.ReconnectDelivers | internal/buffer/buffer.go:78-92 | whatever state the manager is in when the sender tells of a connection, once there is nothing left to do everything not lost has been received, in order, and without losses exactly the input |
| BufferConnection.DisconnectTakesEffect | internal/buffer/buffer.go:78-83 | once the sender has told of a lost connection and there is nothing left to do, the manager is disconnected and the ring empty |
| BufferConnection.SignalsOfRun | internal/buffer/buffer.go:78-251 | over every run the flag is what the callback last said, and ingress and egress end only on a cancellation, or ingress with its input |
| BufferConnection.ShutsDown | internal/buffer/buffer.go:114-251 | a cancelled manager comes to an end: both goroutines ended, no drain under way, the mutex free, all that was put out received |
| BufferConnection.DrainEndsEgress | internal/buffer/buffer.go:227-233 | cancelled during a drain, egress ends with it and begins no further round |
| BufferConnection.NothingRuledOut | internal/buffer/buffer.go:78-267 | which steps of the environment, of a cancellation and of a failing drain are possible, and exactly when |
| BufferRefinement.FlushBySteps | internal/buffer/buffer.go:97-110 | the flush loop's steps write the ring's points in order, with the same outcomes and counts |
| BufferRefinement.IngestBySteps | internal/buffer/buffer.go:177-188 | ingress's steps, uninterrupted, reach exactly what Manager.Manager.Ingest promises |
| BufferRefinement.DisconnectBySteps | internal/buffer/buffer.go:78-110 | the callback's steps going down reach exactly what Manager.Manager.OnConnChange promises |
| BufferRefinement.TakeNextBySteps | internal/buffer/buffer.go:218-225 | egress's steps reach exactly what Manager.Manager.TakeNext promises |
| DrainRefinement.DrainBySteps | internal/buffer/wal.go:147-221 | the drain's steps can put out what Wal.WAL.DrainFiles puts out without faults: any number of whole files and, when cancelled, part of the next; the rest is counted as orphaned |
| Sender.Batcher.Add | internal/sender/batch.go:30-35 | appends, and says when the batch is full |
| Sender.Batcher.Flush | internal/sender/batch.go:39-48 | hands over everything and starts afresh |
| Sender.SentOfHanded | internal/sender/sender.go:258-281 | what was sent is an in-order selection of what was handed over, short by at most a full batch per failure, equal iff none failed |
| Sender.Sender.ToProtoBatch | internal/sender/sender.go:366-386 | one message per point, in order |
| Sender.Sender.SendBatch | internal/sender/sender.go:258-281 | uses up one number, hands over one batch, and keeps all counters, modulo 64 bits |
| Sender.Sender.Flush | internal/sender/sender.go:238-252 | an empty batcher sends nothing; otherwise exactly one batch |
| Sender.Sender.Step | internal/sender/sender.go:193-227 | one pick of the send loop, event by event: what is kept, what is flushed, when it ends and how, and that only its end can lose a batch |
| Sender.Sender.Serve | internal/sender/sender.go:192-228 | the send loop over any events: points received are the inputs up to the first event that ends it; at most one batch lost, at the end |
| Sender.Sender.RunOnce | internal/sender/sender.go:161-229 | one connection: what it received, how it ended, what the callback was told, at most one batch lost |
| Sender.Sender.Reconnect | internal/sender/sender.go:119-150 | one round of the reconnect loop: a wait after a failure unless the context is done, another round unless it is done by then, and what the callback is told |
| Sender.Sender.Start | internal/sender/sender.go:116-152 | over any attempts: a round is followed by another iff it found no connection or broke and its context was not done; numbers 1,2,3,…, sizes 1..max(1,BatchSize), batches and batcher hold exactly what was received, waits double up to 60 s, the callback is told of each stream's start and end, losses at most one batch per session |
| Sender.NextBackoff | internal/sender/sender.go:143-149 | the loop's backoff is min(60, 2^streak) of the failures to connect just before |
| Sender.BackoffInSeconds | internal/sender/sender.go:116-149 | 1, 2, 4, 8, 16, 32, then 60 seconds |
| Sender.StreakIs | internal/sender/sender.go:119-149 | the streak is the longest stretch of attempts without a connection at the end |
| EndToEnd.WireOfStored | internal/sender/sender.go:366-386 | a point's message is the same before and after the log |
| EndToEnd.InputToWire | internal/sender/sender.go:161-281 | messages sent are an in-order selection of the messages of what came in, a prefix when nothing was lost or failed, short by at most a full batch per failed send |
| Cloud.Client.TrimBuffer | internal/cloud/client.go:226-245 | keeps the newest samples up to the limit, 1000 when none is set |
| Cloud.Client.Settle | internal/cloud/client.go:149-223 | by status code: retried samples go in front of newer ones when nothing came back or on 408, 429 and 5xx; on any other code nothing is buffered, and it is an error unless it is 202 |
| Cloud.Client.Send | internal/cloud/client.go:128-224 | the buffer after a send that no other overlaps, by status code, and when it reports an error |
| Cloud.Client.Close | internal/cloud/client.go:281-303 | one last attempt that keeps the whole buffer when nothing came back or on 408, 429 and 5xx |
| Cloud.BufferIsNewest | internal/cloud/client.go:128-245 | sends one after another: the buffer is exactly the last MaxBuffer samples since the last settled request |
| Cloud.NeverSettled | internal/cloud/client.go:128-245 | submitted = settled + trimmed before the last settled request + submitted since, order kept |
| Cloud.NewestUnsettled | internal/cloud/client.go:226-245 | the buffer is the newest of all unsettled samples iff no settled request came after more samples than the limit since the one before, or as many as the limit came since |
| Cloud.OlderIsGone | internal/cloud/client.go:226-245 | a sample trimmed before an accepted request is neither settled nor buffered |
| Cloud.EveryOverlap | internal/cloud/client.go:128-303 | overlapping sends and closes: submitted = accepted + rejected + trimmed + buffered + in flight; the buffer never exceeds its limit |
| Cloud.FinishByCode | internal/cloud/client.go:149-224 | where the samples of an overlapping send go, by status code: accepted, rejected, or back into the buffer and trimmed |
| Cloud.SendAlone | internal/cloud/client.go:128-224 | a send with no other in between is one call of the sequential account |
| BatchId.BatchIdFromSamples | internal/cloud/client.go:250-262 | the first 16 hex digits of the hash of the sorted, terminated keys |
| BatchId.OrderIrrelevant | internal/cloud/client.go:250-262 | the key does not depend on the order of the samples |
| BatchId.SameKeys | internal/cloud/client.go:250-262 | without NULs, equal hash inputs iff equal multisets of keys |
| BatchId.IdentifiesExactlyWhen | internal/cloud/client.go:250-262 | hash inputs identify multisets of (device, timestamp) iff no timestamp in use ends in a bar and another one |
| BatchId.Identifies | internal/cloud/client.go:250-262 | then equal hash inputs iff equal multisets of (device, timestamp) |
| BatchId.NulCollides | internal/cloud/client.go:250-262 | any batch of two or more samples has the hash input of a batch of one with a timestamp of its own |
| BatchId.FreeDevicesCollideUnlessEmpty | internal/cloud/client.go:250-262 | with any device ids, batches over a set of timestamps never collide iff the set is empty |
| Targets.RackIDsEqual | internal/adapter/snmp_pdu/adapter.go:264-279 | true iff the lists are permutations of each other |
| Targets.TargetsEqual | internal/adapter/snmp_pdu/adapter.go:235-262 | greedy matching decides equality as multisets of (key, vendor, multiset of racks), for all inputs |
| Targets.DecidesExactlyWhen | internal/adapter/snmp_pdu/adapter.go:239-243 | different lists never compare as equal iff no address in use is another one, a bar, and anything |
| Targets.Decides | internal/adapter/snmp_pdu/adapter.go:235-262 | then equality is equality as multisets of (address, PDU id, vendor, multiset of racks) |
| ThermalWindow.RecentInOrder | internal/health/window.go:59-68 | dropping the old prefix is filtering, when times do not decrease |
| ThermalWindow.WindowStep | internal/health/window.go:47-74 | pruning and capping what is left is pruning and capping the whole history |
| ThermalWindow.RollingSeries.Append | internal/health/window.go:47-57 | as long as time does not go back the window is the end of the history: at most 2000 entries, none older than 30 minutes, and it starts where it does for one of these reasons |
| ThermalWindow.RollingSeries.Snapshot | internal/health/window.go:76-85 | the same relative to the time of the snapshot |
| ThermalWindow.RollingSeries.Observe | internal/health/engine.go:79-87 | while nothing is evicted the kept start is the one kept over the whole history |
| Recovery.ScanRun | internal/health/window.go:245-261 | the end of a run and its last maximum |
| Recovery.ScanRecoveries | internal/health/window.go:229-286 | a spike iff a present sample exceeds the target; the report is that of the recoveries completed, for any samples, times and target |
| Recovery.ReportedUnique | internal/health/window.go:229-286 | the declarative report is determined by the samples |
| Recovery.ReportIsLast | internal/health/window.go:229-286 | with strictly increasing times it is that of the last sample to complete a recovery, and zero iff there is none |
| Recovery.CompletesAboveMinusOne | internal/health/window.go:246-264 | for targets above -1 a sample completes a recovery iff it is below and the run before it was somewhere strictly above |
| Recovery.CompletesInPlainTerms | internal/health/window.go:229-286 | a recovery is completed by a temperature below the target when an earlier one was above it and none in between was below; for any target |
| Recovery.DescribesInPlainTerms | internal/health/window.go:266-280 | it is reported with the highest temperature since the last one below, the latest time it was reached, and the whole seconds since |
| Recovery.LaterReplaces | internal/health/window.go:274-278 | it replaces what was reported before, unless its own time is not later |
| Recovery.RecoveryTargetC | internal/health/window.go:135-145 | half way between 20 degrees and the limit, 60 when the limit is at most 20.5; always above 20 |
| Recovery.FindSpikeSegmentStart | internal/health/window.go:288-317 | the first sample at or above the target since the last one below, if the last sample is; else the zero time |
| SpikeStart.KeptExactlyWhen | internal/health/window.go:94-118 | the kept start equals the searched one after every append iff no sample meets the target and no gap follows one above it |
| SpikeStart.ShownExactlyWhen | internal/health/window.go:323-334 | the start shown while above the target is always right iff no run above it resumes after a gap |
| Hotspot.RingBuffer.Add | internal/scoring/buffer.go:29-40 | the buffer holds the newest values added |
| Hotspot.RingBuffer.Values | internal/scoring/buffer.go:43-53 | they come out oldest first |
| Hotspot.RingBuffer.Oldest | internal/scoring/buffer.go:94-99 | the oldest of them |
| Hotspot.RingBuffer.Newest | internal/scoring/buffer.go:102-108 | the last value added |
| Hotspot.SlopeIdentity | internal/scoring/hotspot.go:31-44 | for any number of values the numerator is the sum of (j-i)(y_j-y_i) over all pairs |
| Hotspot.DenominatorOfTen | internal/scoring/hotspot.go:39-42 | the guard against a vanishing denominator never fires |
| Hotspot.ComputeTimeToHotspot | internal/scoring/hotspot.go:15-57 | none below ten values; otherwise there is an estimate iff the sum of (j-i)(y_j-y_i) over all pairs of the newest ten exceeds 41.25, and it is max(0, (limit-t)*825/(2*sum)) |
| Hotspot.BestLine | internal/scoring/hotspot.go:31-44 | the slope used is that of the one line with the least sum of squared residuals |
| Hotspot.EstimateNotNegative | internal/scoring/hotspot.go:51-56 | no estimate is negative |
| Hotspot.NoEstimateWithoutRise | internal/scoring/hotspot.go:44-49 | a window that never rises gives none |
| Hotspot.LinearSlope | internal/scoring/hotspot.go:31-44 | for values on a line the regression returns the line's slope |
| Hotspot.LinearEstimate | internal/scoring/hotspot.go:15-57 | a line rising by b gives max(0, (limit-t)/(2b)) iff 2b > 0.1 |
| Slurm.SplitTopLevelComma | internal/adapter/slurm/client.go:161-183 | the pieces between the commas outside brackets |
| Slurm.JoinOfSplit | internal/adapter/slurm/client.go:161-183 | the pieces joined give back the input up to one trailing comma outside brackets |
| Slurm.PiecesAreWhole | internal/adapter/slurm/client.go:161-183 | no piece has a comma outside brackets |
| Slurm.ExpandNodeList | internal/adapter/slurm/client.go:188-248 | the whole expansion against its specification |
| SlurmNotation.TopLevelOfJoin | internal/adapter/slurm/client.go:161-183 | splitting undoes joining pieces that close their brackets |
| SlurmNotation.FirstPieceEnds | internal/adapter/slurm/client.go:161-183 | in a list that closes no more brackets than it opened, the first piece ends at the first comma with as many opened as closed before it |
| SlurmNotation.SprintfIsPad | internal/adapter/slurm/client.go:233-235 | padded numbers have exactly the width and digits asked for |
| SlurmNotation.SprintfOfNegative | internal/adapter/slurm/client.go:233-235 | the sign of a negative number is one of its characters |
| SlurmNotation.ExpandOfItem | internal/adapter/slurm/client.go:213-243 | a number or a range in brackets expands to the names it stands for, padded to its own width, in order |
| SlurmNotation.ExpandInvertsFormat | internal/adapter/slurm/client.go:188-248 | expanding a list in compressed notation gives the names it stands for, in order |
| SlurmNotation.SpanNamesDistinct | internal/adapter/slurm/client.go:233-235 | a range stands for hi-lo+1 different names of equal length |
| SlurmNotation.BackwardsRange | internal/adapter/slurm/client.go:230-232 | a range written backwards stands for the same names |
| SlurmNotation.MixedWidths | internal/adapter/slurm/client.go:223-235 | a range with ends of different widths is padded to the larger; the first name is as written iff the first number is at least as wide as the last |
| SlurmNotation.BlanksDoNotMatter | internal/adapter/slurm/client.go:195-216 | blanks around a part or an item change nothing, and by themselves stand for nothing |
| SlurmNotation.OtherItems | internal/adapter/slurm/client.go:219-243 | an item that is no range of numbers is taken as it is, behind the prefix |
| SlurmNotation.OtherParts | internal/adapter/slurm/client.go:200-209 | a part without a bracket, or whose bracket is never closed, is a name |
| SlurmNotation.AtoiIs | internal/adapter/slurm/client.go:220-222 | a number is digits with an optional sign that fit 64 bits |
| SlurmNotation.SuffixKeptExactlyWhen | internal/adapter/slurm/client.go:202-210 | a bracketed group with text behind it expands to its names each followed by that text iff there is none; otherwise the text is lost |
| Holder.Holder.Subscribe | internal/config/config.go:944-962 | the first free slot is reused, otherwise one is added; no other subscription is touched; a nil callback changes nothing |
| Holder.Holder.Unsubscribe | internal/config/config.go:965-973 | the first call frees its own slot, any later one does nothing, even when the slot has been reused |
| Holder.Holder.Update | internal/config/config.go:913-939 | a rejected configuration changes nothing; otherwise each live subscriber is called once, in slot order |
| Holder.OwnSlot | internal/config/config.go:941-974 | a live subscription's slot holds its callback and is no one else's |

## Left out

- gRPC, TLS, HTTP, real files, fsync and logging are nondeterministic outcomes of a step; CRC-32, SHA-256, hexadecimal encoding and protobuf are function parameters, with the law that unmarshalling inverts marshalling where it is needed.
- A log append is all or nothing: a torn record in the middle of a live segment is not modelled, a file cut off at its end is.
- Segment file names are modelled by the number they carry, not by the formatting and scanning of their text.
- `NextRun.AcrossRuns`: a file that could not be removed after it was drained or pruned, which the next run would find as well.
- In the step model a failed read or seek of the drain is one of the steps that damage a record; `Wal.WAL.DrainFiles` has them one by one.
- The step model keeps a counter update together with the operation it counts, and Start's look for earlier records together with the state it starts from.
- Points in the drain channel when the context is cancelled are not recovered by the program; the model counts them as abandoned.
- The closing of the output channel and of the log at the end of Start, and Stats and the other accessors of the buffer, would add only easy members.
- Sizes, sequence numbers of segments and the buffer's counters are unbounded here; the sender's counters wrap at 64 bits as in the program.
- The content of acknowledgements other than a rejection, and the text of errors, change nothing the model describes.
- `Wal.WAL.Write`: is for a log whose next number is unused; on one that has taken over a file passed over at opening, a torn end of that file may swallow the records written behind it, and `Wal.WAL.Rotate` says no more than what the file holds then.
- `Cloud.Client`: the HTTP exchange, the response body, the nil client and the wait group of Close; that Close waits is the caller's part of the overlapping model, which lets sends overlap closes as well.
- `BatchId.BatchIdFromSamples`: collisions of the truncated hash; sort.Strings is a stand-in that sorts by value, not in place.
- Floating point is exact real arithmetic: rounding, NaN and infinities are not modelled, nor is the saturation of time differences.
- Thermal headroom, stability, performance per watt and the rating bands are easy members.
- `Hotspot.RingBuffer`: Mean and Stdev, which the estimate does not use.
- `Slurm.ExpandOne`: a range that ends at the largest 64-bit integer never ends in the program; here it is finite. Invalid UTF-8 is not modelled.
- parseGPUsFromTRES and the Slurm REST calls are not modelled.
- `Holder.Holder.Update`: what the hooks and the validation check is a parameter.
- Hardware adapters, mDNS, Prometheus export, hub merge, the frontend, configuration loading and credentials are input and output around library calls.

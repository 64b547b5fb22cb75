# SyndDB replication, verified

SyndDB replicates a SQLite database. A client captures row changes and snapshots, a sequencer numbers
and batches what it receives, validators replay it, and a chain monitor feeds blockchain events back in.
This project models the state machines, loops and codecs those parts are made of, in Dafny, and proves
what holds of them over every input and every run.

Check everything with `dafny verify dfyconfig.toml`.

## How to read it

Each protocol has a value-level state, a total transition function whose label carries the environment's
answers (is the send refused, does the save fail, does the process crash here), and a `Run` over any
sequence of labels. A claim over all sequences is thus a claim over all behaviours of SQLite, the
channels, the network and the scheduler. Where the program updates fields step by step there is a class
with those fields; each method is proved to take the state to what the transition function says, and the
theorems are about that function.

| file | what it models |
|---|---|
| `Sequences.dfy`, `Words.dfy`, `Database.dfy` | concatenation and ranges; machine words; rows, net differences, and the two ways of applying them |
| `Session.dfy`, `Replay.dfy`, `Restore.dfy` | change capture in the client; what a replica learns from the emitted stream; restoring by number |
| `Batching.dfy`, `Sequencing.dfy`, `Numbering.dfy` | the batcher's event loop; handlers and the command channel; the inbox |
| `Recovery.dfy`, `Sender.dfy`, `Lives.dfy` | the recovery store; the background sender and its statistics; one sender after another over the same store |
| `EthLogs.dfy`, `Monitor.dfy` | fetching logs by splitting ranges; polling with crashes, deduplication |
| `DdlRecovery.dfy` | the DDL crash marker |
| `OrderBook.dfy` | the order book simulator |
| `Base64.dfy`, `Jwt.dfy`, `SqlLiteral.dfy`, `TableCompare.dfy` | codecs and comparators |

## What came out

Properties one would expect, and their exact limits:

* Replay is faithful for every clean run (`Replay.ReplayTheorem`) and heals, after any loss, at the first
  push that sends a snapshot, extracts and renews its session (`Replay.ReplayHeals`). `Replayed` takes one
  stream in the order of emission.
* Snapshots and changesets leave through two channels. The documented rule, to apply the changesets
  numbered at or above a snapshot, needs no common order: for every run whose changesets get through,
  sorting them by number leads from any push snapshot to the last extraction (`Restore.RestoreByNumber`).
  The rule is about rows: a receiver that takes no later snapshot does not learn a changed schema.
* A push takes a faithful replica off the last extraction in exactly two cases (`Replay.PushLossExact`).
  It falls behind when none of the push's snapshots gets through and some row changed since the last
  extraction that was refused with the changeset or that the changeset does not name. It runs ahead when
  the schema snapshot gets through, the extraction after it fails, and rows had changed since the last
  one; the next push extracts again. A changeset fails to name a row when an earlier push could not
  recreate the session: nothing is refused, and a deleted row stays in the replica
  (`Replay.StaleSessionLosesDelete`).
* A manual snapshot is a sound starting point for every continuation in which a later push extracts,
  exactly when no net change is pending (`Replay.ManualSnapshotExact`): it does not restart the session.
* The validator aborts on a conflicting UPDATE or DELETE. A push that announces a schema change sends a
  snapshot that already holds its own changes, so the validator accepts the stream exactly when no such
  push carries an UPDATE or DELETE (`Replay.CheckedReplayExact`, with `Replay.AnnouncedUpdateAborts` as
  the shortest aborted run).
* The batcher documents FIFO order as protection against races. Order in the channel is kept, but
  handlers may enter it out of number order (`Sequencing.RacingHandlersPublishOutOfOrder`), and a failed
  signing leaves a gap. If every flush succeeds, batches are contiguous exactly when the messages entered
  in number order without a gap (`Sequencing.PublishedContiguous`).
* The midpoint of a split range can leave 64 bits exactly for ranges of two or more blocks that end above
  2^63 (`EthLogs.OverflowExact`); that the first sum fits does not suffice.
* The event store keeps one mark per transaction. Where the process lives on, let stores be readable and
  the handler accept everything; crashes may fall before, in or after any event. Then every log up to the
  resume point is handled in every run exactly when no two reachable logs belong to one transaction
  (`Monitor.AllHandledExact`); otherwise the second log is passed over (`Monitor.SecondLogSkipped`) and
  stays unhandled for good (`Monitor.SecondLogNeverHandled`).
* Over any succession of senders, each changeset received was delivered, or is in the recovery store, or
  was lost in one of four ways: left in memory at an end, failed save, recovery disabled, expired
  (`Lives.LivesBalanced`). If none of these happens nothing is lost (`Lives.NothingLost`), and one good
  start delivers all that is left (`Lives.OneGoodStart`).
* The base64url decoders accept more than encodings; decoding is lossless exactly on canonical strings
  (`Base64.CanonicalExact`).
* A refused schema announcement is not repeated (`Session.AnnouncedOnce`), and DDL alone is not announced
  at all until some statement touches rows (`Session.DdlWaitsForRows`). A failed extraction, on the other
  hand, costs nothing but time (`Replay.StalledThenClean`).
* The sender's byte counter is reset by a delivery only, so after enough failures every changeset is sent
  alone until one gets through (`Sender.OneByOneAfterFailures`).
* Comments in `ddl_recovery.rs` say the marker is written for direct DDL and cleared after publication;
  the code writes it from `execute_ddl` and clears it once the snapshot exists locally. The model follows
  the code.

## Model

| member | source | states |
|---|---|---|
| `Database.EmptyDiff` | crates/synddb-client/src/session.rs:337-350 | the session reports nothing exactly when no row differs from the session's start |
| `Database.OverwriteReaches` | crates/synddb-client/src/session.rs:73-92 | exactly when overwriting a replica with the net difference base to current yields current: it is already right on every row the difference leaves out |
| `Database.CheckedOnBase` | crates/synddb-validator/src/apply/applier.rs:359-401 | with the validator's conflict checks a changeset always applies to the rows it was taken from and yields the rows it leads to |
| `Database.CheckedOnCurrent` | crates/synddb-validator/src/apply/applier.rs:359-401 | applied to rows that already contain it, a changeset is accepted, without effect, exactly when it only inserts; otherwise it is aborted |
| `Database.CheckedReaches` | crates/synddb-validator/src/apply/applier.rs:359-401 | for any replica: the changeset is accepted exactly when every row it updates or deletes is there as before, and leads to the current rows exactly when also each inserted row is absent or the same and all others are right |
| `Session.SessionMonitor.constructor` | crates/synddb-client/src/session.rs:180-228 | a new monitor starts at sequence 0 with a session based on the attached database |
| `Session.SessionMonitor.Update` | crates/synddb-client/src/session.rs:239-277 | a row change raises the flag and nothing else |
| `Session.SessionMonitor.CreateSnapshot` | crates/synddb-client/src/session.rs:410-446 | a created snapshot carries the current database and the current sequence |
| `Session.SessionMonitor.AnnounceSchema` | crates/synddb-client/src/session.rs:294-335 | a changed hash is stored whatever happens to its snapshot; only a sent one takes a number and resets the counter |
| `Session.SessionMonitor.SnapshotIfDue` | crates/synddb-client/src/session.rs:372-398 | the interval snapshot resets the counter only when sent |
| `Session.SessionMonitor.SendChangeset` | crates/synddb-client/src/session.rs:337-407 | the net changes go out under the next number, refused or not, and the session restarts only if it can be recreated |
| `Session.SessionMonitor.PushChanges` | crates/synddb-client/src/session.rs:281-407 | the whole transition of a push, for every combination of failures; an error is returned only if extraction or recreation failed |
| `Session.SessionMonitor.TakeSnapshot` | crates/synddb-client/src/session.rs:473-498 | refused inside a transaction, otherwise leaves the session untouched |
| `Session.RunNumbered` | crates/synddb-client/src/session.rs:281-446 | in every run the numbers below the sequence are taken in order, once each; every snapshot separates changesets by number, and changesets leave in number order; the counter is the changesets since the last snapshot a push sent |
| `Session.RunSpaced` | crates/synddb-client/src/session.rs:364-398 | if no snapshot fails, the counter stays below the interval and no more than `interval` changesets pass without a snapshot |
| `Session.PushIdempotent` | crates/synddb-client/src/session.rs:281-350 | a push right after an extraction is a no-op, whatever the answers |
| `Session.RunFlagTells` | crates/synddb-client/src/session.rs:281-350 | in every run, whatever fails, without the flag the rows, and those a rollback would bring back, are those of the last extraction; a failed extraction keeps the flag |
| `Session.TransactionEnds` | crates/synddb-client/src/session.rs:281-292 | in an open transaction nothing is emitted; rolled back it leaves everything but the flag as it was, committed it leaves what its statements made |
| `Session.RunIntervalsDue` | crates/synddb-client/src/session.rs:372-398 | in every run an interval snapshot is only created when `interval` changesets have gone by since the last snapshot |
| `Session.AnnouncedOnce` | crates/synddb-client/src/session.rs:294-335 | a schema change is announced by one push only: failed or refused, the announcement is not repeated until the schema changes again |
| `Session.DdlWaitsForRows` | crates/synddb-client/src/session.rs:281-335 | DDL alone is not announced by a push; after any statement that touches rows, even without effect, it is |
| `Session.QuietWithoutRows` | crates/synddb-client/src/session.rs:281-292 | a run without row statements and manual snapshots emits nothing |
| `Replay.ReplayFromSnapshot` | crates/synddb-validator/src/apply/applier.rs:193-223 | a snapshot in the stream makes everything before it irrelevant |
| `Replay.CleanPushTracks` | crates/synddb-client/src/session.rs:281-407 | a clean push outside a transaction brings a faithful replica to the source's present rows |
| `Replay.ReplayTheorem` | crates/synddb-client/src/session.rs:79-92 | for every clean run, replay from the attach-time database or from any snapshot a push sent gives the source at the last extraction; the schema too if the hash is injective |
| `Replay.ReplayHeals` | crates/synddb-client/src/session.rs:299-404 | after any failures and from any replica, replay is faithful from the first push that sends a snapshot, extracts and renews the session |
| `Replay.PushRowExact` | crates/synddb-client/src/session.rs:294-404 | for any replica and any state, after a push that extracted a row is right exactly when a snapshot got through, or the changeset did and names the row, or the replica already had the present row |
| `Replay.PushLossExact` | crates/synddb-client/src/session.rs:281-404 | whatever the answers and however old the session, a push takes a faithful replica off the last extraction if and only if no snapshot gets through and some changed row is unnamed or refused, or the schema snapshot is sent and extraction fails with rows changed |
| `Replay.StaleSessionLosesDelete` | crates/synddb-client/src/session.rs:400-404 | insert, push without recreating the session, delete, clean push: nothing is emitted and the replica keeps the deleted row |
| `Replay.StalledThenClean` | crates/synddb-client/src/session.rs:337-350 | after a clean run and any number of failed extractions, one clean push outside a transaction brings the replica to the present rows |
| `Replay.SchemaLossExact` | crates/synddb-client/src/session.rs:294-398 | after a push that extracted, a replica that knew the last announced schema knows the present one if and only if the hash had not changed or a snapshot of the push got through |
| `Replay.ManualSnapshotExact` | crates/synddb-client/src/session.rs:471-498 | a manual snapshot is a sound restart point for every clean continuation in which some push extracts, if and only if no net change was pending |
| `Replay.InsertSnapshotDeletePush` | crates/synddb-client/src/session.rs:471-498 | insert, manual snapshot, delete, push: replay from the snapshot keeps the deleted row |
| `Replay.CheckedReplayExact` | crates/synddb-validator/src/apply/applier.rs:359-401 | with the validator's checks the stream of a clean run is accepted if and only if no schema-announcing push carried an UPDATE or DELETE, and then yields the source's rows |
| `Replay.AnnouncedUpdateAborts` | crates/synddb-validator/src/apply/applier.rs:359-401 | a schema change and an UPDATE in one clean push: the validator aborts the changeset |
| `Restore.RestoreByNumber` | crates/synddb-client/src/session.rs:42-45 | for every run whose changesets get through, whatever happens to its snapshots: from any snapshot a push sent, or the attach-time rows with number 0, the changesets numbered at or above it, in number order, give the rows at the last extraction |
| `Restore.OneOrder` | crates/synddb-client/src/session.rs:42-45 | the receiver's order is determined: the same changesets sorted by number are the same sequence |
| `Batching.Batcher.constructor` | crates/synddb-sequencer/src/batcher.rs:184-199 | starts empty and running |
| `Batching.Batcher.FlushBatch` | crates/synddb-sequencer/src/batcher.rs:322-399 | pending messages are drained before the attempt, so a failed one loses them; statistics count successes only |
| `Batching.Batcher.HandleAddMessage` | crates/synddb-sequencer/src/batcher.rs:280-318 | a message is appended and a reached limit flushes |
| `Batching.Batcher.RunLoop` | crates/synddb-sequencer/src/batcher.rs:214-276 | the event loop refines the transition function over any events, up to shutdown |
| `Batching.RunBounded` | crates/synddb-sequencer/src/batcher.rs:214-333 | after every command the byte counter is exact, pending stays strictly below both limits, every attempted batch respects them but for its last message, statistics are exact |
| `Batching.TurnKeepsOrder` | crates/synddb-sequencer/src/batcher.rs:214-268 | one turn of the loop moves messages on without reordering, dropping or inventing any |
| `Batching.AttemptExact` | crates/synddb-sequencer/src/batcher.rs:214-318 | a batch is attempted exactly by a flush, a shutdown or a due tick with something pending, or an added message that reaches a limit; it is all that is pending; only a shutdown stops the loop |
| `Batching.DueMeansAttempted` | crates/synddb-sequencer/src/batcher.rs:246-263 | in every run, after a flush, a due tick or a shutdown, the attempted batches end to end are all messages added so far, in order |
| `Numbering.Inbox.constructor` | crates/synddb-sequencer/src/inbox.rs:109-114 | the counter starts where told, as the protocol's initial state says |
| `Numbering.Inbox.TakeNumber` | crates/synddb-sequencer/src/inbox.rs:146-147 | the atomic increment is the protocol's `Assign` |
| `Numbering.Inbox.SignNumber` | crates/synddb-sequencer/src/inbox.rs:161-177 | signing a number taken and not yet signed is the protocol's `Sign` or `SignFailed`; the counter is not touched |
| `Numbering.Inbox.SequenceMessage` | crates/synddb-sequencer/src/inbox.rs:139-213 | a call is `Assign` followed by `Sign` or `SignFailed` of that number, spent either way |
| `Sequencing.RunKeeps` | crates/synddb-sequencer/src/batcher.rs:172-211 | in every interleaving, what entered the channel is in order what was attempted, pending, still queued, discarded; and all numbers are accounted for |
| `Sequencing.EachNumberInOnePlace` | crates/synddb-sequencer/src/inbox.rs:139-213 | the numbers handed out are start to next-1, each in exactly one of nine places, none published twice |
| `Sequencing.RunWithinCapacity` | crates/synddb-sequencer/src/batcher.rs:184-189 | in every interleaving the command channel holds at most 1024 commands |
| `Sequencing.RunSigned` | crates/synddb-sequencer/src/http_api.rs:428-453 | every message that entered the channel has the number and size it was signed with |
| `Sequencing.QuietMeansAttempted` | crates/synddb-sequencer/src/batcher.rs:214-268 | once the channel is drained and the interval over, every message that ever entered is in an attempted batch, in order |
| `Sequencing.FlushCommandServes` | crates/synddb-sequencer/src/batcher.rs:226-229 | when the batcher comes to a Flush, everything that entered before it has been attempted |
| `Sequencing.StopCuts` | crates/synddb-sequencer/src/batcher.rs:234-242 | when the batcher comes to a Shutdown, what entered before it has been attempted, and exactly what entered after it is discarded |
| `Sequencing.ShutdownTakesEffect` | crates/synddb-sequencer/src/batcher.rs:234-242 | a Shutdown sent while there is room is reached, and all that was sent before it has been attempted |
| `Sequencing.StoppedForGood` | crates/synddb-sequencer/src/batcher.rs:234-244 | after the stop nothing enters or moves, and handlers that try are turned away |
| `Sequencing.PublishedContiguous` | crates/synddb-sequencer/src/batcher.rs:172-211 | without failed flushes, batches are contiguous if and only if messages entered the channel in number order without a gap |
| `Sequencing.ContiguousNeighbours` | crates/synddb-sequencer/src/batcher.rs:342-348 | in contiguous batches each one's first number follows its predecessor's last |
| `Sequencing.RacingHandlersPublishOutOfOrder` | crates/synddb-sequencer/src/http_api.rs:428-453 | two racing handlers publish a batch whose first number exceeds its last |
| `Recovery.SavedKeepsPayload` | crates/synddb-client/src/recovery.rs:64-156 | a saved and reloaded changeset is sent with its original payload; it is the same changeset exactly when its time was in whole seconds |
| `Recovery.WireExact` | crates/synddb-client/src/sender.rs:25-37 | a changeset is sent with its number, its data and its time in whole seconds, 0 before the epoch |
| `Recovery.StoredOrder` | crates/synddb-client/src/recovery.rs:126-156 | reading back by signed sequence keeps number order exactly within each half of the 64-bit range |
| `Recovery.FailedBatchRecovery.SaveFailedChangeset` | crates/synddb-client/src/recovery.rs:64-92 | one row under a new id, unless the time is before the epoch or the insert fails |
| `Recovery.FailedBatchRecovery.GetFailedChangesets` | crates/synddb-client/src/recovery.rs:126-156 | every row exactly once, sorted by stored sequence |
| `Recovery.FailedBatchRecovery.RemoveChangeset` | crates/synddb-client/src/recovery.rs:192-199 | removes that row only |
| `Recovery.FailedBatchRecovery.IncrementRetry` | crates/synddb-client/src/recovery.rs:212-221 | counts one retry on that row only |
| `Recovery.PassEffect` | crates/synddb-client/src/sender.rs:286-330 | a row leaves the store only if it was sent and its delete worked; all others keep their content |
| `Recovery.RetryFailedChangesets` | crates/synddb-client/src/sender.rs:248-333 | after expired rows go, every stored changeset gets one turn in stored order, and exactly the sent ones are delivered |
| `Sender.ReplicationStats.RecordPush` | crates/synddb-client/src/stats.rs:81-87 | pushed grows and pending shrinks by the count |
| `Sender.ChangesetSender.Enqueue` | crates/synddb-client/src/sender.rs:96-98 | a received changeset is appended and counted |
| `Sender.ChangesetSender.SaveBatch` | crates/synddb-client/src/sender.rs:202-211 | a failed batch is saved changeset by changeset, passing over failed saves |
| `Sender.ChangesetSender.Flush` | crates/synddb-client/src/sender.rs:135-222 | the buffer is taken in either case; bytes are reset on success only |
| `Sender.ChangesetSender.Turn` | crates/synddb-client/src/sender.rs:85-124 | one turn of the loop, the closed channel leaving the buffer unsent |
| `Sender.RunConserved` | crates/synddb-client/src/sender.rs:85-222 | received equals flushed batches then buffer; pending is the buffer's length; pushed is what flushes delivered; bytes are buffered plus failed since the last delivery; the store gained exactly the rescued changesets; the buffer stays below its size |
| `Sender.FetchSubWraps` | crates/synddb-client/src/stats.rs:76-79 | on 64-bit counters adding back what was subtracted restores the counter |
| `Sender.AttemptExact` | crates/synddb-client/src/sender.rs:85-133 | a batch is attempted exactly when a received changeset reaches the count, the bytes or the interval, or at shutdown with something to send; a closed channel sends nothing and keeps the buffer |
| `Sender.RunBytesBelow` | crates/synddb-client/src/sender.rs:129-133 | in every run the byte counter is below its limit between turns unless the buffer is empty |
| `Sender.OneByOneAfterFailures` | crates/synddb-client/src/sender.rs:182-190 | once the failed bytes reach the limit, every changeset is attempted alone until one is delivered |
| `Sender.SavedInFull` | crates/synddb-client/src/sender.rs:201-217 | a failed batch is rescued whole exactly when every save was possible |
| `Sender.SaveAllRows` | crates/synddb-client/src/recovery.rs:64-92 | the i-th rescued changeset is the i-th new row |
| `Lives.RetryIsPass` | crates/synddb-client/src/sender.rs:286-330 | the ledger's retries are the pass over the listed rows |
| `Lives.LiveIsRun` | crates/synddb-client/src/sender.rs:76-125 | a life is clean-up, one retry pass, then the loop on the store that is left; with recovery off the store is not touched |
| `Lives.LivesBalanced` | crates/synddb-client/src/sender.rs:76-222 | over any lives, each ended anywhere: received = delivered by a flush + dropped + left in memory + saved, and every saved one is in the store with its content, or was delivered by a retry and deleted, or expired, in one place only |
| `Lives.NothingLost` | crates/synddb-client/src/recovery.rs:64-156 | with recovery on, saves accepted, nothing expired and loops ended by shutdown, every changeset received was delivered with its payload or waits in the store with it |
| `Lives.OneGoodStart` | crates/synddb-client/src/sender.rs:248-333 | after such lives, a start whose retries all go through empties the store, and everything ever received has been delivered |
| `Lives.RunSender` | crates/synddb-client/src/sender.rs:76-125 | `run` is the start-up retry in stored order followed by the loop over the store it leaves |
| `EthLogs.GetLogsExact` | crates/synddb-chain-monitor/src/eth_client.rs:218-281 | whatever the provider does, a result is exactly the range's logs in order, after at most 2*(to-from)+1 requests |
| `EthLogs.GetLogsSucceeds` | crates/synddb-chain-monitor/src/eth_client.rs:205-281 | splitting always succeeds against a provider that serves single blocks and has no transport error |
| `EthLogs.GivesUpAtOnce` | crates/synddb-chain-monitor/src/eth_client.rs:218-273 | a transport error, or a single block refused, fails after that one request |
| `EthLogs.HalvesDecide` | crates/synddb-chain-monitor/src/eth_client.rs:264-281 | a refused range comes back exactly when both halves do |
| `EthLogs.OverflowExact` | crates/synddb-chain-monitor/src/eth_client.rs:264-279 | some provider makes the midpoint sum overflow if and only if the range has two blocks or more and ends above 2^63 |
| `EthLogs.FittingSumStillOverflows` | crates/synddb-chain-monitor/src/eth_client.rs:275-279 | on the full range the first sum fits, the lower half is served, and the third request ends in an overflowing sum |
| `Monitor.EventStore.MarkProcessed` | crates/synddb-chain-monitor/src/event_store.rs:93-117 | the first mark of a hash stays |
| `Monitor.FirstMarkStays` | crates/synddb-chain-monitor/src/event_store.rs:93-117 | a second mark of a hash changes nothing, and a mark concerns its hash only |
| `Monitor.EventExact` | crates/synddb-chain-monitor/src/monitor.rs:310-340 | a log is handled exactly when the handler accepts it and its hash, if any, could be looked up and was unknown; a hash becomes known exactly by the mark that follows |
| `Monitor.ChainMonitor.HandleEvent` | crates/synddb-chain-monitor/src/monitor.rs:310-340 | skip, handle, mark, with every failure in between |
| `Monitor.ChainMonitor.HandleAll` | crates/synddb-chain-monitor/src/monitor.rs:226-230 | every log gets its turn, errors passed over, until a crash |
| `Monitor.ChainMonitor.PollOnce` | crates/synddb-chain-monitor/src/monitor.rs:209-302 | one poll: window, fetch, events, then checkpoint |
| `Monitor.RunSafe` | crates/synddb-chain-monitor/src/monitor.rs:188-302 | over polls, errors, crashes and restarts the resume point never falls, a running monitor stands at it, and all logs up to it were handed over, those of its own block too once it has moved |
| `Monitor.Coverage` | crates/synddb-chain-monitor/src/monitor.rs:188-267 | every log from the start block up to the saved checkpoint was handed to `process_event`; its own block is included once it is past the start block |
| `Monitor.PollAdvances` | crates/synddb-chain-monitor/src/monitor.rs:269-302 | an uninterrupted poll against such a provider advances by a window and hands over exactly its logs, boundary block included |
| `Monitor.PollIdles` | crates/synddb-chain-monitor/src/monitor.rs:269-302 | without an answer or a new block nothing is handed over and the position stays |
| `Monitor.PollRetries` | crates/synddb-chain-monitor/src/monitor.rs:239-253 | a provider error leaves everything to the next poll |
| `Monitor.PollStops` | crates/synddb-chain-monitor/src/monitor.rs:232-233 | a checkpoint that cannot be written ends the monitor and the old one stays |
| `Monitor.RestartResumes` | crates/synddb-chain-monitor/src/monitor.rs:188-204 | a crash loses the position only, and the next start takes it from the checkpoint, or the start block without one |
| `Monitor.RunDeduplicated` | crates/synddb-chain-monitor/src/monitor.rs:310-340 | per hash, handler successes are those not followed by a mark, plus one exactly if the hash is marked; a log is skipped only if its hash is marked, and only after a handler success for that hash |
| `Monitor.SecondLogNeverHandled` | crates/synddb-chain-monitor/src/event_store.rs:42-48 | an unhandled log of a marked transaction is never handled later |
| `Monitor.RunComplete` | crates/synddb-chain-monitor/src/monitor.rs:188-340 | with readable stores and an accepting handler wherever the process lives on, in every run each log up to the resume point, or another log of its transaction, has been handled |
| `Monitor.SharedHashLosesOne` | crates/synddb-chain-monitor/src/monitor.rs:310-340 | for any two reachable logs of one transaction some run comes past both and leaves one unhandled |
| `Monitor.AllHandledExact` | crates/synddb-chain-monitor/src/monitor.rs:188-340 | every log up to the resume point is handled in every such run, with marks, crashes at any event, restarts and provider arbitrary, if and only if no two reachable logs share a transaction |
| `Monitor.SecondLogSkipped` | crates/synddb-chain-monitor/src/event_store.rs:42-48 | from a fresh store, one poll over a block with two logs of one transaction hands over both, handles the first, and no continuation handles the second |
| `DdlRecovery.DetectedExactly` | crates/synddb-client/src/lib.rs:924-931 | a statement that begins with a DDL keyword is detected exactly when a blank follows the keyword |
| `DdlRecovery.DetectedShape` | crates/synddb-client/src/lib.rs:924-931 | a text is detected if and only if it is white space, a DDL keyword in any case, a blank and anything |
| `DdlRecovery.CaseIgnored` | crates/synddb-client/src/lib.rs:924-931 | detection gives the same answer for a text and its lower case |
| `DdlRecovery.SpaceExact` | crates/synddb-client/src/lib.rs:924-931 | the white space trimmed is the 25 characters with that Unicode property |
| `DdlRecovery.AttachDisciplined` | crates/synddb-client/src/lib.rs:571-602 | attaching clears the marker only right after a snapshot was created |
| `DdlRecovery.DdlExact` | crates/synddb-client/src/lib.rs:889-912 | `execute_ddl` keeps the guarantee at every cut exactly when the marker was written, was there, or no detected schema change happens |
| `DdlRecovery.RunGuarded` | crates/synddb-client/src/ddl_recovery.rs:37-75 | with a crash between any two effects of any calls, detected DDL not yet covered by a snapshot implies the marker exists |
| `DdlRecovery.AttachRecovers` | crates/synddb-client/src/lib.rs:402-411 | an attach that completes its recovery leaves nothing uncovered and no marker |
| `DdlRecovery.DdlCovers` | crates/synddb-client/src/lib.rs:889-912 | completed detected DDL whose snapshot was created leaves nothing uncovered, its snapshot sent last and the marker gone if it could be removed; otherwise nothing is sent and the marker stays |
| `DdlRecovery.UndetectedIsPlain` | crates/synddb-client/src/lib.rs:889-912 | a statement not detected runs without marker and snapshot |
| `DdlRecovery.SendsExactly` | crates/synddb-client/src/lib.rs:571-602 | a snapshot is sent exactly by an attach that finds the marker or tables, by completed detected DDL, and by `snapshot`, if it could be created |
| `DdlRecovery.Client.Snapshot` | crates/synddb-client/src/lib.rs:804-812 | create, then clear the marker, then send |
| `DdlRecovery.Client.ExecuteDdlStatement` | crates/synddb-client/src/lib.rs:889-912 | marker before the batch, snapshot after it, in this order of effects |
| `DdlRecovery.Client.AttachClient` | crates/synddb-client/src/lib.rs:571-602 | recovery snapshot if the marker was found, then the initial one if there are tables |
| `OrderBook.Simulator.PlaceOrder` | crates/synddb-benchmark/src/orderbook.rs:606-620 | a new active order with nothing filled |
| `OrderBook.Simulator.CancelOrder` | crates/synddb-benchmark/src/orderbook.rs:622-638 | cancels the chosen active order, if any |
| `OrderBook.Simulator.ExecuteTrade` | crates/synddb-benchmark/src/orderbook.rs:640-692 | trades the smaller quantity if the symbols match, filling both sides |
| `OrderBook.Simulator.UpdateBalance` | crates/synddb-benchmark/src/orderbook.rs:694-706 | adjusts an existing balance, not below zero |
| `OrderBook.RunOk` | crates/synddb-benchmark/src/orderbook.rs:606-706 | in every reachable book: fills match trades and status, no overfill, one trade per order at most, each trade uses up a side, per symbol buy fill = sell fill = volume, balances non-negative |
| `OrderBook.OrdersArePlacements` | crates/synddb-benchmark/src/orderbook.rs:606-620 | in every run order n keeps the user, symbol, side, price and quantity of the n-th placement |
| `OrderBook.TradesAreMatches` | crates/synddb-benchmark/src/orderbook.rs:640-692 | every trade was struck by a match step with its orders and its price |
| `OrderBook.ActiveExact` | crates/synddb-benchmark/src/orderbook.rs:622-692 | an active order becomes cancelled exactly by being cancelled, filled in part or whole exactly by a match with an active order of the other side and the same symbol |
| `OrderBook.SettledIsFinal` | crates/synddb-benchmark/src/orderbook.rs:606-692 | an order no longer active is never changed again |
| `OrderBook.BalanceExact` | crates/synddb-benchmark/src/orderbook.rs:694-706 | after any run a balance is the first amount plus all changes less the lowest point below zero that sum went through |
| `OrderBook.SplitBurst` | crates/synddb-benchmark/src/orderbook.rs:190-197 | batches add up to the burst, none empty or too large, all but the last full |
| `Base64.TableLookup` | crates/gcp-attestation/src/jwt.rs:167-194 | the table is the inverse of the standard alphabet, negative elsewhere |
| `Base64.Prepare` | crates/gcp-attestation/src/jwt.rs:141-160 | translation to the standard alphabet and padding |
| `Base64.DecodeBase64Standard` | crates/gcp-attestation/src/jwt.rs:166-235 | the loop decodes group by group, with its errors |
| `Base64.Base64Decode` | crates/synddb-bootstrap/src/proof_client.rs:534-603 | the second copy, looking values up lazily, computes the same function |
| `Base64.DecodeBoth` | crates/synddb-bootstrap/src/proof_client.rs:513-603 | on every input both decoders agree in value and in failure |
| `Base64.RoundTrip` | crates/gcp-attestation/src/jwt.rs:141-235 | decoding the unpadded encoding (section 5 of RFC 4648) of any byte string returns it |
| `Base64.CanonicalExact` | crates/gcp-attestation/src/jwt.rs:141-235 | re-encoding the decoded bytes gives the input back if and only if the input is canonical |
| `Base64.SpareBitsIgnored` | crates/gcp-attestation/src/jwt.rs:211-229 | two different strings decode to the same byte |
| `Base64.UnpaddedExact` | crates/gcp-attestation/src/jwt.rs:141-235 | unpadded input decodes if and only if it consists of characters of either alphabet and its length is not one more than a multiple of four |
| `Base64.GroupsExact` | crates/gcp-attestation/src/jwt.rs:196-232 | padded input decodes if and only if each group is two digits followed by digits or padding, padding inside the input included |
| `Base64.DecodeConcat` | crates/gcp-attestation/src/jwt.rs:196-232 | whole groups laid end to end decode to their bytes laid end to end |
| `Base64.PaddingOptional` | crates/gcp-attestation/src/jwt.rs:151-160 | writing the padding out changes nothing |
| `Base64.AlphabetsAlike` | crates/gcp-attestation/src/jwt.rs:141-149 | the standard characters are read as their url forms |
| `Base64.SpareBitsExact` | crates/gcp-attestation/src/jwt.rs:141-235 | clearing the bits beyond the last byte gives the canonical form, which decodes to the same bytes |
| `Jwt.SplitSound` | crates/gcp-attestation/src/jwt.rs:241-249 | the segments joined with dots are the token and contain no dot |
| `Jwt.SplitComplete` | crates/gcp-attestation/src/jwt.rs:241-249 | any dot-free segments are found again |
| `Jwt.ParseToken` | crates/gcp-attestation/src/jwt.rs:238-279 | the parser with its buffer computes the parsing function |
| `Jwt.ParseExact` | crates/gcp-attestation/src/jwt.rs:238-279 | exactly the three-segment tokens (section 7.1 of RFC 7515) whose parts decode are accepted; signing input and signature are the token before and after its last dot |
| `Jwt.PartsExact` | crates/gcp-attestation/src/jwt.rs:251-279 | the first segment is the header, the second the claims, the third the signature, and all must decode |
| `Jwt.FindJwk` | crates/gcp-attestation/src/verify.rs:184-186 | finds a key with that ID if there is one |
| `Jwt.FirstKeyWins` | crates/gcp-attestation/src/verify.rs:184-186 | of several keys with the ID the first is found |
| `Jwt.KidExact` | crates/gcp-attestation/src/verify.rs:190-207 | the key ID is read from what precedes the first dot, whatever follows; without a dot there is none |
| `Jwt.LookedUpKeyMatches` | crates/gcp-attestation/src/verify.rs:92-95 | a key found by the extracted ID never fails the key-ID check, and only keys with that ID pass it |
| `Jwt.AcceptedCoversToken` | crates/gcp-attestation/src/verify.rs:78-147 | an accepted token was signed over every byte before its last dot |
| `Jwt.AcceptedExact` | crates/gcp-attestation/src/verify.rs:78-147 | a token is accepted if and only if its segments parse, name RS256 and the key, are signed by it, and carry the issuer, the software, the audience asked for and a current window |
| `Jwt.FirstFault` | crates/gcp-attestation/src/verify.rs:83-133 | the error reported is that of the first failing check, in the order of the checks |
| `Jwt.ClockExact` | crates/gcp-attestation/src/verify.rs:121-133 | with a clock, acceptance is acceptance without one and nbf <= now < exp; otherwise the token is expired or not yet valid accordingly |
| `Jwt.AudienceExact` | crates/gcp-attestation/src/verify.rs:111-119 | asking for an audience only adds that it matches |
| `SqlLiteral.LexPrinted` | crates/synddb-fuzzer/src/operations.rs:28-42 | a printed literal is read back as its value, up to exactly where it ends |
| `SqlLiteral.LexPrintedList` | crates/synddb-fuzzer/src/operations.rs:213-229 | the comma-joined literals are read back as the same list |
| `SqlLiteral.PrintedOnce` | crates/synddb-fuzzer/src/operations.rs:213-229 | lists that print the same are the same |
| `SqlLiteral.InsertValues` | crates/synddb-fuzzer/src/operations.rs:216-229 | the values are read back from inside the INSERT statement |
| `SqlLiteral.LexPrintedInsert` | crates/synddb-fuzzer/src/operations.rs:213-229 | a whole INSERT with plain names is read back: table, columns in order, values in order |
| `TableCompare.SameTableExact` | crates/synddb-fuzzer/src/replay.rs:178-194 | tables compare equal exactly when columns match and rows form the same multiset, given an injective Debug text; equality is never wrong about the multiset |
| `TableCompare.DebugExact` | crates/synddb-fuzzer/src/replay.rs:186-192 | sorting by a text compares multisets on all tables if and only if different rows never have the same text |
| `TableCompare.EquivalentExact` | crates/synddb-fuzzer/src/replay.rs:109-113 | equivalent snapshots have the same tables, columns and multisets of rows, and with an injective text only those are equivalent |
| `TableCompare.DiffTable` | crates/synddb-fuzzer/src/replay.rs:133-165 | reports exactly the differences inside a table |
| `TableCompare.Diff` | crates/synddb-fuzzer/src/replay.rs:116-168 | reports exactly the differences between two snapshots |
| `TableCompare.NoDifferenceIsIdentity` | crates/synddb-fuzzer/src/replay.rs:110-168 | an empty report means identical snapshots, hence equivalent ones |
| `TableCompare.EquivalentYetReported` | crates/synddb-fuzzer/src/replay.rs:110-168 | equivalent snapshots can still produce a report |

## Left out

- Replay.ReplayTheorem: DDL that deletes or rewrites rows, such as DROP TABLE, is outside the model's `Ddl` step; the update hook is taken to fire for every row change and the schema query not to fail.
- Replay.CheckedReplayExact: rows are compared whole, as by row-level pre-images; the schema validation before a changeset is applied and constraint conflicts are not modelled, and manual snapshots are not part of the stream.
- Session.RunNumbered: the counters are unbounded; 64-bit wrap-around is not modelled.
- Numbering.Inbox.SequenceMessage: the counter is unbounded; wrap-around after 2^64 messages is not modelled.
- Sequencing.EachNumberInOnePlace: a handler cancelled while it waits is not a separate place, it keeps its number.
- Sender.RunConserved: retries with backoff and attestation tokens are one answer per flush; a configuration with no retry at all, which panics, is not modelled.
- EthLogs.OverflowExact: an overflowing sum ends the fetch, as with overflow checks on; how the recursion goes on after a silent wrap-around is not followed, here or in the monitor.
- Monitor.AllHandledExact: events at which the process lives on although the store cannot be read or the handler declines or fails are outside it; the monitor passes over such a log.
- Lives.LivesBalanced: changesets still in the channel when a sender ends were never received and are not in the ledger; the seven days are a free choice of rows.
- EthLogs.GetLogsExact: only filters with a numeric block range; any other filter fails after one refused request.
- Monitor.RunSafe: RPC mode on a chain without reorganisation; the WebSocket mode writes its checkpoint before processing and is not modelled.
- DdlRecovery.RunGuarded: covers DDL that detection recognises, run through `execute_ddl`; other DDL leaves no marker.
- Base64.DecodeBase64Standard: shifts and ors on bytes are written as arithmetic on disjoint bit ranges.
- Jwt.AcceptedCoversToken: the RSA check, UTF-8 and JSON parsing are functions of the environment.
- SqlLiteral.LexPrintedInsert: names with blanks, commas or parentheses are not covered; UPDATE and DELETE printing is not modelled.
- SqlLiteral.LexPrintedList: REAL literals and texts with a NUL character are not covered.
- TableCompare.SameTableExact: REAL values are not covered; the sort is an insertion sort, any stable sort gives the same result.
- SQLite, its session and backup extensions: replaced by row maps and net differences.
- Signing, hashing, compression, CBOR, HTTP, key management and transports: success or failure only.
- Wall-clock intervals: a boolean per event.
- Throughput search, compression ratios and other floating-point code.
- Snapshot sender, relayer, proof service, bootstrap state machine, bridge packing, FFI and generators: plumbing or straight-line code that would only add easy members.

# A verified model of mqtt2db-go

mqtt2db-go moves MQTT messages to PostgreSQL through four tiers: an in-memory ring, an on-disk
log (the WAL), a flusher with any number of workers, and a dead-letter sink. This project models
that pipeline as one state machine whose steps interleave freely, models the mutable objects
beneath it as classes, proves that the imperative code of the subscriber and of the flusher takes
only steps of that machine, and proves what every run of the machine keeps.

`dafny verify dfyconfig.toml` checks everything.

## How it fits together

- `Pipeline` is the protocol: a state (ring, log, lock, workers, subscriber, table, bucket), labels
  for the steps, a guard `Enabled` and an effect `Next`. External calls succeed or fail as the label
  says; a failed commit may have landed; the process may crash and reopen its log at any point.
  `Legal` and `Exec` run a sequence of labels.
- `Conservation`, `Ledger`, `Invariants`, `Provenance`, `Sessions`, `Discipline` and `Counters` prove
  properties of every run, for any number of workers. Quantities are counted per message value, so equal
  messages keep their multiplicity. `Conservation.Lost` is the complete list of steps at which a copy of a
  message can disappear; `Losses` gives runs that do lose one and the exact conditions.
- `Buffer.Ring`, `WalStore.Store`, `Postgres.Copier`, `DeadLetter.Sink`, `AdaptiveMode.Tracker`,
  `Flusher.Worker` and `Subscriber.Subscriber` are the source's mutable objects. Their methods are
  proved against functions on values.
- `FlushSpec` and `PullSpec` are those functions for the flusher: what the table, the WAL, the sink and
  the modes become, as folds over what the outside world answers (`FlushEnv`), and the very labels
  that a flush and a pull amount to. Each label is computed from the answer that caused it.
- `Runs` carries a protocol state together with the process's counters along a stretch of labels.
  `Flusher.Worker` and `Subscriber.Subscriber` end every call with all their stores and all their
  counters equal to those of the point that their labels lead to; `Service` puts both over one ring
  and one WAL, so that what holds of every run holds of the objects after any sequence of calls and of
  restarts over what the stores hold.
- `Latency`, `AdaptiveMode` and `Turns` treat the adaptive modes: one critical section at a time, in any
  interleaving; one worker's successes; one worker's turns, each with its stretch of the run, and when the
  next pull comes.
- `Wal` reads the log as a queue; `WalSession` follows one opened store over all its operations.
- `Topics`, `Quoting`, `WalKeys`, `Messages`, `Numerals`, `ByteOrder` and `Backoff` are the codecs, the
  byte order that a sorted store iterates in, and the machine arithmetic.

A `char` is one byte. Times are integers of nanoseconds. `int64` wrap-around is written out where the
code can reach it: the WAL sequence number, the cast and the parse of key times, and the backoff delay.
A few predicates (`WalKeys.IsKeyText`, `Runs.Reaches`, `PullSpec.TopUpIs`, `PullSpec.FaultIs`,
`DeadLetter.IsObjectKey`, `Subscriber.IsRoute` and others like them) state an equality under a
one-point quantifier; that only keeps a definition folded in proofs that pass the fact along.

## Where the code and its documentation differ

The model follows the code.

- Acknowledgement follows acceptance by the ring or the WAL (internal/subscriber/subscriber.go:273-279),
  not the insert that docs/adr/0002-durability-boundary-at-postgres.md:22 describes.
  `Losses.AckBeforeInsert` and `Losses.CrashLosesAckedInRing` are runs, one from every point of every run
  and for every message that the ring takes there; `Losses.RowIffLanded` says exactly when a key has a row, and
  `Ledger.AckedIsRetainedOrNamedLost` what an acknowledged message can still suffer.
- A drain deletes before the flush, in a second transaction (internal/wal/wal.go:136, 176), although the
  comment at internal/wal/wal.go:172-175 says that a crash during the flush leaves entries replayable.
  `Losses.CrashLosesDrained` is a run that loses one, for every message that spills;
  `Losses.CrashKeepsTheWal` says exactly what is left.
- Cancelling during a backoff drops the batch (internal/flusher/flusher.go:250-252).
  `Losses.CancelLosesAcked` is a run for every flush that is cancelled before a call has landed;
  `Losses.CancelKeepsLanded` is the exact condition.
- The recovery timer is not cleared on entry to Critical, so the sentence at
  internal/flusher/flusher.go:13-14 holds only between visits to Critical.
  `AdaptiveMode.RecoveryDespiteCriticalSamples` is a family of runs that break it, which
  `AdaptiveMode.SuchARunExists` shows one worker can make, and `AdaptiveMode.NormalReentry` says exactly
  which samples were high.
- A latency-driven Critical does not set the gate: `AdaptiveMode.LatencyCriticalLeavesGateOpen`, and
  `AdaptiveMode.GateFollowsErrors` for the exact condition.
- A spill to the WAL clears the paused flag while the ring is full, although the comment at
  internal/subscriber/subscriber.go:340-342 ties the flag to the ring; `Subscriber.FlagAgreesIff`.
- The doubling delay is exact for MaxRetries up to 34 only; `Backoff.TotalDelayExactIff`. Configuration
  validation accepts larger values (internal/config/config.go:317-319).
- One WAL value that does not decode blocks every drain that reaches it
  (internal/wal/wal.go:150-159): `WalStore.GarbledHeadBlocks`, `WalStore.GarbledHeadStays`, and
  `WalStore.ScanFailsIff` for the exact condition.
- Drains return insertion order (internal/wal/wal.go:121-122) only while each new key is above the stored
  ones; `Wal.AppendEnqueuesIff` is the exact condition, `WalSession.ClockStepBackReorders` a
  case without it.

## Model

| member | source | states |
|---|---|---|
| Ledger.AckedIsRetainedOrNamedLost | internal/subscriber/subscriber.go:255-280 | in every run an acknowledged message is in the ring, the WAL or a worker's hands, or its dedup key is in the table or the bucket, or a step named by `Conservation.Lost` lost a copy of it |
| Provenance.EveryMessageArrived | internal/subscriber/subscriber.go:265-272 | over every run each message in the ring, the WAL, a worker's hands or the subscriber's, and each row or object newer than boot, is that of some arrival of the run: its topic, payload and clock reading, with the tenant and the device that the topic names |
| Provenance.ObjectKeyOfArrival | internal/deadletter/deadletter.go:165-177 | the dead-letter key of any message that arrived has its own tenant and device, one segment each, and names the reading of its arrival |
| Invariants.StepStaysIn | internal/flusher/flusher.go:217-335 | no step makes a message up: what is in flight afterwards was in flight before or has just arrived |
| Sessions.AckedIsRetainedSane | internal/flusher/flusher.go:217-335 | with a clock that never reads before the opening and reopens past every stored key, those steps are only: cancel during backoff, failed dead-letter write, TTL expiry, crash |
| Ledger.Balance | internal/flusher/flusher.go:244-335 | exact conservation per message over every run: accepted, doubled and revived copies equal live, flushed, buried and lost ones |
| Ledger.NoExtraCopies | internal/flusher/flusher.go:101-106 | live, flushed and dead-lettered copies never exceed acceptances plus the part of a batch that a failed requeue had already written: no entry goes to two workers |
| Ledger.AckedWereAccepted | internal/subscriber/subscriber.go:273-279 | nothing is acknowledged more often than the ring or the WAL accepted it |
| Ledger.RowSharesDeviceAndTime | internal/postgres/postgres.go:188-196 | a row under a message's dedup key came from the same device at the same nanosecond |
| Ledger.PutKeepsDedupKeys | internal/deadletter/deadletter.go:147-155 | an object is only ever replaced by one with the same dedup key, also across restarts of the sequence number |
| Ledger.RevivedWereLost | internal/wal/wal.go:136-189 | what a drain still delivers after the entry expired or was displaced had been booked as lost before |
| Losses.KeptIffNotLost | internal/flusher/flusher.go:244-335 | a message accepted once, with no copy doubled or revived, is in the pipeline, flushed or dead-lettered exactly if no step lost it |
| Losses.AckBeforeInsert | internal/subscriber/subscriber.go:273-279 | from every point of every run, for every message that the ring takes there and whose key has no row, a continuation that acknowledges it before any row exists |
| Losses.RowIffLanded | internal/postgres/postgres.go:188-200 | over every run a key has a row exactly if it had one at boot or a batch with the key was committed, whatever was acknowledged |
| Losses.CrashLosesAckedInRing | internal/subscriber/subscriber.go:273-279 | from every point of every run, for every message that the ring takes there and that no lasting store knows, a continuation that acknowledges it and then loses every trace of it in a crash |
| Losses.CrashLosesDrained | internal/wal/wal.go:166-186 | from every point of every run with a worker free, whatever the ring and the WAL hold: a message that the ring refuses and that is new to every store has a continuation that spills it to the WAL, acknowledges it, drains it and loses every trace of it in a crash during the flush |
| Losses.CrashKeepsTheWal | internal/wal/wal.go:166-186 | a crash keeps exactly the copies that the WAL holds at that moment, whatever the workers were doing |
| Losses.CancelLosesAcked | internal/flusher/flusher.go:250-252 | for every message and every flush cancelled before a call landed, a run that acknowledges the message and loses every trace of it |
| Losses.CancelKeepsLanded | internal/flusher/flusher.go:247-256 | a message of a cancelled batch has a row exactly if its key had one before or some failed call had landed |
| Conservation.StepFlows | internal/flusher/flusher.go:299-335 | no single step creates or drops a copy beyond what is booked for it |
| Conservation.DrainMoves | internal/wal/wal.go:176-189 | deleting the keys read moves exactly the read messages, up to entries that changed in between |
| Invariants.AlwaysShaped | internal/flusher/flusher.go:217-231 | batches stay within the elevated size, attempts within MaxRetries, requeues never hold a poison error, and the ring stays within both caps |
| Invariants.NoWalNoEntries | internal/flusher/flusher.go:299-311 | without a WAL nothing is ever written to one |
| Invariants.AlwaysLocked | internal/flusher/flusher.go:220-223 | at most one worker is between the two drain transactions, the one holding walMu |
| Invariants.AlwaysKeyed | internal/subscriber/subscriber.go:265-272 | every message anywhere carries the dedup key of its own device and arrival, and every object lies under a key of its own message |
| Sessions.DrainDeletesOnlyWhatItRead | internal/wal/wal.go:128-190 | with appends, requeues and expiries between read and delete, a drain removes no entry it did not read with that very content |
| Sessions.AlwaysUnclobbered | internal/wal/wal.go:263-279 | with such a clock no append ever reuses a stored key or a key a drain has read |
| Sessions.SaneLossIsNamed | internal/flusher/flusher.go:250-252 | the four kinds of step at which a message can be lost under such a clock |
| Discipline.DeadLetterHasCause | internal/flusher/flusher.go:299-325 | in every run a worker dead-letters only after spent retries whose last error had a code starting with 22 or 23 or with no WAL, or after a failed WAL append, in each case of the very batch it is writing |
| Counters.CountersAgree | internal/buffer/buffer.go:181-231 | over every run: Enqueued - Dequeued is the ring length, Appended less Drained is the log with expired and displaced entries, Appended is Spilled plus Requeued, acks are acceptances plus parse failures, and drains deliver no more vanished entries than expired |
| Counters.SaneLogIdentity | internal/wal/wal.go:117-189 | with a well-behaved clock: stored at open plus Appended less Drained is what the log holds plus what expired undrained |
| Counters.SaneDisplacesNothing | internal/wal/wal.go:100-119 | with such a clock no append ever replaces an entry |
| Counters.InsertedBoundsRows | internal/flusher/flusher.go:263-266 | Inserted never exceeds the rows added, with equality exactly when no failed call had added rows |
| Service.Service.Handle | internal/subscriber/subscriber.go:255-280 | the message built has the topic, payload and reading of the call and the tenant and device that the topic names; it is routed and acknowledged in exactly the steps of its route, and the objects are those of the run so far with these steps added: ring, WAL, table, bucket, flag and every counter |
| Service.Service.Turn | internal/flusher/flusher.go:188-212 | a turn of any worker: the outcome, the pull, the flush and the modes are those the gate, the stores and the answers determine, and the objects are those of the run so far with the steps of this turn added |
| Service.Service.Reopen | internal/wal/wal.go:62-86 | after a crash between two calls, new objects over what the WAL, the table and the bucket hold stand where the longer run stands, sequence numbers and counters restarted |
| Service.Service.CountersOfObjects | internal/buffer/buffer.go:181-231 | after any sequence of calls and restarts the objects' own counters satisfy the identities, counting what the WAL and the table held at the last opening, and Inserted falls short of the rows added since exactly when a failed call had added some |
| Service.Service.AckedInObjects | internal/subscriber/subscriber.go:273-279 | after any sequence of calls and restarts an acknowledged message is in the ring or the WAL object, or its key is in the table or the bucket object, or a step named by `Conservation.Lost` lost a copy |
| Service.Service.OriginsOfObjects | internal/subscriber/subscriber.go:265-272 | after any sequence of calls and restarts, what the ring and the WAL object hold, and the rows and objects newer than the first boot, are messages of arrivals of the run |
| Flusher.Worker.FlushWithRetry | internal/flusher/flusher.go:244-360 | how many calls and how it ends, both determined; what becomes of the batch, by the characters of the last error's code; table, WAL, sink and modes afterwards as folds over the answers; the labels it took; every counter equal to the protocol's |
| Flusher.Worker.RetryLoop | internal/flusher/flusher.go:247-288 | calls, end, requested sleep, table, modes, and the retry, error, flushed and inserted counters |
| Flusher.Worker.TryOnce | internal/flusher/flusher.go:258-287 | one call with its counters; a success recovers first and records second, an error enters Critical |
| Flusher.Worker.Requeue | internal/flusher/flusher.go:304-314 | the WAL is the fold of the appends up to the first that fails, and both counters grow by those that succeeded |
| Flusher.Worker.GiveUp | internal/flusher/flusher.go:299-360 | requeues iff the code does not start with 22 or 23, there is a WAL and every append succeeds, else hands the whole batch to the sink; a code that does leaves the WAL alone; WAL, sink and counters afterwards |
| FlushSpec.ExhaustedOutcome | internal/flusher/flusher.go:299-360 | with the retries spent: a code starting with 22 or 23 is dead-lettered without one append, any other error is requeued when there is a WAL and every append succeeds, and dead-lettered otherwise |
| Postgres.PoisonIsRowFault | internal/flusher/flusher.go:349-360 | the prefix test holds exactly for codes whose first two characters are 22 or 23, and never without a code |
| Flusher.Worker.Bury | internal/flusher/flusher.go:325-334 | the sink is the fold of all writes in order, failed ones included, and the counters say how many succeeded |
| FlushSpec.WrittenIs | internal/flusher/flusher.go:325-334 | DeadLettered grows by the number of writes that succeeded |
| FlushSpec.FlushRun | internal/flusher/flusher.go:244-335 | the folds of a flush are what its labels lead to, with every counter, for every environment |
| FlushSpec.FlushIsOwn | internal/flusher/flusher.go:244-335 | these labels are steps of this worker only, but for the cancellation a backoff saw |
| FlushSpec.RequeueLabelAt | internal/flusher/flusher.go:304-311 | the run fails the i-th append exactly where the WAL did |
| FlushSpec.BuryLabelAt | internal/flusher/flusher.go:325-334 | the run fails the i-th write exactly where the sink did |
| FlushSpec.LoopEndsUnique | internal/flusher/flusher.go:247-288 | the answers determine the number of calls and the end |
| Handover.RequeuedIsStored | internal/flusher/flusher.go:304-316 | after a requeue every message is in the WAL under a key of its own, whatever the clock read |
| Handover.WrittenIsStored | internal/flusher/flusher.go:325-334 | after a dead-letter every message whose write succeeded is in the bucket under a key of its own |
| Flusher.Worker.PullBatch | internal/flusher/flusher.go:217-231 | the oldest ring messages, then the oldest WAL messages for what is left of the size unless a value does not decode or the delete fails; with BatchSize in Normal and ElevatedBatchSize otherwise, as many as the stores can fill; both stores, counters and the labels |
| Turns.PullIsSized | internal/flusher/flusher.go:217-231 | the batch of every turn is exactly as large as the size of its mode and the stores allow |
| PullSpec.PulledSize | internal/flusher/flusher.go:217-231 | a batch takes what the ring has and, unless the drain fails, what the log has, up to the size |
| PullSpec.PullRun | internal/flusher/flusher.go:217-231 | what a pull takes is what its labels lead to, the lock taken and released |
| Flusher.Worker.Turn | internal/flusher/flusher.go:198-211 | takes no step exactly while the gate is closed; otherwise pulls, with a drain that fails exactly if a value that does not decode is in the way or the delete fails, and flushes what it pulled: the batch, the calls and the end of the flush, the modes afterwards, and the labels of both |
| Flusher.Worker.WorkerLoop | internal/flusher/flusher.go:188-215 | the turns one after the other, each of them such a turn from where the one before left the stores and the modes; their labels, in order, and the final stop are the whole run of the loop |
| Turns.PullsAtOpenGateOnly | internal/flusher/flusher.go:198-204 | in every turn of such a loop the labels contain a pull exactly if the gate is open |
| Turns.NextPull | internal/flusher/flusher.go:198-204 | with one worker, after a flush with a failed call and until the next flush, the labels of a turn contain a pull exactly if a recovery window has passed since the last failure, or a retry then succeeded and left p95 below critical |
| Turns.GateAfterFlush | internal/flusher/flusher.go:266-287 | the gate after such a flush: closed until a recovery window past the last failure, open at once after a retry that succeeded below critical |
| Turns.GateAfterCleanFlush | internal/flusher/flusher.go:266-276 | the gate after a flush that succeeded at once |
| FlushSpec.RetriesOfLoop | internal/flusher/flusher.go:247-254 | RetriesTotal grows by the batch length for every call after the first, and once more for a backoff that is cancelled |
| Backoff.DelayExactIff | internal/flusher/flusher.go:245-255 | the delay before attempt a is 2^(a-1) seconds iff a is at most 34 |
| Backoff.TotalDelayExactIff | internal/flusher/flusher.go:245-256 | the backoff asks for 2^MaxRetries - 1 seconds in all iff MaxRetries is at most 34 |
| Backoff.LateRetriesDoNotWait | internal/flusher/flusher.go:255 | from retry 56 on the wrapped delay is zero |
| Backoff.LateDelaySign | internal/flusher/flusher.go:255 | the wrapped delay before attempts 35 to 55 is negative exactly where 1953125 has a one at binary position 55 - a |
| Subscriber.Subscriber.HandleMessage | internal/subscriber/subscriber.go:255-280 | the message built has the topic, payload and reading of the call, the tenant and device that the topic names and their dedup key, and none is built exactly if the topic names none; the labels it takes; acknowledges exactly what does not parse and what the ring or the WAL took; stores and every counter equal to the protocol's |
| Subscriber.Subscriber.RouteMessage | internal/subscriber/subscriber.go:343-379 | ring first, WAL when the ring refuses, else refused; the flag is then the ring's pause state, cleared and set respectively; both stores, their counters and the Pauses counter after each |
| Subscriber.Subscriber.HandleParseFailure | internal/subscriber/subscriber.go:287-334 | always acknowledges; preserves the message with its error class when the writer accepts it |
| Subscriber.UnparseableWriter.Insert | internal/postgres/unparseable.go:75-107 | refuses an empty topic, truncates the detail and stores an empty one as null |
| Subscriber.PausesCountRisingEdges | internal/subscriber/subscriber.go:385-396 | over any run the flag reflects the last route and Pauses counts exactly its rising edges |
| Subscriber.FlagAgreesIff | internal/subscriber/subscriber.go:336-368 | for accepted messages the flag agrees with the ring's pressure, except exactly after a spill from a ring in pause |
| Subscriber.FullRingSpillClears | internal/subscriber/subscriber.go:365-368 | every spill from a ring full by count clears the flag |
| Buffer.Ring.Enqueue | internal/buffer/buffer.go:163-185 | accepts iff with the message there are no more messages than the cap and no more bytes of payloads, topics, tenants and dedup keys, laid end to end, than the byte cap; appends at the back, reports the state after; a refusal changes nothing |
| Buffer.TotalSizeSnoc | internal/buffer/buffer.go:233-237 | what the code charges a message is what it adds to those bytes |
| Buffer.PressureIff | internal/buffer/buffer.go:114-139 | with the limits of a configuration, pause and spill are reported exactly where one more message or byte would be above the pause or spill fraction of its own cap |
| Buffer.Ring.Dequeue | internal/buffer/buffer.go:198-231 | returns and removes exactly the oldest min(n, size) messages, zeroes their slots and keeps the byte total |
| Buffer.Ring.CopyOut | internal/buffer/buffer.go:212-219 | the copying loop returns the prefix and its size and leaves the drained slots zero |
| Buffer.Ring.State | internal/buffer/buffer.go:131-139 | the pressure state of the queue |
| Buffer.NewRing | internal/buffer/buffer.go:90-121 | succeeds iff the configuration is valid, else names the first rule that fails |
| Buffer.LimitsOfValid | internal/buffer/buffer.go:114-117 | every precomputed threshold lies below its cap, spill not above pause |
| Buffer.FifoOverRuns | internal/buffer/buffer.go:163-231 | over any run what was accepted is what was taken followed by what is queued, within both caps |
| Buffer.ViewDropOne | internal/buffer/buffer.go:213-220 | zeroing one slot and advancing the head modulo the capacity drops the oldest message |
| Buffer.EnqueueNeverLowersPressure | internal/buffer/buffer.go:131-176 | the state rank never falls on an accepted Enqueue |
| Buffer.DequeueNeverRaisesPressure | internal/buffer/buffer.go:198-222 | the state rank never rises on Dequeue |
| Buffer.FullIsPause | internal/buffer/buffer.go:132-134 | a ring at either cap is in pause |
| WalStore.Store.Append | internal/wal/wal.go:100-119 | spends a sequence number, stores under its key or changes nothing |
| WalStore.Store.Drain | internal/wal/wal.go:128-190 | hands out and deletes exactly the oldest live entries, or fails with the store unchanged, and when it fails |
| WalStore.Store.ReadOldest | internal/wal/wal.go:136-164 | the read transaction takes the oldest live entries unless a value that does not decode is in the way |
| WalStore.Store.DeleteKeys | internal/wal/wal.go:176-186 | deletes all keys read or none |
| WalStore.Store.Len | internal/wal/wal.go:195-211 | counts the entries that are not expired |
| WalStore.ScanIsOldest | internal/wal/wal.go:143-162 | a successful scan over all entries, expired ones included, takes the oldest live ones |
| WalStore.ScanFailsIff | internal/wal/wal.go:150-159 | a scan fails iff a value that does not decode sits before the limit-th live entry |
| WalStore.GarbledHeadBlocks | internal/wal/wal.go:150-159 | a value under the least key that does not decode blocks every drain |
| WalStore.GarbledHeadStays | internal/wal/wal.go:150-159 | and still does after any append behind it |
| WalSession.SessionIsFifo | internal/wal/wal.go:100-190 | within one opened store with a steady clock, with failed appends, failed drains and expiries in any places: what was handed out, then what is stored, is what was stored at open, then what was appended, without the expired entries and in that order |
| WalSession.PlainFifo | internal/wal/wal.go:100-190 | with no expiry, handed out then stored is exactly stored at open then appended |
| Wal.OldestAre | internal/wal/wal.go:143-162 | the keys a drain takes are as many as there are and fit, ascending, and each below every key left |
| Wal.DrainDequeues | internal/wal/wal.go:143-189 | a drain takes exactly the front of the queue |
| Wal.AppendEnqueues | internal/wal/wal.go:107-113 | a key above all stored keys puts its message at the back |
| Wal.AppendEnqueuesIff | internal/wal/wal.go:107-113 | a message new to the log lands at the back of the queue iff its key is above every stored key |
| WalSession.ReopenOnSameReadingOverwrites | internal/wal/wal.go:62-86 | after a reopen with the clock on a stored reading an append overwrites that entry |
| WalSession.ClockStepBackReorders | internal/wal/wal.go:263-279 | a clock that steps back puts the later message in front |
| WalKeys.WritePadded20 | internal/wal/wal.go:281-289 | writes the twenty-digit text of any uint64 |
| WalKeys.MakeKey | internal/wal/wal.go:263-279 | builds the key of a clock reading and a sequence number |
| WalKeys.KeyTextReads | internal/wal/wal.go:263-279 | a key reads back as its prefix, its nanoseconds and its sequence number in twenty digits each |
| WalKeys.KeyOrder | internal/wal/wal.go:17-21 | byte order of keys is order on (nanos, seq) for all uint64 pairs |
| WalKeys.KeyInjective | internal/wal/wal.go:59-62 | different pairs make different keys |
| WalKeys.KeyTimeRoundTrip | internal/wal/wal.go:275-309 | every int64 clock reading survives the cast, the key and the wrapping parse, readings before 1970 included |
| WalKeys.KeyOrderOfClock | internal/wal/wal.go:271-275 | clock order is key order exactly for readings on the same side of 1970 |
| WalKeys.ParseKeyTime | internal/wal/wal.go:293-309 | accepts exactly well-formed prefixes and returns the wrapped value of the twenty digits |
| Latency.InsertionSort | internal/flusher/flusher.go:483-489 | sorts the array in place |
| Latency.SortSorts | internal/flusher/flusher.go:483-489 | the result is ordered |
| Latency.SortPermutes | internal/flusher/flusher.go:483-489 | the result is a permutation |
| Latency.ComputeP95 | internal/flusher/flusher.go:467-480 | returns the value that reaches T iff at least ceil(n/20) of the n samples do, for every T |
| Latency.SortedIndexIsP95 | internal/flusher/flusher.go:474-479 | the indexed value has that rank meaning and the clamp never fires |
| Latency.PushKeepsLast | internal/flusher/flusher.go:398-401 | recording keeps the last 64 latencies |
| Latency.SixtyOneFastSamples | internal/flusher/flusher.go:394-403 | 61 samples below T after any history force p95 below T |
| Latency.SixtyFastSamplesAreNotEnough | internal/flusher/flusher.go:394-403 | 60 do not |
| AdaptiveMode.Tracker.RecordLatency | internal/flusher/flusher.go:394-429 | window, mode and timer after one recorded latency, and Normal left exactly if a twentieth of the window reaches the elevated threshold |
| AdaptiveMode.SampleDecides | internal/flusher/flusher.go:394-429 | over every run the mode after a sample, from each mode: which of the last 64 latencies reach which threshold, and for the way back to Normal whether the sample that started the timer is a recovery window old |
| AdaptiveMode.NormalAfterSampleIsFast | internal/flusher/flusher.go:405-409 | no run is in Normal right after a sample that lifted p95 to the elevated threshold |
| AdaptiveMode.Tracker.MaybeRecover | internal/flusher/flusher.go:433-439 | Critical becomes Elevated, nothing else changes |
| AdaptiveMode.Tracker.EnterCritical | internal/flusher/flusher.go:441-446 | Critical, and the gate a recovery window ahead |
| AdaptiveMode.WindowIsRecent | internal/flusher/flusher.go:398-401 | over every run the window is the last min(64, count) latencies |
| AdaptiveMode.ModeEdges | internal/flusher/flusher.go:405-446 | Normal reaches Critical only by an error, Critical never steps to Normal, and what each other edge needs |
| AdaptiveMode.NormalHasNoTimer | internal/flusher/flusher.go:405-446 | in every reachable state the timer is clear while the mode is Normal |
| AdaptiveMode.NormalReentry | internal/flusher/flusher.go:414-423 | Normal is re-entered only a recovery window after a sample that also saw p95 below; a sample in between saw it high exactly if it left the mode Critical |
| AdaptiveMode.UndisturbedRecovery | internal/flusher/flusher.go:13-14 | with no Critical visit since the timer started every sample in between saw p95 below |
| AdaptiveMode.RecoveryDespiteCriticalSamples | internal/flusher/flusher.go:411-423 | after an error, for any durations fast but the second and any readings: samples 2 to 20 see p95 critical, and the 21st ends in Normal iff it comes a recovery window after the first |
| AdaptiveMode.SuchARunExists | internal/flusher/flusher.go:198-211 | one worker can make such a run, with the retry delay, the flush interval and the gate observed |
| AdaptiveMode.GateFollowsErrors | internal/flusher/flusher.go:198-201 | the gate is closed iff the mode is Critical and the latest error is less than a recovery window old |
| AdaptiveMode.LatencyCriticalLeavesGateOpen | internal/flusher/flusher.go:405-413 | two slow samples make the mode Critical with the gate open at every time |
| AdaptiveMode.SuccessEndsCriticalIff | internal/flusher/flusher.go:266-276 | a success ends in Critical iff the mode was not Normal and p95 is critical; in the swapped order never |
| AdaptiveMode.SlowStretchStaysCritical | internal/flusher/flusher.go:266-276 | while p95 stays critical every success from the second on ends in Critical |
| AdaptiveMode.BoundedRecovery | internal/flusher/flusher.go:394-439 | after any history, once 61 fast successes are recorded, every fast success a recovery window later leaves Normal |
| AdaptiveMode.BoundedRecoveryOfAll | internal/flusher/flusher.go:394-439 | the same for any number of workers in any interleaving, from the 62nd fast sample on |
| AdaptiveMode.RecoveryDespiteErrors | internal/flusher/flusher.go:405-446 | with one worker, whatever errors fall between: once every success leaves p95 below elevated, each success a recovery window after the first of them ends in Normal, provided no error hits the mode Normal |
| AdaptiveMode.ErrorInNormalStartsOver | internal/flusher/flusher.go:405-446 | after an error that does, and any that follow at once, the timer has to start again |
| AdaptiveMode.RecoveryIff | internal/flusher/flusher.go:405-446 | from there, under the same conditions and with readings that do not step back, a success ends in Normal exactly if it comes a recovery window after the first success |
| Postgres.Copier.CopyMessages | internal/postgres/postgres.go:156-206 | one transaction: the whole batch with conflicts skipped and the number of new rows, or an error, after which only a landed commit has changed the table |
| Postgres.InsertBatchKeys | internal/postgres/postgres.go:188-196 | the key set grows by exactly the batch's keys |
| Postgres.InsertBatchRows | internal/postgres/postgres.go:188-196 | existing rows never change; a new row is a message of the batch under its own key |
| Postgres.InsertIdempotent | internal/postgres/postgres.go:188-196 | inserting a batch again changes nothing |
| Postgres.RetriesInsertOnce | internal/flusher/flusher.go:247-278 | however many attempts landed the table is that of one insert |
| Quoting.QuoteIdent | internal/postgres/postgres.go:216-228 | wraps in quotes and doubles embedded ones |
| Quoting.JoinIdents | internal/postgres/postgres.go:231-240 | quotes every name and joins with commas |
| Quoting.ReadColumnsOfJoined | internal/postgres/postgres.go:216-240 | a reader of quoted identifiers gets back exactly the list, for every list of byte strings |
| Topics.ParseTopicAccepts | internal/subscriber/topic.go:79-105 | accepts iff the topic has the pattern, at most 1024 bytes, a tenant of 1 to 64 of the listed characters and a parseable device, and returns those parts |
| Topics.ParseTopicRejects | internal/subscriber/topic.go:79-105 | a rejection names the first rule that fails |
| Topics.JoinUndoesSplit | internal/subscriber/topic.go:86 | joining the segments of a topic gives the topic back |
| Topics.SplitUndoesJoin | internal/subscriber/topic.go:86 | splitting joined segments gives the segments back |
| Messages.DedupKeyInjective | internal/subscriber/subscriber.go:430-432 | a dedup key determines the device and the nanosecond |
| Messages.DedupKeyReads | internal/subscriber/subscriber.go:430-432 | a reader of the key gets back the sixteen bytes of the device and the nanoseconds |
| Messages.UuidTextReads | internal/subscriber/subscriber.go:430-432 | a reader of lower-case hexadecimal groups gets back the sixteen bytes, with hyphens between the groups |
| Numerals.DecIntReads | internal/subscriber/subscriber.go:430-432 | a decimal text reads back as its number, has a sign only below zero and no leading zero |
| DeadLetter.Sink.Write | internal/deadletter/deadletter.go:127-163 | stores the message under its key or changes no object; which attempts spend a sequence number |
| DeadLetter.Sink.MakeKey | internal/deadletter/deadletter.go:165-177 | the key text with its unknown placeholders |
| DeadLetter.ObjectKeyDetermines | internal/deadletter/deadletter.go:165-177 | a key determines device, arrival and sequence number whatever date and tenant are, so keys of one process never collide |
| DeadLetter.ObjectKeySegments | internal/deadletter/deadletter.go:165-177 | a key split at its slashes is dead-letter, date, tenant, device and file name, with unknown for an empty tenant and an all-zero device |

## Left out

- The MQTT client, broker and redelivery: the handler is modelled from its call on, one message at a time; its `ack` is the protocol's `Ack` step.
- Badger internals, gob encoding and compaction: the log is an atomic sorted map; a value decodes losslessly or is garbled.
- Losses.RowIffLanded: this process is the only writer of the table and the bucket; rows and objects of other replicas, which `Ledger.RowSharesDeviceAndTime` and `Counters.InsertedBoundsRows` would meet too, are not modelled.
- TTL arithmetic: an entry may expire at any moment; the model does not say when.
- RefreshMetrics, oldestEntryTime and the gauges set outside locks: they may be stale and nothing depends on them.
- SQL execution, pooling and the staging table: a transaction is its effect on the keyed rows. columnsMatchMessage and copyRow are not modelled.
- The S3 client and the JSON envelope: an upload stores one object or fails. A failed upload that nevertheless stored its object counts as a loss, which overstates losses only.
- UUID parsing: an arbitrary partial function; the text form is section 4 of RFC 9562.
- Configuration loading, health, logging, migrations and main wiring. Process exit is the `Crash` step; the ring's contents are lost there too.
- Pipeline.Enabled: a worker may pull at any time; the critical gate and the timers are in `Flusher.Worker.Turn` and `AdaptiveMode`, so the protocol allows more runs than the code.
- Buffer.LimitsOf: takes the products of caps and thresholds exactly; the code rounds them in float64.
- Latency.P95Index: uses 95n/100, which equals int(0.95 n) for the window sizes up to 64 that occur.
- Buffer.Ring.Enqueue: adds sizes as unbounded integers; the code's int64 sum could only wrap for payloads near 2^63 bytes.
- Flusher.Worker.FlushWithRetry: durations observed for the latency histogram are inputs, not computed.
- Flusher.Worker.Turn: a call of the subscriber or of the flusher runs to its end before the next call on the objects; interleavings inside a call are those of `Pipeline`, on values.
- Postgres.InsertBatch: of several messages of one batch with the same key it stores the first; the statement gives no order, so the source does not fix which.
- Numerals.uint64: the dead-letter sequence number wraps like the WAL's, and nothing is claimed about a process that makes 2^64 uploads.

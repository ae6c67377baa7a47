# Service engine: protocols, proved

A Dafny model of the hard parts of the service engine, and proofs about it. `dafny verify dfyconfig.toml` checks all of it.

**The accumulated lane.** `LaneProtocol` is the lane as every pod runs it against one Postgres: the chunk and seal tables, the
advisory locks, and any number of open transactions, each statement a step of its own, with aborts, crashes and lost commit
acknowledgements. The lock function is arbitrary, so two streams may share a lock. `LaneInvariant` is the inductive invariant,
`LaneTheorems` what follows for every run, and `LaneConvergence` what becomes of the submitted frames. `CommitBatch` is the code
inside one flush transaction, proved against `CommitSpec`, the same specification the protocol's flush steps use, and
`FlushRefinement` shows that the protocol's flush, uninterrupted, does the same. `StreamFold`
holds the meaning of a reading and the two loops that replay a table from its start; `Reader` is the fold cache as a class;
`ReaderRuns` lets any number of reads overlap with each other and with the whole lane. `LanePaths` builds concrete stretches of
runs; `VerifiedSeal` uses them for a verified seal from beginning to end, `StaleRead`, `SweptDurable` and `MissedMarker` to show
where reads, Durable answers and markers fail. `FlushBuffer`
is the in-memory buffer with its pushes, flushes and requeues.

**Erasure.** `Erasure` composes erase transactions and purge workers with the lane, so that a worker's purge is one of the lane's
transactions; `ErasureRun` is one erasure from beginning to end. `Purge` is the same work as one worker performs it, and what
redoing it means.

**Small protocols.** `SingleFlight` is the keyed gate, `Stop` the latched stop, `SchemaVersion` the version row with its claims and
heartbeats.

**Arithmetic and encodings.** `Cron`, `Wire` and `Cohort`.

Assumptions about the outside: statements see committed rows (READ COMMITTED); a transaction's writes appear at its commit and its
locks go at its end; a row another transaction inserted or updated and has not committed makes a conflicting write wait; `now()` is
the instant the transaction began; a `Notified` future is woken by every `notify_waiters` sent after its creation; an `Arc` count
and an atomic flag are read as they are.

## Where the code and its promises part

- A Durable answer can be outrun by a sweep that deletes the row between the flush's lookup and its commit; the sweep takes no
  stream lock. `LaneTheorems.VerdictsTellTheTruth` says exactly when, `LaneTheorems.DurableWithinRetention` what rules it out, and
  `SweptDurable.FalseDurableIsReachable` is a run that ends so.
- Impacts are staged per noun and key, not per stream: two accumulators of one noun share one impact:
  `CommitBatch.SharedNounSharesImpact`.
- The buffer ceiling bounds what is accepted between flushes (`FlushBuffer.AcceptedBound`), not the buffer:
  `FlushBuffer.SoloBufferBound` and `FlushBuffer.BoundIsReached` give the real bound.
- A frame submitted within max_age of its publication, while its stream's marker stands, can still miss the marker: what counts is
  the flush's lookup, and a sweep may come before it. `LaneTheorems.MissesMarkerIffSwept` says exactly when,
  `LaneTheorems.StragglerMeetsMarker` what rules it out, and `MissedMarker.MissedMarkerIsReachable` is a run that ends so. Chunks
  put back into the memory buffer are looked up later still.
- Overlapping flushes can put a later chunk ahead of an earlier one: `FlushBuffer.OverlapBreaksOrder`.
  `FlushBuffer.OrderedIffNoJump` says exactly when the order is kept, and one flush at a time keeps it.
- A gate can be left in the map with no task alive: `SingleFlight.LeftBehindExactlyBy` says exactly when.
- A cache that outlives a seal, the marker's sweep and the reuse of the stream answers the old value:
  `StaleRead.StaleReadIsReachable`.
- A read's two queries are separate statements. When a seal, purge or sweep takes rows the read has kept between them, it answers
  chunks that are gone, without a gap: `StaleRead.RacedReadIsReachable`. `ReaderRuns.ReadIsPlainIffBaseStands` and
  `ReaderRuns.ReadsFollowFirstValues` say exactly when a read is plain and what it answers otherwise.
- At the greatest sequence `replay_verified` refuses every replay, `seal_upto` saturates, `seal_current` wraps in a build without
  overflow checks, and the erasure purge fails with an overflow every time it is tried.
- `next_fire` can return its own argument for periods that are not whole microseconds: `Cron.StrictUnlessWithinResolution`.
- A fresh heartbeat does not protect a version from a claim that has already checked: `SchemaVersion.FreshRowCanBeDisplaced`.
- A second erase of a person runs its slices, but neither its manifest nor an event is stored:
  `Erasure.ManifestComesFromTheInserter`.

## Model

| member | source | states |
|---|---|---|
| `LaneInvariant.RunKeeps` | crates/service-engine/src/accumulator/commit.rs:48-146 | Every state of every interleaving of flushes, seals, purges and sweeps (aborts, crashes and lock collisions included) satisfies the lane's invariant |
| `LaneInvariant.StepKeeps` | crates/service-engine/src/accumulator/seal.rs:115-171 | Each separate step of any transaction keeps the invariant for every other open transaction |
| `LaneTheorems.SealedStreamIsEmptyAndRefuses` | crates/service-engine/src/accumulator/guard.rs:18-45 | A stream with a committed marker holds no chunk rows, and every chunk decided while it stands is refused, for any lock function |
| `LaneTheorems.VerdictsTellTheTruth` | crates/service-engine/src/accumulator/commit.rs:85-168 | What each answer says about the store the commit leaves: a Durable value is there exactly when no sweep deleted the row between the flush's lookup and its commit, Conflict means a differing value in batch or store, no answer means a missed lock, Unmapped never occurs |
| `LaneTheorems.HeldRowLostBySweep` | crates/service-engine/src/accumulator/seal.rs:226-255 | While a flush holds a stream, a row of it goes away only in a sweep's delete, and only when it was staged longer ago than the retention |
| `LaneTheorems.DurableWithinRetention` | crates/service-engine/src/accumulator/seal.rs:226-255 | A Durable answer is true whenever the row the flush found, if any, is younger than the retention at the commit |
| `SweptDurable.FalseDurableIsReachable` | crates/service-engine/src/accumulator/seal.rs:226-248 | For every configuration and frame, a run from the empty store to a commit that answers Durable and leaves no row |
| `LaneTheorems.SweepOutrunsDurable` | crates/service-engine/src/accumulator/seal.rs:226-248 | From every state with a Durable answer pending on an abandoned stream, the steps of a sweep make it untrue |
| `LaneTheorems.FirstValueStands` | crates/service-engine/src/accumulator/commit.rs:119-131 | No step changes a committed row; the first committed value stays until the row is deleted |
| `LaneTheorems.RowSurvives` | crates/service-engine/src/accumulator/commit.rs:119-146 | Over a stretch without deletes of the stream a row stays with its value |
| `LaneTheorems.VerifiedSealDropsNothing` | crates/service-engine/src/accumulator/seal.rs:82-113 | A seal up to `last` after a replay, with no delete between, removes exactly sequences 0..last with the replayed values |
| `LaneTheorems.MeasuredExactly` | crates/service-engine/src/accumulator/seal.rs:90-111 | `seal_upto` goes on exactly when no row of the stream lies beyond the declared last sequence, and a deadline seal always does |
| `LaneTheorems.CheckedExactly` | crates/service-engine/src/accumulator/seal.rs:115-130 | A seal goes on past its check exactly when no marker stands on the stream |
| `VerifiedSeal.VerifiedSealIsReachable` | crates/service-engine/src/accumulator/seal.rs:82-113 | For every configuration, stream and list of chunks, a run that stores them all, replays them and seals up to the last |
| `LaneTheorems.SealKeepsEveryDurableChunk` | crates/service-engine/src/accumulator/seal.rs:96-113 | Every chunk answered Durable by a flush that looked up and committed since the stream last lost rows is in the sealed state, with its value |
| `LaneTheorems.SealKeepsEveryRow` | crates/service-engine/src/accumulator/seal.rs:96-113 | Every row stored since the stream last lost rows is among the sealed values |
| `ReaderRuns.SealedIsWhatWasVerified` | crates/service-engine/src/accumulator/reader.rs:91-124 | The same from end to end: what the successful replay folded and hashed is what the sealing commit removes, and the marker is one past it |
| `ReaderRuns.SealRemovesWhatItMeasured` | crates/service-engine/src/accumulator/seal.rs:34-80 | Whatever a seal's commit removes was there with the same value when the seal measured the stream; a deadline seal's marker is one past the last row of that table; without deletes since, the commit removes the whole of it |
| `LaneTheorems.MarkerOnlyRises` | crates/service-engine/src/erase/purge.rs:129-143 | While a marker stands its high water never falls and its instant never moves; only an expired marker is swept |
| `LaneTheorems.StandingMarkerOnlyRises` | crates/service-engine/src/erase/purge.rs:129-151 | The same over every stretch of every run |
| `LaneTheorems.PurgeAgainChangesNothing` | crates/service-engine/src/erase/purge.rs:127-151 | In every run, a purge of a stream whose marker stands removes no row, lifts the high water at most to zero and keeps the marker's instant |
| `LaneTheorems.SealedHighWaterCovers` | crates/service-engine/src/accumulator/seal.rs:46-113 | A committed seal's high water lies above every row it removes, except level with a row at the greatest sequence, or wrapped when a deadline seal measured the stream with such a row |
| `LaneTheorems.PurgedHighWaterCovers` | crates/service-engine/src/erase/purge.rs:129-151 | A committed purge's high water lies above every row it removes, without exception |
| `LaneTheorems.UpsertsExactly` | crates/service-engine/src/erase/purge.rs:129-143 | A purge goes on past its upsert exactly when no row of its stream is at the greatest sequence |
| `LaneTheorems.CutoffIsRetentionBefore` | crates/service-engine/src/accumulator/seal.rs:250-255 | A sweep's cutoff is the retention before now to within a microsecond, and the least instant when the calendar does not reach so far |
| `LaneTheorems.SweepTakesExactly` | crates/service-engine/src/accumulator/seal.rs:226-236 | A sweep goes by the cutoff of its begin and may take a marker exactly when it is older and no purge holds it |
| `LaneTheorems.SweepDooms` | crates/service-engine/src/accumulator/seal.rs:237-242 | A sweep dooms exactly the rows of streams none of whose rows was staged at or after the cutoff |
| `LaneTheorems.SweepDeletes` | crates/service-engine/src/accumulator/seal.rs:237-246 | It deletes exactly the doomed rows that are still there unchanged |
| `LaneTheorems.MarkPurgedExactly` | crates/service-engine/src/accumulator/seal.rs:210-224 | Marking a seal purged flags that marker and changes nothing else |
| `LaneTheorems.StragglerMeetsMarker` | crates/service-engine/src/accumulator/lane_a_loop.rs:22-33 | With an accepted retention, a frame published no later than a seal and looked up within max_age meets that marker, whatever sweeps ran |
| `LaneTheorems.MissesMarkerIffSwept` | crates/service-engine/src/accumulator/seal.rs:226-236 | A flush whose chunk was submitted while the marker stood misses it at its lookup if and only if a sweep took the marker in between and none was committed since |
| `MissedMarker.MissedMarkerIsReachable` | crates/service-engine/src/accumulator/commit.rs:75-92 | For every configuration, accepted retention and frame, a run in which the frame is submitted at the instant of the seal, with the marker standing, and still stored on the sealed stream |
| `MissedMarker.ShortRetentionMisses` | crates/service-engine/src/accumulator/lane_a_loop.rs:22-33 | A retention shorter than max_age by a microsecond is rightly refused: a run in which a frame published at its stream's seal is looked up within max_age and finds no marker |
| `LaneTheorems.EveryMarkerIsLogged` | crates/service-engine/src/accumulator/seal.rs:148-171 | The history the straggler theorem speaks of gains an entry exactly when a marker is first committed |
| `LaneConvergence.NoConflict` | crates/service-engine/src/accumulator/commit.rs:85-117 | With one value per address no chunk of any pod is ever answered Conflict |
| `LaneConvergence.Converged` | crates/service-engine/src/accumulator/commit.rs:22-146 | In every run, on every stream that lost no rows, the rows are exactly the frames some committed flush judged Durable, with their values |
| `LaneConvergence.ConvergedSince` | crates/service-engine/src/accumulator/commit.rs:22-146 | From any moment at which no flush holds a stream, as long as it loses no rows, its rows are those of that moment and the frames committed since; so also for a stream sealed or swept before |
| `LaneConvergence.RunsConverge` | crates/service-engine/src/accumulator/ingress.rs:48-60 | Two runs that committed the same frames of a stream, under any batching, duplication, order, deferral, failure and lock function, hold the same chunks |
| `LaneConvergence.RowWasCommitted` | crates/service-engine/src/accumulator/commit.rs:119-146 | Every row of every stream, disturbed or not, carries the value of a frame some committed flush judged Durable |
| `LaneConvergence.AllSettledConverge` | crates/service-engine/src/accumulator/commit.rs:85-168 | With one value per address, once every address submitted to a stream that lost no rows was committed, the rows are exactly the submitted frames |
| `LaneConvergence.TrueThroughout` | crates/service-engine/src/accumulator/commit.rs:75-131 | With one value per address every stored, read and buffered value is that value in every state of every run |
| `CommitBatch.CommitBatch` | crates/service-engine/src/accumulator/commit.rs:16-186 | For every batch, lock table, lock function and store contents: verdicts, inserted rows and impacts are those of the specification, and the counts are the numbers of entries answered so; durable + refused + conflicts is the processed count |
| `FlushRefinement.UninterruptedFlush` | crates/service-engine/src/accumulator/commit.rs:48-146 | The protocol's flush, taken without interruption, judges by the facts the transaction code gathers and adds exactly the rows it inserts |
| `FlushRefinement.HeldAreTheFree` | crates/service-engine/src/accumulator/guard.rs:31-45 | However many locks a flush takes on the way, it ends up holding exactly the streams it could lock at the start |
| `FlushRefinement.FreeIsCanLock` | crates/service-engine/src/accumulator/guard.rs:31-45 | The transaction code and the protocol find the same streams free: those whose lock nobody else holds |
| `CommitBatch.Ownership` | crates/service-engine/src/accumulator/commit.rs:22-40 | The loop finds the first entry of every address and exactly the addresses that carry two values |
| `CommitBatch.TryHold` | crates/service-engine/src/accumulator/guard.rs:31-45 | One flag per stream, in order, true exactly when no other transaction holds its lock; streams that share a lock are held or missed together, and nobody else loses a lock |
| `CommitBatch.ReadSeals` | crates/service-engine/src/accumulator/guard.rs:47-90 | The ordinal-indexed lookup returns for each position the clamped high water of that position's stream, or none |
| `CommitBatch.JudgeOwned` | crates/service-engine/src/accumulator/commit.rs:85-117 | The verdict loop decides every owned address of a held stream and collects what to insert and announce |
| `CommitBatch.Answers` | crates/service-engine/src/accumulator/commit.rs:149-168 | One answer per entry in batch order, equal to the judgement; the fallback never occurs |
| `CommitBatch.CountsAddUp` | crates/service-engine/src/accumulator/commit.rs:169-184 | The three counts partition the answered entries |
| `CommitBatch.CountsAreSizes` | crates/service-engine/src/accumulator/commit.rs:169-184 | Each count is the number of entries with that answer |
| `CommitBatch.OneImpactPerGainedStream` | crates/service-engine/src/accumulator/commit.rs:115-141 | Impacts number the streams that gained a chunk exactly when no two of them share noun and key |
| `CommitBatch.SharedNounSharesImpact` | crates/service-engine/src/accumulator/commit.rs:115-141 | Two accumulators of one noun with one key: two streams gain a chunk and one impact is staged |
| `CommitBatch.DivergedInsertsNeither` | crates/service-engine/src/accumulator/commit.rs:102-105 | Two values for one absent address insert neither, and both are answered Conflict |
| `StreamFold.ReplayVerified` | crates/service-engine/src/accumulator/reader.rs:91-124 | Succeeds exactly when 0..last are all stored and fold, and returns their fold and values; a gap is reported with the end of the contiguous prefix, an undecodable chunk only when a stored prefix does not fold |
| `StreamFold.FoldCurrent` | crates/service-engine/src/accumulator/seal.rs:46-80 | The deadline seal's state is the reader's reading of the same rows, and its high water one past the last row |
| `StreamFold.DeadlineHighWaterAbove` | crates/service-engine/src/accumulator/seq.rs:9-40 | That high water is above every stored sequence exactly when none is `i64::MAX` |
| `Reader.CountProvesPrefix` | crates/service-engine/src/accumulator/reader.rs:163-175 | The row count up to the mark equals mark + 1 exactly when the whole prefix is stored (pigeonhole) |
| `Reader.ResumesPrefixIffStands` | crates/service-engine/src/accumulator/reader.rs:176-215 | A resumed fold is the stored contiguous prefix if and only if every cached chunk is still stored unchanged |
| `Reader.StandingReadIsReading` | crates/service-engine/src/accumulator/reader.rs:190-227 | Then state, mark and gap are the plain reading's |
| `Reader.ReusedStreamReadsStale` | crates/service-engine/src/accumulator/reader.rs:163-175 | The count can be right where the value is not: the failing table |
| `Reader.MostRecentSurvives` | crates/service-engine/src/accumulator/reader.rs:258-267 | The entry used last survives every eviction |
| `Reader.ChunkReader.Take` | crates/service-engine/src/accumulator/reader.rs:229-234 | Removes and returns the stream's entry; all else unchanged |
| `Reader.ChunkReader.Forget` | crates/service-engine/src/accumulator/reader.rs:127-132 | Removes the stream's entry; all else unchanged |
| `Reader.ChunkReader.Store` | crates/service-engine/src/accumulator/reader.rs:236-268 | A fold of at least as many chunks stays as it is, a shorter one is replaced; then least recently used entries are evicted down to the capacity |
| `Reader.ChunkReader.Resume` | crates/service-engine/src/accumulator/reader.rs:150-188 | Keeps the cached fold exactly when the head query shows its whole prefix |
| `Reader.ChunkReader.FoldOn` | crates/service-engine/src/accumulator/reader.rs:190-215 | The row loop continues the base through the stored run and reports a gap exactly when a stored sequence lies beyond |
| `Reader.ChunkReader.AccumulateInner` | crates/service-engine/src/accumulator/reader.rs:145-227 | One read: what it folds, what it answers, that a successful read is cached, and that other entries are only evicted |
| `Reader.ChunkReader.State` | crates/service-engine/src/accumulator/reader.rs:64-71 | With one value per address a read answers the stream's first chunks, the plain reading exactly when no row it kept was missing at the row query, and the cache stays faithful |
| `ReaderRuns.ReadsArePlain` | crates/service-engine/src/accumulator/reader.rs:134-268 | In every run of the lane and of any number of overlapping reads, forgets and evictions whose re-inserted addresses keep their values, a read that lost no row between its queries answers the plain reading of a table the lane held |
| `ReaderRuns.ReadIsPlainIffBaseStands` | crates/service-engine/src/accumulator/reader.rs:145-227 | In every run, every read answers the plain reading of the table it saw if and only if what it kept of the cache stands in that table |
| `ReaderRuns.ReadsFollowFirstValues` | crates/service-engine/src/accumulator/reader.rs:145-227 | When re-inserted addresses keep their values, every read answers the first values of the stream, and the plain reading if and only if no row it kept was missing at its row query |
| `ReaderRuns.FirstValuesAgree` | crates/service-engine/src/accumulator/commit.rs:119-131 | When re-inserted addresses keep their values, every row of the run carries the first value its address ever held, whatever conflicting frames were sent |
| `StaleRead.RacedReadIsReachable` | crates/service-engine/src/accumulator/reader.rs:154-198 | A seal between the two queries makes the read answer the cached chunk without a gap: the reading of neither table |
| `StaleRead.StaleReadIsReachable` | crates/service-engine/src/accumulator/reader.rs:163-188 | Without that hypothesis it fails: write, read, seal, sweep, reuse with another value, and the read answers the old value |
| `FlushBuffer.Buffer.Enqueue` | crates/service-engine/src/accumulator/runtime.rs:141-176 | A full buffer refuses and stays as it was; otherwise the chunk goes to the end |
| `FlushBuffer.Buffer.Take` | crates/service-engine/src/accumulator/flush.rs:122-124 | The whole buffer moves out |
| `FlushBuffer.Buffer.Requeue` | crates/service-engine/src/accumulator/flush.rs:126-130 | A batch goes back in front of what arrived meanwhile |
| `FlushBuffer.AnswerBatch` | crates/service-engine/src/accumulator/flush.rs:54-90 | Entry by entry: one with a verdict is answered with that verdict at the place the answers before it give, one without is deferred at its place, and each once |
| `FlushBuffer.FlightsAnswerTheirVerdicts` | crates/service-engine/src/accumulator/flush.rs:54-90 | In every run, of the entries read off so far a flush keeps exactly those without a verdict, in order, and has answered the others |
| `FlushBuffer.AlwaysConserved` | crates/service-engine/src/accumulator/flush.rs:44-97 | At every step of any number of concurrent flushes and pushes each accepted chunk is in exactly one place, once |
| `FlushBuffer.SoloKeepsOrder` | crates/service-engine/src/accumulator/flush.rs:122-130 | With one flush at a time no landing jumps, so the buffer stays in order of acceptance and what is in flight stays ahead of it |
| `FlushBuffer.OrderedIffNoJump` | crates/service-engine/src/accumulator/flush.rs:122-130 | In every run, overlaps included, the buffer has been in order of acceptance all along if and only if no landing flush put back a chunk accepted later than one waiting in the buffer |
| `FlushBuffer.OverlapBreaksOrder` | crates/service-engine/src/accumulator/flush.rs:91-96 | Two overlapping flushes can reverse the order: the run |
| `FlushBuffer.OverlapCanKeepOrder` | crates/service-engine/src/accumulator/flush.rs:91-96 | The same two flushes failing the other way round keep the order: the run |
| `FlushBuffer.SoloBufferBound` | crates/service-engine/src/accumulator/runtime.rs:150-166 | With one flush at a time the buffer holds at most (f + 1) times the limit after f flushes in a row that requeued, and at most the limit after one that requeued nothing |
| `FlushBuffer.StreakCounts` | crates/service-engine/src/accumulator/flush.rs:83-96 | The number in that bound is that of the landings in a row that put something back |
| `FlushBuffer.BoundIsReached` | crates/service-engine/src/accumulator/flush.rs:50-96 | For every limit and f a run reaches that bound |
| `FlushBuffer.AcceptedBound` | crates/service-engine/src/accumulator/runtime.rs:150-166 | In every run, overlaps included, no more than the limit is accepted for each flush that took the buffer, and once more |
| `SingleFlight.RunKeeps` | crates/service-engine/src/accumulator/single_flight.rs:34-52 | Over every interleaving with cancellation, a task that has not checked finds its own gate mapped under its key, and gate owners are exactly the working tasks |
| `SingleFlight.OneWorkerPerKey` | crates/service-engine/src/accumulator/single_flight.rs:34-52 | Two tasks never work on one key at once |
| `SingleFlight.AcquiresIffNobodyWorks` | crates/service-engine/src/accumulator/single_flight.rs:48-51 | A waiting caller can take its gate exactly when no caller works on its key |
| `SingleFlight.DistinctKeysSideBySide` | crates/service-engine/src/accumulator/single_flight.rs:34-52 | Callers on distinct keys work side by side: the run |
| `SingleFlight.SettledKeyLeavesNothing` | crates/service-engine/src/accumulator/single_flight.rs:34-52 | A caller that works and settles leaves no gate behind: the run |
| `SingleFlight.CheckEvictsIffAlone` | crates/service-engine/src/accumulator/single_flight.rs:18-25 | A reference count of two means that no other task refers to the gate, and then it is removed |
| `SingleFlight.EvictedGateIsUnheld` | crates/service-engine/src/accumulator/single_flight.rs:18-25 | An evicted gate has no other holder, then or ever after |
| `SingleFlight.LeftBehindExactlyBy` | crates/service-engine/src/accumulator/single_flight.rs:12-25 | A gate is left behind exactly by a check that falls between another task's check and the drop of its reference |
| `SingleFlight.NoOverlapNoLeftover` | crates/service-engine/src/accumulator/single_flight.rs:12-25 | A run without such checks leaves nothing behind |
| `SingleFlight.LoneCallerEvicts` | crates/service-engine/src/accumulator/single_flight.rs:18-25 | A caller alone on the key when it checks removes its gate |
| `SingleFlight.SoloVisitCleans` | crates/service-engine/src/accumulator/single_flight.rs:34-52 | A whole visit with nobody else on the key leaves the key unmapped, leftover gates included |
| `SingleFlight.LeftoverIsReachable` | crates/service-engine/src/accumulator/single_flight.rs:12-25 | The run that leaves a gate mapped with no task alive |
| `Erasure.RunKeeps` | crates/service-engine/src/erase/gesture.rs:74-127 | Over every interleaving of erases, aborts, workers, crashes and the lane, the erasure invariant holds |
| `Erasure.LaneRunIsRun` | crates/service-engine/src/erase/purge.rs:116-154 | What the lane does in an erasure run is a run of the lane, so the lane's theorems apply |
| `Erasure.ErasedExactlyOnce` | crates/service-engine/src/erase/gesture.rs:98-118 | PersonErased is staged once for each person with a committed erasure and for nobody else |
| `Erasure.FirstManifestStands` | crates/service-engine/src/erase/gesture.rs:149-182 | The first committed manifest stays, and a purge once marked stays marked |
| `Erasure.ManifestComesFromTheInserter` | crates/service-engine/src/erase/gesture.rs:80-119 | Only the erase whose insert took effect stores its manifest and event; every other leaves both tables as they are |
| `Erasure.StoredManifestIsWhatSlicesTouched` | crates/service-engine/src/erase/gesture.rs:83-98 | The manifest an erase stores holds exactly the streams its slices touched |
| `Erasure.PurgedOnlyAfterEmptied` | crates/service-engine/src/erase/purge.rs:52-96 | A row is marked purged only after each stream of its stored manifest was sealed and empty at a moment since the row was committed |
| `Erasure.TouchedIsEmptiedBeforePurged` | crates/service-engine/src/erase/gesture.rs:83-121 | A person is marked purged only after every stream the slices of the storing erase touched was sealed and empty since that erase committed |
| `Erasure.GoneWorkerLeavesNothing` | crates/service-engine/src/erase/purge.rs:76-97 | A worker that fails or crashes leaves no transaction, no lock and no change behind |
| `ErasureRun.CompleteErasureIsReachable` | crates/service-engine/src/erase/gesture.rs:74-127 | For every configuration, person, stream and chunk, a run from the stored chunk over the committed row and event to the sealed, emptied stream and the purged mark |
| `Purge.PurgeMeets` | crates/service-engine/src/erase/purge.rs:116-154 | How far a purge of any list gets and exactly what it leaves: listed streams sealed and empty with the right high water, all else untouched |
| `Purge.PurgeableExactly` | crates/service-engine/src/erase/purge.rs:129-143 | A stream can be purged exactly when it has no row at the greatest sequence |
| `Purge.NewHighIsLeast` | crates/service-engine/src/erase/purge.rs:129-143 | The high water is the least number that is not negative, lies above every row and not below the standing marker |
| `Purge.RedoChangesNothing` | crates/service-engine/src/erase/purge.rs:116-154 | A purge stopped anywhere and redone from the start ends as an uninterrupted one, whether it gets through or not |
| `Purge.LanePurgeInRuns` | crates/service-engine/src/erase/purge.rs:127-151 | In every run the purge's commit empties exactly its stream and sets exactly its marker, to the one a purge sets on the tables as they were at its upsert; the high water is no lower than for the tables at the commit, and with a marker standing it is the purge of that stream in full |
| `Purge.DrainStopsAtFirstFailure` | crates/service-engine/src/erase/purge.rs:89-95 | A drain completes exactly the longest run of rows whose streams could all be purged to begin with and whose other purges go through |
| `Purge.Store.PurgeStream` | crates/service-engine/src/erase/purge.rs:127-151 | One stream's transaction seals or raises, empties, and rolls back when the high water overflows |
| `Purge.Store.PurgeStreams` | crates/service-engine/src/erase/purge.rs:116-154 | The loop is the specification's purge of the list |
| `Purge.Store.CompleteOne` | crates/service-engine/src/erase/purge.rs:52-74 | Missing and purged rows change nothing; a pending one is purged, and marked only if everything went through |
| `Purge.Store.DrainPending` | crates/service-engine/src/erase/purge.rs:76-97 | Exactly the rows before the first failure are marked, all their streams are sealed and empty, and the tables are those of one purge after another |
| `SchemaVersion.DisplacedOnlyWhenLapsed` | crates/service-engine/src/schema_version.rs:13-60 | The row leaves a version only by a claim whose check found that version's heartbeat at least the claimer's liveness old when the claim began |
| `SchemaVersion.RefusedExactly` | crates/service-engine/src/schema_version.rs:25-46 | A claim is refused exactly when the row is another version's and its heartbeat was younger than the claim's liveness when the claim began |
| `SchemaVersion.PassesWhenOwnOrLapsed` | crates/service-engine/src/schema_version.rs:25-46 | A claim of the row's own version, on a lapsed row or on none always passes |
| `SchemaVersion.ClaimTakesTheRow` | crates/service-engine/src/schema_version.rs:47-60 | A claim that passed takes the row for its version and pod, stamped with the instant it began |
| `SchemaVersion.YoungNeverDisplaced` | crates/service-engine/src/schema_version.rs:25-46 | A version whose heartbeat stays younger than every claimer's liveness is never displaced |
| `SchemaVersion.BeatingNeverDisplaced` | crates/service-engine/src/config/validate.rs:87-93 | A version that lands a beat every `beat`, each within `delay`, is never displaced when the two together stay below the liveness |
| `SchemaVersion.DisplacedBeatsNothing` | crates/service-engine/src/schema_version.rs:62-78 | A version without the row updates zero rows with every heartbeat until it claims |
| `SchemaVersion.BeatLandsExactly` | crates/service-engine/src/schema_version.rs:62-78 | A heartbeat updates one row exactly when the row is its version's, and then only its stamp |
| `SchemaVersion.OneClaimAtATime` | crates/service-engine/src/schema_version.rs:20-24 | Two claims are never both past the lock |
| `SchemaVersion.FreshRowCanBeDisplaced` | crates/service-engine/src/schema_version.rs:25-60 | Only the check counts: a heartbeat landing between check and write does not save the row |
| `Stop.NobodyStaysParked` | crates/service-engine/src/stop.rs:17-39 | Once a stop has finished every waiter that has not returned has a step to take |
| `Stop.ReturnsWithinItsSteps` | crates/service-engine/src/stop.rs:26-39 | From the raised flag on, a waiter returns after exactly its distance in own steps, at most three, whatever the others do |
| `Stop.FinishedMeansFlag` | crates/service-engine/src/stop.rs:17-20 | A finished stop has raised the flag, so later waiters are covered too |
| `Stop.ParkedUntilNotified` | crates/service-engine/src/stop.rs:26-39 | A parked waiter stays parked as long as no stop has finished |
| `Stop.ParksWhileRunning` | crates/service-engine/src/stop.rs:26-39 | A waiter that finds the flag down parks after four steps of its own |
| `Stop.ReturnsOnlyAfterStore` | crates/service-engine/src/stop.rs:22-39 | Nobody returns before a stopper stored the flag |
| `Cron.NextIsLeastAfter` | crates/service-engine/src/cron/next.rs:113-133 | For whole-microsecond periods the next fire is the least fire strictly after the instant; there is none exactly when the calendar ends first |
| `Cron.PreviousIsGreatest` | crates/service-engine/src/cron/next.rs:79-96 | The previous fire is the greatest at or before the instant; there is none exactly before the anchor |
| `Cron.OneSlotIffNoFireBetween` | crates/service-engine/src/cron/next.rs:35-47 | Two pods name one slot exactly when no fire lies between their instants |
| `Cron.FiresAreOnePeriodApart` | crates/service-engine/src/cron/next.rs:79-133 | The two fires around an instant differ by one period, and the next fire is its own slot |
| `Cron.SlotIsExact` | crates/service-engine/src/cron/next.rs:149-153 | The checked multiplication never fails, and the other checks fail exactly when the slot lies beyond the calendar |
| `Cron.StrictUnlessWithinResolution` | crates/service-engine/src/time.rs:17-31 | For every period: the next fire is strictly later if and only if at least a microsecond is left of the period, and otherwise it is the instant itself |
| `Cron.NextFireCanReturnItsArgument` | crates/service-engine/src/cron/next.rs:113-133 | The period of 1500 ns that does it |
| `Cron.SameSlotIffSamePeriods` | crates/service-engine/src/cron/next.rs:79-96 | For every period, two instants have one slot exactly when equally many periods have passed |
| `Cron.RefusedExactly` | crates/service-engine/src/cron/next.rs:98-147 | A schedule is refused exactly when its period is missing, out of range or below a microsecond |
| `Wire.WriteCanonical` | crates/service-engine/src/wire.rs:83-118 | Appends the tokens of the value with its fields sorted at every depth |
| `Wire.SortedIsSame` | crates/service-engine/src/wire.rs:92-106 | Sorting puts the fields of every object in ascending order and changes nothing else |
| `Wire.LessByFirstDifference` | crates/service-engine/src/wire.rs:93-93 | Names are ordered by the first position at which they differ, a name before its extensions |
| `Wire.SortedDecidesSame` | crates/service-engine/src/wire.rs:92-106 | Two values have one sorted form exactly when they are equal up to field order |
| `Wire.CanonicalRoundTrip` | crates/service-engine/src/wire.rs:74-118 | Parsing the canonical tokens gives back the sorted value |
| `Wire.PrintsAlikeIffSame` | crates/service-engine/src/wire.rs:74-118 | Two values print alike exactly when they are equal up to field order |
| `Wire.ReencodingIsIdempotent` | crates/service-engine/src/wire.rs:74-81 | Decoding and encoding again changes nothing |
| `Wire.CanonicalExample` | crates/service-engine/src/wire.rs:92-116 | One object, written out token by token |
| `Cohort.KeyRoundTrip` | crates/service-engine/src/cohort.rs:86-112 | A decoder gets every cohort back from its key |
| `Cohort.KeyLayout` | crates/service-engine/src/cohort.rs:86-112 | Byte by byte: tag, length and bytes of the dimension, kind and value |
| `Cohort.LeastByteFirst` | crates/service-engine/src/cohort.rs:89-89 | Lengths and integers are written with the least significant byte first |
| `Cohort.MinusOneIsAllOnes` | crates/service-engine/src/cohort.rs:108-108 | Negative integers are written in two's complement |
| `Cohort.KeysAreInjective` | crates/service-engine/src/cohort.rs:86-112 | Equal key bytes mean equal cohorts, over all dimensions and all four kinds of value |
| `Cohort.PrincipalsAreInjective` | crates/service-engine/src/cohort.rs:17-22 | Equal principal keys mean equal ids, and no principal key is a declared key |

## Left out

- SQL text, sqlx, NATS, HTTP and the tokio runtime: the step relations stand for them.
- Message acknowledgement in the ingress loop: a redelivered or terminated frame is a further or missing entry of some batch, and the convergence results hold for all batches.
- Cron expressions: firing is delegated to a library.
- Hash, HMAC and base64 values, and the text of JSON scalars: the verified seal speaks of the hashed values themselves, scalars are tokens.
- The numeric value of the advisory lock id: no result needs it.
- Decode errors of keys that were encoded by the engine itself, and mismatched accumulator state types: the types rule them out.
- The conversion of the liveness to a floating-point interval: instants and durations are integers in the schema-version model.
- Leap seconds in timestamps, and overflow of the notification and gate counters.
- ChunkReader: each of its methods runs without interruption; the interleaving of reads, forgets and stores is in `ReaderRuns`, which drops arbitrary entries on eviction instead of the least recently used.
- Sweeps that delete all expired markers at once: the model deletes any expired ones at any point of the sweep, which includes it.
- The order and the limit of the rows a drain reads: workers take any list of pending rows.
- Liveness of the drain: the first failing row holds back those after it.
- Presence and blob purges: whether they go through is a parameter.
- Effects of erase slices on other tables, `Ops::seal*`, the pipeline, the render pass, mirrors, offers, relays, the inbound loop, the blob reaper and the schema handover loop: no property of theirs is stated.
- Configuration, names, metrics, readiness, GraphQL, presigning, error types, registries and builders: no property of theirs is stated.

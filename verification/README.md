# Verified models of the LINE reply bot

This project models the backend of a low-latency LINE reply bot in Dafny and proves properties of it:
the rolling latency trackers, the binary dispatch codec shared by TypeScript and Go, the owned HTTP/2
lane pool, the exactly-once reply protocol, write-behind storage, the poll, login and stall machinery,
and the ordering of bots on the dashboard.

Time is an integer or real input. The single-threaded event loop is a sequence of atomic steps, each
ending where the program awaits; a theorem about "every run" ranges over every sequence of such steps.
Where the program updates state in place the model is a class whose methods are proved equal to a
specification function of the old state, and the theorems are about that function. Run the verifier with
`dafny verify dfyconfig.toml`.

## What the modules cover

| module | component |
|---|---|
| Prelude, OrderStatistics, RingWindow | shared vocabulary; the incrementally sorted array; the fixed ring |
| Latency, FastPath | the two rolling trackers |
| Wire, DispatchRequest, DispatchResponse | byte readers and writers; request frames; response frames |
| LaneAddress, LaneLifecycle, LaneScore, LaneRotation, LaneSelection, LaneRefresh | the lane pool: addresses, life cycle, scoring, rotation, choice, replacement |
| WriteBehind | RAM mirror, ordered queue, batch writer |
| ReplyGuard, PrimaryBot, ReplyProtocol, ReplyEcho, ReplyDefense, RateLimiter | claims, designated sender, the whole reply path, echo recognition, resends, admission |
| FastPoller, RoomSelection, WorkerPool | the dedicated poll, which rooms it watches, bounded concurrency |
| LoginSession, StallWatch | login attempts against stop; the stall watchdog |
| BotOrder | labels, card positions, quota |

## Where the code does not keep what it seems to promise

Each of these is a lemma with a concrete input or an exact condition.

* A request field longer than its length prefix is truncated by the prefix or refused by the relay, never
  reported by the writer: the round trip holds exactly when every field fits (`RequestRoundTrip`).
* At the encoder, response headers whose names agree up to letter case overwrite each other
  (`NoHeaderLost`). The relay passes on what `net/http` parsed, whose names come in one canonical spelling
  each, and those all arrive (`CanonicalHeadersAllArrive`).
* The round-robin cursor is keyed by route alone, and the dashboard's lane statistics move the cursor of
  route "shared"; with `skew` other selections after each send, `k` tied lanes are all reached exactly when
  `1 + skew` is coprime with `k` (`RotationIsFairExactly`).
* The handlers of a session act on the lane, whichever session it holds by then. A late close or error of an
  earlier session closes a healthy replacement exactly when the earlier handshake had settled and the lane is
  not dead, and a late GOAWAY closes it when it is idle and drains it otherwise (`LateEndClosesExactly`,
  `NeverDisturbedExactly`); re-opening a draining lane is one way there (`LateCloseHitsReplacement`), a peer
  that dropped the connection without its close being reported yet another. Waiting for every earlier close
  before opening again would be enough (`PatienceSuffices`). A connection is leaked exactly when an attempt
  concludes while the lane holds another open session (`NoLeakExactlyWithoutOverlap`).
* A poll handler that throws before the last event of a page loses the rest of the page, because the sync
  token has already moved (`LossExactlyWhenCut`).
* `stopBot` has no effect when the bot's row is gone or the bot is outside the worker's scope, and a login
  attempt still live and suspended can then go online (`StopSilencesExactly`). Within one process this cannot
  happen, since the row is only deleted behind a stop (`AloneEveryStopIsFinal`); it takes another process, or
  a direct change of the table, to remove the row or move the scope (`MissedStopIsReachable`).
* The automatic login retry never logs anybody in: its guard asks for a generation its own attempt has
  already finished (`RetryNeverLogsIn`).
* With uniquifying switched off, a repeated first send has the bytes of the one before (`NextSendDiffers`).
* Two identical replies tracked before either echo is heard are remembered as one: the first swallows nothing
  (`ReplacedSendSwallowsNothing`), and of the two echoes only one is caught (`FreshSwallowedExactly`).
* `deleteBotSession` says that the writer cannot resurrect session rows. A write queued before the deletion
  is flushed after it and brings rows back until the clear is flushed (`QueuedWriteComesBack`), and a write
  through an instance that outlived the deletion, as `trackAuthToken` keeps one, stays for good
  (`HeldInstanceOutlivesDeletion`). When rows are back is exact (`DeletedRowsComeBackExactly`,
  `DeletedForGoodExactly`).
* A bot's mirror and its file part exactly when it is hydrated before its queued writes are flushed, or
  written through an outdated instance (`MirrorHoldsExactly`); neither happens to a bot nobody deletes
  (`UndeletedConverges`).
* If the wall clock goes back past the previous creation, a new bot's label breaks creation order until the
  next resequencing (`CreateKeepsOrder`).

## Model

| member | source | states |
|---|---|---|
| OrderStatistics.LowerBound | backend/src/metrics/latency.ts:149-163 | the binary search returns the first place whose value is not below the one sought, for any ascending array |
| OrderStatistics.IndexWithoutOldest | backend/src/metrics/latency.ts:172-186 | splicing the evicted value out by binary search leaves the sort of the remaining window, duplicates included |
| OrderStatistics.IndexWithNewest | backend/src/metrics/latency.ts:172-186 | splicing the new value in by binary search gives the sort of the window with it |
| OrderStatistics.PercentileIsNearestRank | backend/src/metrics/latency.ts:143-147 | the percentile is one of the samples, at least that share of the samples do not exceed it, and fewer lie below it, whatever order they arrived in |
| RingWindow.Overwrite | backend/src/metrics/latency.ts:172-186 | overwriting the cursor's slot and stepping it is appending to the history; the slot held the sample 500 records ago |
| RingWindow.OrderedIsWindow | backend/src/metrics/latency.ts:192-198 | unrolling the ring from the cursor lists exactly the last N records, oldest first |
| Latency.LatencyTracker.Insert | backend/src/metrics/latency.ts:172-186 | the ring, counters and sorted index keep describing the last 500 samples after any insertion |
| Latency.LatencyTracker.Reindex | backend/src/metrics/latency.ts:172-186 | the sorted index and ok counter of a window become those of the window without its oldest and with its newest sample |
| Latency.LatencyTracker.Record | backend/src/metrics/latency.ts:199-207 | the snapshot returned tells, by counting the last 500 samples in any order, each percentile of its own percentage, the ok share, the count, the newest sample and every alarm figure |
| Latency.LatencyTracker.TakeSnapshot | backend/src/metrics/latency.ts:209-220 | p50, p95 and p99 are the nearest ranks of 50, 95 and 99 percent of the live window, the ok rate is the share of its ok samples, the count its size; with no samples 0, 0, 0, 100 and 0 |
| Latency.LatencyTracker.Recent | backend/src/metrics/latency.ts:222-226 | the newest n samples still in the window, oldest first; for n of 0 the whole window, for n below 0 all but its oldest |
| Latency.GuardrailsIgnoreOrder | backend/src/metrics/latency.ts:117-141 | summarising the sorted index gives what the samples in arrival order would |
| Latency.LevelAgreesWithCounts | backend/src/metrics/latency.ts:117-141 | the alarm level is exactly the highest threshold some sample is counted over |
| Latency.SnapshotTells | backend/src/metrics/latency.ts:117-220 | a recomputation from any window, empty included, tells every figure by counting its samples |
| FastPath.FastPathTracker.Insert | backend/src/metrics/fast-path.ts:132-147 | the index keeps holding exactly the non-dropped times of the last 1000 samples, whatever mix was evicted |
| FastPath.FastPathTracker.Reindex | backend/src/metrics/fast-path.ts:132-147 | evicting or adding a dropped sample leaves the index alone, any other splices it |
| FastPath.FastPathTracker.Record | backend/src/metrics/fast-path.ts:161-179 | the sample kept is the time not spent upstream, never below 0, or all the time of a dropped reply; the snapshot tells the percentiles, the worst and the number of the kept times of the last 1000 samples by counting them |
| FastPath.FastPathTracker.Recent | backend/src/metrics/fast-path.ts:192-196 | the newest samples still in the window, oldest first, dropped ones included; a limit of 0 or less is read as a slice reads it |
| FastPath.MaxIsTheWorstKept | backend/src/metrics/fast-path.ts:181-190 | the reported maximum is the largest time that was kept, and none when nothing was |
| FastPath.SnapshotTells | backend/src/metrics/fast-path.ts:181-190 | each percentile is the nearest rank of its own percentage among the kept times alone, max is the largest, the count is how many; all 0 when nothing was kept |
| Wire.MostSignificantFirst | backend/sender/dispatch_binary_handler.go:128-162 | multi-byte integers carry their most significant byte first |
| DispatchRequest.EncodeDispatchRequest | backend/src/dispatch/binary-protocol.ts:25-63 | the precomputed buffer is filled to its last byte with the frame, every write in bounds |
| DispatchRequest.EncodedLength | backend/src/dispatch/binary-protocol.ts:25-40 | the size loop computes the length of the frame that is then written |
| DispatchRequest.DecodeBinaryDispatchRequest | backend/sender/dispatch_binary_handler.go:88-126 | the field-by-field reader computes the frame grammar: same limits, same errors, exact consumption |
| DispatchRequest.RequestRoundTrip | backend/src/dispatch/binary-protocol.ts:25-63 | for distinct header keys, the relay gets back the client's request if and only if every field is within its bound |
| DispatchRequest.AcceptedIsBounded | backend/sender/dispatch_binary_handler.go:88-126 | whatever bytes arrive, an accepted request is within every limit |
| DispatchRequest.ExtensionRejected | backend/sender/dispatch_binary_handler.go:118-126 | every extension of an accepted frame is refused as trailing data |
| DispatchRequest.ProperPrefixRejected | backend/sender/dispatch_binary_handler.go:88-126 | every proper prefix of an accepted frame is refused |
| DispatchRequest.EncodingIsInjective | backend/src/dispatch/binary-protocol.ts:25-63 | no encoding of a fitting request starts another one: encodings are injective and prefix-free |
| DispatchRequest.CollectDistinct | backend/sender/dispatch_binary_handler.go:106-117 | with distinct keys the relay's header map holds one value per key and every header |
| DispatchRequest.CollectKeepsAll | backend/sender/dispatch_binary_handler.go:106-117 | a header name that comes more than once keeps all its values in order, and no name appears that did not come |
| DispatchRequest.FrameLayout | backend/src/dispatch/binary-protocol.ts:25-63 | where each part of a request frame stands, after its own length |
| DispatchResponse.EncodeBinaryDispatchResponse | backend/sender/dispatch_binary_handler.go:128-162 | the relay's writer produces the frame or refuses the first field it cannot carry |
| DispatchResponse.EncodesExactlyWhatFits | backend/sender/dispatch_binary_handler.go:128-162 | a frame is produced exactly when every field fits its prefix |
| DispatchResponse.DecodeDispatchResponse | backend/src/dispatch/binary-protocol.ts:65-118 | the client's reader computes the frame grammar, with its errors and exact consumption |
| DispatchResponse.ResponseRoundTrip | backend/src/dispatch/binary-protocol.ts:65-118 | whatever the relay frames the client reads back: status, timings, body, and headers under lower-cased names |
| DispatchResponse.NoHeaderLost | backend/src/dispatch/binary-protocol.ts:104-112 | no header value is lost exactly when headers that agree up to case agree on their values |
| DispatchResponse.DeliveredNamesAreLowered | backend/sender/dispatch_binary_handler.go:145 | the names the client holds are exactly the headers' names with capital letters, and nothing else, made small, each with the values of such a header |
| DispatchResponse.FrameLayout | backend/sender/dispatch_binary_handler.go:128-162 | where each part of a response frame stands |
| DispatchResponse.CanonicalHeadersAllArrive | backend/sender/dispatch_binary_handler.go:128-162 | header names in canonical spelling, each once, never overwrite each other: all their values arrive |
| DispatchResponse.FramesAreDistinct | backend/sender/dispatch_binary_handler.go:128-162 | a frame that starts another carries the same status, timings, body and headers up to the case of names: encodings are injective and prefix-free |
| DispatchResponse.ExtensionRejected | backend/src/dispatch/binary-protocol.ts:113-118 | every extension of an accepted frame is refused |
| DispatchResponse.ProperPrefixRejected | backend/src/dispatch/binary-protocol.ts:65-118 | every proper prefix of an accepted frame is refused |
| DispatchResponse.IntString | backend/sender/dispatch_binary_handler.go:230-242 | the 20-byte buffer never overflows, a non-negative number parses back from its digits, a negative one gives the empty string |
| LaneAddress.LaneAddressStride | backend/src/dispatch/h2-lanes.ts:298-305 | the loop finds the stride the address map uses |
| LaneAddress.StrideIsSmallest | backend/src/dispatch/h2-lanes.ts:290-305 | beyond two addresses the stride is the smallest integer above 1 coprime with their number, and one always exists |
| LaneAddress.ConsecutiveLanesCoverAll | backend/src/dispatch/h2-lanes.ts:307-316 | any n consecutive lanes under one rotation, negative ids included, dial all n addresses exactly once |
| LaneAddress.FirstConnectIsBalanced | backend/src/dispatch/h2-lanes.ts:901-907 | on first connect any two addresses carry the same number of lanes, give or take one |
| LaneAddress.ReconnectsVisitEveryAddress | backend/src/dispatch/h2-lanes.ts:901-907 | n successive connects of one lane visit all n addresses from any starting rotation |
| LaneLifecycle.EveryRunIsSound | backend/src/dispatch/h2-lanes.ts:842-1041 | over every run inFlight is the number of open unsettled requests, a draining lane has some, and no lane is stuck: connecting has an attempt, dead has a timer, unless stopped or never opened |
| LaneLifecycle.SettledOnce | backend/src/dispatch/h2-lanes.ts:1261-1287 | whatever order abort, close and error arrive in, each request is settled at most once and its first outcome is final |
| LaneLifecycle.SettledExactlyOnce | backend/src/dispatch/h2-lanes.ts:1261-1287 | a request whose stream closes or that is aborted anywhere in a run ends it settled, and was settled exactly once |
| LaneLifecycle.FirstEventDecides | backend/src/dispatch/h2-lanes.ts:1261-1287 | over any run a request ends as the first event that concludes it says: answered, failed or aborted |
| LaneLifecycle.RequestsChangeExactly | backend/src/dispatch/h2-lanes.ts:1237-1287 | each event opens, ends or leaves each request for exactly the stated reason; one begun with a fired signal is aborted at once |
| LaneLifecycle.StateChangesExactly | backend/src/dispatch/h2-lanes.ts:842-1041 | the lane connects, becomes ready, drains and dies for exactly these reasons |
| LaneLifecycle.SessionChangesExactly | backend/src/dispatch/h2-lanes.ts:842-1041 | a session is closed by its own events, or when the lane that holds it is given up or stopped, and by nothing else |
| LaneLifecycle.HeldSessionChangesExactly | backend/src/dispatch/h2-lanes.ts:946-983 | the lane holds the session that connected last until it is given up |
| LaneLifecycle.FailuresCountExactly | backend/src/dispatch/h2-lanes.ts:946-1041 | failures in a row grow by one with every failed attempt or broken session and are forgotten after a handshake |
| LaneLifecycle.TimerChangesExactly | backend/src/dispatch/h2-lanes.ts:859-868 | the reconnect timer is armed once when the lane dies or is found dead without one, with the delay its failures call for |
| LaneLifecycle.ReconnectSchedule | backend/src/dispatch/h2-lanes.ts:859-868 | the delay doubles from 250 ms with every failure in a row and is 8 s from the fifth on |
| LaneLifecycle.CanAlwaysRecover | backend/src/dispatch/h2-lanes.ts:842-1041 | from every reachable state that was not stopped some events make the lane ready on an open session |
| LaneLifecycle.StopIsForGood | backend/src/dispatch/h2-lanes.ts:1452-1464 | a stopped lane stays dead, without session, timer or new connection, whatever arrives later |
| LaneLifecycle.GracefulStepsSparePending | backend/src/dispatch/h2-lanes.ts:842-857 | unless a hard failure arrives, no step closes a session that still carries an unsettled request |
| LaneLifecycle.DrainCompletes | backend/src/dispatch/h2-lanes.ts:1261-1268 | the last request of a draining lane closes its session and arms the reconnect; earlier ones leave it alone |
| LaneLifecycle.SendsNeedReady | backend/src/dispatch/h2-lanes.ts:356-359 | a request starts only on a ready lane, on the open session it holds |
| LaneLifecycle.NoLeakExactlyWithoutOverlap | backend/src/dispatch/h2-lanes.ts:946-1041 | over a run no live connection is leaked exactly when no attempt concludes over an open session |
| LaneLifecycle.StepLeaksExactlyOnOverlap | backend/src/dispatch/h2-lanes.ts:946-1041 | one step leaks a connection exactly when it concludes an attempt over an open session |
| LaneLifecycle.LateEndClosesExactly | backend/src/dispatch/h2-lanes.ts:1024-1040 | a late close or error of another session closes the one the lane holds exactly when that session's handshake had settled and the lane is not dead; a late GOAWAY closes it exactly when the lane is idle and otherwise drains it |
| LaneLifecycle.NeverDisturbedExactly | backend/src/dispatch/h2-lanes.ts:984-1040 | over a run no session in use is closed, dropped or drained by the end of another one exactly when no event strays, which the lane state and the session named decide before each event |
| LaneLifecycle.PatienceSuffices | backend/src/dispatch/h2-lanes.ts:869-872 | opening a lane only after every earlier session has reported its close is enough for that |
| LaneLifecycle.LateCloseHitsReplacement | backend/src/dispatch/h2-lanes.ts:1033-1040 | the code does not wait: a lane re-opened while draining loses its healthy new session, with a request on it, to the old one's close |
| LaneLifecycle.LaneSlot.Retire | backend/src/dispatch/h2-lanes.ts:842-857 | retiring to draining with nothing in flight is retiring to dead, a dead lane is left alone, and dead closes the session and arms the timer |
| LaneLifecycle.LaneSlot.SettleRequest | backend/src/dispatch/h2-lanes.ts:1261-1268 | settling is idempotent, lowers inFlight once and ends a drained lane |
| LaneLifecycle.LaneSlot.SendOnLane | backend/src/dispatch/h2-lanes.ts:1237-1287 | a request that throws retires the lane; one whose signal has fired is settled at once |
| LaneScore.PredictionIsBracketed | backend/src/dispatch/send-prediction.ts:98-123 | a lane with a free stream is predicted between its own p50 and p95, and more streams ahead never improve the prediction |
| LaneScore.ScoreIsPredicted | backend/src/dispatch/h2-lanes.ts:536-556 | with fresh results of the asking bot a lane is judged by those alone, else by everybody's: the score is their median, 0.35 of the spread to their p95, and one median for every full wave of streams ahead |
| LaneScore.ScoreIsBracketed | backend/src/dispatch/h2-lanes.ts:536-556 | on a free stream the score lies between the p50 and p95 of the results the lane is judged by |
| LaneScore.OwnResultsAlone | backend/src/dispatch/h2-lanes.ts:542-549 | the score of a bot with a profile no older than fifteen minutes does not depend on the lane's shared results |
| LaneScore.SharedResultsForTheRest | backend/src/dispatch/h2-lanes.ts:542-549 | bots without a fresh profile of their own are given the same score |
| LaneScore.ColdScore | backend/src/dispatch/h2-lanes.ts:550-556 | a lane without results scores only while no candidate has one: by its address's rank, and by PING only where no rank is known |
| LaneScore.RecordExactly | backend/src/dispatch/h2-lanes.ts:675-721 | what one result changes: the last seven and their median, the hold-back of fifteen seconds after a slow one, the slow run and the flag |
| LaneScore.ThresholdExactly | backend/src/dispatch/h2-lanes.ts:675-721 | a result is slow above one and a half times the fastest lane's median, and above 23 ms in any case |
| LaneScore.RecordProfileExactly | backend/src/dispatch/send-prediction.ts:53-90 | the sender's profile becomes the newest with the last seven of its own results; every other stays, but for the least recently used one when a new key needs its place |
| LaneScore.WindowAndFlag | backend/src/dispatch/h2-lanes.ts:675-721 | after any results the window is the last seven valid readings, the median is theirs, and the lane is degraded exactly when the last three or more were each over the threshold that applied |
| LaneScore.RecordKeepsMeasured | backend/src/dispatch/h2-lanes.ts:675-721 | recording keeps measured equal to sampled and profiles bounded, keyed once and never empty; re-opening resets all of it |
| LaneScore.RecordProfileKeeps | backend/src/dispatch/send-prediction.ts:53-90 | the per-bot profile table never exceeds its bound, keys stay unique, and the profile just recorded is the newest |
| LaneScore.Meter.RecordApplicationRtt | backend/src/dispatch/h2-lanes.ts:675-721 | the in-place recorder computes the specification and keeps the measured invariant; a negative reading changes nothing |
| LaneRotation.FairExactlyWhenCoprime | backend/src/dispatch/h2-lanes.ts:589-593 | k picks with a cursor moving s places reach all k lanes exactly when s and k are coprime |
| LaneSelection.TiedIsTheWindow | backend/src/dispatch/h2-lanes.ts:564-573 | the tie set is exactly the candidates within the switch margin of every candidate, ordered by score, load and id |
| LaneSelection.CandidatesNarrow | backend/src/dispatch/h2-lanes.ts:508-521 | filtering fails open: some usable lane always remains a candidate and no other lane becomes one |
| LaneSelection.CandidatesExactly | backend/src/dispatch/h2-lanes.ts:508-521 | who competes: the lanes not held back for this bot, or failing that not held back at all, or all; while none of them has a result, those the reservation keeps for sends |
| LaneSelection.NobodyCoolingAllCompete | backend/src/dispatch/h2-lanes.ts:508-521 | with nobody cooling and somebody measured every usable lane competes, whatever the reservation |
| LaneSelection.SelectionIsNearOptimal | backend/src/dispatch/h2-lanes.ts:432-453 | whenever any lane is usable one is chosen, it is usable, and no candidate beats it by more than the margin |
| LaneSelection.ChosenIsFastest | backend/src/dispatch/h2-lanes.ts:432-453 | by the asking bot's own fresh results, or the lane's where it has none, no candidate is expected to beat the chosen lane by more than the margin |
| LaneSelection.FirstSendTakesFastest | backend/src/dispatch/h2-lanes.ts:558-593 | a bot's first unpinned send takes a fastest lane, and among equally fast ones the least loaded |
| LaneSelection.UnmeasuredNeverBeatsMeasured | backend/src/dispatch/h2-lanes.ts:536-556 | while a candidate is measured, the lane chosen is measured |
| LaneSelection.PinOnlySettlesTies | backend/src/dispatch/h2-lanes.ts:574-585 | a pin either wins a tie without moving the cursor or changes nothing |
| LaneSelection.PinWinsExactly | backend/src/dispatch/h2-lanes.ts:574-585 | a pinned lane is taken exactly while it ties and is expected under 23 ms |
| LaneSelection.RotationIsFairExactly | backend/src/dispatch/h2-lanes.ts:586-593 | k unpinned picks over an unchanged k-lane tie, with skew other selections on the cursor after each, reach every lane exactly when 1 + skew is coprime with k |
| LaneSelection.RotationTakesEachOnce | backend/src/dispatch/h2-lanes.ts:586-593 | with nothing in between, k unpinned picks take each of the k tied lanes exactly once |
| LaneSelection.RememberKeeps | backend/src/dispatch/h2-lanes.ts:390-400 | the pin table never outgrows its bound, keeps one pin per bot, and the pin just made is the newest |
| LaneSelection.LaneRouter.SelectFastest | backend/src/dispatch/h2-lanes.ts:558-593 | the choice and the cursor afterwards are those of the specification |
| LaneSelection.LaneRouter.PickLane | backend/src/dispatch/h2-lanes.ts:432-453 | the lane returned is usable and, by the results it is judged by, none is faster by more than the margin; it is pinned exactly when expected under 21 ms; bounds are kept |
| LaneRefresh.SelectAgedLane | backend/src/dispatch/h2-lanes.ts:751-773 | recycles the oldest lane that is ready, idle, old enough and covered by a ready standby of its partition; none exactly when no lane qualifies or recycling is off |
| LaneRefresh.SelectDegradedLane | backend/src/dispatch/h2-lanes.ts:808-823 | repairs the slowest degraded idle lane and never the fastest, so a measured lane at least as fast stays; none exactly when too few are measured or none qualifies |
| WriteBehind.EveryRunIsConsistent | backend/src/db/sqlite-writer.worker.ts:42-158 | over every interleaving of calls, deletions, flushes and failures, calls through instances that outlived a deletion included, the channel keeps order, the batches committed plus the queue are what was issued, and file plus queue in order give every bot's rows |
| WriteBehind.DrainedMeansConverged | backend/src/db/sqlite-writer.worker.ts:42-158 | once the queue is empty every issued operation was applied once and in order, each bot has exactly the rows they give, and none when the last of them about it was a clear |
| WriteBehind.MirrorHoldsExactly | backend/src/db/sqlite-storage.ts:15-58 | over a run the mirror a bot's new instances read is what its file is on the way to exactly when nothing disturbs it: no hydration before queued writes of that bot, no write through an outdated instance that the mirror does not already agree with |
| WriteBehind.StepMirrorsExactly | backend/src/db/sqlite-storage.ts:15-58 | the single-step form of that condition |
| WriteBehind.UndeletedConverges | backend/src/db/sqlite-storage.ts:15-58 | a bot nobody deletes is never disturbed: once drained, its file rows are what its mirror answers |
| WriteBehind.FailedFlushesAreRetried | backend/src/db/sqlite-writer.worker.ts:140-158 | any number of failed flushes leaves file and batch as they were with a timer armed, and the first success commits the whole batch |
| WriteBehind.FlushExactly | backend/src/db/sqlite-writer.worker.ts:69-158 | a flush happens only when its timer fires; it commits the whole batch in order and forgets the failures, or keeps file and batch, counts one failure and arms the delay that calls for |
| WriteBehind.ReceiveExactly | backend/src/db/sqlite-writer.worker.ts:42-68 | an operation received starts the timer only if none runs |
| WriteBehind.RetryDelaySchedule | backend/src/db/sqlite-writer.worker.ts:140-152 | the delay doubles from 100 ms and is 5 s from the seventh consecutive failure on |
| WriteBehind.DeletedRowsComeBackExactly | backend/src/bot/session-manager.ts:1451-1470 | at any moment after a deletion the bot has rows exactly when the batches committed since store something they do not take back out; those batches are the writes queued at the deletion, then its clear, then what is issued later |
| WriteBehind.DeletedForGoodExactly | backend/src/bot/session-manager.ts:1451-1470 | once drained the bot has rows exactly when a write issued after the deletion stored something no later one took back out; with no such write it has none |
| WriteBehind.RowsLeftExactly | backend/src/db/sqlite-storage.ts:34-58 | a sequence of operations leaves rows exactly when some value it stores is neither deleted nor cleared after |
| WriteBehind.LastTouchDecides | backend/src/db/sqlite-storage.ts:34-58 | each stored value is what the last operation on it made of it, and what it was before if none touched it |
| WriteBehind.CallsExactly | backend/src/db/sqlite-storage.ts:34-58 | each call changes its own instance's mirror and queues exactly its operation |
| WriteBehind.InstancesExactly | backend/src/db/sqlite-storage.ts:15-33 | opening reads the file only the first time; deleting a bot clears its current mirror, forgets it and empties its rows |
| WriteBehind.QueuedWriteComesBack | backend/src/bot/session-manager.ts:1451-1470 | a write held by the worker at the deletion brings a row back until the clear is flushed |
| WriteBehind.HeldInstanceOutlivesDeletion | backend/src/bot/session-manager.ts:1073-1098 | a token stored through an instance opened before the deletion stays for good |
| WriteBehind.Storage.Flush | backend/src/db/sqlite-writer.worker.ts:42-153 | a flush commits the whole batch or puts it back in front of what arrived meanwhile, with the next delay |
| WriteBehind.Storage.RunTransaction | backend/src/db/sqlite-writer.worker.ts:69-138 | a batch is applied whole or, on a throw at any statement or at commit, not at all |
| ReplyGuard.TableStaysBounded | backend/src/bot/reply-guard.ts:33-38 | in any run a claim table never exceeds its capacity and its keys stay unique |
| ReplyGuard.OneClaimPerTtl | backend/src/bot/reply-guard.ts:98-110 | two successful claims of one key less than a TTL apart, with no clear of the first claimer between, mean at least MAX_CLAIMS other keys were won in between |
| ReplyGuard.Guard.ClaimIncomingMessage | backend/src/bot/reply-guard.ts:40-48 | a delivery claim succeeds exactly when no live claim of that bot, surface and id exists |
| ReplyGuard.Guard.ClaimRoomAnswer | backend/src/bot/reply-guard.ts:77-85 | an owner-wide room claim succeeds exactly when no live one exists for that message |
| ReplyGuard.Guard.ClaimReply | backend/src/bot/reply-guard.ts:98-110 | a rule claim succeeds exactly when no live one exists; a refused claim changes nothing |
| ReplyGuard.Guard.ClearBotClaims | backend/src/bot/reply-guard.ts:113-125 | stopping a bot forgets its claims in all three tables and no others |
| PrimaryBot.SiblingsAgree | backend/src/bot/primary-bot.ts:80-87 | every sibling that detects a trigger in a room designates the same sender |
| PrimaryBot.DesignatedIsLive | backend/src/bot/primary-bot.ts:80-87 | the designated sender is a sibling, and online whenever any sibling is |
| PrimaryBot.DesignatedExactly | backend/src/bot/primary-bot.ts:40-87 | for any bot in the room: the flagged account if it is online, else the oldest online one, with nobody online the flagged one, and failing that the oldest |
| PrimaryBot.AloneSendsItself | backend/src/bot/primary-bot.ts:80-87 | a bot without an owner, and the only one of its owner's in the room, sends for itself |
| PrimaryBot.OneIdentityExactlyWhenDesignatedConnected | backend/src/bot/session-manager.ts:2389-2392 | two connected siblings answer under one account exactly when the designated one is connected |
| PrimaryBot.PromotedBotAnswers | backend/src/bot/primary-bot.ts:94-105 | after promoting an online bot every sibling's detection goes out under it |
| PrimaryBot.Store.SetPrimaryBot | backend/src/bot/primary-bot.ts:94-105 | refuses a bot that is not an enabled member; otherwise it is the room's only primary and other rooms are untouched |
| ReplyProtocol.OneSendPerMessagePerTtl | backend/src/bot/session-manager.ts:2346-2351 | over every interleaving of push and poll deliveries to all of an owner's bots, two sends for one message in one room within a TTL require a stop of the first answerer or a full table of other claims between |
| ReplyProtocol.EverySendIsAClaim | backend/src/bot/session-manager.ts:2283-2351 | every send in every run is the success of one room claim at a place of its own |
| ReplyProtocol.DeliverySendsExactly | backend/src/bot/session-manager.ts:2261-2392 | in every reachable state a delivery sends, once, exactly when the message is not the bots' own, a rule matched, the bot is connected and no live claim of the message, the reply or the room stands; under the designated account if connected, else the detector's |
| ReplyProtocol.DeliveryClaimsExactly | backend/src/bot/session-manager.ts:2283-2351 | which claims a delivery takes: the message always, the reply when there is one to give, the room after that, each only when the one before was won |
| ReplyProtocol.StopForgetsExactly | backend/src/bot/session-manager.ts:1131-1133 | a stop forgets exactly the bot's own claims |
| ReplyProtocol.Session.HandleIncoming | backend/src/bot/session-manager.ts:2261-2392 | the method takes the specified step and names the sending account exactly when it records a send |
| ReplyEcho.OneMessagePerSend | backend/src/bot/automatic-reply-echo.ts:52-79 | over every history the guard answers yes for no more message ids than sends were tracked; each such message is charged to a tracked send of exactly its look, and no send is charged twice |
| ReplyEcho.EchoExactly | backend/src/bot/automatic-reply-echo.ts:52-89 | over every history a message counts as an echo exactly when its id is still remembered from an earlier charge or a send of its look still waits |
| ReplyEcho.FreshSwallowedExactly | backend/src/bot/automatic-reply-echo.ts:52-89 | an id never heard before is swallowed exactly when, since the last send of its look, no new message of that look was charged to it, nobody cancelled it, its bot was not cleared and its time has not run out |
| ReplyEcho.TablesAgree | backend/src/bot/automatic-reply-echo.ts:29-89 | after any history both tables hold exactly the waiting sends and the remembered charges of that history |
| ReplyEcho.ReplacedSendSwallowsNothing | backend/src/bot/automatic-reply-echo.ts:52-59 | a send repeated before its echo came never swallows anything |
| ReplyEcho.EchoGuard.EvictExpired | backend/src/bot/automatic-reply-echo.ts:29-36 | both tables keep exactly their unexpired entries |
| ReplyEcho.EchoGuard.IsAutomaticReplyEcho | backend/src/bot/automatic-reply-echo.ts:61-79 | the answer and the tables afterwards are those of the specification |
| ReplyDefense.EightSendsDiffer | backend/src/bot/reply-defense.ts:86-150 | any eight consecutive sends of one text to one chat, within the repeat window and in any mix of varied first sends and resends, are pairwise byte-distinct and are the text plus an invisible suffix |
| ReplyDefense.NinthRepeatsFirst | backend/src/bot/reply-defense.ts:86-88 | the ninth repeats the first |
| ReplyDefense.NextSendDiffers | backend/src/bot/reply-defense.ts:107-132 | a send of the same text differs from the one before exactly when it is a recent repeat allowed to vary, or the one before carried a mark |
| ReplyDefense.SendExactly | backend/src/bot/reply-defense.ts:107-150 | the bytes sent are the text alone, or the text with the next mark when it repeats a recent send and may vary; either way the chat remembers them |
| ReplyDefense.ResendsAreBounded | backend/src/bot/reply-defense.ts:61-83 | one original reply causes at most MAX_RESENDS resends over any sequence of destroys |
| ReplyDefense.DestroyedExactly | backend/src/bot/reply-defense.ts:70-83 | after any run a destroyed message is answered exactly while it is tracked, not yet due and has resends left; the resend counts one more and is charged to its original |
| ReplyDefense.ResentExactly | backend/src/bot/reply-defense.ts:61-64 | after any run a resend that went out is tracked with its text, its count and its original |
| ReplyDefense.ReplyStore.ClaimResend | backend/src/bot/reply-defense.ts:70-83 | a destroy consumes the tracked entry and yields a resend exactly while the budget lasts |
| ReplyDefense.ReplyStore.TrackSentReply | backend/src/bot/reply-defense.ts:61-64 | expired entries go and the new one is remembered with its attempt and expiry |
| ReplyDefense.ReplyStore.UniquifyReply | backend/src/bot/reply-defense.ts:123-132 | a first send varies unless switched off, is recorded either way, and touches no other chat |
| RateLimiter.EveryWindowWithinQuota | backend/src/bot/rate-limiter.ts:49-68 | however attempts arrive, no window of the configured length holds more admissions than the quota |
| RateLimiter.AdmittedExactly | backend/src/bot/rate-limiter.ts:49-68 | an attempt is admitted exactly while the window behind it holds fewer admissions than the quota, and only admissions are counted later |
| RateLimiter.RefusalIsExact | backend/src/bot/rate-limiter.ts:58-64 | a refusal means exactly the quota lies in the last window, and its delay is exact: refused at every moment before, admitted then |
| RateLimiter.StoredIsLive | backend/src/bot/rate-limiter.ts:52-56 | the trimmed array stands for the whole history at any later time |
| RateLimiter.Limiter.Trim | backend/src/bot/rate-limiter.ts:52-56 | the prefix-trim loop equals filtering the live admissions |
| RateLimiter.Limiter.TryAcquireSend | backend/src/bot/rate-limiter.ts:49-68 | the decision is the one the full history of that bot gives |
| WorkerPool.EveryScheduleIsBounded | backend/src/bot/oa-contacts.ts:122-134 | under every interleaving at most `limit` calls are in flight, no index is claimed twice, and every schedule ends |
| WorkerPool.CompletedIsMap | backend/src/bot/oa-contacts.ts:122-134 | when every worker has returned, results[i] is fn(items[i]) for every i |
| WorkerPool.MapWithConcurrency | backend/src/bot/oa-contacts.ts:122-134 | whatever worker the scheduler wakes, the program ends with the mapped list |
| FastPoller.DeliversTheLog | backend/src/bot/fast-square-poller.ts:244-304 | once primed, what was delivered is the gap-free log from where priming ended exactly when no handler threw before the last event of a page |
| FastPoller.EveryRunIsDisciplined | backend/src/bot/fast-square-poller.ts:244-304 | over every run at most one fetch is outstanding, nothing is delivered before priming, ten good pages always prime, and events arrive in log order, none twice |
| FastPoller.LossExactlyWhenCut | backend/src/bot/fast-square-poller.ts:269-303 | failed fetches lose nothing; a run loses events exactly when a handler throws before the last event of a page |
| FastPoller.BackoffClimbs | backend/src/bot/fast-square-poller.ts:296-302 | the backoff never shrinks as failures mount, lies between 50 ms and 1 s, and is 1 s from the sixth on |
| FastPoller.BackoffDoubles | backend/src/bot/fast-square-poller.ts:296-302 | the first retry waits 50 ms, each further one twice as long, none longer than a second |
| FastPoller.SettlesExactly | backend/src/bot/fast-square-poller.ts:244-304 | what one fetch brings: a failed one moves nothing but the failure count and the wait, a page moves the cursor behind its last event, is dropped while priming and otherwise handed over up to the first throw |
| FastPoller.WakesExactly | backend/src/bot/fast-square-poller.ts:244-304 | waking starts the one fetch unless the poll was called off, and nothing else starts any |
| FastPoller.AbortIsFinal | backend/src/bot/fast-square-poller.ts:244-304 | once called off the poll reads and delivers nothing more and is over with its next event |
| FastPoller.DeliverPage | backend/src/bot/fast-square-poller.ts:281-286 | a page is handed over in order up to and including the event whose handler throws |
| FastPoller.RunFastSquarePoller | backend/src/bot/fast-square-poller.ts:244-304 | the loop takes exactly the steps of the state machine for any script of outcomes, throws and aborts |
| FastPoller.SlotsFitLanes | backend/src/bot/fast-square-poller.ts:54-64 | every fast slot has a poll lane of its own left by the send reservation, whatever the settings say |
| FastPoller.SlotsExactly | backend/src/bot/fast-square-poller.ts:54-64 | as many slots as asked for if that leaves each a lane, one where no number was given; six lanes and no reservation by default |
| FastPoller.HolderKeepsSlot | backend/src/bot/fast-square-poller.ts:72-96 | no arrival ever takes a holder's slot and the pool never exceeds its capacity |
| FastPoller.AdmitsExactly | backend/src/bot/fast-square-poller.ts:76-85 | a newcomer is admitted exactly while there is room |
| RoomSelection.SelectionIsExact | backend/src/bot/fast-poll-room.ts:47-76 | min(limit, candidates) distinct candidate rooms are returned |
| RoomSelection.BestRoomsAreChosen | backend/src/bot/fast-poll-room.ts:47-76 | every room chosen is better than any that is not, and they are listed best first: polled rooms with traffic, or in a lull, stay; the rest rank by traffic, ties in the caller's order |
| RoomSelection.ActiveRoomKept | backend/src/bot/fast-poll-room.ts:47-76 | a polled active room is dropped only when sticky rooms alone exceed the limit |
| RoomSelection.FittingCurrentIsKept | backend/src/bot/fast-poll-room.ts:47-76 | when the polled set fits the limit no polled active room is dropped |
| RoomSelection.SelectionIsIdempotent | backend/src/bot/fast-poll-room.ts:47-76 | feeding the result back as current returns the same set |
| RoomSelection.SelectionSettles | backend/src/bot/fast-poll-room.ts:47-76 | from the second application on the sequence itself is fixed |
| RoomSelection.SelectFastPollRooms | backend/src/bot/fast-poll-room.ts:47-76 | the partition loop and the sorts compute the selection |
| LoginSession.SpentStaysSpent | backend/src/bot/session-attempt.ts:1-23 | a generation finished or invalidated never becomes current again, over any operations |
| LoginSession.GateStepsExactly | backend/src/bot/session-attempt.ts:1-23 | beginning admits a new generation only when idle, invalidating ends every generation, finishing ends its own |
| LoginSession.SessionAttemptGate.BeginAttempt | backend/src/bot/session-attempt.ts:5-9 | an attempt is admitted exactly when none is active, and is then the only current one |
| LoginSession.SessionAttemptGate.InvalidateAttempt | backend/src/bot/session-attempt.ts:11-14 | after invalidation no generation is current |
| LoginSession.SessionAttemptGate.FinishAttempt | backend/src/bot/session-attempt.ts:20-22 | finishing ends that generation and no other |
| LoginSession.AtMostOneLive | backend/src/bot/session-manager.ts:553-581 | over every interleaving at the await points at most one attempt of a runtime is live |
| LoginSession.LoginEndsExactly | backend/src/bot/session-manager.ts:602-683 | an account the identity lock rejects, and a step that threw, end offline with no client and the attempt silent for good; an accepted account makes this attempt's client the one its runtime holds |
| LoginSession.AcceptedIsReachable | backend/src/bot/session-manager.ts:648-683 | while the row stands the client of an accepted login is the one the process reaches, and none is after a rejected or failed one |
| LoginSession.OutdatedLoginChangesNothing | backend/src/bot/session-manager.ts:583-729 | an attempt that is no longer live just ends, whatever its step brings |
| LoginSession.NoTokenEndsExactly | backend/src/bot/session-manager.ts:602-645 | without a usable token an attempt asks for a scan exactly when it was resuming and may fall back; any other ends offline and silent |
| LoginSession.OnlyAcceptedGoOnline | backend/src/bot/session-manager.ts:648-729 | over every run no attempt goes online that the identity lock did not accept |
| LoginSession.BeginsExactly | backend/src/bot/session-manager.ts:557-581 | over all events a login begins exactly within quota, with an idle gate and for its own reason, and is then live, resuming and connecting |
| LoginSession.StatusChangesExactly | backend/src/bot/session-manager.ts:553-770 | the status shown changes to connecting, offline and online for exactly these reasons |
| LoginSession.ClientsChangeExactly | backend/src/bot/session-manager.ts:553-770 | whose client a runtime holds changes for exactly these reasons |
| LoginSession.RetriesChangeExactly | backend/src/bot/session-manager.ts:741-770 | a retry is armed by a live attempt that threw and may scan, and cleared by starting, stopping and firing |
| LoginSession.AttemptsMoveExactly | backend/src/bot/session-manager.ts:583-770 | attempts move on only by their own events, each to the place its step leads to |
| LoginSession.CleanupExactly | backend/src/bot/session-manager.ts:566-575 | a cleanup gives the gate back and takes its own run off the runtime, whatever else runs there |
| LoginSession.StopAndDeleteExactly | backend/src/bot/session-manager.ts:1100-1152 | what a stop and a deletion leave behind, and that out of scope they leave everything |
| LoginSession.StopIsFinal | backend/src/bot/session-manager.ts:1100-1152 | once an effective stop has returned no earlier attempt is ever live again, publishes online, or owns the client the runtime map reaches |
| LoginSession.StopSilencesExactly | backend/src/bot/session-manager.ts:1100-1113 | after any stop an attempt stays silent for good exactly when the stop took effect or the attempt was not live and suspended at the token resume, the QR scan or the preparation |
| LoginSession.AloneEveryStopIsFinal | backend/src/bot/session-manager.ts:1100-1152 | as long as nobody else removes the row or moves the bot out of scope, every stop in every run silences every attempt, deletions by this process included |
| LoginSession.MissedStopIsReachable | backend/src/bot/session-manager.ts:1108-1112 | the failing case is reachable by an outside change: a started bot whose row vanished or whose scope moved has a live attempt no stop can silence |
| LoginSession.RetryNeverLogsIn | backend/src/bot/session-manager.ts:765-770 | the automatic retry timer never begins a login |
| StallWatch.StallAlwaysEscalates | backend/src/bot/session-manager.ts:1260-1352 | from the first connected tick of an unbroken stall a rebuild comes within (ESCALATE + 1) * ceil(cooldown / tick) further connected ticks |
| StallWatch.RecoveryIsBounded | backend/src/bot/square-stall-policy.ts:73-96 | before a rebuild there is at most one re-arm and at most ESCALATE refreshes |
| StallWatch.RefreshesAreSpaced | backend/src/bot/square-stall-policy.ts:73-96 | two refreshes, and a refresh and the rebuild after it, are at least a cooldown apart |
| StallWatch.OnlyConnectedTicksCount | backend/src/bot/square-stall-policy.ts:73-96 | over an unbroken stall the recovery steps taken and the counters left are those of the connected ticks alone, however many ticks find no connection |
| StallWatch.DecidesExactly | backend/src/bot/square-stall-policy.ts:73-96 | every decision, by the clock and by what was done before: nothing while fetches are recent, a quick retry without a connection, one re-arm, numbered refreshes a cooldown apart, then a rebuild that starts over |
| StallWatch.Runtime.OnTick | backend/src/bot/session-manager.ts:1260-1352 | each tick takes the planned action and leaves the counters the specification gives |
| BotOrder.EveryRunIsOrderly | backend/src/bot/bots.ts:198-233 | over every run of create, delete, reorder and resequence, labels are 1..N in creation order and positions a permutation of 1..N |
| BotOrder.CreateKeepsOrder | backend/src/bot/bots.ts:344-348 | a creation keeps this exactly when the clock has not gone back past the previous one |
| BotOrder.CreateIsExact | backend/src/bot/bots.ts:344-348 | a creation adds one bot, with the given owner and time, a fresh id and the last label and position; all earlier rows stay |
| BotOrder.DeleteKeepsOrder | backend/src/bot/bots.ts:222-233 | a deletion keeps it and removes the bot |
| BotOrder.DeleteIsExact | backend/src/bot/bots.ts:222-233 | a deletion takes that bot and no other: every other row stays once with its id, owner and creation time, the cards keep their order, and an unknown id changes nothing |
| BotOrder.BotsAreThoseCreated | backend/src/bot/bots.ts:198-348 | over every run the table holds exactly the bots created and not deleted since, under the owners and times they were created with |
| BotOrder.OrderlyIsSettled | backend/src/bot/bots.ts:205-212 | resequencing a table in order changes nothing |
| BotOrder.RestartRepairs | backend/src/bot/bots.ts:205-216 | a restart puts any stored table in order again, whatever labels and positions it was left with, and loses no bot |
| BotOrder.ResequenceRepairs | backend/src/bot/bots.ts:205-212 | whatever labels and positions were, resequencing repairs both and touches nothing else |
| BotOrder.ResequenceKeepsDisplayOrder | backend/src/bot/bots.ts:205-212 | compacting keeps every pair of cards in the order it was displayed in |
| BotOrder.ReorderAccepted | backend/src/bot/bots.ts:273-281 | a reorder is accepted exactly when it names every accessible bot once and nothing else |
| BotOrder.ReorderIsExact | backend/src/bot/bots.ts:267-287 | after an accepted reorder the user sees exactly the requested order and no other owner's row has changed |
| BotOrder.QuotaDefinitionsAgree | backend/src/bot/bots.ts:42-53 | the rank test marks exactly the bots the list slice returns, for any quota; orphans and administrators are spared |
| BotOrder.BotStore.ResequenceBotSlots | backend/src/bot/bots.ts:205-216 | the two update loops compute the resequenced table |
| BotOrder.BotStore.DeleteBotCascade | backend/src/bot/bots.ts:222-233 | deletion and relabelling are one step |
| BotOrder.BotStore.ReorderBotsForUser | backend/src/bot/bots.ts:273-287 | an error leaves the table alone; otherwise the update loop computes the reordered table |

## Left out

- OrderStatistics.PercentileIsNearestRank: percentiles are whole percents and samples are reals; NaN and rounding are not modelled.
- DispatchRequest.RequestRoundTrip: strings are byte sequences, so UTF-8 and lone surrogates are not modelled, and header keys are distinct as in a JavaScript object; the handler's own 16 MiB reader is not part of it.
- DispatchResponse.CanonicalHeadersAllArrive: that `net/http` canonicalises names is its documented behaviour, not part of this model.
- DispatchResponse.ResponseRoundTrip: lower-casing is ASCII; the order in which Go iterates its map is an arbitrary input.
- LaneLifecycle.EveryRunIsSound: sockets, TLS, DNS and session tickets are events that may come in any order; forgetting the pins of a retired lane is not part of the machine.
- LaneLifecycle.NoLeakExactlyWithoutOverlap: a session that reports an error or its close counts as closed by its peer.
- LaneScore.WindowAndFlag: stated for the SEND role; poll medians, ping smoothing and the poll lane's calibration are left out as easier members of the same kind.
- LaneSelection.UnmeasuredNeverBeatsMeasured: needs the invariant that recording keeps, that fresh profiles are never empty.
- LaneSelection.SelectionIsNearOptimal: environment overrides of the margin and thresholds are left at their defaults.
- WriteBehind.EveryRunIsConsistent: statement preparation inside `flush` is assumed to succeed, JSON values are opaque strings, and the worker never crashes.
- ReplyProtocol.OneSendPerMessagePerTtl: rule matching is an input; what the send does over the network is not modelled, and message ids are never reused.
- ReplyGuard.OneClaimPerTtl: keys joined with NUL separators are tuples.
- ReplyDefense.ResendsAreBounded: LINE never gives two live messages of one chat the same id.
- LoginSession.StopIsFinal: one bot at a time; QR callbacks, the identity lock's persistence and the other tables `deleteBotSession` clears are not modelled; which owners are in scope is an input, as `worker-scope.ts` is not part of this model; reconnects by the stall watchdog are those of a lost listener.
- LoginSession.RetryNeverLogsIn: the cleanup of an attempt runs before any timer it armed.
- StallWatch.StallAlwaysEscalates: no proactive refresh falls inside the stall.
- FastPoller.RunFastSquarePoller: an abort falls before a fetch settles or between turns, not inside a handler; the server's log is fixed and a page may have any length.
- RoomSelection.SelectionIsExact: candidate mids are distinct, as they are keys of a table.
- BotOrder.EveryRunIsOrderly: SQL is rows in a sequence; other columns and the rows a cascade removes from other tables are left out.
- WorkerPool.MapWithConcurrency: `fn` succeeds; rejected calls are part of the schedule theorems only.
- `auth/login-throttle.ts`, `bot/square-forensics.ts` and the fast-path trace marks: bounded tables and windows of the kinds proved in ReplyGuard and RateLimiter.
- HTTP routes, dashboards, alerts, prewarming, the LINE protocol itself, rule matching and authentication: no property here beyond not failing, or not visible.

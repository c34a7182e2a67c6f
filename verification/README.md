# ZFSdash engines: a verified model

A Dafny model of the self-contained engines behind the ZFSdash backend: the capacity forecast, the drive-health
score, the ARC anomaly detector and its registry, the event bus, the scrub event buffer, the incident correlator, the
checksum hotspot tracker, the latency percentiles, the rebalance simulator, the alert cooldown, the workload
attributor and the chargeback report. A module models one Go file; the two files with code that runs concurrently have
two, one for the object and one for the interleavings (`Manager` and `FeedProtocol` for manager.go, `ScrubRing` and
`FanOut` for scrub.go). `Prelude` and `Moments` hold what the modules share.

How the model reads the code:

- A float64 is a `real` and the claims are about exact arithmetic; `math.Sqrt` is any function that returns the
  non-negative root. Times and durations are whole nanoseconds; an operation reads the clock once.
- An object whose methods change it is a class. Where the code keeps a bounded or cached view (a window, a ring, a
  pruned log, a map of last deliveries), a ghost field records the whole history, and the class invariant says that
  the view is exactly what that history calls for. The laws are then lemmas about histories, so they hold in every
  reachable state.
- Code that runs concurrently is a state machine: threads with program counters, explicit locks, one atomic action per
  step, and laws over every run. A panic of the Go runtime is a flag in the state, proved never to be set.
- Feed reads the clock before it takes the detector's lock, so concurrent Feeds of a pool may be recorded out of time
  order. Histories in any order are modelled; a law that needs time order says so.
- `sort.Slice` is `Prelude.SortSlice`: some ordered rearrangement, with nothing promised about ties. The iteration
  order of a map is arbitrary.

Where the code does not do what its comments or messages say, or what one would expect, the model keeps the code, shows
an input at which it fails, and proves exactly when it does not:

| expectation | fails at | holds exactly when |
|---|---|---|
| all events come newest first | `Manager.NotNewestFirstAcrossPools` | `Manager.NewestFirstIff`, in every map order `Manager.NewestFirstAlwaysIff` |
| the baseline is that of the window | `Detector.BaselineLags`, `Detector.FrozenBaselineMisleads` | `Detector.BaselineIsWindowsIff` |
| a drive that is not online is not called healthy | `VdevHealth.FaultedDriveCalledHealthy` | `VdevHealth.OfflineDriveCalledHealthyIff` |
| latency above twice the baseline is critical | `Latency.TwiceIsNotCritical` | `Latency.CriticalAsPromisedIff` |
| a hotspot's first sighting is the first ever | `Hotspot.FirstSeenCanDiffer` | `Hotspot.FirstSeenIff` |
| every counted error is emitted | `Hotspot.ClearedCounterLosesErrors` | `Hotspot.NothingLostIff` |
| a drive's weekly errors are those of a week | `Hotspot.PredictionCanMissErrors` | `Hotspot.PredictionCompleteIff` |
| rebalancing leaves the pool even | `Rebalance.EmptyVdevExample`, `Rebalance.FullPoolUneven` | `Rebalance.EvenAtEveryFillIff`, at one fill level `Rebalance.EmptyVdevExactIff` |
| a cooldown silences one pool only | `Alerts.KeyCanCollide` | `Alerts.HostsCollideIff` |
| Latest answers the newest append | `ScrubRing.NilHidesNewest` | `ScrubRing.LatestIsNewest` |
| subscribers see the order of the ring | `FanOut.RingOrderCanDiffer` | `FanOut.RingOrderIff` |
| an incident shows its whole window | `Incident.BusyPoolErasesEvidence` | `Incident.BufferCompleteIff` |
| a report counts all samples of its period | `Chargeback.OldSampleForgotten` | `Chargeback.HistoryCompleteIff`, `Chargeback.PeriodCompleteIff` |

`dafny verify dfyconfig.toml` checks the whole project.

## Model

| member | source | states |
|---|---|---|
| Forecast.FitLinear | internal/forecast/forecast.go:33-82 | sorts the points in place (same points, by time); no fit for fewer than 3 points or a span under 24 h and only then; otherwise a fit in the sense of IsFit: slope and intercept are the unique minimiser of the squared residuals over all real lines, RSquared is the explained share and lies in [0,1], StdError is the root of the residual mean; the `denom == 0` exit is dead |
| Forecast.Accumulate | internal/forecast/forecast.go:46-54 | the loop computes the four moments of the samples |
| Forecast.SquaredErrors | internal/forecast/forecast.go:62-68 | the loop computes the squared residuals of the line and of the mean |
| Forecast.SpanSpreads | internal/forecast/forecast.go:43-58 | two readings a day apart make the denominator of the slope strictly positive |
| Moments.CramerSolves | internal/forecast/forecast.go:55-60 | the slope and intercept formulas solve the normal equations |
| Moments.NormalMinimises | internal/forecast/forecast.go:59-60 | a solution of the normal equations has a smaller sum of squared residuals than every other line |
| Forecast.ExactLineRecovered | internal/forecast/forecast.go:33-82 | points on one line are fitted by exactly that line, with RSquared 1 and StdError 0 |
| Forecast.Project | internal/forecast/forecast.go:84-117 | nothing for a flat or falling fit or a non-positive count; otherwise `count` predictions, the i-th at historyEnd + i intervals: PredictedUsed is the fitted line at that time, never below 0, in whole bytes; an unclipped bound is k StdError away from the line, rounded down, with 20 k^2 = c^2 (20 + i) and c = 2.5 for RSquared < 0.5, else 1.96; Confidence is RSquared clamped to [0,1] |
| Forecast.BandHoldsPrediction | internal/forecast/forecast.go:98-113 | 0 <= LowerBound <= PredictedUsed; PredictedUsed <= UpperBound iff it is within the pool size, LowerBound <= UpperBound iff LowerBound is; the confidence clamp changes nothing for a fit |
| Forecast.MarginWidens | internal/forecast/forecast.go:88-98 | the band never narrows with distance |
| Forecast.ProjectionMatchesDays | internal/forecast/forecast.go:93-97 | for a positive target the i-th unrounded prediction reaches it iff i intervals are at least the days that DaysUntilFull answers |
| Forecast.PredictedUsedMatchesDays | internal/forecast/forecast.go:93-134 | for a target of whole bytes the PredictedUsed that step i reports reaches it iff i intervals are at least the days that DaysUntilFull answers (intervals that are not negative, or a target not met yet) |
| Forecast.DaysInvertFit | internal/forecast/forecast.go:119-134 | the answer is never negative, is 0 iff the target is met now, and otherwise is the exact point where the fitted line crosses the target |
| Forecast.NoAnswerIff | internal/forecast/forecast.go:119-126 | no answer iff there is no fit or its line does not rise |
| Forecast.DaysMonotone | internal/forecast/forecast.go:119-134 | a higher percentage is never reached sooner (reversed for a negative capacity) |
| VdevHealth.EstimateDTF | internal/vdev/health.go:217-250 | -1 below two samples or without a positive slope; 1 when the last total is 100 or more; otherwise, for slope a, last total L and interval d, some whole k has k a <= 100 - L < (k + 1) a and the answer is the whole days in k d; the `denom == 0` exit is dead |
| VdevHealth.SteadyRise | internal/vdev/health.go:231-249 | totals that rise by g at every sample have slope g, and from a last total L < 100 the answer is the whole days in the whole number of (100 - L) / g intervals |
| Moments.IndexSpread | internal/vdev/health.go:222-231 | over the indices 0..n-1 the denominator is n^2(n^2-1)/12 |
| Moments.Chebyshev | internal/vdev/health.go:223-235 | Chebyshev sum inequality: samples that rise together have a non-negative, and if they really rise a positive, spread |
| VdevHealth.SlopeIsLeastSquares | internal/vdev/health.go:231-235 | the slope is that of the best-fitting line through the totals |
| VdevHealth.WorseningDrivePredicted | internal/vdev/health.go:235-249 | a non-decreasing, non-constant error history has a positive slope and never gets -1 |
| VdevHealth.NoPredictionIff | internal/vdev/health.go:217-250 | for samples in time order -1 means fewer than two samples or a non-positive covariance, and nothing else |
| VdevHealth.AvgLatency | internal/vdev/health.go:206-215 | the mean latency, 0 of no samples |
| VdevHealth.LatencyTrend | internal/vdev/health.go:162-168 | the percentage by which the last quarter mean exceeds the first; 0 without four samples or a positive first mean |
| VdevHealth.TrendOfQuarters | internal/vdev/health.go:162-168 | quarters of constant latency a and b: (100 + trend) a = 100 b, and 0 for a = 0 or fewer than four samples |
| VdevHealth.Score | internal/vdev/health.go:169-191 | the capped score and the SMART issues of the last sample |
| VdevHealth.ComputeMetric | internal/vdev/health.go:150-204 | the whole metric: error rate, trend, the score in whole points with each part capped, the advice by 70 and 40, the SMART issues with their counts, and days to failure only from 40 on, there extrapolated from the slope as EstimateDTF promises |
| VdevHealth.RiskMonotone | internal/vdev/health.go:169-203 | the score is in [0,100]; more damage never lowers it and never turns advice into an all-clear |
| VdevHealth.OfflineDriveCalledHealthyIff | internal/vdev/health.go:169-203 | a drive that is not online is called healthy exactly with no checksum error, a latency trend of at most 20% and 5(r+w) + 2 reallocated + 5 pending < 10; ComputeMetric promises this of its result |
| VdevHealth.FaultedDriveCalledHealthy | internal/vdev/health.go:150-203 | so a drive FAULTED in every sample, with steady latency and no errors, is called healthy |
| Detector.Detector.constructor | internal/anomaly/detector.go:54-63 | an empty window, the default baseline 0.85 / 0.05, no events |
| Detector.Detector.Record | internal/anomaly/detector.go:65-112 | window, baseline and event log are what the whole history of measurements says: the last windowSize points, the baseline of the last refresh, the last 200 of all events fired. In the fields: an event is returned iff at least 20 points are in the window, the deviation in force is not 0 and the ratio is less than mean - sensitivity * deviation; it carries the detector's pool, the point and the baseline in force; that baseline is mean and deviation of the window when its length is a multiple of 10, otherwise the one before |
| Detector.FiresIff | internal/anomaly/detector.go:79-104 | for every history and every settings the last measurement fires iff that condition holds, and its event is a report of the point, the baseline in force and the pool |
| Detector.BaselineInForce | internal/anomaly/detector.go:70-77 | the baseline in force is mean and root mean squared deviation of the window iff its length is a positive multiple of 10, and else that of the history without the last point |
| Detector.Detector.RecomputeBaseline | internal/anomaly/detector.go:130-148 | mean and root of the mean squared deviation of the window; the clamp at 0 is dead |
| Detector.VarianceByMoments | internal/anomaly/detector.go:138-142 | the moment formula equals the mean squared deviation, is never negative, and positive as soon as two samples differ |
| Detector.EventExceedsSensitivity | internal/anomaly/detector.go:79-93 | every event lies more than `sensitivity` deviations below the mean it reports, and is critical iff four or more |
| Detector.RefreshedEventBound | internal/anomaly/detector.go:75-93 | Samuelson: an event of a measurement that refreshed the baseline has sigma^2 <= n - 1 |
| Moments.Samuelson | internal/anomaly/detector.go:130-148 | the newest of n samples is within sqrt(n - 1) deviations of the mean |
| Detector.LogInTimeOrder | internal/anomaly/detector.go:95-109 | measurements in time order leave an event log in time order |
| Detector.FrozenBaseline | internal/anomaly/detector.go:75-77 | with a window that is not a multiple of 10 the baseline never changes again once the window is full |
| Detector.FrozenBaselineMisleads | internal/anomaly/detector.go:70-77 | such a window full of misses after hits: its mean is 0 and the baseline says 0.85 or more |
| Detector.BaselineIsWindowsIff | internal/anomaly/detector.go:70-77 | after any measurement the baseline is that of the window iff the window's length is a multiple of 10, so never while 21 to 29 or 31 to 39 are judged |
| Detector.BaselineLags | internal/anomaly/detector.go:70-93 | the manager's window of 40 after 19 hits and two misses: the second miss is reported against a baseline of mean 19/20 where the window's is 19/21 |
| Detector.BaselineFollowsIff | internal/anomaly/detector.go:70-77 | hence from the full window on it always is iff the window size is a multiple of 10 |
| Detector.TooSensitiveNeverFires | internal/anomaly/detector.go:75-93 | a full window of n, a multiple of 10, never fires at a sensitivity of sqrt(n - 1) or more |
| Manager.Manager.EnsurePool | internal/anomaly/manager.go:21-28 | creates a detector iff there is none; existing ones stay |
| Manager.Manager.Feed | internal/anomaly/manager.go:30-46 | run alone: the measurement joins the history of its pool only, and the result is the verdict on that history |
| Manager.Manager.AllEvents | internal/anomaly/manager.go:48-60 | the concatenated logs of all pools, each once, reversed in place; if every pool was measured in time order, newest first iff no event of a pool is later than one of a pool visited after it |
| Manager.ReverseInPlace | internal/anomaly/manager.go:56-58 | the two-index swap loop reverses the slice |
| Manager.NewestFirstIff | internal/anomaly/manager.go:48-60 | the list is newest first iff each log is in time order and no event of a log is later than one of a log after it |
| Manager.NewestFirstAlwaysIff | internal/anomaly/manager.go:48-60 | it is newest first in every order in which the pools may be visited iff each log is in time order and any two events of different pools have the same time |
| Manager.NewestFirstInsidePools | internal/anomaly/manager.go:53-58 | the list is made of one stretch per pool, each newest first iff that pool's log is in time order |
| Manager.NotNewestFirstAcrossPools | internal/anomaly/manager.go:48-58 | two detectors fed in time order whose events alternate: newest first in neither order of visiting them |
| FeedProtocol.StepKeepsInv | internal/anomaly/manager.go:22-46 | the inductive invariant of concurrent Feeds: lock exclusion, one installed detector per pool, calls hold only installed detectors, logs hold exactly the finished calls |
| FeedProtocol.NeverReplaced | internal/anomaly/manager.go:22-46 | in every interleaving an installed detector stays installed |
| FeedProtocol.OneDetectorRecordsAll | internal/anomaly/manager.go:31-46 | in every interleaving at most one detector is made per pool, no call meets a nil one, and every finished call is recorded exactly once, by its pool's detector |
| FeedProtocol.CallKeepsPool | internal/anomaly/manager.go:31-46 | a call works for the pool it was made for until it returns |
| EventBus.StepKeepsInv | internal/web/events_handler.go:24-48 | the inductive invariant of subscribers and publishers |
| EventBus.NeverPanics | internal/web/events_handler.go:24-48 | in every interleaving no send hits a closed channel, no channel is closed twice, subscribed channels are open and hold at most 64 events |
| EventBus.GoneIsClosed | internal/web/events_handler.go:24-37 | in every interleaving the channel of a finished unsubscribe is closed and unsubscribed, and that of a finished subscribe is open and subscribed until its owner unsubscribes |
| EventBus.PublisherKeepsEvent | internal/web/events_handler.go:39-48 | a publisher sends the event it was called with, to the end |
| EventBus.SubscribersFixed | internal/web/events_handler.go:39-48 | in every interleaving subscribers do not change during a publish |
| EventBus.PublishReachesAll | internal/web/events_handler.go:39-48 | in every interleaving a finished publish is among what each subscriber at its start received or has queued exactly once, unless 64 were queued when it was offered, and reached nobody else |
| EventBus.NothingElseReceived | internal/web/events_handler.go:24-48 | every event received or queued is that of one publish, each of which occurs once, that found the channel subscribed |
| ScrubRing.EventBuffer.Append | internal/events/scrub.go:34-41 | the ring refines an unbounded log: position k mod 100, full iff k >= 100, the slots hold the last 100 appends |
| ScrubRing.EventBuffer.ContentsAreLast | internal/events/scrub.go:23-41 | read from the oldest slot on, the ring is exactly the last min(k, 100) appends |
| ScrubRing.EventBuffer.Latest | internal/events/scrub.go:75-84 | answers as LatestOf the whole log |
| ScrubRing.LatestIsNewest | internal/events/scrub.go:75-84 | without nil appends that is the newest event, nil iff there is none; with nil appends it is iff the newest is nil or slot 0 is not |
| FanOut.StepKeepsInv | internal/events/scrub.go:34-73 | the inductive invariant of concurrent Append, Subscribe and Unsubscribe under the two mutexes |
| FanOut.NeverPanics | internal/events/scrub.go:43-73 | no send on a closed channel and no double close, even with repeated Unsubscribes |
| FanOut.UnsubscribedIsClosed | internal/events/scrub.go:54-73 | in every interleaving the channel that a finished Unsubscribe was given is closed and not subscribed; with subMu free a channel whose Subscribe returned is either subscribed or closed and never both, and one is unlinked but open only while the holder of subMu is about to close it |
| FanOut.CallsServe | internal/events/scrub.go:34-73 | in every interleaving a call works on the event or channel it was given until it returns |
| FanOut.SubscriberAccount | internal/events/scrub.go:34-61 | received plus queued is an ordered subsequence of the fan-outs since subscribing, at most 16 queued, a fan-out is missing iff it met a full queue, and between fan-outs nothing is outstanding |
| FanOut.SubscribersAgree | internal/events/scrub.go:43-51 | any two subscribers see the events both receive in the same order |
| FanOut.AppendsFannedOnce | internal/events/scrub.go:34-51 | in every interleaving each finished Append has written the ring once and been fanned out once with its own event, and nothing else has |
| FanOut.RingOrderIff | internal/events/scrub.go:35-44 | fan-outs are in the order of the ring iff no fan-out began while an older write was waiting for its own |
| FanOut.SerialAppendsInOrder | internal/events/scrub.go:34-51 | if no two Appends are ever between their write and their fan-out, the fan-outs are the ring without at most its last event |
| FanOut.RingOrderCanDiffer | internal/events/scrub.go:35-44 | a run in which the order of the fan-outs is not the order of the ring |
| Incident.Classify | internal/incident/correlator.go:115-148 | computes the classification of the events, which explains their tally: drive failure iff one fault and six mismatches; else sector failure iff eleven mismatches and three spikes; else silent corruption iff a scrub error and a mismatch; else vdev degraded iff six spikes; confidence 0.95, 0.85, 0.75, 0.60 or 0, and the counts over the time span as evidence |
| Incident.VerdictExplains | internal/incident/correlator.go:115-148 | that explanation holds of the classification of every sequence of events |
| Incident.ConfidenceMonotone | internal/incident/correlator.go:122-147 | a sub-multiset of event types never has a higher confidence, and equal confidence means the same cause |
| Incident.OrderDoesNotMatter | internal/incident/correlator.go:115-148 | cause and confidence depend only on the multiset of types |
| Incident.FindVdevs | internal/incident/correlator.go:188-198 | the loop computes the first-occurrence list of vdevs |
| Incident.UniqueVdevsAreSet | internal/incident/correlator.go:188-198 | that list is duplicate-free and is the set of non-empty vdevs |
| Incident.VdevsInOrder | internal/incident/correlator.go:188-198 | its vdevs come in the order in which the events first name them |
| Incident.KeyInjective | internal/incident/correlator.go:97-98 | a key names one pool and one cause, even when pool names contain dashes |
| Incident.IncidentRecord.Refresh | internal/incident/correlator.go:104-112 | the updated incident is consistent: events of its pool inside the window, cause, confidence and evidence their classification, vdevs, severity, actions and time range from them; its resolution stays |
| Incident.IncidentShows | internal/incident/correlator.go:104-112 | a consistent incident shows the verdict that explains its events, all of its pool and less than five minutes old, their time range, exactly their vdevs, the severity of its cause, and for a failed drive one replacement per vdev and a scrub |
| Incident.Correlator.Ingest | internal/incident/correlator.go:74-113 | the buffer is the last 1000 of all events; below 0.4 nothing else changes; otherwise exactly the incident of this pool and cause is made or refreshed; every reachable incident stays consistent |
| Incident.BufferCompleteIff | internal/incident/correlator.go:77-92 | the bounded buffer shows an event's whole window iff no event older than the last 1000 lies in it |
| Incident.BufferOnlyWeakens | internal/incident/correlator.go:77-93 | what the buffer forgets never raises the confidence |
| Incident.BusyPoolErasesEvidence | internal/incident/correlator.go:77-93 | a thousand events of one pool erase the evidence of a degraded vdev of another |
| Incident.Correlator.Upsert | internal/incident/correlator.go:97-112 | age and resolution of an existing incident survive; all others are untouched |
| Incident.Correlator.Resolve | internal/incident/correlator.go:210-219 | marks exactly the named incident, which stays consistent |
| Incident.NewestIsRelated | internal/incident/correlator.go:86-92 | the window of an event is never empty |
| Incident.RelatedInWindow | internal/incident/correlator.go:85-92 | the related events are exactly those of the buffer that are of the same pool and not five minutes or more older |
| Hotspot.Tracker.ParseRow | internal/hotspot/hotspot.go:101-113 | one row: emits the rise over the vdev's last non-zero reading, which the baseline then holds |
| Hotspot.Tracker.Parse | internal/hotspot/hotspot.go:84-113 | emits the deltas that the whole history of rows calls for, and the baseline holds every vdev's last non-zero reading |
| Hotspot.DeltasConserve | internal/hotspot/hotspot.go:101-113 | over any history the errors emitted for a vdev add up to the climb of its non-zero readings from 0 |
| Hotspot.ClimbTelescopes | internal/hotspot/hotspot.go:107-113 | which equals the last reading iff the readings never fell |
| Hotspot.NothingLostIff | internal/hotspot/hotspot.go:101-113 | the emitted errors are the climb of all readings, zeros included, iff the counter was never seen to count again after a zero after a count; otherwise they are fewer |
| Hotspot.ClearedCounterLosesErrors | internal/hotspot/hotspot.go:101-113 | readings 5, 0, 3 climb by 8 and 5 are emitted |
| Prelude.FilterInPlace | internal/hotspot/hotspot.go:72-75 | the filter over its own backing array keeps exactly the wanted elements in order |
| Hotspot.Tracker.Collect | internal/hotspot/hotspot.go:61-79 | after every collection the log is exactly the emitted events younger than 72 h |
| Hotspot.Tracker.Tallies | internal/hotspot/hotspot.go:121-134 | the counters of every vdev in the log |
| Hotspot.Tracker.DetectHotspots | internal/hotspot/hotspot.go:118-145 | reports exactly the vdevs with two errors in 24 h, each once, most errors first |
| Hotspot.TallyCounts | internal/hotspot/hotspot.go:124-134 | the counters are the errors at most 1 h and 24 h old |
| Hotspot.HotIff | internal/hotspot/hotspot.go:128-136 | a vdev is hot iff at least two errors of its are at most 24 h old |
| Hotspot.ReportMeans | internal/hotspot/hotspot.go:124-141 | a report has the errors of the last hour and day, is critical iff they are 3 or 10, and its sightings are the earliest and latest event of the vdev |
| Hotspot.PrunedLogReportsAlike | internal/hotspot/hotspot.go:68-76 | the pruned log reports the same vdevs, counts, severities and last sightings as the log never pruned, the same first sightings iff nothing of the vdev was pruned, and never more in 1 h than in 24 h |
| Hotspot.FirstSeenIff | internal/hotspot/hotspot.go:68-76 | the first sighting of the pruned log is that of the full one iff no event of the vdev was pruned |
| Hotspot.FirstSeenCanDiffer | internal/hotspot/hotspot.go:127-132 | two readings more than 72 h apart after which they differ |
| Hotspot.ReportNamesVdev | internal/hotspot/hotspot.go:136-139 | a report names the pool and path of the vdev whose events it counts, for pool names without a slash |
| Hotspot.Tracker.Buckets | internal/hotspot/hotspot.go:151-158 | groups the log by vdev in order |
| Hotspot.Tracker.PredictFailures | internal/hotspot/hotspot.go:147-187 | one assessment per vdev in the log, riskiest first |
| Hotspot.BucketTotals | internal/hotspot/hotspot.go:163-168 | the totals over a vdev's group are those over the whole log |
| Hotspot.PredictionMeans | internal/hotspot/hotspot.go:163-183 | an assessment: the errors of the week and the day, their rates, accelerating above one and a half times the weekly rate, increasing above it, min(100, 5 week + 10 day) points, advice by 80, 50 and 20, failure in 24 h or in 168 less the score |
| Hotspot.PredictionNamesVdev | internal/hotspot/hotspot.go:160-183 | an assessment names the pool and path of the vdev whose events it counts, for pool names without a slash |
| Hotspot.RiskMonotone | internal/hotspot/hotspot.go:169-183 | the score is in [0,100]; more errors never lower it, soften the advice or postpone the predicted failure |
| Hotspot.WeeklyTotalComplete | internal/hotspot/hotspot.go:163-167 | the seven-day total over a pruned log is complete iff no error of the vdev within the week was pruned |
| Hotspot.PredictionCompleteIff | internal/hotspot/hotspot.go:147-183 | over a tracker's rows: PredictFailures names exactly the vdevs with an event in the log, never overstates errors or score, and has the true weekly total iff nothing of the vdev's week was pruned |
| Hotspot.PredictionCanMissErrors | internal/hotspot/hotspot.go:147-183 | rows after which it counts three of five errors and advises to monitor instead of to replace |
| Latency.Percentile | internal/zfs/vdev_latency.go:104-116 | returns the element of rank p*n/100 (the last from p = 100 on), 0 for no data |
| Latency.PercentileShare | internal/zfs/vdev_latency.go:111-115 | at most p percent of the data lie strictly below it and more than p percent at or below; from 100 on it is the maximum |
| Latency.PercentileMonotone | internal/zfs/vdev_latency.go:104-116 | it is unique, the same for every order of the data, and monotone in p |
| Latency.Store.UpdateBaseline | internal/zfs/vdev_latency.go:118-144 | the retained history is the last seven days of all samples and the cached baseline is the 95th percentile of exactly that; other vdevs are untouched |
| Latency.BaselineShares | internal/zfs/vdev_latency.go:118-144 | at most 95 percent of the retained readings lie below a baseline and more than 95 percent do not lie above it, reads and writes apart |
| Latency.Store.GetBaseline | internal/zfs/vdev_latency.go:146-150 | the baseline of the retained history, if the vdev was ever updated |
| Latency.CriticalIsThreefold | internal/zfs/vdev_latency.go:152-165 | from ten samples on, warning starts above 1.5 times and critical above 3 times the baseline, although the message says 2 |
| Latency.CriticalAsPromisedIff | internal/zfs/vdev_latency.go:152-159 | critical just above twice the baseline, as the message promises, iff there is none; or one of fewer than ten samples and the reading is not above twice it; or the reading is not between twice and three times it |
| Latency.AlarmNeedsOlderSamples | internal/zfs/vdev_latency.go:89-91 | a run that is not judged normal is never all that is retained, and if all its readings are above the baseline it is less than a twentieth of it |
| Latency.FirstRunIsOkIff | internal/zfs/vdev_latency.go:89-91 | a vdev's first run in seven days, judged by a baseline it is all of, is ok whatever was measured (iff its percentile is not negative or it has fewer than ten readings) |
| Latency.TwiceIsNotCritical | internal/zfs/vdev_latency.go:156-162 | two and a half times the baseline is only a warning |
| Rebalance.BuildDistribution | internal/simulator/rebalance.go:172-210 | every vdev with its usage and distance from the mean usage, fullest first, and the largest distance |
| Rebalance.DistributionMeans | internal/simulator/rebalance.go:172-210 | fullest first, one row per vdev with its usage in percent and its distance from the mean of the usages, of which the largest is given |
| Rebalance.BuildAfterDistribution | internal/simulator/rebalance.go:212-227 | the distribution of the pool with each vdev holding its share of the data |
| Rebalance.DataConserved | internal/simulator/rebalance.go:107-112 | with the capacity sum as total, assigned data are at most the used size and short of it by less than one byte per vdev |
| Rebalance.UsageNearUtilisation | internal/simulator/rebalance.go:219-224 | a vdev of positive capacity ends within 100/capacity points below the pool utilisation |
| Rebalance.EvenAfterRebalance | internal/simulator/rebalance.go:193-200 | so the largest deviation is below 100/(smallest capacity) when no capacity is 0 |
| Rebalance.EvenAtEveryFillIff | internal/simulator/rebalance.go:178-200 | a pool ends within that bound at every fill level iff no vdev has capacity 0, for bounds up to 50 points |
| Rebalance.FullPoolUneven | internal/simulator/rebalance.go:178-200 | a full pool with a vdev of capacity 0 breaks every such bound |
| Rebalance.EmptyVdevUnbalances | internal/simulator/rebalance.go:178-200 | with a vdev of capacity 0, h of n vdevs holding data, utilisation U and no byte above g percent: within a bound w if hU < nw and (n-h)U + hg < nw, not within it if h(U-g) >= nw or (n-h)U - ng >= nw |
| Rebalance.EmptyVdevExactIff | internal/simulator/rebalance.go:178-200 | where no share is rounded, within w iff hU < nw and (n-h)U < nw |
| Rebalance.EmptyVdevExample | internal/simulator/rebalance.go:178-200 | a full pool of an empty vdev and one of 100 bytes deviates by 50 points, where the bound would be 1 |
| Rebalance.MovementBounded | internal/simulator/rebalance.go:149-161 | movement is at most 60% of the used data, monotone in the new total, and 0 for a pool that does not grow |
| Rebalance.MovementExact | internal/simulator/rebalance.go:149-161 | in integers: m bytes move with 10 after m <= 6 used (after - before) < 10 after (m + 1) when a pool that is not empty grows, which is 60% of the new capacity's share rounded down, and 0 otherwise |
| Rebalance.PercentIs | internal/simulator/rebalance.go:117-136 | percent * whole == 100 * part, and 0 of nothing |
| Rebalance.DurationIs | internal/simulator/rebalance.go:163-170 | the whole seconds in movement over throughput, 0 without a throughput |
| Rebalance.WarningsIff | internal/simulator/rebalance.go:229-245 | each warning is given iff its figure is above its threshold, the duration above a day |
| Rebalance.Simulator.SimulateRebalance | internal/simulator/rebalance.go:94-147 | every field of the result: the movement is exactly 60% of the new capacity's share, rounded down; its percentage, the utilisations and the duration are those of the movement; each warning is given iff its figure exceeds its threshold; a pool whose size is its capacity never gets fuller |
| Rebalance.AddingVdevsHelps | internal/simulator/rebalance.go:131-138 | adding vdevs to a consistent pool never worsens its utilisation, and moves at most 60 percent |
| Alerts.Engine.constructor | internal/alerts/alerts.go:54-71 | no threshold and no cooldown is 0: unset ones are 80, 90 and an hour, set ones are kept; no configuration means disabled |
| Alerts.Engine.Dispatch | internal/alerts/alerts.go:132-142 | the map holds the last delivery of every key; an alert is delivered iff its key is due |
| Alerts.Engine.CheckPool | internal/alerts/alerts.go:83-130 | dispatches exactly the alerts the pool state calls for, in order |
| Alerts.AlertsMean | internal/alerts/alerts.go:83-125 | the alerts of a pool: a critical one iff its health is neither ONLINE nor empty, one on capacity iff a threshold is reached, critical iff the critical one is, and a critical one iff a scrub found errors, in this order |
| Alerts.Engine.CheckPools | internal/alerts/alerts.go:74-81 | nothing when disabled, otherwise all pools in order |
| Alerts.SentAre | internal/alerts/alerts.go:127-142 | of a list of alerts the first is sent iff due, and the rest are judged on the history with it |
| Alerts.DeliveriesSpaced | internal/alerts/alerts.go:132-142 | deliveries of one key are at least a cooldown apart |
| Alerts.DeliveriesBounded | internal/alerts/alerts.go:132-142 | times a cooldown apart number at most T/C + 1 in a span T |
| Alerts.KeyDeliveriesBounded | internal/alerts/alerts.go:132-142 | in particular the deliveries of one key in any history |
| Alerts.DeliveredIff | internal/alerts/alerts.go:135-141 | delivered iff every earlier delivery of the key is a cooldown old; a suppressed alert has one less than a cooldown before it |
| Alerts.NoCooldownNoSilence | internal/alerts/alerts.go:135-139 | without a positive cooldown nothing is suppressed |
| Alerts.HostsCollideIff | internal/alerts/alerts.go:133 | alerts of two hosts can share a key iff one host name and a colon start the other |
| Alerts.KeyInjective | internal/alerts/alerts.go:133 | otherwise a key names one host, pool and level |
| Alerts.SharedKeySilences | internal/alerts/alerts.go:132-142 | a delivered alert silences every later alert with its key, however many and whatever else is dispatched, until exactly a cooldown has passed |
| Alerts.KeyCanCollide | internal/alerts/alerts.go:133-141 | host "a:b" with pool "c" silences host "a" with pool "b:c" for a cooldown |
| Alerts.HealthMasksTheRest | internal/alerts/alerts.go:87-129 | with a positive cooldown one check never sends two critical alerts of a pool: ill health masks capacity and scrub errors, critical capacity masks scrub errors; without one all are sent |
| Attribution.Attributor.Take | internal/attribution/attributor.go:93-117 | one profile takes in one operation kind, created first if missing; every other profile stays |
| Attribution.Attributor.Ingest | internal/attribution/attributor.go:78-120 | every profile takes in the sample once per row of its vdev in the sampled pool, nothing else changes, no stored copy changes, and profiles stay bounded; in the fields of a read or write profile: n rows add n times the count, the bytes and the rounded latency, and the maximum is the larger of both |
| Attribution.IngestedTakes | internal/attribution/attributor.go:85-117 | read profiles take the read counters and write profiles the write counters, that often |
| Attribution.RowsAre | internal/attribution/attributor.go:85-88 | the rows of a vdev are counted by its name and pool |
| Attribution.BumpKeepsBound | internal/attribution/attributor.go:107-115 | TotalLatencyUs <= Count * MaxLatencyUs is kept by non-negative samples |
| Attribution.IngestKeepsBound | internal/attribution/attributor.go:85-117 | also over any number of rows |
| Attribution.AverageAtMostMax | internal/attribution/attributor.go:24-29 | hence the average latency is at most the maximum |
| Attribution.AverageIs | internal/attribution/attributor.go:24-29 | the average times the count is the total, and 0 without a count |
| Attribution.Attributor.TakeSnapshot | internal/attribution/attributor.go:123-139 | a fresh copy of every live profile, once each; the history keeps the last 288 snapshots |
| Attribution.Attributor.TopWorkloads | internal/attribution/attributor.go:142-162 | the first n, or all for n <= 0 or too large, of an arrangement of all the vdev's workloads by falling bytes |
| Attribution.ExchangeSort | internal/attribution/attributor.go:151-157 | the nested exchange loops sort by falling bytes and keep the elements |
| Chargeback.Manager.Collect | internal/chargeback/chargeback.go:118-129 | the history is exactly everything collected in the last thirty days |
| Chargeback.Manager.Aggregate | internal/chargeback/chargeback.go:146-157 | per dataset the totals over exactly its in-period samples of the pool |
| Chargeback.Manager.GenerateReport | internal/chargeback/chargeback.go:132-182 | one charge per dataset with samples, from the averages over those samples, in any map order; the total is their sum; for a period within thirty days that is the report on everything ever collected |
| Chargeback.ReportPrices | internal/chargeback/chargeback.go:146-178 | each charge prices exactly the dataset's in-period samples of the pool: owner of the first, mean physical and snapshot gigabytes at their monthly rates for the period's share of thirty days, operations per million, savings of (1 - 1/dedup) of the storage cost for a mean dedup above 1, and its share of the pool |
| Chargeback.HistoryCompleteIff | internal/chargeback/chargeback.go:118-129 | the pruned history has every dataset's in-period samples iff all in-period samples are younger than thirty days |
| Chargeback.OldSampleForgotten | internal/chargeback/chargeback.go:118-129 | a sample that is thirty days old at a collection is in no later report, and a dataset with only such samples in a period is not in its report |
| Chargeback.PeriodCompleteIff | internal/chargeback/chargeback.go:118-150 | for every log iff the period starts within the last thirty days |
| Chargeback.SamplesPartition | internal/chargeback/chargeback.go:146-157 | every in-period sample is counted in exactly one dataset |
| Chargeback.PercentsSum | internal/chargeback/chargeback.go:158-179 | the percentages add up to 100 when the pool holds anything |
| Chargeback.ChargeNotNegative | internal/chargeback/chargeback.go:167-176 | with non-negative rates and readings, savings never exceed the storage cost and no charge is negative |
| Chargeback.ReportNotNegative | internal/chargeback/chargeback.go:164-182 | no charge and no total of a report is negative, whatever the period |

## Left out

- Floating-point rounding, NaN, and overflow of 64-bit counters and durations.
- The microseconds between two clock reads of one operation; a clock that runs backwards.
- Running `zpool`, `zfs` and `iostat`, SSH, SQL, mail, webhooks and file reads, and the parsing of their text: the
  model starts from parsed rows and samples, and ends where an alert is handed over for delivery.
- Message and command strings, logging, JSON, HTTP handlers, authentication, licensing, the agent and the frontend.
- `startEventBus` in internal/web/events_handler.go: it never calls `publish`, so publishing is an action of the environment.
- Fairness and progress of the locks: the state machines state what holds in every run, not that a call returns.
- Two concurrent calls of Collect on one hotspot tracker, whose baseline is read and written under separate locks.
- Hotspot.PoolOfKey: two pools share a vdev key if a pool name contains a slash, which ZFS does not allow.
- Attribution.Attributor.TopWorkloads: returns the live profiles, as the code does, so later samples show through it.
- Prelude.SortSlice: stands for a library call; that its algorithm is not Go's does not show in its contract.
- The getters Stats, Events, PoolEvents, PoolStats, List and GetRateCard, SetRateCard, and the per-pool maps of scrub
  buffers, which copy or look up what is proved here.
- The duration and warning texts of the rebalance simulator; vdev type and child count, which it only copies.
- internal/capacity/planner.go: one `zpool list` reading turned into percentages and advice; it keeps no history, and its
  days to 80 and 90 percent are positive only once the pool is past them.
- internal/expansion/planner.go: capacity, overhead and a score of one proposed vdev at a time, by a table of layouts.
- internal/zfs/snapshot_advisor.go: age tiers and delete candidates, decided for each snapshot alone from its name, age,
  size and clones.
- internal/dlq/dlq.go: the last 200 failure events, with repeats within five minutes dropped; a bounded log and a cooldown
  of the same kinds as those of the anomaly detector and the alert engine.

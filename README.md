# V.O.C.E. monitoring core in Dafny

V.O.C.E. is a classroom web-activity monitor. A browser extension records how
long each student spends on each site and sends the entries to a Node.js
backend, which classifies domains, caches the categories in Redis and serves
teacher dashboards. The backend also watches its own Redis server: a monitor
polls `INFO`, derives health figures, keeps bounded histories and baselines
and raises threshold alerts, which an alert manager deduplicates, records and
fans out to notifications.

This project models that core and proves what it promises:

- `base.dfy` (`Base`): the JavaScript built-ins the source leans on —
  `Option`, JS numbers with Infinity and NaN, lower-casing, `trim`, `split`,
  `indexOf`, `replace`, `slice(-n)`, integer rendering — and the bounded
  push-and-shift window.
- `redis_info.dfy` (`RedisInfo`): `parseValue` and the line loop of
  `parseRedisInfo`, as a method proved equal to a fold over the lines.
- `redis_metrics.dfy` (`RedisMetrics`): the application hit-rate and
  AI-reduction arithmetic, the derived metrics with their truthiness guards
  and two-decimal rounding, the baseline windows with mean and variance, the
  alert threshold ladder and the health classification.
- `redis_monitor.dfy` (`RedisMonitoring`): the `RedisMonitor` object with its
  running flag, bounded snapshot history, last snapshot and baselines, and the
  collection cycle with its success and failure paths and emitted events.
- `alerts.dfy` (`Alerts`) and `alert_manager.dfy` (`AlertManaging`): the alert
  record, and the `AlertManager` object: per-minute ids, the time-windowed
  deduplication map, the 1000-entry history, the notification decision, the
  cleanup of stale entries and the statistics.
- `monitoring_api.dfy` (`MonitoringApi`): `formatUptime` and the projection of
  the snapshot history into five time series.
- `redis_cache.dfy` (`CategoryCache`): the category cache over an abstract
  key-value store: the reconnect back-off, case-insensitive keys, the hit and
  miss counters, the bulk lookup and the statistics reset.
- `classifier.dfy` (`Classifier`): the private-IPv4 test with JavaScript
  `parseInt`, the dataset-loading loop and `categorizar`.
- `server_data.dfy` (`ServerData`): the data logic inside the chrome backend's
  handlers: querying identifiers in slices of 10, the sorted category list,
  the `student_name` join and the per-student summary fold sorted by last
  activity.
- `extension.dfy` (`Extension`): the extension's background script: host
  names of visited URLs, rounded durations, the tab sessions and the upload
  buffer with its listeners.

The clock, the Redis client's answers, the webhook, file and native-host
outcomes, the Firestore query results and the browser's tab lookups are
parameters of the operations that use them.

## Model

| member | source | states |
|---|---|---|
| Base.PushShift | V.O.C.E-main/monitor-backend/monitoring/redis-monitor.js:286-293 | pushing onto a bounded array and shifting when it is over the cap keeps at most `cap` entries (none for a cap of 0 or less), the newest last |
| Base.PushShiftBounded | V.O.C.E-main/monitor-backend/monitoring/redis-monitor.js:286-293 | the result of a push and shift is the old window followed by the new entry, with only the oldest entries dropped |
| Base.SliceFrom | V.O.C.E-main/monitor-backend/monitoring/alert-manager.js:270-272 | `array.slice(start)` returns a suffix of the array: of length `length - start` for a start within it (none beyond it), and for a negative start the last `-start` entries, or all of them when there are fewer |
| Base.LastEntries | V.O.C.E-main/monitor-backend/monitoring/alert-manager.js:270-272 | for `0 < n <= length` the suffix has exactly `n` entries |
| Base.Split | V.O.C.E-main/monitor-backend/classifier/simple_classifier.js:34 | `split` on a separator gives at least one piece; without an occurrence the whole text, otherwise the text before the first occurrence first |
| Base.JoinSplit | V.O.C.E-main/monitor-backend/classifier/simple_classifier.js:34 | joining the pieces of a split with its separator gives back the text |
| Base.SplitJoin | V.O.C.E-main/monitor-backend/routes/monitoring-api.js:296 | splitting a join on its one-character separator gives the pieces back when none of them contains it |
| Base.Lower | V.O.C.E-main/monitor-backend/classifier/simple_classifier.js:57 | lower-casing keeps the length and maps every character on its own |
| Base.TrimStart | V.O.C.E-main/monitor-backend/classifier/simple_classifier.js:12 | the result is a suffix of the text that starts with no white space |
| Base.TrimEnd | V.O.C.E-main/monitor-backend/classifier/simple_classifier.js:12 | the result is a prefix of the text that ends with no white space |
| Base.Find | V.O.C.E-main/monitor-backend/classifier/simple_classifier.js:58 | `indexOf` finds the first occurrence at or after the start position, and none means the pattern occurs nowhere after it |
| Base.ReplaceFirst | V.O.C.E-main/monitor-backend/classifier/simple_classifier.js:58 | `replace` with a pattern that does not occur leaves the text unchanged |
| RedisInfo.ParseValue | V.O.C.E-main/monitor-backend/monitoring/redis-monitor.js:187-192 | an all-digit string becomes an integer, `digits.digits` a float, and every other string is returned unchanged |
| RedisInfo.ParseValueOfInteger | V.O.C.E-main/monitor-backend/monitoring/redis-monitor.js:187-189 | a rendered non-negative integer parses back to the same integer |
| RedisInfo.ParseValueOfDecimal | V.O.C.E-main/monitor-backend/monitoring/redis-monitor.js:187-190 | `a.b` parses to the float a + b/10^|b| |
| RedisInfo.SignedAndEmptyStayText | V.O.C.E-main/monitor-backend/monitoring/redis-monitor.js:187-192 | negative numbers and the empty string stay strings |
| RedisInfo.InitialSections | V.O.C.E-main/monitor-backend/monitoring/redis-monitor.js:154-163 | the parse starts with the eight section dictionaries, all empty |
| RedisInfo.HeaderMatch | V.O.C.E-main/monitor-backend/monitoring/redis-monitor.js:171 | a match of `# (.+)` captures a non-empty text |
| RedisInfo.Step | V.O.C.E-main/monitor-backend/monitoring/redis-monitor.js:168-181 | one line never adds or removes a section; a line that is not a header and has no `:` changes nothing; a throw happens only when the current section was never created |
| RedisInfo.ParseLines | V.O.C.E-main/monitor-backend/monitoring/redis-monitor.js:153-185 | a parse that does not throw has exactly the eight pre-created sections |
| RedisInfo.InfoSections | V.O.C.E-main/monitor-backend/monitoring/redis-monitor.js:153-185 | a successful parse has exactly the eight sections, and an empty report gives the eight empty sections |
| RedisInfo.ParseRedisInfo | V.O.C.E-main/monitor-backend/monitoring/redis-monitor.js:153-185 | the line loop computes exactly the fold over the lines, and a successful parse keeps the eight pre-created sections |
| RedisInfo.FailureIsFinal | V.O.C.E-main/monitor-backend/monitoring/redis-monitor.js:153-185 | once a line throws, the whole parse fails whatever follows |
| RedisInfo.IgnorableLinesDoNotMatter | V.O.C.E-main/monitor-backend/monitoring/redis-monitor.js:168-182 | lines that are not headers and have no `:` are ignored |
| RedisInfo.HeaderSwitchesSection | V.O.C.E-main/monitor-backend/monitoring/redis-monitor.js:169-174 | `# Name` switches the current section to the lower-cased name |
| RedisInfo.PairLine | V.O.C.E-main/monitor-backend/monitoring/redis-monitor.js:175-180 | `key:value:rest` stores only the text between the first and second `:`, parsed, under the key in the current section |
| RedisInfo.UnknownSectionFails | V.O.C.E-main/monitor-backend/monitoring/redis-monitor.js:175-180 | a pair under a header that is not one of the eight pre-created sections throws |
| RedisInfo.HeaderlessReportGoesToServer | V.O.C.E-main/monitor-backend/monitoring/redis-monitor.js:153-185 | lines before any header go to `server`, and no other section gains entries |
| RedisInfo.ClusterSectionFails | V.O.C.E-main/monitor-backend/monitoring/redis-monitor.js:153-185 | a `# Cluster` section followed by a pair makes the parse throw |
| RedisMetrics.ApplicationStats | V.O.C.E-main/monitor-backend/monitoring/redis-monitor.js:198-233 | a failed read gives all zeros; otherwise hits, misses and AI calls are the counters, the total is their sum, and both percentages are 0 for a total of 0 |
| RedisMetrics.HitRateIsPercentage | V.O.C.E-main/monitor-backend/monitoring/redis-monitor.js:206-208 | with non-negative counters the hit rate lies in [0, 100] |
| RedisMetrics.AiReductionRange | V.O.C.E-main/monitor-backend/monitoring/redis-monitor.js:206-208 | the AI reduction is at most 100 and is at least 0 exactly while the AI calls do not exceed the total |
| RedisMetrics.Round2 | V.O.C.E-main/monitor-backend/monitoring/redis-monitor.js:239-280 | `toFixed(2)` read back lies within 0.005 of the exact value and keeps its sign |
| RedisMetrics.Round2OfCents | V.O.C.E-main/monitor-backend/monitoring/redis-monitor.js:239-280 | a value with two decimals is unchanged by the rounding |
| RedisMetrics.RoundNumber | V.O.C.E-main/monitor-backend/monitoring/redis-monitor.js:262-278 | Infinity and NaN survive the rounding unchanged; finite numbers move by at most 0.005 |
| RedisMetrics.TruthyNumber | V.O.C.E-main/monitor-backend/monitoring/redis-monitor.js:239-280 | a field counts only when present, numeric and non-zero |
| RedisMetrics.Derive | V.O.C.E-main/monitor-backend/monitoring/redis-monitor.js:239-280 | each derived field exists exactly when its inputs are truthy, the two rates only with a previous snapshot; latency and memory use are the rounded quotients; a rate is finite exactly when the clock moved |
| RedisMetrics.RateSigns | V.O.C.E-main/monitor-backend/monitoring/redis-monitor.js:262-278 | a counter that did not go down over elapsed time gives a non-negative rate; no elapsed time gives Infinity, or NaN when the counter did not move |
| RedisMetrics.UsageAboveFullIsReported | V.O.C.E-main/monitor-backend/monitoring/redis-monitor.js:255-259 | a memory use above 100% is reported as it is |
| RedisMetrics.Push | V.O.C.E-main/monitor-backend/monitoring/redis-monitor.js:295-324 | a pushed window carries the mean and variance of its new samples |
| RedisMetrics.PushIsFifo | V.O.C.E-main/monitor-backend/monitoring/redis-monitor.js:295-329 | a window stays within 1000 samples, the newest last and the oldest dropped first |
| RedisMetrics.Mean | V.O.C.E-main/monitor-backend/monitoring/redis-monitor.js:326-329 | the average of no samples is 0; otherwise the average times the number of samples is their sum, and one sample is its own average |
| RedisMetrics.Variance | V.O.C.E-main/monitor-backend/monitoring/redis-monitor.js:331-337 | a window of at most one sample has no spread |
| RedisMetrics.MeanWithinRange | V.O.C.E-main/monitor-backend/monitoring/redis-monitor.js:326-329 | the average lies between the smallest and the largest sample |
| RedisMetrics.VarianceZeroIffFlat | V.O.C.E-main/monitor-backend/monitoring/redis-monitor.js:331-337 | the variance (the square of the standard deviation) is never negative and is zero exactly when all samples equal the mean |
| RedisMetrics.ThreeSampleExample | V.O.C.E-main/monitor-backend/monitoring/redis-monitor.js:326-337 | the samples 10, 20, 30 have average 20 and variance 200/3 |
| RedisMetrics.UpdateBaselines | V.O.C.E-main/monitor-backend/monitoring/redis-monitor.js:295-324 | a positive hit rate, a derived latency and a truthy memory use each push one sample into their own window; nothing else changes |
| RedisMetrics.UpdateKeepsBaselinesValid | V.O.C.E-main/monitor-backend/monitoring/redis-monitor.js:295-324 | after an update every window is within its cap and its statistics are current |
| RedisMetrics.CheckAlerts | V.O.C.E-main/monitor-backend/monitoring/redis-monitor.js:343-449 | at most one alert per rule, so at most five, and none at INFO level |
| RedisMetrics.HitRateBands | V.O.C.E-main/monitor-backend/monitoring/redis-monitor.js:346-363 | a hit rate below 70 raises CRITICAL and one in [70, 80) raises WARNING, and only then |
| RedisMetrics.AtMostOneAlertPerMetric | V.O.C.E-main/monitor-backend/monitoring/redis-monitor.js:343-449 | the alerts name each metric at most once, so no metric is both CRITICAL and WARNING |
| RedisMetrics.RanksIncrease | V.O.C.E-main/monitor-backend/monitoring/redis-monitor.js:343-449 | the alerts follow the rule order: hit rate, latency, memory, evictions, rejected connections |
| RedisMetrics.RaisedByRules | V.O.C.E-main/monitor-backend/monitoring/redis-monitor.js:343-441 | an alert is raised exactly when one of the five rules raises it |
| RedisMetrics.AboveRuleRaises | V.O.C.E-main/monitor-backend/monitoring/redis-monitor.js:366-430 | a threshold rule raises CRITICAL strictly above its critical threshold, WARNING strictly above its warning threshold up to the critical one, nothing for a missing value, and only under its own metric |
| RedisMetrics.LatencyBands | V.O.C.E-main/monitor-backend/monitoring/redis-monitor.js:366-385 | latency above 200 raises CRITICAL and latency in (100, 200] raises WARNING, and only then |
| RedisMetrics.MemoryBands | V.O.C.E-main/monitor-backend/monitoring/redis-monitor.js:388-407 | memory usage above 95 raises CRITICAL and usage in (90, 95] raises WARNING, and only then |
| RedisMetrics.EvictionBands | V.O.C.E-main/monitor-backend/monitoring/redis-monitor.js:410-429 | an eviction rate above 100 (Infinity included) raises CRITICAL and one above 10 but not above 100 raises WARNING, and only then |
| RedisMetrics.RejectedIsError | V.O.C.E-main/monitor-backend/monitoring/redis-monitor.js:432-440 | a truthy positive `rejected_connections` raises an ERROR, and only then; it is the last alert, carries the counter and has threshold 0 |
| RedisMetrics.StrictThresholds | V.O.C.E-main/monitor-backend/monitoring/redis-monitor.js:365-429 | latency, memory and evictions compare strictly: a value equal to the warning threshold raises nothing, one equal to the critical threshold raises only WARNING, Infinity raises CRITICAL and NaN nothing |
| RedisMetrics.RecentlyRestarted | V.O.C.E-main/monitor-backend/monitoring/redis-monitor.js:484-486 | a report without an uptime is never a recent restart, and the comparison with 300 seconds is strict |
| RedisMetrics.Issues | V.O.C.E-main/monitor-backend/monitoring/redis-monitor.js:468-499 | the health issues are the hit rate below 70, latency above 200, memory above 95 and an uptime below 300 seconds, each exactly when its condition holds |
| RedisMetrics.HealthOf | V.O.C.E-main/monitor-backend/monitoring/redis-monitor.js:468-499 | UNKNOWN exactly before the first snapshot, then HEALTHY with no issue, WARNING with one or two and CRITICAL with three or more, listing the issues |
| RedisMetrics.LatencyIssueIsCritical | V.O.C.E-main/monitor-backend/monitoring/redis-monitor.js:343-499 | a latency health issue is reported exactly when the ladder raises a CRITICAL latency alert |
| RedisMetrics.MemoryIssueIsCritical | V.O.C.E-main/monitor-backend/monitoring/redis-monitor.js:343-499 | a memory health issue is reported exactly when the ladder raises a CRITICAL memory alert |
| RedisMetrics.HealthMatchesCriticalAlerts | V.O.C.E-main/monitor-backend/monitoring/redis-monitor.js:343-499 | the hit-rate, latency and memory health issues are exactly the CRITICAL alerts of those metrics |
| RedisMonitoring.OptionOr | V.O.C.E-main/monitor-backend/monitoring/redis-monitor.js:12-48 | an option the caller set wins, even 0; a missing one takes the default |
| RedisMonitoring.Collect | V.O.C.E-main/monitor-backend/monitoring/redis-monitor.js:92-147 | a cycle succeeds exactly when the client is open and the INFO text is read and parsed; the snapshot holds the sections, the application figures, the clock readings and the derived fields, and a failed slow-log read leaves an empty slow log |
| RedisMonitoring.SuccessEvents | V.O.C.E-main/monitor-backend/monitoring/redis-monitor.js:133-139 | `alerts:triggered` is emitted only for a non-empty alert list, and always before `metrics:collected` |
| RedisMonitoring.CollectionEvents | V.O.C.E-main/monitor-backend/monitoring/redis-monitor.js:92-147 | a closed client emits `error` only; a failed query emits `error` only; a success emits the alerts and the snapshot |
| RedisMonitoring.SamplesNeeded | V.O.C.E-main/monitor-backend/monitoring/redis-monitor.js:459-462 | the number of samples covering `minutes` is the least integer at least minutes*60000/interval, and a division by a zero interval gives Infinity or NaN |
| RedisMonitoring.HistoryWindowExamples | V.O.C.E-main/monitor-backend/monitoring/redis-monitor.js:459-462 | with the default interval an hour is the last 120 snapshots, and 0 minutes keeps the whole history |
| RedisMonitoring.HistoryWindowIsSuffix | V.O.C.E-main/monitor-backend/monitoring/redis-monitor.js:459-462 | for positive minutes and interval the result is the newest snapshots, as many as needed or all there are |
| RedisMonitoring.RedisMonitor.constructor | V.O.C.E-main/monitor-backend/monitoring/redis-monitor.js:12-48 | the defaults 30000, 10 and 120 apply to options not set; the monitor starts stopped, with an empty history, no last snapshot and empty baselines |
| RedisMonitoring.RedisMonitor.Start | V.O.C.E-main/monitor-backend/monitoring/redis-monitor.js:54-71 | a second start is refused; the first one sets the flag and emits `monitoring:started`; nothing else changes |
| RedisMonitoring.RedisMonitor.Stop | V.O.C.E-main/monitor-backend/monitoring/redis-monitor.js:73-86 | only a running monitor stops and emits `monitoring:stopped` |
| RedisMonitoring.RedisMonitor.CollectMetrics | V.O.C.E-main/monitor-backend/monitoring/redis-monitor.js:92-147 | a failed cycle leaves history, baselines and last snapshot unchanged; a successful one pushes the snapshot into the bounded history, updates the baselines and records it as the last snapshot |
| RedisMonitoring.RedisMonitor.Record | V.O.C.E-main/monitor-backend/monitoring/redis-monitor.js:286-324 | the history is pushed and shifted, the baselines updated and the last snapshot set, keeping the history within its size |
| RedisMonitoring.RedisMonitor.GetMetricsHistory | V.O.C.E-main/monitor-backend/monitoring/redis-monitor.js:459-462 | the result is a suffix of the history |
| RedisMonitoring.RedisMonitor.GetHealthStatus | V.O.C.E-main/monitor-backend/monitoring/redis-monitor.js:468-499 | the status is UNKNOWN exactly before the first snapshot |
| AlertManaging.ConfigOf | V.O.C.E-main/monitor-backend/monitoring/alert-manager.js:14-48 | logging and deduplication are on unless switched off, the webhook only when switched on, the window defaults to 300000 and the levels to WARNING, ERROR, CRITICAL |
| AlertManaging.AlertId | V.O.C.E-main/monitor-backend/monitoring/alert-manager.js:106-109 | the id is built from the metric, the level and the minute of the clock |
| AlertManaging.SameIdIffSameMinute | V.O.C.E-main/monitor-backend/monitoring/alert-manager.js:106-109 | two firings of one metric and level share an id exactly when they fall in the same minute |
| AlertManaging.IsDuplicate | V.O.C.E-main/monitor-backend/monitoring/alert-manager.js:111-117 | only an id with a non-zero last-seen time is a duplicate; one seen at this very clock reading is a duplicate for any positive window, and a window of 0 or less suppresses nothing seen before |
| AlertManaging.Purge | V.O.C.E-main/monitor-backend/monitoring/alert-manager.js:119-126 | cleanup deletes exactly the entries older than the window (strictly) and keeps the others unchanged |
| AlertManaging.PurgeKeepsDecisions | V.O.C.E-main/monitor-backend/monitoring/alert-manager.js:111-126 | cleanup never changes a later duplicate decision |
| AlertManaging.Stamp | V.O.C.E-main/monitor-backend/monitoring/alert-manager.js:62-69 | a missing timestamp is set to the clock, a present one is kept, and the id is generated; nothing else changes |
| AlertManaging.ShouldNotify | V.O.C.E-main/monitor-backend/monitoring/alert-manager.js:132-134 | with the default levels exactly WARNING, ERROR and CRITICAL alerts are notified |
| AlertManaging.NotificationEvents | V.O.C.E-main/monitor-backend/monitoring/alert-manager.js:136-148 | the console notification always fires; the webhook is attempted only when enabled with a non-empty URL, and its failure only emits `notification:error` |
| AlertManaging.AdmittedEvents | V.O.C.E-main/monitor-backend/monitoring/alert-manager.js:88-99 | an admitted alert emits `alert:processed`, then the notifications exactly when its level is notifiable, then the log line exactly when logging is on |
| AlertManaging.Remember | V.O.C.E-main/monitor-backend/monitoring/alert-manager.js:83-86 | with deduplication on, the alert's id is set to the clock; no other entry changes |
| AlertManaging.Process | V.O.C.E-main/monitor-backend/monitoring/alert-manager.js:62-100 | a duplicate changes nothing and emits nothing; otherwise the stamped alert is pushed into the 1000-capped history, remembered, and its events emitted |
| AlertManaging.ProcessKeepsValid | V.O.C.E-main/monitor-backend/monitoring/alert-manager.js:77-81 | the history stays within 1000 stamped alerts |
| AlertManaging.RepeatWithinMinuteIsSuppressed | V.O.C.E-main/monitor-backend/monitoring/alert-manager.js:71-75 | a repeat in the same minute within the window is dropped: no history entry and no events |
| AlertManaging.RepeatInNextMinuteIsAdmitted | V.O.C.E-main/monitor-backend/monitoring/alert-manager.js:106-117 | a repeat in another minute gets another id and is never a duplicate of the first |
| AlertManaging.NoDedupAdmitsAll | V.O.C.E-main/monitor-backend/monitoring/alert-manager.js:71-86 | with deduplication off every alert is recorded and the map is untouched |
| AlertManaging.TwoFirings | V.O.C.E-main/monitor-backend/monitoring/alert-manager.js:62-117 | two firings from an empty state leave one history entry exactly when they share the minute and fall within the window |
| AlertManaging.RepeatTimings | V.O.C.E-main/monitor-backend/monitoring/alert-manager.js:62-117 | ten seconds apart in one minute leave one entry; across a minute boundary or beyond the window they leave two |
| AlertManaging.ProcessAll | V.O.C.E-main/monitor-backend/monitoring/alert-manager.js:54-60 | processing a batch never forgets a remembered id, and with deduplication off leaves the map untouched |
| AlertManaging.ProcessAllKeepsValid | V.O.C.E-main/monitor-backend/monitoring/alert-manager.js:54-60 | processing a batch in input order keeps the history within 1000 |
| AlertManaging.BumpCounts | V.O.C.E-main/monitor-backend/monitoring/alert-manager.js:285-288 | counting one more key adds one to it, leaves every other count and adds one to the total |
| AlertManaging.TallyOfCounts | V.O.C.E-main/monitor-backend/monitoring/alert-manager.js:274-299 | the count table has distinct keys, counts each key's occurrences and sums to the number of alerts |
| AlertManaging.RecentCount | V.O.C.E-main/monitor-backend/monitoring/alert-manager.js:291-294 | no more alerts are recent than there are alerts |
| AlertManaging.StatsOf | V.O.C.E-main/monitor-backend/monitoring/alert-manager.js:274-299 | `total` is the history length and the last-day count is at most the total; an empty history has empty tables |
| AlertManaging.StatsAreConsistent | V.O.C.E-main/monitor-backend/monitoring/alert-manager.js:274-299 | `total` is the history length, the level and metric tables each sum to it and hold each key's occurrences, and the last-day count is at most the total |
| AlertManaging.AlertIcon | V.O.C.E-main/monitor-backend/monitoring/alert-manager.js:219-227 | an unknown level gets the chart icon |
| AlertManaging.AlertColor | V.O.C.E-main/monitor-backend/monitoring/alert-manager.js:229-237 | every level maps to a `#` followed by six hex digits |
| AlertManaging.WebhookColorIsRgb | V.O.C.E-main/monitor-backend/monitoring/alert-manager.js:202 | the embed colour is a 24-bit RGB value; CRITICAL is 0x6f42c1 |
| AlertManaging.AlertManager.constructor | V.O.C.E-main/monitor-backend/monitoring/alert-manager.js:14-48 | the configuration is built from the options; the map and history start empty |
| AlertManaging.AlertManager.ProcessAlert | V.O.C.E-main/monitor-backend/monitoring/alert-manager.js:62-100 | the new map, history and events are exactly those of `Process` |
| AlertManaging.AlertManager.ProcessAlerts | V.O.C.E-main/monitor-backend/monitoring/alert-manager.js:54-60 | a non-array is a no-op; otherwise the alerts are processed one by one in input order |
| AlertManaging.AlertManager.CleanupRecentAlerts | V.O.C.E-main/monitor-backend/monitoring/alert-manager.js:119-126 | the map becomes its purge; the history is untouched |
| AlertManaging.AlertManager.GetAlertHistory | V.O.C.E-main/monitor-backend/monitoring/alert-manager.js:270-272 | the newest `limit` alerts in original order, all of them for a limit of 0 |
| AlertManaging.AlertManager.GetAlertStats | V.O.C.E-main/monitor-backend/monitoring/alert-manager.js:274-299 | the loop computes the statistics of the history |
| AlertManaging.AlertManager.ClearHistory | V.O.C.E-main/monitor-backend/monitoring/alert-manager.js:301-304 | the history is emptied and the deduplication map kept |
| MonitoringApi.JsRem | V.O.C.E-main/monitor-backend/routes/monitoring-api.js:286-289 | the remainder takes the sign of the dividend and is smaller than the divisor in size |
| MonitoringApi.UptimeOf | V.O.C.E-main/monitor-backend/routes/monitoring-api.js:286-289 | hours are below 24 and minutes below 60, and all are non-negative for non-negative seconds |
| MonitoringApi.UptimeDecomposes | V.O.C.E-main/monitor-backend/routes/monitoring-api.js:286-289 | days, hours and minutes rebuild the seconds exactly, less the leftover seconds |
| MonitoringApi.UptimeParts | V.O.C.E-main/monitor-backend/routes/monitoring-api.js:291-294 | at most three parts, none exactly when no component is positive, each at least two characters with no space |
| MonitoringApi.FormatUptime | V.O.C.E-main/monitor-backend/routes/monitoring-api.js:286-297 | the text is never empty |
| MonitoringApi.FormatUptimeLayout | V.O.C.E-main/monitor-backend/routes/monitoring-api.js:286-296 | for a minute or more, splitting the text on spaces gives back the positive components in the order d, h, m |
| MonitoringApi.UnderAMinute | V.O.C.E-main/monitor-backend/routes/monitoring-api.js:291-296 | the text is `< 1m` exactly when the seconds are fewer than 60 |
| MonitoringApi.UptimeExample | V.O.C.E-main/monitor-backend/routes/monitoring-api.js:286-297 | 90061 seconds read `1d 1h 1m` and 3600 read `1h` |
| MonitoringApi.ProjectHistory | V.O.C.E-main/monitor-backend/routes/monitoring-api.js:109-123 | the five series have the history's length; index i comes from snapshot i, a missing derived field becoming 0 |
| CategoryCache.ReconnectStrategy | V.O.C.E-main/monitor-backend/cache/redis-cache.js:21-27 | the client gives up exactly after more than 10 retries |
| CategoryCache.BackoffNeverReachesCap | V.O.C.E-main/monitor-backend/cache/redis-cache.js:21-27 | otherwise the delay is retries*100, at most 1000, so the 3000 cap never applies |
| CategoryCache.Key | V.O.C.E-main/monitor-backend/cache/redis-cache.js:97 | the key is the prefix followed by the lower-cased hostname |
| CategoryCache.KeyIgnoresCase | V.O.C.E-main/monitor-backend/cache/redis-cache.js:97 | two hostnames share a key exactly when they are equal ignoring case |
| CategoryCache.KeysAreNotCounters | V.O.C.E-main/monitor-backend/cache/redis-cache.js:97 | a category key never collides with a statistics counter |
| CategoryCache.Incremented | V.O.C.E-main/monitor-backend/cache/redis-cache.js:100-108 | INCR creates or updates only its own key |
| CategoryCache.IncrementAddsOne | V.O.C.E-main/monitor-backend/cache/redis-cache.js:100-108 | INCR of a counter adds one to its value |
| CategoryCache.LookupCountsOnce | V.O.C.E-main/monitor-backend/cache/redis-cache.js:91-115 | a lookup increments exactly one of hits (value found) and misses (not found) by one, and leaves every category entry unchanged |
| CategoryCache.SaveThenLookup | V.O.C.E-main/monitor-backend/cache/redis-cache.js:91-141 | a saved category is found again under any casing of the hostname, and counts as a hit |
| CategoryCache.ResetClearsCounters | V.O.C.E-main/monitor-backend/cache/redis-cache.js:253-263 | after a reset all three counters read 0 and the category entries are kept |
| CategoryCache.RedisCache.constructor | V.O.C.E-main/monitor-backend/cache/redis-cache.js:13-14 | no client and not available; the store is given |
| CategoryCache.RedisCache.Init | V.O.C.E-main/monitor-backend/cache/redis-cache.js:39-80 | a client exists afterwards, available exactly when the connection succeeded |
| CategoryCache.RedisCache.Handle | V.O.C.E-main/monitor-backend/cache/redis-cache.js:44-66 | `ready` makes the cache available; `error`, `reconnecting` and `end` make it unavailable; `connect` changes nothing |
| CategoryCache.RedisCache.GetCachedCategory | V.O.C.E-main/monitor-backend/cache/redis-cache.js:91-115 | when unusable, none and no counter touched; otherwise the cached category and exactly one counter incremented |
| CategoryCache.RedisCache.SetCachedCategory | V.O.C.E-main/monitor-backend/cache/redis-cache.js:124-141 | saved exactly when usable, and then the key holds the category |
| CategoryCache.RedisCache.InvalidateCachedCategory | V.O.C.E-main/monitor-backend/cache/redis-cache.js:149-167 | true exactly when usable and a key was deleted; false when unavailable |
| CategoryCache.RedisCache.GetCachedCategoriesBulk | V.O.C.E-main/monitor-backend/cache/redis-cache.js:174-196 | empty when unusable or for no hostnames; otherwise an original-case hostname is present exactly when its cached value is non-empty, with that value |
| CategoryCache.RedisCache.IncrementAICalls | V.O.C.E-main/monitor-backend/cache/redis-cache.js:241-248 | the AI-call counter goes up when usable; nothing changes otherwise |
| CategoryCache.RedisCache.ResetStats | V.O.C.E-main/monitor-backend/cache/redis-cache.js:253-263 | exactly the three counters are removed when usable; false and no change otherwise |
| Classifier.LeadingDigits | V.O.C.E-main/monitor-backend/classifier/simple_classifier.js:24 | the longest prefix of digits (hex digits after `0x`), stopping at the first other character |
| Classifier.ParseUnsigned | V.O.C.E-main/monitor-backend/classifier/simple_classifier.js:24 | the digits after a sign read as a non-negative number, or NaN when there is none |
| Classifier.ParseIntReadsLeadingNumber | V.O.C.E-main/monitor-backend/classifier/simple_classifier.js:24 | `parseInt` reads the decimal number at the start and ignores what follows |
| Classifier.ParseIntReadsHex | V.O.C.E-main/monitor-backend/classifier/simple_classifier.js:24 | `parseInt` reads `0x` followed by hex digits as a hexadecimal number |
| Classifier.ParseIntNaN | V.O.C.E-main/monitor-backend/classifier/simple_classifier.js:24 | a text starting with no digit, sign or space is NaN |
| Classifier.ParseInt | V.O.C.E-main/monitor-backend/classifier/simple_classifier.js:24 | blank text is NaN, and a negative result needs a `-` after the leading white space |
| Classifier.IsInternalIP | V.O.C.E-main/monitor-backend/classifier/simple_classifier.js:11-29 | only a trimmed address starting with `10.`, `192.168.` or `172.` can be internal |
| Classifier.TrimmedIsInternal | V.O.C.E-main/monitor-backend/classifier/simple_classifier.js:11-13 | trimming changes nothing for a text without surrounding spaces |
| Classifier.Internal172 | V.O.C.E-main/monitor-backend/classifier/simple_classifier.js:21-26 | an address starting with `172.` is internal exactly by its second field |
| Classifier.PrivateRange172 | V.O.C.E-main/monitor-backend/classifier/simple_classifier.js:21-26 | `172.x.…` is internal exactly when 16 <= x <= 31 |
| Classifier.HexSecondField | V.O.C.E-main/monitor-backend/classifier/simple_classifier.js:21-26 | `172.0x…` is internal exactly when the hexadecimal value is in 16..31 |
| Classifier.NotInternal | V.O.C.E-main/monitor-backend/classifier/simple_classifier.js:15-28 | an address not starting with `1` is never internal |
| Classifier.InternalExamples | V.O.C.E-main/monitor-backend/classifier/simple_classifier.js:15-19 | `192.168.` and `10.` addresses are internal |
| Classifier.Lookup | V.O.C.E-main/monitor-backend/classifier/simple_classifier.js:67-69 | a key is absent exactly when no entry has it; a found value belongs to an entry with that key |
| Classifier.Put | V.O.C.E-main/monitor-backend/classifier/simple_classifier.js:42 | a new key is appended at the end and an existing key keeps its place |
| Classifier.PutLookup | V.O.C.E-main/monitor-backend/classifier/simple_classifier.js:42 | after a put the key maps to the new category and other keys keep theirs |
| Classifier.PutKeepsDistinct | V.O.C.E-main/monitor-backend/classifier/simple_classifier.js:42 | a put keeps the keys distinct |
| Classifier.Row | V.O.C.E-main/monitor-backend/classifier/simple_classifier.js:36-44 | a kept row has a non-empty lower-case domain and a non-empty category |
| Classifier.Lines | V.O.C.E-main/monitor-backend/classifier/simple_classifier.js:34 | one line per newline-separated piece, each without its trailing carriage return |
| Classifier.Loaded | V.O.C.E-main/monitor-backend/classifier/simple_classifier.js:34-46 | the table never has more entries than the text has lines |
| Classifier.LoadedKeepsLast | V.O.C.E-main/monitor-backend/classifier/simple_classifier.js:34-46 | every domain maps to the category of its last valid row: later duplicates overwrite earlier ones |
| Classifier.LoadedIsWellFormed | V.O.C.E-main/monitor-backend/classifier/simple_classifier.js:34-46 | the loaded table has distinct, non-empty, lower-case keys and non-empty categories |
| Classifier.LoadDataset | V.O.C.E-main/monitor-backend/classifier/simple_classifier.js:31-50 | no file gives an empty table; otherwise the loop builds the fold of the rows, well-formed, each domain holding its last category |
| Classifier.Normalize | V.O.C.E-main/monitor-backend/classifier/simple_classifier.js:56-59 | the normalised name is never longer than the input and has no white space at either end |
| Classifier.ParentEntry | V.O.C.E-main/monitor-backend/classifier/simple_classifier.js:71-76 | a found entry is the first key, in map order, whose `.`-prefixed form ends the domain: it matches and no earlier key does; none means no key matches |
| Classifier.DatasetCategory | V.O.C.E-main/monitor-backend/classifier/simple_classifier.js:67-78 | the category is `Outros` or a value of the table |
| Classifier.Categorize | V.O.C.E-main/monitor-backend/classifier/simple_classifier.js:53-79 | a falsy input is `Outros`; every answer is `Outros`, `Interno` or a table value |
| Classifier.CategorizeIgnoresCase | V.O.C.E-main/monitor-backend/classifier/simple_classifier.js:56-59 | the category does not depend on letter case |
| Classifier.NormalizeOfLower | V.O.C.E-main/monitor-backend/classifier/simple_classifier.js:56-59 | lower-casing before normalising changes nothing |
| Classifier.CategorizeRules | V.O.C.E-main/monitor-backend/classifier/simple_classifier.js:53-79 | an internal address is `Interno`; otherwise an exact match wins, then the first parent-domain key, then `Outros` |
| Classifier.NormalizeDropsWww | V.O.C.E-main/monitor-backend/classifier/simple_classifier.js:56-59 | `www.` at the front is removed |
| Classifier.CategorizePlainName | V.O.C.E-main/monitor-backend/classifier/simple_classifier.js:53-79 | a lower-case name without `w`, surrounding space or `www.` is categorised as itself |
| Classifier.CategorizeWwwName | V.O.C.E-main/monitor-backend/classifier/simple_classifier.js:56-79 | a name and its `www.` form get the same category |
| Classifier.DatasetExamples | V.O.C.E-main/monitor-backend/classifier/simple_classifier.js:67-78 | `music.youtube.com` matches `youtube.com`, but `notyoutube.com` does not |
| ServerData.ChunksOf | V.O.C.E-chrome/monitor-backend/server.js:399-413 | no slices exactly for no identifiers, and never more slices than identifiers |
| ServerData.ChunksCoverList | V.O.C.E-chrome/monitor-backend/server.js:399-413 | the slices concatenate to the list; each has 1 to 10 identifiers, all but the last exactly 10, and there are ceil(n/10) of them |
| ServerData.QueryInChunks | V.O.C.E-chrome/monitor-backend/server.js:399-413 | the loop gathers the answers to the slices, in slice order |
| ServerData.Answers | V.O.C.E-chrome/monitor-backend/server.js:399-413 | one answer per slice, each the query's answer to it |
| ServerData.ChunkingIsTransparent | V.O.C.E-chrome/monitor-backend/server.js:399-413 | for a query that distributes over concatenation, asking in slices gives the answer to the whole list |
| ServerData.IdentifiersHaveNames | V.O.C.E-chrome/monitor-backend/server.js:606-623 | an identifier is collected exactly when some student document has it as CPF or PC id |
| ServerData.CollectIdentifiers | V.O.C.E-chrome/monitor-backend/server.js:606-623 | the loop collects the non-empty CPF and PC ids in document order and maps each to the name of the last document that has it |
| ServerData.StudentName | V.O.C.E-chrome/monitor-backend/server.js:546-548 | the name is present exactly when the map has a non-empty name for the identifier |
| ServerData.AttachNames | V.O.C.E-chrome/monitor-backend/server.js:546-548 | every log keeps its place and gets its student's name or null |
| ServerData.JoinFindsName | V.O.C.E-chrome/monitor-backend/server.js:533-548 | a student's non-empty name reaches the logs of its identifiers |
| ServerData.BelowTotal | V.O.C.E-chrome/monitor-backend/server.js:191 | the string order is total |
| ServerData.BelowTransitive | V.O.C.E-chrome/monitor-backend/server.js:191 | the string order is transitive |
| ServerData.InsertSorted | V.O.C.E-chrome/monitor-backend/server.js:191 | insertion keeps the list sorted and adds exactly the new element |
| ServerData.DashboardCategories | V.O.C.E-chrome/monitor-backend/server.js:183-191 | the list is sorted without repeats and holds exactly the non-empty categories that occur |
| ServerData.SortDistinct | V.O.C.E-chrome/monitor-backend/server.js:191 | sorting distinct strings gives a sorted list of the same elements |
| ServerData.LastActivityIsNewest | V.O.C.E-chrome/monitor-backend/server.js:672-674 | the last activity is set exactly when the student has a log, and is then the newest of its timestamps |
| ServerData.AlertIsSticky | V.O.C.E-chrome/monitor-backend/server.js:676-678 | the alert flag is set exactly when some log of the student has category `Rede Social` or `Jogos` |
| ServerData.AbsentSummary | V.O.C.E-chrome/monitor-backend/server.js:658-667 | a student without logs has count 0, duration 0, no last activity and no alert |
| ServerData.CountPositive | V.O.C.E-chrome/monitor-backend/server.js:654-670 | the log count is positive exactly for identifiers that have logs |
| ServerData.SummaryOf | V.O.C.E-chrome/monitor-backend/server.js:654-678 | the summary belongs to its student; its count is positive exactly when the student has logs, exactly then it has a last activity, and an alert flag implies a log |
| ServerData.SummaryStep | V.O.C.E-chrome/monitor-backend/server.js:654-678 | the summary of the logs so far changes, with one more log, only for that log's student, and by absorbing the log |
| ServerData.AbsorbSummarises | V.O.C.E-chrome/monitor-backend/server.js:654-678 | absorbing one log keeps every summary equal to the summary of the logs so far |
| ServerData.FirstIndex | V.O.C.E-chrome/monitor-backend/server.js:658-667 | the position of an identifier's first log: a log of that identifier with none before it |
| ServerData.Accumulate | V.O.C.E-chrome/monitor-backend/server.js:645-680 | there is one summary per identifier with logs, each the count, total duration, newest timestamp and alert flag of its logs; the identifiers are listed without repeats, ordered by the position of their first log |
| ServerData.InsertByActivity | V.O.C.E-chrome/monitor-backend/server.js:682-684 | insertion keeps the newest-first order and adds exactly the new summary |
| ServerData.SortByActivity | V.O.C.E-chrome/monitor-backend/server.js:682-684 | the summaries are rearranged, a permutation, so that the newest `last_activity` comes first |
| ServerData.Summarize | V.O.C.E-chrome/monitor-backend/server.js:645-684 | one summary per identifier with logs, newest activity first, each the summary of its logs |
| Extension.Hostname | V.O.C.E-main/monitor-extensao/js/background.js:76 | the host name is lower-case and holds no delimiter |
| Extension.HostnameOfPlainUrl | V.O.C.E-main/monitor-extensao/js/background.js:76 | the host name of `scheme://host/path` is the host, lower-cased |
| Extension.ElapsedSeconds | V.O.C.E-main/monitor-extensao/js/background.js:75 | the elapsed milliseconds round to the nearest second, and the duration exceeds 5 exactly from 5500 ms on |
| Extension.FirstTrackedTab | V.O.C.E-main/monitor-extensao/js/background.js:94 | the first tracked tab is the smallest tab id, none when no tab is tracked |
| Extension.Recorded | V.O.C.E-main/monitor-extensao/js/background.js:71-87 | nothing without a session or for 5 rounded seconds or less; otherwise one entry with the user name, the host name, the duration and the time |
| Extension.TabTracker.constructor | V.O.C.E-main/monitor-extensao/js/background.js:13-15 | no sessions, an empty buffer and the placeholder user name |
| Extension.TabTracker.GetOSUsername | V.O.C.E-main/monitor-extensao/js/background.js:21-38 | the native host's user name on success, an error marker otherwise |
| Extension.TabTracker.SendDataToServer | V.O.C.E-main/monitor-extensao/js/background.js:46-65 | nothing is sent for an empty buffer; otherwise the whole buffer is sent, and emptied only on an ok response |
| Extension.TabTracker.RecordTime | V.O.C.E-main/monitor-extensao/js/background.js:71-87 | the sessions are untouched and the buffer gains exactly the recorded entries |
| Extension.TabTracker.OnActivated | V.O.C.E-main/monitor-extensao/js/background.js:93-116 | the first tracked tab is recorded when it shows a web page and always loses its session; the new tab gets a session only for an `http` URL |
| Extension.TabTracker.OnUpdated | V.O.C.E-main/monitor-extensao/js/background.js:122-127 | an active tab navigating to an `http` URL is recorded and its session restarted; anything else changes nothing |

## Left out

- Timers: `setInterval` in `start` and the alert manager's one-minute cleanup timer are not modelled; a collection cycle is `RedisMonitor.CollectMetrics` and a cleanup is `AlertManager.CleanupRecentAlerts`, called explicitly. `start` and `stop` are modelled as the running flag and their events. The collection `start` runs at once (redis-monitor.js line 64, before `monitoring:started` at line 71) is left to the caller; with a closed client that collection emits `error` synchronously, so in the source `error` comes before `monitoring:started`, an order `RedisMonitor.Start` does not show.
- Concurrency: overlapping collection cycles, the `Promise.all`/`Promise.allSettled` fan-outs and the race in which entries pushed during an upload are lost when the buffer is reset are not modelled; every operation runs to completion on its own.
- The webhook POST runs concurrently with the console notification; the order of events is still fixed, and the model keeps it: the console notice is emitted synchronously, and the webhook's outcome only after its request settles.
- I/O: the Redis client, the webhook `fetch`, the log file writes, the console, the native-messaging host, the extension's `fetch` and Firestore are represented only by their outcomes, given as parameters; the webhook payload layout is not modelled beyond its colour value.
- RedisInfo.Step: a header naming `constructor` or `__proto__` is treated like any other section that was never created, so a pair under it fails (`RedisInfo.UnknownSectionFails`, `RedisInfo.HeaderThenPairFails`); in the source `metrics[currentSection]` is then a member inherited from `Object.prototype`, the assignment writes onto it, and parsing goes on. No Redis server emits these headers.
- RedisMetrics.TruthyNumber: an INFO value that parsed as text in a numeric slot is treated as absent; the source would compute with it (NaN or string concatenation).
- RedisMetrics.RecentlyRestarted: an uptime kept as text counts as a recent restart only when it is the empty text (which JavaScript reads as 0, below 300); any other text counts as no restart, although JavaScript converts numeric text such as `-5` or `1e2` to a number below 300 and reports a restart.
- RedisMetrics.Variance: the baselines state the variance; the source stores its square root, which has no Dafny counterpart.
- Floating point: percentages and rates are exact reals, apart from Infinity and NaN for divisions by zero; `toFixed(2)` is modelled as rounding half away from zero to two decimals on those reals, not on binary doubles.
- `new Date(...)` parsing in the alert statistics: timestamps are integers of milliseconds.
- AlertManaging.Process: `processAlert` reads the clock up to four times (the default timestamp, the id's minute, the duplicate check and the time stored for deduplication); the model takes one `now` for all of them, so a call that straddles a minute or millisecond boundary is not modelled.
- `getAlertHistory`'s default limit of 100 applies in the caller; the model takes the limit as an argument.
- RedisMonitoring.RedisMonitor.GetMetricsHistory: states only that the result is a suffix of the history; its exact length is stated by `HistoryWindowIsSuffix` about the function it returns.
- Extension.Hostname: `new URL(url).hostname` is modelled by a simplified authority parser: no IPv6 literals, IDNA, percent-decoding, default-port handling or error on a malformed URL.
- Extension listeners take one clock reading each, and the tab and URL lookups of the browser are parameters; the periodic upload alarm is not modelled. An entry's `timestamp` is that reading in integer milliseconds, not the ISO-8601 string `toISOString()` gives (the two order alike).
- Classifier: the `Object.keys` order of the category map is modelled as insertion order; the source would list integer-like domains first, and keys such as `__proto__` or `constructor` inherited from the prototype are not modelled. The dataset file is an optional text input.
- Lower-casing is ASCII-only in every module; strings compare by code point rather than UTF-16 code unit.
- CategoryCache.RedisCache.SetCachedCategory: the expiry (`ttl`, 30 days by default) passed with each SET is not modelled; a saved category stays until it is invalidated.
- CategoryCache: the store is one map from keys to strings, and only non-negative counters are modelled. An `INCR` of a key whose text is not a non-negative decimal counter leaves it unchanged. Redis would increment negative counter text such as `-5`, and would fail, with the source swallowing the error, on any other text. Counters are unbounded, so the failure of `INCR` past 2^63-1 is not modelled, and neither are failures of individual reads.
- ServerData: Firestore queries are an abstract function of the identifier slice; an identifier found in two slices can be counted twice, as in the source; timestamps are integers of milliseconds, where the source stores the ISO-8601 strings the extension sends; those strings are non-empty, so always truthy, and compare with `>` in the same order as the integers for years 0 to 9999; the sort of the fetched logs at server.js line 551 is not modelled. Before the sort, the summaries are taken in creation order; `Object.values` would list integer-like identifiers (a numeric `pc_id`) first, in ascending order, which matters only among students with equal `last_activity`. Express routing, sessions and authentication are not part of this model.
- `routes/api.js`, `routes/views.js`, `app.js`, `app-socket.js`, the Firebase configuration files, `models/db.js`, `server-powerbi.js` and the Python scripts are not part of this model.
- Where the prose description of the system and the code differ, the model follows the code: the AI reduction can be negative when AI calls exceed the total; deduplication ids carry the minute, so repeats in different minutes are never deduplicated whatever the window; and an INFO report with a `# Cluster` section (or any other section outside the eight pre-created ones, apart from the two inherited names below) makes every collection fail.

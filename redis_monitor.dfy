/**
 * The Redis monitor object: its configuration, its running flag, the
 * bounded snapshot history, the last snapshot and the learned baselines,
 * and the collection cycle that updates them.
 */
module RedisMonitoring {
  import opened Base
  import opened RedisInfo
  import opened Alerts
  import opened RedisMetrics

  /** The constructor options; `Some` is a key the caller set. */
  datatype MonitorOptions = MonitorOptions(interval: Option<int>, slowlogThreshold: Option<int>, historySize: Option<int>)

  const DefaultInterval := 30000
  const DefaultSlowlogThreshold := 10
  const DefaultHistorySize := 120

  /** `{ key: options.key || default, ...options }`: a key the caller set
      wins even when it is 0, because the spread comes last. */
  function OptionOr(v: Option<int>, default: int): (r: int)
    ensures v.Some? ==> r == v.value
    ensures v.None? ==> r == default
  {
    if v.Some? then v.value else default
  }

  datatype ErrorKind = NotConnected | CollectionFailed

  /** What the monitor emits, in emission order. */
  datatype MonitorEvent =
    | MonitoringStarted
    | MonitoringStopped
    | MonitorError(kind: ErrorKind)
    | AlertsTriggered(alerts: seq<Alert>)
    | MetricsCollected(snapshot: Snapshot)

  /** What one collection cycle reads from the outside world: whether the
      client is open, the INFO text (`None` when the call fails), the slow
      log (`None` when that call fails, which the source turns into []),
      the counters (`None` when reading them fails) and the three clock
      readings. */
  datatype CollectionInput = CollectionInput(
    clientOpen: bool,
    info: Option<string>,
    slowlog: Option<seq<SlowlogEntry>>,
    counters: Option<Counters>,
    startTime: int,
    endTime: int,
    timestamp: int)

  /** The snapshot a cycle builds, or `None` when the cycle fails. */
  function Collect(input: CollectionInput, previous: Option<Snapshot>): (r: Option<Snapshot>)
    ensures r.Some? <==> input.clientOpen && input.info.Some? && InfoSections(input.info.value).Some?
    ensures r.Some? ==>
      r.value.sections == InfoSections(input.info.value).value
      && r.value.application == ApplicationStats(input.counters)
      && r.value.timestamp == input.timestamp
      && r.value.collectionLatency == input.endTime - input.startTime
      && r.value.derived == Derive(r.value.sections, input.timestamp, previous)
      && (input.slowlog.None? ==> r.value.slowlog == [])
  {
    if !input.clientOpen || input.info.None? then None
    else match InfoSections(input.info.value)
      case None => None
      case Some(secs) =>
        Some(Snapshot(
          secs,
          ApplicationStats(input.counters),
          if input.slowlog.Some? then input.slowlog.value else [],
          input.timestamp,
          input.endTime - input.startTime,
          Derive(secs, input.timestamp, previous)))
  }

  /** The events of a successful cycle: the alerts, when there are any,
      then the snapshot. */
  function SuccessEvents(m: Snapshot): (e: seq<MonitorEvent>)
    ensures 1 <= |e| <= 2 && e[|e| - 1] == MetricsCollected(m)
    ensures |e| == 2 <==> CheckAlerts(m) != []
    ensures |e| == 2 ==> e[0] == AlertsTriggered(CheckAlerts(m))
  {
    var alerts := CheckAlerts(m);
    (if alerts != [] then [AlertsTriggered(alerts)] else []) + [MetricsCollected(m)]
  }

  /** The events of one cycle. */
  function CollectionEvents(input: CollectionInput, previous: Option<Snapshot>): (e: seq<MonitorEvent>)
    ensures !input.clientOpen ==> e == [MonitorError(NotConnected)]
    ensures input.clientOpen && Collect(input, previous).None? ==> e == [MonitorError(CollectionFailed)]
    ensures Collect(input, previous).Some? ==> e == SuccessEvents(Collect(input, previous).value)
  {
    if !input.clientOpen then [MonitorError(NotConnected)]
    else match Collect(input, previous)
      case None => [MonitorError(CollectionFailed)]
      case Some(m) => SuccessEvents(m)
  }

  /** The least integer `c` with `c * b >= a`, for a positive `b`. */
  function CeilDiv(a: int, b: int): int
    requires b > 0
  {
    -((-a) / b)
  }

  lemma CeilDivBounds(a: int, b: int)
    requires b > 0
    ensures CeilDiv(a, b) * b >= a && (CeilDiv(a, b) - 1) * b < a
    ensures a > 0 ==> CeilDiv(a, b) >= 1
  {
    var q := (-a) / b;
    var r := (-a) % b;
    assert -a == q * b + r && 0 <= r < b;
    assert CeilDiv(a, b) * b == -(q * b);
    assert (CeilDiv(a, b) - 1) * b == -(q * b) - b;
  }

  /** `Math.ceil(minutes * 60 / (interval / 1000))` as a JavaScript number:
      the number of snapshots that cover `minutes` when one is taken every
      `interval` milliseconds. */
  function SamplesNeeded(minutes: int, interval: int): (n: JsNumber)
    ensures interval > 0 ==> n == Finite(CeilDiv(minutes * 60000, interval) as real)
    ensures interval < 0 ==> n == Finite(CeilDiv(-minutes * 60000, -interval) as real)
    ensures interval == 0 ==> n == Divide(minutes as real * 60.0, 0.0)
  {
    if interval > 0 then Finite(CeilDiv(minutes * 60000, interval) as real)
    else if interval < 0 then Finite(CeilDiv(-minutes * 60000, -interval) as real)
    else Divide(minutes as real * 60.0, 0.0)
  }

  /** `history.slice(-samplesNeeded)`: -Infinity keeps everything, +Infinity
      nothing, and NaN (0 / 0) like 0 keeps everything. */
  function LastSamples<T>(history: seq<T>, n: JsNumber): seq<T>
  {
    match n
    case Finite(r) => SliceFrom(history, -(r.Floor))
    case PosInfinity => history
    case NegInfinity => []
    case NaN => history
  }

  /** With the default 30-second interval, the last hour is the last 120
      snapshots, and a request for 0 minutes returns the whole history
      because `slice(-0)` is `slice(0)`. */
  lemma HistoryWindowExamples<T>(history: seq<T>)
    ensures |history| >= 120 ==>
      LastSamples(history, SamplesNeeded(60, DefaultInterval)) == history[|history| - 120..]
    ensures LastSamples(history, SamplesNeeded(0, DefaultInterval)) == history
  {
    assert CeilDiv(60 * 60000, DefaultInterval) == 120;
    assert CeilDiv(0, DefaultInterval) == 0;
  }

  /** For a positive interval and a positive number of minutes, the result
      is the newest part of the history, of the length the interval implies. */
  lemma HistoryWindowIsSuffix<T>(history: seq<T>, minutes: int, interval: int)
    requires interval > 0 && minutes > 0
    ensures var r := LastSamples(history, SamplesNeeded(minutes, interval));
      var n := CeilDiv(minutes * 60000, interval);
      n >= 1 && n * interval >= minutes * 60000 && (n - 1) * interval < minutes * 60000
      && |r| == (if n <= |history| then n else |history|)
      && r == history[|history| - |r|..]
  {
    CeilDivBounds(minutes * 60000, interval);
  }

  class RedisMonitor {
    const interval: int
    const slowlogThreshold: int
    const historySize: int
    var isMonitoring: bool
    var metricsHistory: seq<Snapshot>
    var lastMetrics: Option<Snapshot>
    var baseline: Baselines

    /** The history stays within `historySize` (none at all for a size of
        0 or less), the newest snapshot is `lastMetrics`, and every baseline
        is within its cap with current statistics. */
    ghost predicate Valid()
      reads this
    {
      |metricsHistory| <= (if historySize < 0 then 0 else historySize)
      && (historySize >= 1 && lastMetrics.Some? ==>
            |metricsHistory| >= 1 && metricsHistory[|metricsHistory| - 1] == lastMetrics.value)
      && BaselinesValid(baseline)
    }

    constructor (options: MonitorOptions)
      ensures Valid()
      ensures interval == OptionOr(options.interval, DefaultInterval)
      ensures slowlogThreshold == OptionOr(options.slowlogThreshold, DefaultSlowlogThreshold)
      ensures historySize == OptionOr(options.historySize, DefaultHistorySize)
      ensures !isMonitoring && metricsHistory == [] && lastMetrics.None? && baseline == InitialBaselines
    {
      interval := OptionOr(options.interval, DefaultInterval);
      slowlogThreshold := OptionOr(options.slowlogThreshold, DefaultSlowlogThreshold);
      historySize := OptionOr(options.historySize, DefaultHistorySize);
      isMonitoring := false;
      metricsHistory := [];
      lastMetrics := None;
      baseline := InitialBaselines;
    }

    /** `start`: a second start is refused; the first one emits
        `monitoring:started`. */
    method Start() returns (events: seq<MonitorEvent>)
      modifies this
      ensures isMonitoring
      ensures events == if old(isMonitoring) then [] else [MonitoringStarted]
      ensures metricsHistory == old(metricsHistory) && lastMetrics == old(lastMetrics) && baseline == old(baseline)
    {
      if isMonitoring {
        return [];
      }
      isMonitoring := true;
      events := [MonitoringStarted];
    }

    /** `stop`: only a running monitor stops, emitting `monitoring:stopped`. */
    method Stop() returns (events: seq<MonitorEvent>)
      modifies this
      ensures !isMonitoring
      ensures events == if old(isMonitoring) then [MonitoringStopped] else []
      ensures metricsHistory == old(metricsHistory) && lastMetrics == old(lastMetrics) && baseline == old(baseline)
    {
      if !isMonitoring {
        return [];
      }
      isMonitoring := false;
      events := [MonitoringStopped];
    }

    /** `collectMetrics`: a failed cycle changes nothing; a successful one
        appends the snapshot to the bounded history, feeds the baselines
        and becomes the last snapshot. */
    method CollectMetrics(input: CollectionInput) returns (result: Option<Snapshot>, events: seq<MonitorEvent>)
      requires Valid()
      modifies this
      ensures Valid()
      ensures result == Collect(input, old(lastMetrics))
      ensures events == CollectionEvents(input, old(lastMetrics))
      ensures isMonitoring == old(isMonitoring)
      ensures result.None? ==>
        metricsHistory == old(metricsHistory) && lastMetrics == old(lastMetrics) && baseline == old(baseline)
      ensures result.Some? ==>
        metricsHistory == PushShift(old(metricsHistory), result.value, historySize)
        && lastMetrics == result
        && baseline == UpdateBaselines(old(baseline), result.value)
    {
      events := CollectionEvents(input, lastMetrics);
      result := Collect(input, lastMetrics);
      if result.Some? {
        Record(result.value);
      }
    }

    /** `addToHistory` and `updateBaseline`, then `this.lastMetrics = metrics`. */
    method Record(m: Snapshot)
      requires Valid()
      modifies this
      ensures Valid()
      ensures isMonitoring == old(isMonitoring)
      ensures metricsHistory == PushShift(old(metricsHistory), m, historySize)
      ensures lastMetrics == Some(m)
      ensures baseline == UpdateBaselines(old(baseline), m)
    {
      PushShiftBounded(metricsHistory, m, historySize);
      metricsHistory := PushShift(metricsHistory, m, historySize);
      UpdateKeepsBaselinesValid(baseline, m);
      baseline := UpdateBaselines(baseline, m);
      lastMetrics := Some(m);
    }

    /** `getMetricsHistory`. */
    function GetMetricsHistory(minutes: int): (r: seq<Snapshot>)
      reads this
      ensures |r| <= |metricsHistory| && r == metricsHistory[|metricsHistory| - |r|..]
    {
      LastSamples(metricsHistory, SamplesNeeded(minutes, interval))
    }

    /** `getHealthStatus`. */
    function GetHealthStatus(): (h: HealthStatus)
      reads this
      ensures h.Unknown? <==> lastMetrics.None?
    {
      HealthOf(lastMetrics)
    }
  }
}

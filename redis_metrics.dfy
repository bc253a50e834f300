/**
 * What one collection cycle of the Redis monitor computes from what it read:
 * the application hit rate, the derived metrics, the baseline statistics,
 * the alert ladder and the health classification.
 */
module RedisMetrics {
  import opened Base
  import opened RedisInfo
  import opened Alerts

  // ---------------------------------------------------------------------
  // Application counters
  // ---------------------------------------------------------------------

  /** The three counters as `parseInt(v) || 0` leaves them. */
  datatype Counters = Counters(hits: int, misses: int, aiCalls: int)

  /** The figures `getApplicationStats` computes. Its `errors` and
      `slowCommands` fields only copy the counters of the `recordError` and
      `recordSlowCommand` hooks, which the monitor itself never calls; they
      are left out. */
  datatype AppStats = AppStats(hits: int, misses: int, total: int, hitRate: real, aiCalls: int, aiReduction: real)

  const ZeroStats := AppStats(0, 0, 0, 0.0, 0, 0.0)

  /** `getApplicationStats`; `None` is a failed counter read, which the
      source catches and answers with all zeros. */
  function ApplicationStats(read: Option<Counters>): (s: AppStats)
    ensures read.None? ==> s == ZeroStats
    ensures read.Some? ==>
      s.hits == read.value.hits && s.misses == read.value.misses
      && s.aiCalls == read.value.aiCalls && s.total == s.hits + s.misses
    ensures s.total <= 0 ==> s.hitRate == 0.0 && s.aiReduction == 0.0
  {
    match read
    case None => ZeroStats
    case Some(c) =>
      var total := c.hits + c.misses;
      var hitRate := if total > 0 then c.hits as real / total as real * 100.0 else 0.0;
      var aiReduction := if total > 0 then 100.0 - c.aiCalls as real / total as real * 100.0 else 0.0;
      AppStats(c.hits, c.misses, total, hitRate, c.aiCalls, aiReduction)
  }

  /** With non-negative counters the hit rate is a percentage, and hits and
      misses split 100 between them. */
  lemma HitRateIsPercentage(c: Counters)
    requires c.hits >= 0 && c.misses >= 0
    ensures var s := ApplicationStats(Some(c));
      0.0 <= s.hitRate <= 100.0
      && (s.total > 0 ==> s.hitRate == 100.0 - c.misses as real / s.total as real * 100.0)
      && (s.total > 0 && c.misses == 0 ==> s.hitRate == 100.0)
  {
    var s := ApplicationStats(Some(c));
    if s.total > 0 {
      var t := s.total as real;
      assert c.hits as real / t * 100.0 <= 100.0 by {
        assert c.hits as real <= t;
        DivideAtMostOne(c.hits as real, t);
      }
      assert c.hits as real / t + c.misses as real / t == 1.0;
    }
  }

  lemma DivideAtMostOne(a: real, t: real)
    requires 0.0 <= a <= t && t > 0.0
    ensures 0.0 <= a / t <= 1.0
  {
  }

  /** The AI-reduction figure is a percentage only while the AI calls do not
      outnumber the lookups; otherwise it goes negative. */
  lemma AiReductionRange(c: Counters)
    requires c.hits + c.misses > 0
    ensures var s := ApplicationStats(Some(c));
      (0 <= c.aiCalls <= s.total ==> 0.0 <= s.aiReduction <= 100.0)
      && (c.aiCalls > s.total ==> s.aiReduction < 0.0)
  {
    var s := ApplicationStats(Some(c));
    var t := s.total as real;
    if 0 <= c.aiCalls <= s.total {
      DivideAtMostOne(c.aiCalls as real, t);
    }
    if c.aiCalls > s.total {
      assert c.aiCalls as real / t > 1.0;
    }
  }

  // ---------------------------------------------------------------------
  // Snapshots and derived metrics
  // ---------------------------------------------------------------------

  /** One slow-log record; the monitor only carries these along. */
  datatype SlowlogEntry = SlowlogEntry(id: int, durationMicros: int, command: seq<string>)

  /** `x.toFixed(2)` read back with `parseFloat`: the nearest multiple of
      0.01, ties away from zero (the sign is set aside first). */
  function Round2(x: real): (r: real)
    ensures -0.005 <= r - x <= 0.005
    ensures x >= 0.0 ==> r >= 0.0
    ensures x <= 0.0 ==> r <= 0.0
  {
    if x < 0.0 then -HalfUp(-x) else HalfUp(x)
  }

  function HalfUp(x: real): (r: real)
    requires x >= 0.0
    ensures -0.005 < r - x <= 0.005 && r >= 0.0
  {
    var f := (x * 100.0 + 0.5).Floor;
    assert f as real <= x * 100.0 + 0.5 < f as real + 1.0;
    f as real / 100.0
  }

  /** Two-decimal values come back unchanged. */
  lemma Round2OfCents(n: int)
    ensures Round2(n as real / 100.0) == n as real / 100.0
  {
    var x := n as real / 100.0;
    if n >= 0 {
      assert (x * 100.0 + 0.5).Floor == n;
    } else {
      assert (-x * 100.0 + 0.5).Floor == -n;
    }
  }

  /** `toFixed(2)` of a JavaScript number: "Infinity", "-Infinity" and "NaN"
      read back as themselves. */
  function RoundNumber(n: JsNumber): (r: JsNumber)
    ensures n.Finite? <==> r.Finite?
    ensures !n.Finite? ==> r == n
    ensures n.Finite? ==> -0.005 <= r.r - n.r <= 0.005
  {
    if n.Finite? then Finite(Round2(n.r)) else n
  }

  /** The optional derived fields, as the numbers their two-decimal strings
      denote. The two rates are JavaScript numbers because the elapsed time
      between snapshots may be zero. */
  datatype Derived = Derived(
    avgCommandLatency: Option<real>,
    memoryFragmentation: Option<real>,
    memoryUsagePercent: Option<real>,
    evictionRate: Option<JsNumber>,
    commandsPerSecond: Option<JsNumber>)

  datatype Snapshot = Snapshot(
    sections: Sections,
    application: AppStats,
    slowlog: seq<SlowlogEntry>,
    timestamp: int,
    collectionLatency: int,
    derived: Derived)

  function Field(secs: Sections, section: string, key: string): Option<Value>
  {
    if section in secs && key in secs[section] then Some(secs[section][key]) else None
  }

  /** A status field that is present, numeric and non-zero (truthy). */
  function TruthyNumber(secs: Sections, section: string, key: string): (r: Option<real>)
    ensures r.Some? ==> r.value != 0.0
    ensures Field(secs, section, key).None? || Field(secs, section, key).value.TextValue? ==> r.None?
  {
    match Field(secs, section, key)
    case Some(IntValue(i)) => if i != 0 then Some(i as real) else None
    case Some(FloatValue(x)) => if x != 0.0 then Some(x) else None
    case _ => None
  }

  /** `previous.stats[key] || 0`. */
  function PreviousCounter(secs: Sections, section: string, key: string): real
  {
    match TruthyNumber(secs, section, key)
    case Some(x) => x
    case None => 0.0
  }

  /** A per-second rate between the previous snapshot and this one, before
      rounding. */
  function Rate(now: real, before: real, t: int, tPrev: int): JsNumber
  {
    Divide(now - before, (t - tPrev) as real / 1000.0)
  }

  predicate Near(a: real, b: real) { -0.005 <= a - b <= 0.005 }

  /** `calculateDerivedMetrics`: each field only when its inputs are there,
      the two rates only from the second snapshot on; every value is the
      exact quotient rounded to two decimals. */
  function Derive(secs: Sections, timestamp: int, previous: Option<Snapshot>): (d: Derived)
    ensures d.avgCommandLatency.Some? <==> TruthyNumber(secs, "stats", "instantaneous_ops_per_sec").Some?
    ensures d.memoryFragmentation.Some? <==>
      TruthyNumber(secs, "memory", "used_memory").Some? && TruthyNumber(secs, "memory", "used_memory_rss").Some?
    ensures d.memoryUsagePercent.Some? <==>
      TruthyNumber(secs, "memory", "used_memory").Some? && TruthyNumber(secs, "memory", "maxmemory").Some?
    ensures d.evictionRate.Some? <==> previous.Some? && TruthyNumber(secs, "stats", "evicted_keys").Some?
    ensures d.commandsPerSecond.Some? <==>
      previous.Some? && TruthyNumber(secs, "stats", "total_commands_processed").Some?
    ensures d.avgCommandLatency.Some? ==>
      Near(d.avgCommandLatency.value, 1000.0 / TruthyNumber(secs, "stats", "instantaneous_ops_per_sec").value)
    ensures d.memoryUsagePercent.Some? ==>
      Near(d.memoryUsagePercent.value,
           TruthyNumber(secs, "memory", "used_memory").value / TruthyNumber(secs, "memory", "maxmemory").value * 100.0)
    ensures d.evictionRate.Some? ==> (d.evictionRate.value.Finite? <==> timestamp != previous.value.timestamp)
    ensures d.commandsPerSecond.Some? ==> (d.commandsPerSecond.value.Finite? <==> timestamp != previous.value.timestamp)
  {
    var ops := TruthyNumber(secs, "stats", "instantaneous_ops_per_sec");
    var used := TruthyNumber(secs, "memory", "used_memory");
    var rss := TruthyNumber(secs, "memory", "used_memory_rss");
    var max := TruthyNumber(secs, "memory", "maxmemory");
    var evicted := TruthyNumber(secs, "stats", "evicted_keys");
    var commands := TruthyNumber(secs, "stats", "total_commands_processed");
    Derived(
      if ops.Some? then Some(Round2(1000.0 / ops.value)) else None,
      if used.Some? && rss.Some? then Some(Round2(rss.value / used.value)) else None,
      if used.Some? && max.Some? then Some(Round2(used.value / max.value * 100.0)) else None,
      if previous.Some? && evicted.Some? then
        Some(RoundNumber(Rate(evicted.value, PreviousCounter(previous.value.sections, "stats", "evicted_keys"),
                              timestamp, previous.value.timestamp)))
      else None,
      if previous.Some? && commands.Some? then
        Some(RoundNumber(Rate(commands.value, PreviousCounter(previous.value.sections, "stats", "total_commands_processed"),
                              timestamp, previous.value.timestamp)))
      else None)
  }

  /** From the second snapshot on, with a counter that did not go down and a
      clock that moved forward, the rate is a finite non-negative number;
      two snapshots in the same millisecond give Infinity, or NaN when the
      counter did not move. */
  lemma RateSigns(now: real, before: real, t: int, tPrev: int)
    ensures now >= before && t > tPrev ==> var q := RoundNumber(Rate(now, before, t, tPrev)); q.Finite? && q.r >= 0.0
    ensures t == tPrev && now > before ==> RoundNumber(Rate(now, before, t, tPrev)) == PosInfinity
    ensures t == tPrev && now == before ==> RoundNumber(Rate(now, before, t, tPrev)) == NaN
  {
    if now >= before && t > tPrev {
      var dt := (t - tPrev) as real / 1000.0;
      assert dt > 0.0;
      assert (now - before) / dt >= 0.0;
    }
  }

  /** A memory usage above 100% is reported as it is, not clamped. */
  lemma UsageAboveFullIsReported(secs: Sections, timestamp: int)
    requires TruthyNumber(secs, "memory", "used_memory") == Some(200.0)
    requires TruthyNumber(secs, "memory", "maxmemory") == Some(100.0)
    ensures Derive(secs, timestamp, None).memoryUsagePercent == Some(200.0)
  {
    Round2OfCents(20000);
  }

  // ---------------------------------------------------------------------
  // Baseline windows
  // ---------------------------------------------------------------------

  const BaselineCap := 1000

  function Sum(s: seq<real>): real
  {
    if s == [] then 0.0 else s[0] + Sum(s[1..])
  }

  /** `calculateAverage`: the arithmetic mean, 0 for no samples. */
  function Mean(s: seq<real>): (r: real)
    ensures |s| == 0 ==> r == 0.0
    ensures |s| > 0 ==> r * (|s| as real) == Sum(s)
    ensures |s| == 1 ==> r == s[0]
  {
    if |s| == 0 then 0.0 else Sum(s) / |s| as real
  }

  /** Squares go through a two-argument product so that the solver's
      reasoning about them stays linear. */
  function Times(a: real, b: real): real { a * b }

  function Sq(x: real): real { Times(x, x) }

  function SquaredDeviations(s: seq<real>, m: real): (d: seq<real>)
    ensures |d| == |s| && forall i :: 0 <= i < |s| ==> d[i] == Sq(s[i] - m)
  {
    seq(|s|, i requires 0 <= i < |s| => Sq(s[i] - m))
  }

  /** The square of `calculateStdDev`: the population variance. */
  function Variance(s: seq<real>): (r: real)
    ensures |s| <= 1 ==> r == 0.0
  {
    if |s| == 0 then 0.0 else Mean(SquaredDeviations(s, Mean(s)))
  }

  /** One baseline record: its sample window and the statistics of it. */
  datatype Window = Window(samples: seq<real>, avg: real, variance: real)

  const EmptyWindow := Window([], 0.0, 0.0)

  ghost predicate WindowValid(w: Window)
  {
    |w.samples| <= BaselineCap && w.avg == Mean(w.samples) && w.variance == Variance(w.samples)
  }

  /** Pushing a sample into a baseline and recomputing its statistics. */
  function Push(w: Window, x: real): (w': Window)
    ensures w'.avg == Mean(w'.samples) && w'.variance == Variance(w'.samples)
  {
    var s := PushShift(w.samples, x, BaselineCap);
    Window(s, Mean(s), Variance(s))
  }

  /** The window stays within 1000 samples; the newest sample is last; the
      oldest one leaves first, and only when the window was full. */
  lemma PushIsFifo(w: Window, x: real)
    requires WindowValid(w)
    ensures WindowValid(Push(w, x))
    ensures var s := Push(w, x).samples;
      |s| > 0 && s[|s| - 1] == x
      && (|w.samples| < BaselineCap ==> s == w.samples + [x])
      && (|w.samples| == BaselineCap ==> s == w.samples[1..] + [x])
  {
  }

  lemma {:induction false} SumBounds(s: seq<real>, lo: real, hi: real)
    requires forall i :: 0 <= i < |s| ==> lo <= s[i] <= hi
    ensures |s| as real * lo <= Sum(s) <= |s| as real * hi
  {
    if s != [] {
      SumBounds(s[1..], lo, hi);
    }
  }

  /** The mean lies between the smallest and the largest sample. */
  lemma MeanWithinRange(s: seq<real>, lo: real, hi: real)
    requires |s| > 0
    requires forall i :: 0 <= i < |s| ==> lo <= s[i] <= hi
    ensures lo <= Mean(s) <= hi
  {
    SumBounds(s, lo, hi);
    var n := |s| as real;
    assert Sum(s) / n >= lo by {
      assert Sum(s) >= n * lo;
    }
    assert Sum(s) / n <= hi by {
      assert Sum(s) <= n * hi;
    }
  }

  lemma {:induction false} SumOfNonNegative(s: seq<real>)
    requires forall i :: 0 <= i < |s| ==> s[i] >= 0.0
    ensures Sum(s) >= 0.0
    ensures Sum(s) == 0.0 ==> forall i :: 0 <= i < |s| ==> s[i] == 0.0
  {
    if s != [] {
      SumOfNonNegative(s[1..]);
      forall i | 1 <= i < |s| ensures s[i] == s[1..][i - 1] { }
    }
  }

  lemma {:induction false} SumOfZeros(s: seq<real>)
    requires forall i :: 0 <= i < |s| ==> s[i] == 0.0
    ensures Sum(s) == 0.0
  {
    if s != [] {
      SumOfZeros(s[1..]);
    }
  }

  /** The variance is never negative, and it is zero exactly when every
      sample equals the mean. */
  lemma VarianceZeroIffFlat(s: seq<real>)
    ensures Variance(s) >= 0.0
    ensures Variance(s) == 0.0 <==> forall i :: 0 <= i < |s| ==> s[i] == Mean(s)
  {
    if |s| > 0 {
      var d := SquaredDeviations(s, Mean(s));
      forall i | 0 <= i < |d| ensures d[i] >= 0.0 {
        Square(s[i] - Mean(s));
      }
      SumOfNonNegative(d);
      if forall i :: 0 <= i < |s| ==> s[i] == Mean(s) {
        SumOfZeros(d);
      }
      if Variance(s) == 0.0 {
        assert Sum(d) == 0.0;
        forall i | 0 <= i < |s| ensures s[i] == Mean(s) {
          assert d[i] == 0.0;
          Square(s[i] - Mean(s));
        }
      }
    }
  }

  lemma ProductOfPositives(a: real, b: real)
    requires a > 0.0 && b > 0.0
    ensures Times(a, b) > 0.0
  {
  }

  lemma ProductOfNegatives(a: real, b: real)
    requires a < 0.0 && b < 0.0
    ensures Times(a, b) > 0.0
  {
  }

  lemma Square(x: real)
    ensures Sq(x) >= 0.0
    ensures x != 0.0 ==> Sq(x) > 0.0
  {
    if x > 0.0 {
      ProductOfPositives(x, x);
    } else if x < 0.0 {
      ProductOfNegatives(x, x);
    }
  }

  /** The window [10, 20, 30] has mean 20 and population variance 200/3. */
  lemma ThreeSampleExample()
    ensures Mean([10.0, 20.0, 30.0]) == 20.0
    ensures Variance([10.0, 20.0, 30.0]) == 200.0 / 3.0
  {
    var s := [10.0, 20.0, 30.0];
    assert Sum(s[2..]) == 30.0;
    assert Sum(s[1..]) == 50.0;
    assert Sum(s) == 60.0;
    var d := SquaredDeviations(s, 20.0);
    assert d == [100.0, 0.0, 100.0];
    assert Sum(d[2..]) == 100.0;
    assert Sum(d[1..]) == 100.0;
    assert Sum(d) == 200.0;
  }

  /** The three learned baselines. */
  datatype Baselines = Baselines(hitRate: Window, latency: Window, memory: Window)

  const InitialBaselines := Baselines(EmptyWindow, EmptyWindow, EmptyWindow)

  ghost predicate BaselinesValid(b: Baselines)
  {
    WindowValid(b.hitRate) && WindowValid(b.latency) && WindowValid(b.memory)
  }

  function PushIfPresent(w: Window, sample: Option<real>): Window
  {
    if sample.Some? then Push(w, sample.value) else w
  }

  /** `updateBaseline`: a positive hit rate, a derived latency and a truthy
      `used_memory` each feed their own window; nothing else changes. */
  function UpdateBaselines(b: Baselines, m: Snapshot): (b': Baselines)
    ensures m.application.hitRate > 0.0 ==> b'.hitRate == Push(b.hitRate, m.application.hitRate)
    ensures m.application.hitRate <= 0.0 ==> b'.hitRate == b.hitRate
    ensures b'.latency == PushIfPresent(b.latency, m.derived.avgCommandLatency)
    ensures b'.memory == PushIfPresent(b.memory, TruthyNumber(m.sections, "memory", "used_memory"))
  {
    Baselines(
      if m.application.hitRate > 0.0 then Push(b.hitRate, m.application.hitRate) else b.hitRate,
      PushIfPresent(b.latency, m.derived.avgCommandLatency),
      PushIfPresent(b.memory, TruthyNumber(m.sections, "memory", "used_memory")))
  }

  /** Updating keeps every window within its cap and its statistics current. */
  lemma UpdateKeepsBaselinesValid(b: Baselines, m: Snapshot)
    requires BaselinesValid(b)
    ensures BaselinesValid(UpdateBaselines(b, m))
  {
    if m.application.hitRate > 0.0 { PushIsFifo(b.hitRate, m.application.hitRate); }
    if m.derived.avgCommandLatency.Some? { PushIsFifo(b.latency, m.derived.avgCommandLatency.value); }
    var mem := TruthyNumber(m.sections, "memory", "used_memory");
    if mem.Some? { PushIsFifo(b.memory, mem.value); }
  }

  // ---------------------------------------------------------------------
  // Alert ladder
  // ---------------------------------------------------------------------

  function NewAlert(level: string, metric: string, value: JsNumber, threshold: real): Alert
  {
    Alert(level, metric, value, threshold, None, None)
  }

  /** `rejected_connections && rejected_connections > 0`. */
  function RejectedConnections(secs: Sections): Option<real>
  {
    match TruthyNumber(secs, "stats", "rejected_connections")
    case Some(x) => if x > 0.0 then Some(x) else None
    case None => None
  }

  function HitRateRule(h: real): seq<Alert>
  {
    if h < 70.0 then [NewAlert(LevelCritical, "hit_rate", Finite(h), 70.0)]
    else if h < 80.0 then [NewAlert(LevelWarning, "hit_rate", Finite(h), 80.0)]
    else []
  }

  function AboveRule(metric: string, v: Option<JsNumber>, critical: real, warning: real): seq<Alert>
  {
    match v
    case None => []
    case Some(x) =>
      if Exceeds(x, critical) then [NewAlert(LevelCritical, metric, x, critical)]
      else if Exceeds(x, warning) then [NewAlert(LevelWarning, metric, x, warning)]
      else []
  }

  function AsNumber(v: Option<real>): Option<JsNumber>
  {
    match v
    case None => None
    case Some(x) => Some(Finite(x))
  }

  /** Rejected connections raise an ERROR with threshold 0. */
  function RejectedRule(secs: Sections): seq<Alert>
  {
    match RejectedConnections(secs)
    case Some(x) => [NewAlert(LevelError, "rejected_connections", Finite(x), 0.0)]
    case None => []
  }

  /** The alerts `checkAlerts` raises for a snapshot, in rule order. */
  function CheckAlerts(m: Snapshot): (r: seq<Alert>)
    ensures |r| <= 5
    ensures forall i :: 0 <= i < |r| ==> r[i].level != LevelInfo
  {
    HitRateRule(m.application.hitRate)
    + AboveRule("latency", AsNumber(m.derived.avgCommandLatency), 200.0, 100.0)
    + AboveRule("memory", AsNumber(m.derived.memoryUsagePercent), 95.0, 90.0)
    + AboveRule("evictions", m.derived.evictionRate, 100.0, 10.0)
    + RejectedRule(m.sections)
  }

  predicate Raised(alerts: seq<Alert>, metric: string, level: string)
  {
    exists i :: 0 <= i < |alerts| && alerts[i].metric == metric && alerts[i].level == level
  }

  /** The hit-rate band: below 70 is CRITICAL, from 70 to below 80 is WARNING,
      and a snapshot without traffic (hit rate 0) is CRITICAL. */
  lemma HitRateBands(m: Snapshot)
    ensures Raised(CheckAlerts(m), "hit_rate", LevelCritical) <==> m.application.hitRate < 70.0
    ensures Raised(CheckAlerts(m), "hit_rate", LevelWarning) <==> 70.0 <= m.application.hitRate < 80.0
  {
    var a := CheckAlerts(m);
    var h := HitRateRule(m.application.hitRate);
    var rest := a[|h|..];
    assert a == h + rest;
    forall i | 0 <= i < |rest| ensures rest[i].metric != "hit_rate" {
      RestMetrics(m, i);
    }
    if m.application.hitRate < 70.0 {
      assert a[0] == h[0];
    } else if m.application.hitRate < 80.0 {
      assert a[0] == h[0];
    }
  }

  lemma RaisedConcat(a: seq<Alert>, b: seq<Alert>, metric: string, level: string)
    ensures Raised(a + b, metric, level) <==> Raised(a, metric, level) || Raised(b, metric, level)
  {
    if Raised(a + b, metric, level) {
      var k :| 0 <= k < |a + b| && (a + b)[k].metric == metric && (a + b)[k].level == level;
      if k >= |a| {
        assert b[k - |a|] == (a + b)[k];
      }
    }
    if Raised(a, metric, level) {
      var k :| 0 <= k < |a| && a[k].metric == metric && a[k].level == level;
      assert (a + b)[k] == a[k];
    }
    if Raised(b, metric, level) {
      var k :| 0 <= k < |b| && b[k].metric == metric && b[k].level == level;
      assert (a + b)[|a| + k] == b[k];
    }
  }

  /** An alert is raised by the snapshot exactly when one of the five rules
      raises it. */
  lemma RaisedByRules(m: Snapshot, metric: string, level: string)
    ensures Raised(CheckAlerts(m), metric, level) <==>
      Raised(HitRateRule(m.application.hitRate), metric, level)
      || Raised(AboveRule("latency", AsNumber(m.derived.avgCommandLatency), 200.0, 100.0), metric, level)
      || Raised(AboveRule("memory", AsNumber(m.derived.memoryUsagePercent), 95.0, 90.0), metric, level)
      || Raised(AboveRule("evictions", m.derived.evictionRate, 100.0, 10.0), metric, level)
      || Raised(RejectedRule(m.sections), metric, level)
  {
    var r0 := HitRateRule(m.application.hitRate);
    var r1 := AboveRule("latency", AsNumber(m.derived.avgCommandLatency), 200.0, 100.0);
    var r2 := AboveRule("memory", AsNumber(m.derived.memoryUsagePercent), 95.0, 90.0);
    var r3 := AboveRule("evictions", m.derived.evictionRate, 100.0, 10.0);
    var r4 := RejectedRule(m.sections);
    assert CheckAlerts(m) == r0 + r1 + r2 + r3 + r4;
    RaisedConcat(r0 + r1 + r2 + r3, r4, metric, level);
    RaisedConcat(r0 + r1 + r2, r3, metric, level);
    RaisedConcat(r0 + r1, r2, metric, level);
    RaisedConcat(r0, r1, metric, level);
  }

  /** One threshold rule raises CRITICAL strictly above the critical
      threshold, WARNING strictly above the warning threshold up to the
      critical one, and nothing for a missing value; only under its own
      metric name. */
  lemma AboveRuleRaises(metric: string, v: Option<JsNumber>, critical: real, warning: real, name: string, level: string)
    ensures Raised(AboveRule(metric, v, critical, warning), name, level) <==>
      name == metric && v.Some?
      && ((level == LevelCritical && Exceeds(v.value, critical))
          || (level == LevelWarning && Exceeds(v.value, warning) && !Exceeds(v.value, critical)))
  {
    var r := AboveRule(metric, v, critical, warning);
    if r != [] {
      assert Raised(r, name, level) <==> r[0].metric == name && r[0].level == level;
    }
  }

  /** The latency bands: CRITICAL above 200 ms, WARNING above 100 ms up to
      200 ms. */
  lemma LatencyBands(m: Snapshot)
    ensures Raised(CheckAlerts(m), "latency", LevelCritical) <==> Exceeding(m.derived.avgCommandLatency, 200.0)
    ensures Raised(CheckAlerts(m), "latency", LevelWarning) <==>
      m.derived.avgCommandLatency.Some? && 100.0 < m.derived.avgCommandLatency.value <= 200.0
  {
    var v := AsNumber(m.derived.avgCommandLatency);
    var levels := [LevelCritical, LevelWarning];
    forall level | level in levels
      ensures Raised(CheckAlerts(m), "latency", level) <==> Raised(AboveRule("latency", v, 200.0, 100.0), "latency", level)
    {
      OnlyOwnRule(m, "latency", level);
    }
    AboveRuleRaises("latency", v, 200.0, 100.0, "latency", LevelCritical);
    AboveRuleRaises("latency", v, 200.0, 100.0, "latency", LevelWarning);
  }

  /** The memory bands: CRITICAL above 95 %, WARNING above 90 % up to 95 %. */
  lemma MemoryBands(m: Snapshot)
    ensures Raised(CheckAlerts(m), "memory", LevelCritical) <==> Exceeding(m.derived.memoryUsagePercent, 95.0)
    ensures Raised(CheckAlerts(m), "memory", LevelWarning) <==>
      m.derived.memoryUsagePercent.Some? && 90.0 < m.derived.memoryUsagePercent.value <= 95.0
  {
    var v := AsNumber(m.derived.memoryUsagePercent);
    var levels := [LevelCritical, LevelWarning];
    forall level | level in levels
      ensures Raised(CheckAlerts(m), "memory", level) <==> Raised(AboveRule("memory", v, 95.0, 90.0), "memory", level)
    {
      OnlyOwnRule(m, "memory", level);
    }
    AboveRuleRaises("memory", v, 95.0, 90.0, "memory", LevelCritical);
    AboveRuleRaises("memory", v, 95.0, 90.0, "memory", LevelWarning);
  }

  /** The eviction bands: CRITICAL above 100 per second, WARNING above 10
      up to 100; an infinite rate (no time elapsed) is CRITICAL and NaN
      raises nothing. */
  lemma EvictionBands(m: Snapshot)
    ensures Raised(CheckAlerts(m), "evictions", LevelCritical) <==>
      m.derived.evictionRate.Some? && Exceeds(m.derived.evictionRate.value, 100.0)
    ensures Raised(CheckAlerts(m), "evictions", LevelWarning) <==>
      m.derived.evictionRate.Some? && Exceeds(m.derived.evictionRate.value, 10.0)
      && !Exceeds(m.derived.evictionRate.value, 100.0)
  {
    var v := m.derived.evictionRate;
    var levels := [LevelCritical, LevelWarning];
    forall level | level in levels
      ensures Raised(CheckAlerts(m), "evictions", level) <==> Raised(AboveRule("evictions", v, 100.0, 10.0), "evictions", level)
    {
      OnlyOwnRule(m, "evictions", level);
    }
    AboveRuleRaises("evictions", v, 100.0, 10.0, "evictions", LevelCritical);
    AboveRuleRaises("evictions", v, 100.0, 10.0, "evictions", LevelWarning);
  }

  /** A truthy, positive `rejected_connections` counter raises an ERROR
      carrying the counter with threshold 0, as the last alert; otherwise
      none is raised. */
  lemma RejectedIsError(m: Snapshot)
    ensures Raised(CheckAlerts(m), "rejected_connections", LevelError) <==> RejectedConnections(m.sections).Some?
    ensures RejectedConnections(m.sections).Some? ==>
      CheckAlerts(m)[|CheckAlerts(m)| - 1]
        == NewAlert(LevelError, "rejected_connections", Finite(RejectedConnections(m.sections).value), 0.0)
  {
    var r4 := RejectedRule(m.sections);
    OnlyOwnRule(m, "rejected_connections", LevelError);
    var front := CheckAlerts(m)[..|CheckAlerts(m)| - |r4|];
    assert CheckAlerts(m) == front + r4;
    if r4 != [] {
      assert Raised(r4, "rejected_connections", LevelError) by {
        assert r4[0].metric == "rejected_connections";
      }
    }
  }

  /** Only the rule of a metric raises alerts under its name. */
  lemma OnlyOwnRule(m: Snapshot, metric: string, level: string)
    requires metric in ["latency", "memory", "evictions", "rejected_connections"]
    ensures Raised(CheckAlerts(m), metric, level) <==>
      (metric == "latency" && Raised(AboveRule("latency", AsNumber(m.derived.avgCommandLatency), 200.0, 100.0), metric, level))
      || (metric == "memory" && Raised(AboveRule("memory", AsNumber(m.derived.memoryUsagePercent), 95.0, 90.0), metric, level))
      || (metric == "evictions" && Raised(AboveRule("evictions", m.derived.evictionRate, 100.0, 10.0), metric, level))
      || (metric == "rejected_connections" && Raised(RejectedRule(m.sections), metric, level))
  {
    RaisedByRules(m, metric, level);
    var r0 := HitRateRule(m.application.hitRate);
    assert !Raised(r0, metric, level) by {
      if r0 != [] { assert r0[0].metric == "hit_rate"; }
    }
    AboveRuleRaises("latency", AsNumber(m.derived.avgCommandLatency), 200.0, 100.0, metric, level);
    AboveRuleRaises("memory", AsNumber(m.derived.memoryUsagePercent), 95.0, 90.0, metric, level);
    AboveRuleRaises("evictions", m.derived.evictionRate, 100.0, 10.0, metric, level);
    var r4 := RejectedRule(m.sections);
    if r4 != [] {
      assert Raised(r4, metric, level) <==> r4[0].metric == metric && r4[0].level == level;
    }
  }

  /** Every alert after the hit-rate rule names another metric. */
  lemma RestMetrics(m: Snapshot, i: nat)
    requires i < |CheckAlerts(m)| - |HitRateRule(m.application.hitRate)|
    ensures CheckAlerts(m)[|HitRateRule(m.application.hitRate)| + i].metric != "hit_rate"
  {
  }

  /** The alerts name each metric at most once, and at a single level:
      the CRITICAL band comes first, so it is never joined by a WARNING. */
  lemma AtMostOneAlertPerMetric(m: Snapshot)
    ensures forall i, j :: 0 <= i < j < |CheckAlerts(m)| ==> CheckAlerts(m)[i].metric != CheckAlerts(m)[j].metric
    ensures !(Raised(CheckAlerts(m), "latency", LevelCritical) && Raised(CheckAlerts(m), "latency", LevelWarning))
  {
    var a := CheckAlerts(m);
    forall i, j | 0 <= i < j < |a| ensures a[i].metric != a[j].metric {
      assert MetricRank(a[i].metric) < MetricRank(a[j].metric) by {
        RanksIncrease(m, i, j);
      }
    }
  }

  function MetricRank(metric: string): int
  {
    if metric == "hit_rate" then 0
    else if metric == "latency" then 1
    else if metric == "memory" then 2
    else if metric == "evictions" then 3
    else 4
  }

  lemma RanksIncrease(m: Snapshot, i: nat, j: nat)
    requires i < j < |CheckAlerts(m)|
    ensures MetricRank(CheckAlerts(m)[i].metric) < MetricRank(CheckAlerts(m)[j].metric)
  {
    var a := CheckAlerts(m);
    forall k | 0 <= k < |a| ensures MetricRank(a[k].metric) == RankOfPosition(m, k) {
      PositionRank(m, k);
    }
    PositionRankIncreases(m, i, j);
  }

  /** The rule a position of the alert list comes from. */
  function RankOfPosition(m: Snapshot, k: nat): int
  {
    var n0 := |HitRateRule(m.application.hitRate)|;
    var n1 := n0 + |AboveRule("latency", AsNumber(m.derived.avgCommandLatency), 200.0, 100.0)|;
    var n2 := n1 + |AboveRule("memory", AsNumber(m.derived.memoryUsagePercent), 95.0, 90.0)|;
    var n3 := n2 + |AboveRule("evictions", m.derived.evictionRate, 100.0, 10.0)|;
    if k < n0 then 0 else if k < n1 then 1 else if k < n2 then 2 else if k < n3 then 3 else 4
  }

  lemma PositionRank(m: Snapshot, k: nat)
    requires k < |CheckAlerts(m)|
    ensures MetricRank(CheckAlerts(m)[k].metric) == RankOfPosition(m, k)
  {
    var r0 := HitRateRule(m.application.hitRate);
    var r1 := AboveRule("latency", AsNumber(m.derived.avgCommandLatency), 200.0, 100.0);
    var r2 := AboveRule("memory", AsNumber(m.derived.memoryUsagePercent), 95.0, 90.0);
    var r3 := AboveRule("evictions", m.derived.evictionRate, 100.0, 10.0);
    var r4 := RejectedRule(m.sections);
    var a := CheckAlerts(m);
    assert a == r0 + r1 + r2 + r3 + r4;
    var n0 := |r0|;
    var n1 := n0 + |r1|;
    var n2 := n1 + |r2|;
    var n3 := n2 + |r3|;
    if k < n0 {
      assert a[k] == r0[k];
    } else if k < n1 {
      assert a[k] == r1[k - n0];
    } else if k < n2 {
      assert a[k] == r2[k - n1];
    } else if k < n3 {
      assert a[k] == r3[k - n2];
    } else {
      assert a[k] == r4[k - n3];
    }
  }

  lemma PositionRankIncreases(m: Snapshot, i: nat, j: nat)
    requires i < j < |CheckAlerts(m)|
    ensures RankOfPosition(m, i) < RankOfPosition(m, j)
  {
    // every rule contributes at most one alert
    assert |HitRateRule(m.application.hitRate)| <= 1;
    assert |AboveRule("latency", AsNumber(m.derived.avgCommandLatency), 200.0, 100.0)| <= 1;
    assert |AboveRule("memory", AsNumber(m.derived.memoryUsagePercent), 95.0, 90.0)| <= 1;
    assert |AboveRule("evictions", m.derived.evictionRate, 100.0, 10.0)| <= 1;
  }

  /** Latency, memory and evictions use strict comparisons: a value equal to
      the warning threshold raises nothing, one equal to the critical
      threshold raises a WARNING only. */
  lemma StrictThresholds(metric: string, critical: real, warning: real)
    requires warning < critical
    ensures AboveRule(metric, Some(Finite(warning)), critical, warning) == []
    ensures AboveRule(metric, Some(Finite(critical)), critical, warning)
         == [NewAlert(LevelWarning, metric, Finite(critical), warning)]
    ensures AboveRule(metric, Some(PosInfinity), critical, warning)
         == [NewAlert(LevelCritical, metric, PosInfinity, critical)]
    ensures AboveRule(metric, Some(NaN), critical, warning) == []
  {
  }

  // ---------------------------------------------------------------------
  // Health
  // ---------------------------------------------------------------------

  datatype Issue = HitRateCritical | LatencyCritical | MemoryCritical | RecentRestart

  datatype HealthStatus = Unknown | Healthy | Warning(issues: seq<Issue>) | Critical(issues: seq<Issue>)

  /** `m.server.uptime_in_seconds < 300`: missing or non-numeric text never
      compares as smaller; the empty text counts as 0. */
  function RecentlyRestarted(secs: Sections): (r: bool)
    ensures Field(secs, "server", "uptime_in_seconds").None? ==> !r
    ensures r ==> Field(secs, "server", "uptime_in_seconds") != Some(IntValue(300))
  {
    match Field(secs, "server", "uptime_in_seconds")
    case Some(IntValue(i)) => i < 300
    case Some(FloatValue(x)) => x < 300.0
    case Some(TextValue(t)) => t == ""
    case None => false
  }

  function Exceeding(v: Option<real>, c: real): bool
  {
    v.Some? && v.value > c
  }

  /** The issues `getHealthStatus` lists, in its order. */
  function Issues(m: Snapshot): (r: seq<Issue>)
    ensures |r| <= 4
    ensures HitRateCritical in r <==> m.application.hitRate < 70.0
    ensures LatencyCritical in r <==> Exceeding(m.derived.avgCommandLatency, 200.0)
    ensures MemoryCritical in r <==> Exceeding(m.derived.memoryUsagePercent, 95.0)
    ensures RecentRestart in r <==> RecentlyRestarted(m.sections)
  {
    (if m.application.hitRate < 70.0 then [HitRateCritical] else [])
    + (if Exceeding(m.derived.avgCommandLatency, 200.0) then [LatencyCritical] else [])
    + (if Exceeding(m.derived.memoryUsagePercent, 95.0) then [MemoryCritical] else [])
    + (if RecentlyRestarted(m.sections) then [RecentRestart] else [])
  }

  /** `getHealthStatus`: UNKNOWN before the first snapshot, then HEALTHY
      with no issue, WARNING with one or two, CRITICAL with three or more. */
  function HealthOf(last: Option<Snapshot>): (h: HealthStatus)
    ensures h.Unknown? <==> last.None?
    ensures last.Some? ==> (h.Healthy? <==> |Issues(last.value)| == 0)
    ensures last.Some? ==> (h.Warning? <==> 1 <= |Issues(last.value)| <= 2)
    ensures last.Some? ==> (h.Critical? <==> |Issues(last.value)| >= 3)
    ensures h.Warning? || h.Critical? ==> h.issues == Issues(last.value)
  {
    match last
    case None => Unknown
    case Some(m) =>
      var issues := Issues(m);
      if |issues| == 0 then Healthy
      else if |issues| <= 2 then Warning(issues)
      else Critical(issues)
  }

  /** Health and the alert ladder agree: each health issue other than a
      recent restart is exactly a CRITICAL alert of the same snapshot. */
  lemma HealthMatchesCriticalAlerts(m: Snapshot)
    ensures HitRateCritical in Issues(m) <==> Raised(CheckAlerts(m), "hit_rate", LevelCritical)
    ensures LatencyCritical in Issues(m) <==> Raised(CheckAlerts(m), "latency", LevelCritical)
    ensures MemoryCritical in Issues(m) <==> Raised(CheckAlerts(m), "memory", LevelCritical)
  {
    HitRateBands(m);
    LatencyIssueIsCritical(m);
    MemoryIssueIsCritical(m);
  }

  lemma LatencyIssueIsCritical(m: Snapshot)
    ensures LatencyCritical in Issues(m) <==> Raised(CheckAlerts(m), "latency", LevelCritical)
  {
    var a := CheckAlerts(m);
    var r1 := AboveRule("latency", AsNumber(m.derived.avgCommandLatency), 200.0, 100.0);
    var n0 := |HitRateRule(m.application.hitRate)|;
    if LatencyCritical in Issues(m) {
      assert a[n0] == r1[0];
      assert Raised(a, "latency", LevelCritical);
    }
    if Raised(a, "latency", LevelCritical) {
      var k :| 0 <= k < |a| && a[k].metric == "latency" && a[k].level == LevelCritical;
      PositionRank(m, k);
      assert RankOfPosition(m, k) == 1;
      assert a[k] == r1[k - n0] by { LatencySlot(m, k); }
    }
  }

  lemma MemoryIssueIsCritical(m: Snapshot)
    ensures MemoryCritical in Issues(m) <==> Raised(CheckAlerts(m), "memory", LevelCritical)
  {
    var a := CheckAlerts(m);
    var r1 := AboveRule("latency", AsNumber(m.derived.avgCommandLatency), 200.0, 100.0);
    var r2 := AboveRule("memory", AsNumber(m.derived.memoryUsagePercent), 95.0, 90.0);
    var n1 := |HitRateRule(m.application.hitRate)| + |r1|;
    if MemoryCritical in Issues(m) {
      assert a[n1] == r2[0];
      assert Raised(a, "memory", LevelCritical);
    }
    if Raised(a, "memory", LevelCritical) {
      var k :| 0 <= k < |a| && a[k].metric == "memory" && a[k].level == LevelCritical;
      PositionRank(m, k);
      assert RankOfPosition(m, k) == 2;
      assert a[k] == r2[k - n1] by { MemorySlot(m, k); }
    }
  }

  lemma LatencySlot(m: Snapshot, k: nat)
    requires k < |CheckAlerts(m)| && RankOfPosition(m, k) == 1
    ensures var n0 := |HitRateRule(m.application.hitRate)|;
      var r1 := AboveRule("latency", AsNumber(m.derived.avgCommandLatency), 200.0, 100.0);
      n0 <= k < n0 + |r1| && CheckAlerts(m)[k] == r1[k - n0]
  {
    var r0 := HitRateRule(m.application.hitRate);
    var r1 := AboveRule("latency", AsNumber(m.derived.avgCommandLatency), 200.0, 100.0);
    var tail := CheckAlerts(m)[|r0| + |r1|..];
    assert CheckAlerts(m) == r0 + r1 + tail;
  }

  lemma MemorySlot(m: Snapshot, k: nat)
    requires k < |CheckAlerts(m)| && RankOfPosition(m, k) == 2
    ensures var n1 := |HitRateRule(m.application.hitRate)|
        + |AboveRule("latency", AsNumber(m.derived.avgCommandLatency), 200.0, 100.0)|;
      var r2 := AboveRule("memory", AsNumber(m.derived.memoryUsagePercent), 95.0, 90.0);
      n1 <= k < n1 + |r2| && CheckAlerts(m)[k] == r2[k - n1]
  {
    var r0 := HitRateRule(m.application.hitRate);
    var r1 := AboveRule("latency", AsNumber(m.derived.avgCommandLatency), 200.0, 100.0);
    var r2 := AboveRule("memory", AsNumber(m.derived.memoryUsagePercent), 95.0, 90.0);
    var tail := CheckAlerts(m)[|r0| + |r1| + |r2|..];
    assert CheckAlerts(m) == r0 + r1 + r2 + tail;
  }
}

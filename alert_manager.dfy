/**
 * The alert manager: stamping each alert with a per-minute identity,
 * suppressing repeats inside the deduplication window, the bounded alert
 * history, the notification fan-out decision, purging stale
 * deduplication entries and the history statistics.
 */
module AlertManaging {
  import opened Base
  import opened Alerts

  // ---------------------------------------------------------------------
  // Configuration
  // ---------------------------------------------------------------------

  /** The constructor options; `Some` is a key the caller set. */
  datatype AlertOptions = AlertOptions(
    logEnabled: Option<bool>,
    webhookEnabled: Option<bool>,
    webhookUrl: Option<string>,
    deduplicationEnabled: Option<bool>,
    deduplicationWindow: Option<int>,
    notificationLevels: Option<seq<string>>)

  datatype Config = Config(
    logEnabled: bool,
    webhookEnabled: bool,
    webhookUrl: string,
    dedupEnabled: bool,
    dedupWindow: int,
    notificationLevels: seq<string>)

  const DefaultWindow := 300000
  const DefaultLevels := [LevelWarning, LevelError, LevelCritical]
  const HistoryCap := 1000

  /** The configuration the constructor builds: logging and deduplication
      are on unless switched off with `false`; the webhook is off unless
      switched on; a window of 0 falls back to five minutes, while an empty
      list of levels is kept (an empty array is truthy). */
  function ConfigOf(o: AlertOptions): (c: Config)
    ensures c.logEnabled <==> o.logEnabled != Some(false)
    ensures c.webhookEnabled <==> o.webhookEnabled == Some(true)
    ensures c.webhookUrl == if o.webhookUrl.Some? then o.webhookUrl.value else ""
    ensures c.dedupEnabled <==> o.deduplicationEnabled != Some(false)
    ensures c.dedupWindow == if o.deduplicationWindow.Some? && o.deduplicationWindow.value != 0
                             then o.deduplicationWindow.value else DefaultWindow
    ensures c.dedupWindow != 0
    ensures c.notificationLevels == if o.notificationLevels.Some? then o.notificationLevels.value else DefaultLevels
  {
    Config(
      o.logEnabled != Some(false),
      o.webhookEnabled == Some(true),
      if o.webhookUrl.Some? then o.webhookUrl.value else "",
      o.deduplicationEnabled != Some(false),
      match o.deduplicationWindow
      case Some(w) => if w != 0 then w else DefaultWindow
      case None => DefaultWindow,
      if o.notificationLevels.Some? then o.notificationLevels.value else DefaultLevels)
  }

  // ---------------------------------------------------------------------
  // Identity and deduplication
  // ---------------------------------------------------------------------

  /** `generateAlertId`: metric, level and the minute of `now`. */
  function AlertId(metric: string, level: string, now: nat): (id: string)
    ensures |id| > |metric| + |level| + 2
  {
    metric + "_" + level + "_" + NatToString(now / 60000)
  }

  /** Two firings of the same metric and level share an identity exactly
      when they fall in the same minute. */
  lemma SameIdIffSameMinute(metric: string, level: string, t1: nat, t2: nat)
    ensures AlertId(metric, level, t1) == AlertId(metric, level, t2) <==> t1 / 60000 == t2 / 60000
  {
    var prefix := metric + "_" + level + "_";
    var a := NatToString(t1 / 60000);
    var b := NatToString(t2 / 60000);
    if AlertId(metric, level, t1) == AlertId(metric, level, t2) {
      assert prefix + a == prefix + b;
      assert a == (prefix + a)[|prefix|..];
      assert b == (prefix + b)[|prefix|..];
    }
    NatToStringInjective(t1 / 60000, t2 / 60000);
  }

  /** `isDuplicate`: a last-seen time of 0 (or none) never counts. */
  predicate IsDuplicate(recent: map<string, int>, id: string, now: int, window: int)
    ensures IsDuplicate(recent, id, now, window) ==> id in recent && recent[id] != 0
    ensures id in recent && recent[id] == now && now != 0 && window > 0 ==> IsDuplicate(recent, id, now, window)
    ensures window <= 0 && id in recent && recent[id] <= now ==> !IsDuplicate(recent, id, now, window)
  {
    id in recent && recent[id] != 0 && now - recent[id] < window
  }

  /** `cleanupRecentAlerts`: the entries older than the window. */
  function Purge(recent: map<string, int>, now: int, window: int): (r: map<string, int>)
    ensures r.Keys <= recent.Keys
    ensures forall id :: id in r ==> r[id] == recent[id] && now - recent[id] <= window
    ensures forall id :: id in recent && now - recent[id] <= window ==> id in r
  {
    map id | id in recent && !(now - recent[id] > window) :: recent[id]
  }

  /** Purging never changes a later deduplication decision: whatever it
      removes could no longer suppress anything. */
  lemma PurgeKeepsDecisions(recent: map<string, int>, now: int, window: int, id: string, t: int)
    requires t >= now
    ensures IsDuplicate(Purge(recent, now, window), id, t, window) <==> IsDuplicate(recent, id, t, window)
  {
  }

  // ---------------------------------------------------------------------
  // Processing one alert
  // ---------------------------------------------------------------------

  datatype Channel = Console | Webhook

  /** What the manager emits and writes, in order. */
  datatype AlertEvent =
    | AlertProcessed(alert: Alert)
    | NotificationSent(channel: Channel, alert: Alert)
    | NotificationError(channel: Channel, alert: Alert)
    | AlertLogged(alert: Alert)

  /** The deduplication map and the alert history. */
  datatype DispatchState = DispatchState(recent: map<string, int>, history: seq<Alert>)

  const EmptyState := DispatchState(map[], [])

  /** The alert with its timestamp (kept when present) and its id. */
  function Stamp(a: Alert, now: nat): (s: Alert)
    ensures s.timestamp.Some? && s.id == Some(AlertId(a.metric, a.level, now))
    ensures a.timestamp.Some? ==> s.timestamp == a.timestamp
    ensures s.level == a.level && s.metric == a.metric && s.value == a.value && s.threshold == a.threshold
  {
    a.(timestamp := if a.timestamp.Some? then a.timestamp else Some(now),
       id := Some(AlertId(a.metric, a.level, now)))
  }

  predicate Admitted(c: Config, st: DispatchState, a: Alert, now: nat)
  {
    !(c.dedupEnabled && IsDuplicate(st.recent, AlertId(a.metric, a.level, now), now, c.dedupWindow))
  }

  /** `shouldNotify`. */
  predicate ShouldNotify(c: Config, level: string)
    ensures c.notificationLevels == DefaultLevels ==>
      (ShouldNotify(c, level) <==> level == LevelWarning || level == LevelError || level == LevelCritical)
  {
    level in c.notificationLevels
  }

  /** `sendNotifications`: the console always; the webhook too when it is
      switched on and has an address. `webhookOk` is whether the POST
      succeeds; its outcome arrives after the console notice. */
  function NotificationEvents(c: Config, a: Alert, webhookOk: bool): (e: seq<AlertEvent>)
    ensures 1 <= |e| <= 2 && e[0] == NotificationSent(Console, a)
    ensures |e| == 2 <==> c.webhookEnabled && c.webhookUrl != ""
    ensures |e| == 2 ==> e[1] == (if webhookOk then NotificationSent(Webhook, a) else NotificationError(Webhook, a))
  {
    [NotificationSent(Console, a)]
    + if c.webhookEnabled && c.webhookUrl != "" then
        [if webhookOk then NotificationSent(Webhook, a) else NotificationError(Webhook, a)]
      else []
  }

  /** What an admitted alert produces: `alert:processed`, then the
      notifications when its level is one to notify, then the log line when
      logging is on. */
  function AdmittedEvents(c: Config, s: Alert, webhookOk: bool): (e: seq<AlertEvent>)
    ensures |e| >= 1 && e[0] == AlertProcessed(s)
    ensures e[|e| - 1] == AlertLogged(s) <==> c.logEnabled
    ensures (|e| >= 2 && e[1] == NotificationSent(Console, s)) <==> ShouldNotify(c, s.level)
    ensures |e| == 1 + (if ShouldNotify(c, s.level) then |NotificationEvents(c, s, webhookOk)| else 0)
                      + (if c.logEnabled then 1 else 0)
  {
    var notes := if ShouldNotify(c, s.level) then NotificationEvents(c, s, webhookOk) else [];
    var log := if c.logEnabled then [AlertLogged(s)] else [];
    [AlertProcessed(s)] + notes + log
  }

  /** The deduplication map after admitting an alert. */
  function Remember(c: Config, recent: map<string, int>, id: string, now: nat): (r: map<string, int>)
    ensures c.dedupEnabled ==> id in r && r[id] == now
    ensures !c.dedupEnabled ==> r == recent
    ensures forall k :: k in recent && k != id ==> k in r && r[k] == recent[k]
    ensures forall k :: k in r ==> k in recent || k == id
  {
    if c.dedupEnabled then recent[id := now] else recent
  }

  /** `processAlert` on values: the new state and what is emitted. A
      dropped duplicate changes nothing and emits nothing. */
  function Process(c: Config, st: DispatchState, a: Alert, now: nat, webhookOk: bool): (r: (DispatchState, seq<AlertEvent>))
    ensures !Admitted(c, st, a, now) ==> r == (st, [])
    ensures Admitted(c, st, a, now) ==>
      r.0 == DispatchState(Remember(c, st.recent, AlertId(a.metric, a.level, now), now),
                           PushShift(st.history, Stamp(a, now), HistoryCap))
      && r.1 == AdmittedEvents(c, Stamp(a, now), webhookOk)
  {
    if !Admitted(c, st, a, now) then (st, [])
    else
      (DispatchState(Remember(c, st.recent, AlertId(a.metric, a.level, now), now),
                     PushShift(st.history, Stamp(a, now), HistoryCap)),
       AdmittedEvents(c, Stamp(a, now), webhookOk))
  }

  ghost predicate StateValid(st: DispatchState)
  {
    |st.history| <= HistoryCap
    && forall i :: 0 <= i < |st.history| ==> st.history[i].id.Some? && st.history[i].timestamp.Some?
  }

  /** Processing keeps the history within 1000 stamped alerts. */
  lemma ProcessKeepsValid(c: Config, st: DispatchState, a: Alert, now: nat, webhookOk: bool)
    requires StateValid(st)
    ensures StateValid(Process(c, st, a, now, webhookOk).0)
  {
    if Admitted(c, st, a, now) {
      var s := Stamp(a, now);
      var h := PushShift(st.history, s, HistoryCap);
      PushShiftBounded(st.history, s, HistoryCap);
      var all := st.history + [s];
      assert h == all[|all| - |h|..];
      forall i | 0 <= i < |h| ensures h[i].id.Some? && h[i].timestamp.Some? {
        var j := |all| - |h| + i;
        assert h[i] == all[j];
        if j < |st.history| {
          assert all[j] == st.history[j];
        }
      }
    }
  }

  /** A repeat of an admitted alert (same metric and level) in the same
      minute and inside the window is dropped without a trace; a repeat in
      the next minute gets a fresh id and is admitted whatever the window. */
  lemma RepeatWithinMinuteIsSuppressed(c: Config, st: DispatchState, a: Alert, b: Alert, t1: nat, t2: nat, ok1: bool, ok2: bool)
    requires c.dedupEnabled && t1 > 0 && t1 <= t2
    requires a.metric == b.metric && a.level == b.level
    requires Admitted(c, st, a, t1)
    requires t1 / 60000 == t2 / 60000 && t2 - t1 < c.dedupWindow
    ensures var st1 := Process(c, st, a, t1, ok1).0;
      Process(c, st1, b, t2, ok2) == (st1, [])
  {
    SameIdIffSameMinute(a.metric, a.level, t1, t2);
  }

  lemma RepeatInNextMinuteIsAdmitted(c: Config, st: DispatchState, a: Alert, b: Alert, t1: nat, t2: nat, ok1: bool)
    requires a.metric == b.metric && a.level == b.level
    requires t1 / 60000 != t2 / 60000
    requires AlertId(b.metric, b.level, t2) !in st.recent
    ensures Admitted(c, Process(c, st, a, t1, ok1).0, b, t2)
  {
    SameIdIffSameMinute(a.metric, a.level, t1, t2);
  }

  /** With deduplication switched off every alert is recorded and the
      deduplication map is left alone. */
  lemma NoDedupAdmitsAll(c: Config, st: DispatchState, a: Alert, now: nat, ok: bool)
    requires !c.dedupEnabled
    ensures Process(c, st, a, now, ok).0 == DispatchState(st.recent, PushShift(st.history, Stamp(a, now), HistoryCap))
  {
  }

  /** Two firings of one condition from an empty state leave a single
      history entry exactly when they fall in the same minute and inside the
      window. */
  lemma TwoFirings(c: Config, a: Alert, t1: nat, t2: nat)
    requires c.dedupEnabled && 0 < t1 <= t2
    ensures |ProcessTwice(c, a, t1, t2).history|
         == if t1 / 60000 == t2 / 60000 && t2 - t1 < c.dedupWindow then 1 else 2
  {
    var st1 := Process(c, EmptyState, a, t1, true).0;
    var id1 := AlertId(a.metric, a.level, t1);
    var id2 := AlertId(a.metric, a.level, t2);
    assert Admitted(c, EmptyState, a, t1);
    assert st1.history == [Stamp(a, t1)];
    assert st1.recent == map[id1 := t1];
    SameIdIffSameMinute(a.metric, a.level, t1, t2);
    if t1 / 60000 == t2 / 60000 && t2 - t1 < c.dedupWindow {
      assert !Admitted(c, st1, a, t2);
    } else {
      assert Admitted(c, st1, a, t2);
      assert |PushShift(st1.history, Stamp(a, t2), HistoryCap)| == 2;
    }
  }

  /** Ten seconds apart in one minute leave one entry; ten seconds apart
      across a minute boundary, or 301 seconds apart, leave two. */
  lemma RepeatTimings(c: Config, a: Alert)
    requires c.dedupEnabled && c.dedupWindow == DefaultWindow
    ensures |ProcessTwice(c, a, 120000, 130000).history| == 1
    ensures |ProcessTwice(c, a, 110000, 120000).history| == 2
    ensures |ProcessTwice(c, a, 120000, 421000).history| == 2
  {
    TwoFirings(c, a, 120000, 130000);
    TwoFirings(c, a, 110000, 120000);
    TwoFirings(c, a, 120000, 421000);
  }

  function ProcessTwice(c: Config, a: Alert, t1: nat, t2: nat): DispatchState
  {
    Process(c, Process(c, EmptyState, a, t1, true).0, a, t2, true).0
  }

  /** `processAlerts` on values: each alert of the batch at its own clock
      reading, with its own webhook outcome. */
  function ProcessAll(c: Config, st: DispatchState, batch: seq<Alert>, clock: seq<nat>, outcomes: seq<bool>): (r: (DispatchState, seq<AlertEvent>))
    requires |clock| == |batch| && |outcomes| == |batch|
    ensures forall k :: k in st.recent ==> k in r.0.recent
    ensures !c.dedupEnabled ==> r.0.recent == st.recent
    decreases |batch|
  {
    if batch == [] then (st, [])
    else
      var n := |batch| - 1;
      var before := ProcessAll(c, st, batch[..n], clock[..n], outcomes[..n]);
      var last := Process(c, before.0, batch[n], clock[n], outcomes[n]);
      (last.0, before.1 + last.1)
  }

  /** One more alert of the batch is one more `Process` step. */
  lemma ProcessAllStep(c: Config, st: DispatchState, batch: seq<Alert>, clock: seq<nat>, outcomes: seq<bool>, i: nat)
    requires |clock| == |batch| && |outcomes| == |batch| && i < |batch|
    ensures ProcessAll(c, st, batch[..i + 1], clock[..i + 1], outcomes[..i + 1]) ==
      var before := ProcessAll(c, st, batch[..i], clock[..i], outcomes[..i]);
      var last := Process(c, before.0, batch[i], clock[i], outcomes[i]);
      (last.0, before.1 + last.1)
  {
    assert batch[..i + 1][..i] == batch[..i];
    assert clock[..i + 1][..i] == clock[..i];
    assert outcomes[..i + 1][..i] == outcomes[..i];
  }

  lemma {:induction false} ProcessAllKeepsValid(c: Config, st: DispatchState, batch: seq<Alert>, clock: seq<nat>, outcomes: seq<bool>)
    requires |clock| == |batch| && |outcomes| == |batch|
    requires StateValid(st)
    ensures StateValid(ProcessAll(c, st, batch, clock, outcomes).0)
    decreases |batch|
  {
    if batch != [] {
      var n := |batch| - 1;
      ProcessAllKeepsValid(c, st, batch[..n], clock[..n], outcomes[..n]);
      ProcessKeepsValid(c, ProcessAll(c, st, batch[..n], clock[..n], outcomes[..n]).0, batch[n], clock[n], outcomes[n]);
    }
  }

  // ---------------------------------------------------------------------
  // Statistics
  // ---------------------------------------------------------------------

  /** Occurrences of `k` in `keys`. */
  function Occurrences(keys: seq<string>, k: string): nat
  {
    if keys == [] then 0
    else Occurrences(keys[..|keys| - 1], k) + (if keys[|keys| - 1] == k then 1 else 0)
  }

  /** A count table in the order of first appearance, like the keys of a
      plain object filled by `t[k] = (t[k] || 0) + 1`. */
  type Tally = seq<(string, nat)>

  function Lookup(t: Tally, k: string): nat
  {
    if t == [] then 0 else if t[0].0 == k then t[0].1 else Lookup(t[1..], k)
  }

  predicate DistinctKeys(t: Tally)
  {
    forall i, j :: 0 <= i < j < |t| ==> t[i].0 != t[j].0
  }

  function Total(t: Tally): nat
  {
    if t == [] then 0 else t[0].1 + Total(t[1..])
  }

  /** One more occurrence of `k`. */
  function Bump(t: Tally, k: string): (r: Tally)
    ensures |r| == |t| || (|r| == |t| + 1 && r[|t|] == (k, 1))
    ensures forall i :: 0 <= i < |t| ==> r[i].0 == t[i].0
  {
    if t == [] then [(k, 1)]
    else if t[0].0 == k then [(k, t[0].1 + 1)] + t[1..]
    else [t[0]] + Bump(t[1..], k)
  }

  lemma {:induction false} BumpCounts(t: Tally, k: string, other: string)
    ensures Lookup(Bump(t, k), k) == Lookup(t, k) + 1
    ensures other != k ==> Lookup(Bump(t, k), other) == Lookup(t, other)
    ensures Total(Bump(t, k)) == Total(t) + 1
  {
    if t != [] && t[0].0 != k {
      BumpCounts(t[1..], k, other);
      assert Bump(t, k) == [t[0]] + Bump(t[1..], k);
    }
  }

  lemma {:induction false} BumpKeepsDistinct(t: Tally, k: string)
    requires DistinctKeys(t)
    ensures DistinctKeys(Bump(t, k))
  {
    var r := Bump(t, k);
    if |r| == |t| {
      forall i, j | 0 <= i < j < |r| ensures r[i].0 != r[j].0 {
        assert r[i].0 == t[i].0 && r[j].0 == t[j].0;
      }
    } else {
      LookupAbsent(t, k);
      forall i, j | 0 <= i < j < |r| ensures r[i].0 != r[j].0 {
        assert r[i].0 == t[i].0;
        if j < |t| {
          assert r[j].0 == t[j].0;
        }
      }
    }
  }

  /** When `Bump` appends `k` at the end, `k` was not a key yet. */
  lemma LookupAbsent(t: Tally, k: string)
    ensures |Bump(t, k)| == |t| + 1 ==> forall i :: 0 <= i < |t| ==> t[i].0 != k
  {
    if t != [] && t[0].0 != k {
      LookupAbsent(t[1..], k);
      if |Bump(t, k)| == |t| + 1 {
        forall i | 0 <= i < |t| ensures t[i].0 != k {
          if i > 0 { assert t[i] == t[1..][i - 1]; }
        }
      }
    }
  }

  lemma LookupSkipsFirst(t: Tally, other: string)
    requires t != [] && t[0].0 != other
    ensures Lookup(t, other) == Lookup(t[1..], other)
  {
  }

  /** The count table of a key sequence. */
  function TallyOf(keys: seq<string>): Tally
  {
    if keys == [] then [] else Bump(TallyOf(keys[..|keys| - 1]), keys[|keys| - 1])
  }

  /** The table has one entry per distinct key, holding how often it
      occurs, and its counts add up to the number of keys. */
  lemma {:induction false} TallyOfCounts(keys: seq<string>, k: string)
    ensures DistinctKeys(TallyOf(keys))
    ensures Lookup(TallyOf(keys), k) == Occurrences(keys, k)
    ensures Total(TallyOf(keys)) == |keys|
  {
    if keys != [] {
      var n := |keys| - 1;
      TallyOfCounts(keys[..n], k);
      BumpCounts(TallyOf(keys[..n]), keys[n], k);
      BumpKeepsDistinct(TallyOf(keys[..n]), keys[n]);
    }
  }

  function Levels(h: seq<Alert>): (r: seq<string>)
    ensures |r| == |h| && forall i :: 0 <= i < |h| ==> r[i] == h[i].level
  {
    seq(|h|, i requires 0 <= i < |h| => h[i].level)
  }

  function Metrics(h: seq<Alert>): (r: seq<string>)
    ensures |r| == |h| && forall i :: 0 <= i < |h| ==> r[i] == h[i].metric
  {
    seq(|h|, i requires 0 <= i < |h| => h[i].metric)
  }

  predicate WithinDay(a: Alert, now: int)
  {
    a.timestamp.Some? && a.timestamp.value > now - 24 * 60 * 60 * 1000
  }

  function RecentCount(h: seq<Alert>, now: int): (n: nat)
    ensures n <= |h|
  {
    if h == [] then 0
    else RecentCount(h[..|h| - 1], now) + (if WithinDay(h[|h| - 1], now) then 1 else 0)
  }

  datatype AlertStats = AlertStats(total: nat, byLevel: Tally, byMetric: Tally, last24h: nat)

  /** `getAlertStats` on values. */
  function StatsOf(h: seq<Alert>, now: int): (r: AlertStats)
    ensures r.total == |h| && r.last24h <= r.total
    ensures h == [] ==> r.byLevel == [] && r.byMetric == [] && r.last24h == 0
  {
    AlertStats(|h|, TallyOf(Levels(h)), TallyOf(Metrics(h)), RecentCount(h, now))
  }

  /** Both tables count every alert once, and no more alerts are recent
      than there are alerts. */
  lemma StatsAreConsistent(h: seq<Alert>, now: int, level: string, metric: string)
    ensures var s := StatsOf(h, now);
      Total(s.byLevel) == s.total && Total(s.byMetric) == s.total && s.last24h <= s.total
      && DistinctKeys(s.byLevel) && DistinctKeys(s.byMetric)
      && Lookup(s.byLevel, level) == Occurrences(Levels(h), level)
      && Lookup(s.byMetric, metric) == Occurrences(Metrics(h), metric)
  {
    TallyOfCounts(Levels(h), level);
    TallyOfCounts(Metrics(h), metric);
  }

  // ---------------------------------------------------------------------
  // Icons and colours
  // ---------------------------------------------------------------------

  /** `getAlertIcon`, with the chart icon for an unknown level. */
  function AlertIcon(level: string): (icon: string)
    ensures level !in {LevelInfo, LevelWarning, LevelError, LevelCritical} ==> icon == "\U{1F4CA}"
  {
    if level == LevelInfo then "\U{2139}\U{FE0F}"
    else if level == LevelWarning then "\U{26A0}\U{FE0F}"
    else if level == LevelError then "\U{274C}"
    else if level == LevelCritical then "\U{1F6A8}"
    else "\U{1F4CA}"
  }

  /** `getAlertColorHex`, with grey for an unknown level. */
  function AlertColor(level: string): (color: string)
    ensures |color| == 7 && color[0] == '#'
    ensures forall i :: 1 <= i < 7 ==> IsHexDigit(color[i])
  {
    if level == LevelInfo then "#17a2b8"
    else if level == LevelWarning then "#ffc107"
    else if level == LevelError then "#dc3545"
    else if level == LevelCritical then "#6f42c1"
    else "#6c757d"
  }

  /** The embed colour of the webhook payload: the hex colour as a number. */
  function WebhookColor(level: string): (v: nat)
  {
    HexValue(AlertColor(level)[1..])
  }

  /** Every embed colour is a 24-bit RGB value; CRITICAL is purple 0x6f42c1. */
  lemma WebhookColorIsRgb(level: string)
    ensures WebhookColor(level) < 0x100_0000
    ensures WebhookColor(LevelCritical) == 0x6f42c1
  {
    HexValueBound(AlertColor(level)[1..]);
    assert Pow16(6) == 0x100_0000;
    var s := AlertColor(LevelCritical)[1..];
    assert s == "6f42c1";
    assert HexValue("6") == 0x6 by { assert "6"[..0] == ""; }
    assert HexValue("6f") == 0x6f by { assert "6f"[..1] == "6"; }
    assert HexValue("6f4") == 0x6f4 by { assert "6f4"[..2] == "6f"; }
    assert HexValue("6f42") == 0x6f42 by { assert "6f42"[..3] == "6f4"; }
    assert HexValue("6f42c") == 0x6f42c by { assert "6f42c"[..4] == "6f42"; }
    assert HexValue("6f42c1") == 0x6f42c1 by { assert "6f42c1"[..5] == "6f42c"; }
  }

  // ---------------------------------------------------------------------
  // The manager object
  // ---------------------------------------------------------------------

  class AlertManager {
    const config: Config
    var recentAlerts: map<string, int>
    var alertHistory: seq<Alert>

    function State(): DispatchState
      reads this
    {
      DispatchState(recentAlerts, alertHistory)
    }

    ghost predicate Valid()
      reads this
    {
      StateValid(State())
    }

    constructor (options: AlertOptions)
      ensures Valid()
      ensures config == ConfigOf(options) && recentAlerts == map[] && alertHistory == []
    {
      config := ConfigOf(options);
      recentAlerts := map[];
      alertHistory := [];
    }

    /** `processAlert` at clock reading `now`. */
    method ProcessAlert(alert: Alert, now: nat, webhookOk: bool) returns (events: seq<AlertEvent>)
      requires Valid()
      modifies this
      ensures Valid()
      ensures (State(), events) == Process(config, old(State()), alert, now, webhookOk)
    {
      var id := AlertId(alert.metric, alert.level, now);
      if config.dedupEnabled && IsDuplicate(recentAlerts, id, now, config.dedupWindow) {
        return [];
      }
      var stamped := Stamp(alert, now);
      ProcessKeepsValid(config, State(), alert, now, webhookOk);
      alertHistory := PushShift(alertHistory, stamped, HistoryCap);
      if config.dedupEnabled {
        recentAlerts := recentAlerts[id := now];
      }
      events := [AlertProcessed(stamped)];
      if ShouldNotify(config, stamped.level) {
        events := events + NotificationEvents(config, stamped, webhookOk);
      }
      if config.logEnabled {
        events := events + [AlertLogged(stamped)];
      }
      assert events == AdmittedEvents(config, stamped, webhookOk);
    }

    /** `processAlerts`: `None` is a value that is not an array; each alert
        is processed at its own clock reading. */
    method ProcessAlerts(batch: Option<seq<Alert>>, clock: seq<nat>, outcomes: seq<bool>) returns (events: seq<AlertEvent>)
      requires Valid()
      requires batch.Some? ==> |clock| == |batch.value| && |outcomes| == |batch.value|
      modifies this
      ensures Valid()
      ensures batch.None? ==> State() == old(State()) && events == []
      ensures batch.Some? ==> (State(), events) == ProcessAll(config, old(State()), batch.value, clock, outcomes)
    {
      events := [];
      if batch.None? || |batch.value| == 0 {
        return;
      }
      var alerts := batch.value;
      var i := 0;
      while i < |alerts|
        invariant 0 <= i <= |alerts|
        invariant Valid()
        invariant (State(), events) == ProcessAll(config, old(State()), alerts[..i], clock[..i], outcomes[..i])
      {
        ProcessAllStep(config, old(State()), alerts, clock, outcomes, i);
        var more := ProcessAlert(alerts[i], clock[i], outcomes[i]);
        events := events + more;
        i := i + 1;
      }
      assert alerts[..i] == alerts && clock[..i] == clock && outcomes[..i] == outcomes;
    }

    /** `cleanupRecentAlerts` at clock reading `now`. */
    method CleanupRecentAlerts(now: int)
      modifies this
      ensures recentAlerts == Purge(old(recentAlerts), now, config.dedupWindow)
      ensures alertHistory == old(alertHistory)
    {
      var pending := recentAlerts.Keys;
      var kept := recentAlerts;
      while pending != {}
        invariant pending <= recentAlerts.Keys
        invariant kept.Keys <= recentAlerts.Keys
        invariant forall id :: id in kept ==> kept[id] == recentAlerts[id]
        invariant forall id :: id in recentAlerts && id !in pending ==>
          (id in kept <==> !(now - recentAlerts[id] > config.dedupWindow))
        invariant forall id :: id in pending ==> id in kept
        decreases pending
      {
        var id :| id in pending;
        if now - kept[id] > config.dedupWindow {
          kept := map k | k in kept && k != id :: kept[k];
        }
        pending := pending - {id};
      }
      recentAlerts := kept;
    }

    /** `getAlertHistory`: the newest `limit` alerts, oldest first. */
    function GetAlertHistory(limit: int): (r: seq<Alert>)
      reads this
      ensures |r| <= |alertHistory| && r == alertHistory[|alertHistory| - |r|..]
      ensures limit > 0 ==> |r| == (if limit <= |alertHistory| then limit else |alertHistory|)
      ensures limit == 0 ==> r == alertHistory
    {
      SliceFrom(alertHistory, -limit)
    }

    /** `getAlertStats` at clock reading `now`. */
    method GetAlertStats(now: int) returns (stats: AlertStats)
      ensures stats == StatsOf(alertHistory, now)
    {
      var h := alertHistory;
      var byLevel: Tally := [];
      var byMetric: Tally := [];
      var last24h := 0;
      var i := 0;
      while i < |h|
        invariant 0 <= i <= |h|
        invariant byLevel == TallyOf(Levels(h[..i]))
        invariant byMetric == TallyOf(Metrics(h[..i]))
        invariant last24h == RecentCount(h[..i], now)
      {
        assert Levels(h[..i + 1])[..i] == Levels(h[..i]);
        assert Metrics(h[..i + 1])[..i] == Metrics(h[..i]);
        assert h[..i + 1][..i] == h[..i];
        byLevel := Bump(byLevel, h[i].level);
        byMetric := Bump(byMetric, h[i].metric);
        if WithinDay(h[i], now) {
          last24h := last24h + 1;
        }
        i := i + 1;
      }
      assert h[..i] == h;
      stats := AlertStats(|h|, byLevel, byMetric, last24h);
    }

    /** `clearHistory`: the deduplication map is kept. */
    method ClearHistory()
      modifies this
      ensures alertHistory == [] && recentAlerts == old(recentAlerts)
    {
      alertHistory := [];
    }
  }
}

/**
 * Two pieces of the monitoring HTTP routes: the uptime text and the
 * projection of the snapshot history into chart series.
 */
module MonitoringApi {
  import opened Base
  import opened RedisMetrics

  // ---------------------------------------------------------------------
  // Uptime text
  // ---------------------------------------------------------------------

  /** JavaScript's `a % b` for a positive `b`: the remainder takes the sign
      of the dividend. */
  function JsRem(a: int, b: int): (r: int)
    requires b > 0
    ensures a >= 0 ==> r == a % b
    ensures -b < r < b && (r < 0 ==> a < 0)
    ensures a < 0 ==> r <= 0
  {
    if a >= 0 then a % b else -((-a) % b)
  }

  /** The three components `formatUptime` computes, each rounded down. */
  datatype Uptime = Uptime(days: int, hours: int, minutes: int)

  function UptimeOf(seconds: int): (u: Uptime)
    ensures u.hours < 24 && u.minutes < 60
    ensures seconds >= 0 ==> u.days >= 0 && u.hours >= 0 && u.minutes >= 0
  {
    Uptime(seconds / 86400, JsRem(seconds, 86400) / 3600, JsRem(seconds, 3600) / 60)
  }

  /** The non-zero components as "Xd", "Yh", "Zm", in that order. */
  function UptimeParts(u: Uptime): (r: seq<string>)
    ensures |r| <= 3
    ensures r == [] <==> u.days <= 0 && u.hours <= 0 && u.minutes <= 0
    ensures forall i :: 0 <= i < |r| ==> |r[i]| >= 2 && ' ' !in r[i]
  {
    NoSpaceInCount(u.days, 'd');
    NoSpaceInCount(u.hours, 'h');
    NoSpaceInCount(u.minutes, 'm');
    (if u.days > 0 then [IntToString(u.days) + "d"] else [])
    + (if u.hours > 0 then [IntToString(u.hours) + "h"] else [])
    + (if u.minutes > 0 then [IntToString(u.minutes) + "m"] else [])
  }

  /** `formatUptime`: the joined parts, or "< 1m" when there are none. */
  function FormatUptime(seconds: int): (r: string)
    ensures r != []
  {
    var text := Join(UptimeParts(UptimeOf(seconds)), " ");
    if text == "" then "< 1m" else text
  }

  lemma NoSpaceInCount(n: int, unit: char)
    requires unit != ' '
    ensures |IntToString(n) + [unit]| >= 2 && ' ' !in IntToString(n) + [unit]
  {
    var s := IntToString(n);
    if n < 0 {
      assert s == "-" + NatToString(-n);
      assert forall k :: 1 <= k < |s| ==> s[k] == NatToString(-n)[k - 1];
    }
  }

  /** For a minute or more, the text is the non-zero components separated
      by single spaces: splitting it on spaces gives them back. */
  lemma FormatUptimeLayout(seconds: int)
    requires seconds >= 60
    ensures Split(FormatUptime(seconds), " ") == UptimeParts(UptimeOf(seconds))
  {
    var parts := UptimeParts(UptimeOf(seconds));
    UptimeDecomposes(seconds);
    JoinOfNonEmpty(parts, " ");
    SplitJoin(parts, ' ');
  }

  lemma JoinOfNonEmpty(parts: seq<string>, sep: string)
    requires forall i :: 0 <= i < |parts| ==> parts[i] != ""
    ensures Join(parts, sep) == "" <==> parts == []
  {
  }

  /** For a non-negative number of seconds the components are the days,
      the hours of the day and the minutes of the hour: the seconds are
      exactly rebuilt from them, and only the leftover seconds are lost. */
  lemma UptimeDecomposes(seconds: int)
    requires seconds >= 0
    ensures var u := UptimeOf(seconds);
      0 <= u.hours < 24 && 0 <= u.minutes < 60
      && seconds == u.days * 86400 + u.hours * 3600 + u.minutes * 60 + seconds % 60
  {
    var d := seconds / 86400;
    var r := seconds % 86400;
    assert seconds == d * 86400 + r;
    var h := r / 3600;
    var r2 := r % 3600;
    assert r == h * 3600 + r2;
    assert seconds % 3600 == r2 by {
      assert seconds == (d * 24 + h) * 3600 + r2;
    }
    var m := r2 / 60;
    assert r2 == m * 60 + r2 % 60;
    assert seconds % 60 == r2 % 60 by {
      assert seconds == ((d * 24 + h) * 60 + m) * 60 + r2 % 60;
    }
  }

  /** Less than a minute, and only then, reads "< 1m". */
  lemma UnderAMinute(seconds: int)
    ensures FormatUptime(seconds) == "< 1m" <==> seconds < 60
  {
    var u := UptimeOf(seconds);
    var parts := UptimeParts(u);
    forall i | 0 <= i < |parts| ensures parts[i] != "" {
    }
    JoinOfNonEmpty(parts, " ");
    if seconds >= 60 {
      UptimeDecomposes(seconds);
      assert u.days > 0 || u.hours > 0 || u.minutes > 0;
      assert parts != [];
      assert Join(parts, " ") != "< 1m" by {
        DigitsOnlyParts(u);
      }
    } else if seconds >= 0 {
      assert seconds / 86400 == 0 && seconds % 86400 / 3600 == 0 && seconds % 3600 / 60 == 0;
    } else {
      assert JsRem(seconds, 86400) <= 0 && JsRem(seconds, 3600) <= 0;
    }
  }

  /** A joined text of parts never starts with '<'. */
  lemma DigitsOnlyParts(u: Uptime)
    ensures var p := UptimeParts(u); p != [] ==> |Join(p, " ")| > 0 && Join(p, " ")[0] != '<'
  {
    var p := UptimeParts(u);
    if p != [] {
      assert p[0][0] != '<' by {
        if u.days > 0 { assert p[0] == IntToString(u.days) + "d"; }
        else if u.hours > 0 { assert p[0] == IntToString(u.hours) + "h"; }
        else { assert p[0] == IntToString(u.minutes) + "m"; }
      }
      if |p| > 1 {
        assert Join(p, " ") == p[0] + " " + Join(p[1..], " ");
      }
    }
  }

  /** One day, one hour, one minute and one second. */
  lemma UptimeExample()
    ensures FormatUptime(90061) == "1d 1h 1m"
    ensures FormatUptime(3600) == "1h"
  {
    assert DigitChar(1) == '1';
    assert IntToString(1) == "1";
    assert IntToString(1) + "d" == "1d" && IntToString(1) + "h" == "1h" && IntToString(1) + "m" == "1m";
    assert UptimeOf(90061) == Uptime(1, 1, 1);
    assert UptimeParts(Uptime(1, 1, 1)) == ["1d", "1h", "1m"];
    assert UptimeOf(3600) == Uptime(0, 1, 0);
    assert UptimeParts(Uptime(0, 1, 0)) == ["1h"];
  }

  // ---------------------------------------------------------------------
  // Chart series
  // ---------------------------------------------------------------------

  datatype TimeSeries = TimeSeries(
    timestamps: seq<int>,
    hitRate: seq<real>,
    latency: seq<real>,
    memory: seq<real>,
    commandsPerSec: seq<JsNumber>)

  /** `parseFloat(value || 0)` for a derived field. */
  function OrZero(v: Option<real>): real
  {
    if v.Some? then v.value else 0.0
  }

  function OrZeroNumber(v: Option<JsNumber>): JsNumber
  {
    if v.Some? then v.value else Finite(0.0)
  }

  /** Index `i` of every series comes from snapshot `i`. */
  ghost predicate Projects(ts: TimeSeries, history: seq<Snapshot>, n: nat)
    requires n <= |history|
  {
    |ts.timestamps| == n && |ts.hitRate| == n && |ts.latency| == n && |ts.memory| == n && |ts.commandsPerSec| == n
    && forall i :: 0 <= i < n ==>
      ts.timestamps[i] == history[i].timestamp
      && ts.hitRate[i] == history[i].application.hitRate
      && ts.latency[i] == OrZero(history[i].derived.avgCommandLatency)
      && ts.memory[i] == OrZero(history[i].derived.memoryUsagePercent)
      && ts.commandsPerSec[i] == OrZeroNumber(history[i].derived.commandsPerSecond)
  }

  /** The projection loop of the history route. */
  method ProjectHistory(history: seq<Snapshot>) returns (ts: TimeSeries)
    ensures Projects(ts, history, |history|)
  {
    ts := TimeSeries([], [], [], [], []);
    for i := 0 to |history|
      invariant Projects(ts, history, i)
    {
      var m := history[i];
      ts := TimeSeries(
        ts.timestamps + [m.timestamp],
        ts.hitRate + [m.application.hitRate],
        ts.latency + [OrZero(m.derived.avgCommandLatency)],
        ts.memory + [OrZero(m.derived.memoryUsagePercent)],
        ts.commandsPerSec + [OrZeroNumber(m.derived.commandsPerSecond)]);
    }
  }
}

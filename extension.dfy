/**
 * The browser extension's background worker: it times how long the active
 * tab stays on an http(s) page, buffers one log entry per visit longer than
 * five seconds, and posts the buffer to the backend, keeping it until a
 * post succeeds.
 */
module Extension {
  import opened Base

  // ---------------------------------------------------------------------
  // Host names
  // ---------------------------------------------------------------------

  /** The longest prefix of `s` holding none of the `stop` characters. */
  function TakeUntil(s: string, stop: set<char>): (r: string)
    ensures |r| <= |s| && r == s[..|r|]
    ensures forall i :: 0 <= i < |r| ==> r[i] !in stop
    ensures |r| < |s| ==> s[|r|] in stop
  {
    if s == [] || s[0] in stop then [] else [s[0]] + TakeUntil(s[1..], stop)
  }

  /** What follows the last `c` in `s`, or all of `s` when there is none. */
  function AfterLast(s: string, c: char): (r: string)
    ensures |r| <= |s| && r == s[|s| - |r|..]
    ensures c !in r
    ensures |r| < |s| ==> s[|s| - |r| - 1] == c
  {
    if s == [] || s[|s| - 1] == c then [] else AfterLast(s[..|s| - 1], c) + [s[|s| - 1]]
  }

  /** What follows the first "://", or nothing when there is none. */
  function AfterScheme(url: string): (r: string)
    ensures |r| <= |url| && r == url[|url| - |r|..]
  {
    if |url| < 3 then []
    else if url[..3] == "://" then url[3..]
    else AfterScheme(url[1..])
  }

  const AuthorityEnd: set<char> := {'/', '?', '#', '\\'}

  /** `TakeUntil` stops at the first stop character. */
  lemma {:induction false} TakeUntilStops(s: string, stop: set<char>, n: nat)
    requires n <= |s| && (forall i :: 0 <= i < n ==> s[i] !in stop)
    requires n == |s| || s[n] in stop
    ensures TakeUntil(s, stop) == s[..n]
  {
    if n > 0 {
      TakeUntilStops(s[1..], stop, n - 1);
      assert s[..n] == [s[0]] + s[1..][..n - 1];
    }
  }

  /** `new URL(url).hostname` for a hierarchical URL: the authority after
      the scheme, without user information and port, in lower case. */
  function Hostname(url: string): (r: string)
    ensures r == Lower(r)
    ensures forall i :: 0 <= i < |r| ==> r[i] !in AuthorityEnd && r[i] != '@' && r[i] != ':'
  {
    var authority := TakeUntil(AfterScheme(url), AuthorityEnd);
    var host := TakeUntil(AfterLast(authority, '@'), {':'});
    LowerIdempotent(host);
    Lower(host)
  }

  /** A host name free of the delimiters needs no parsing. */
  predicate PlainHost(h: string)
  {
    forall i :: 0 <= i < |h| ==> h[i] !in AuthorityEnd && h[i] != '@' && h[i] != ':'
  }

  lemma {:induction false} AfterSchemeOf(scheme: string, rest: string)
    requires ':' !in scheme
    ensures AfterScheme(scheme + "://" + rest) == rest
  {
    var url := scheme + "://" + rest;
    if scheme == [] {
      assert url[..3] == "://";
      assert url[3..] == rest;
    } else {
      assert url[..3] != "://" by { assert url[0] == scheme[0]; }
      assert url[1..] == scheme[1..] + "://" + rest;
      AfterSchemeOf(scheme[1..], rest);
    }
  }

  /** The host name of "scheme://host/path" is the host, lower-cased. */
  lemma HostnameOfPlainUrl(scheme: string, host: string, path: string)
    requires ':' !in scheme && PlainHost(host)
    requires path == [] || path[0] in AuthorityEnd
    ensures Hostname(scheme + "://" + host + path) == Lower(host)
  {
    AfterSchemeOf(scheme, host + path);
    assert scheme + "://" + host + path == scheme + "://" + (host + path);
    TakeUntilStops(host + path, AuthorityEnd, |host|);
    assert (host + path)[..|host|] == host;
    assert AfterLast(host, '@') == host by {
      var a := AfterLast(host, '@');
    }
    TakeUntilStops(host, {':'}, |host|);
  }

  // ---------------------------------------------------------------------
  // Timing
  // ---------------------------------------------------------------------

  /** `Math.round((now - startTime) / 1000)`: milliseconds to whole seconds,
      halves rounded up. */
  function ElapsedSeconds(start: int, now: int): (r: int)
    ensures r * 1000 - 500 <= now - start < r * 1000 + 500
    ensures r > 5 <==> now - start >= 5500
  {
    (now - start + 500) / 1000
  }

  /** The shortest visits that are kept and dropped. */
  lemma ElapsedSecondsExamples()
    ensures ElapsedSeconds(0, 5499) == 5 && ElapsedSeconds(0, 5500) == 6
    ensures ElapsedSeconds(1000, 0) == -1
  {
  }

  // ---------------------------------------------------------------------
  // Tracked tabs
  // ---------------------------------------------------------------------

  /** `activeTabs`: the start time of each open session, by tab id. */
  type Sessions = map<nat, int>

  /** Tab ids are integer-like keys, which `Object.keys` lists in ascending
      order whatever the insertion order: the first key is the smallest. */
  ghost predicate IsFirstKey(t: Sessions, k: nat)
  {
    k in t && forall j :: j in t ==> k <= j
  }

  /** The smallest element of a non-empty set. */
  ghost function Smallest(s: set<nat>): (k: nat)
    requires s != {}
    ensures k in s && forall j :: j in s ==> k <= j
    decreases |s|
  {
    var x :| x in s;
    if s == {x} then x
    else
      var m := Smallest(s - {x});
      var low := if x < m then x else m;
      assert forall j :: j in s ==> low <= j by {
        forall j | j in s ensures low <= j {
          if j != x { assert j in s - {x}; }
        }
      }
      low
  }

  /** `Object.keys(activeTabs)[0]` as a number. */
  ghost function FirstKey(t: Sessions): (k: nat)
    requires t != map[]
    ensures IsFirstKey(t, k)
  {
    Smallest(t.Keys)
  }

  /** There is only one first key. */
  lemma FirstKeyIsUnique(t: Sessions, a: nat, b: nat)
    requires IsFirstKey(t, a) && IsFirstKey(t, b)
    ensures a == b
  {
  }

  /** `const [previousTabId] = Object.keys(activeTabs)`: the smallest
      tracked tab id, or none when no tab is tracked. */
  method FirstTrackedTab(t: Sessions) returns (first: Option<nat>)
    ensures first.None? <==> t == map[]
    ensures first.Some? ==> IsFirstKey(t, first.value)
  {
    if t == map[] {
      return None;
    }
    var k :| k in t;
    var rest := t.Keys - {k};
    while rest != {}
      invariant rest <= t.Keys && k in t
      invariant forall j :: j in t && j !in rest ==> k <= j
      decreases |rest|
    {
      var x :| x in rest;
      if x < k {
        k := x;
      }
      rest := rest - {x};
    }
    return Some(k);
  }

  // ---------------------------------------------------------------------
  // Log entries
  // ---------------------------------------------------------------------

  /** One buffered visit: `aluno_id`, `url` (the host name),
      `durationSeconds` and `timestamp` (milliseconds since the epoch). */
  datatype Entry = Entry(alunoId: string, url: string, durationSeconds: int, timestamp: int)

  /** The entries `recordTime(tabId, url)` pushes at time `now`: one when the
      tab has a session that lasted more than five rounded seconds, none
      otherwise. */
  function Recorded(t: Sessions, tabId: nat, url: string, now: int, user: string): (r: seq<Entry>)
    ensures |r| <= 1
    ensures r != [] <==> tabId in t && now - t[tabId] >= 5500
    ensures r != [] ==>
      (r[0].alunoId == user && r[0].url == Hostname(url) && r[0].timestamp == now
       && r[0].durationSeconds == ElapsedSeconds(t[tabId], now) && r[0].durationSeconds > 5)
  {
    if tabId !in t then []
    else
      var seconds := ElapsedSeconds(t[tabId], now);
      if seconds > 5 then [Entry(user, Hostname(url), seconds, now)] else []
  }

  /** What the native host answers to the user-name request. */
  datatype NativeReply =
    | Success(username: string)  // `status === 'success'`
    | Failure                    // any other answer, or none
    | Unreachable                // the message could not be delivered

  /** The outcome of the POST to the backend. */
  datatype SendOutcome = Ok | NotOk | NetworkError

  /** A URL that is present and starts with `http`, as `url?.startsWith('http')` asks. */
  predicate IsWebUrl(url: Option<string>)
  {
    url.Some? && StartsWith(url.value, "http")
  }

  // ---------------------------------------------------------------------
  // The worker's state
  // ---------------------------------------------------------------------

  class TabTracker {
    var activeTabs: Sessions
    var dataBuffer: seq<Entry>
    var osUsername: string

    /** Every buffered visit is longer than five seconds. */
    ghost predicate Valid()
      reads this
    {
      forall i :: 0 <= i < |dataBuffer| ==> dataBuffer[i].durationSeconds > 5
    }

    constructor ()
      ensures Valid()
      ensures activeTabs == map[] && dataBuffer == [] && osUsername == "carregando..."
    {
      activeTabs := map[];
      dataBuffer := [];
      osUsername := "carregando...";
    }

    /** `getOSUsername`: the answer of the native host, or an error marker. */
    method GetOSUsername(reply: NativeReply)
      requires Valid()
      modifies this
      ensures Valid()
      ensures activeTabs == old(activeTabs) && dataBuffer == old(dataBuffer)
      ensures reply.Success? ==> osUsername == reply.username
      ensures reply.Failure? ==> osUsername == "erro_script_host"
      ensures reply.Unreachable? ==> osUsername == "erro_host_nao_encontrado"
    {
      match reply
      case Success(name) => osUsername := name;
      case Failure => osUsername := "erro_script_host";
      case Unreachable => osUsername := "erro_host_nao_encontrado";
    }

    /** `sendDataToServer`: nothing happens on an empty buffer; otherwise the
        whole buffer is posted and dropped only when the post succeeded.
        `sent` is the body of the post, if one was made. */
    method SendDataToServer(outcome: SendOutcome) returns (sent: Option<seq<Entry>>)
      requires Valid()
      modifies this
      ensures Valid()
      ensures activeTabs == old(activeTabs) && osUsername == old(osUsername)
      ensures old(dataBuffer) == [] ==> sent.None? && dataBuffer == []
      ensures old(dataBuffer) != [] ==> sent == Some(old(dataBuffer))
      ensures dataBuffer == if outcome.Ok? then [] else old(dataBuffer)
    {
      if dataBuffer == [] {
        return None;
      }
      sent := Some(dataBuffer);
      if outcome.Ok? {
        dataBuffer := [];
      }
    }

    /** `recordTime(tabId, url)` at time `now`: it only reads the session
        and appends at most one entry. */
    method RecordTime(tabId: nat, url: string, now: int)
      requires Valid()
      modifies this
      ensures Valid()
      ensures activeTabs == old(activeTabs) && osUsername == old(osUsername)
      ensures dataBuffer == old(dataBuffer) + Recorded(old(activeTabs), tabId, url, now, osUsername)
    {
      if tabId !in activeTabs {
        return;
      }
      var seconds := ElapsedSeconds(activeTabs[tabId], now);
      if seconds > 5 {
        dataBuffer := dataBuffer + [Entry(osUsername, Hostname(url), seconds, now)];
      }
    }

    /** The `onActivated` listener at time `now`: the first tracked tab,
        whose current URL is `previousUrl` (`None` when the tab is gone or
        has no URL), is recorded when it shows a web page and loses its
        session in any case; the newly active tab gets a session only when
        its URL starts with `http`. */
    method OnActivated(now: int, previousUrl: Option<string>, currentTabId: nat, currentUrl: Option<string>)
      requires Valid()
      modifies this
      ensures Valid()
      ensures osUsername == old(osUsername)
      ensures old(activeTabs) == map[] ==> dataBuffer == old(dataBuffer)
      ensures old(activeTabs) != map[] ==>
        dataBuffer == old(dataBuffer)
          + (if IsWebUrl(previousUrl)
             then Recorded(old(activeTabs), FirstKey(old(activeTabs)), previousUrl.value, now, osUsername)
             else [])
      ensures var remaining := if old(activeTabs) == map[] then old(activeTabs)
                               else old(activeTabs) - {FirstKey(old(activeTabs))};
        activeTabs == if IsWebUrl(currentUrl) then remaining[currentTabId := now] else remaining
    {
      var previousTabId := FirstTrackedTab(activeTabs);
      if previousTabId.Some? {
        FirstKeyIsUnique(activeTabs, previousTabId.value, FirstKey(activeTabs));
        if IsWebUrl(previousUrl) {
          RecordTime(previousTabId.value, previousUrl.value, now);
        }
        activeTabs := activeTabs - {previousTabId.value};
      }
      if IsWebUrl(currentUrl) {
        activeTabs := activeTabs[currentTabId := now];
      }
    }

    /** The `onUpdated` listener at time `now`: a navigation of an active
        tab to a web page records the time spent so far and restarts that
        tab's session; anything else changes nothing. */
    method OnUpdated(tabId: nat, active: bool, changedUrl: Option<string>, now: int)
      requires Valid()
      modifies this
      ensures Valid()
      ensures osUsername == old(osUsername)
      ensures !(active && IsWebUrl(changedUrl)) ==> activeTabs == old(activeTabs) && dataBuffer == old(dataBuffer)
      ensures active && IsWebUrl(changedUrl) ==>
        dataBuffer == old(dataBuffer) + Recorded(old(activeTabs), tabId, changedUrl.value, now, osUsername)
        && activeTabs == old(activeTabs)[tabId := now]
    {
      if active && IsWebUrl(changedUrl) {
        RecordTime(tabId, changedUrl.value, now);
        activeTabs := activeTabs[tabId := now];
      }
    }
  }
}
